# earth_nav.dat v1150 row parser, modelled in Dafny

`parse_v1150.py` reads X-Plane's `earth_nav.dat` (version 1150) navigation-aid
file. It skips three header lines. Then, line by line, it strips the line. A
row whose text starts with "99" ends the data (this is a text prefix test, so
"990 …" ends it too); any other row has its row code cut off at the first
space and goes through a fixed row-code table to a decoder for that row's
field layout. The
decoders are NDB (2), VOR (3), localizer (4, 5), glideslope (6), marker
(7, 8, 9), DME (12, 13) and a passthrough for FPAP, GLS and LTP/FTP rows
(14, 15, 16). Each decoder peels whitespace-led tokens off the payload one at
a time with `rest.lstrip().split(" ", 1)` and converts some of them with
`int` or `float`. NDB and VOR class codes go through an enum lookup. Whatever
remains after the last token, stripped, is the name. The program prints each
decoded row with its running record number and stops at the end-of-data row.

The model has one module per layer:

- `Outcomes` (outcomes.dfy): `Option`, and `Result` with the errors the
  parser raises. `MalformedRow` is a split with no space left. `BadNumber`
  is a failed `int`/`float`. `UnknownRowCode` is a code with no table entry.
- `Text` (text.dfy): Python's `isspace`, `lstrip`, `strip` and `startswith`.
- `Numbers` (numbers.dfy): `int()` and `float()` as recognisers of the
  literals they accept. It also has `str()` on integers for the round trip.
- `Tokenizer` (tokenizer.dfy): the field step `rest.lstrip().split(" ", 1)`,
  and `Fields`, which is that step taken k times.
- `Classes` (classes.dfy): the `NDB` and `VOR` enums and `ndb_code`/`vor_code`.
- `Records` (records.dfy): the tuples the decoders return, one constructor
  per layout, with `AsTuple` giving the tuple back slot by slot.
- `Decoders` (decoders.dfy): `parse_ndb` … `parse_dme` and `echo`. Each
  decoder has a layout lemma. The lemma says when the decoder succeeds and
  what it returns, in terms of the payload's tokens.
- `Dispatch` (dispatch.dfy): `has_data`, the row-code table and `parse`.
- `Driver` (driver.dfy): `main` as a loop over the lines, proved against a
  recursive definition of the run.

## Model

| member | source | states |
|---|---|---|
| Text.LeadingSpaces | parse_v1150.py:79 | the number of leading whitespace characters `lstrip` drops: all of them are whitespace and the next one is not |
| Text.Strip | parse_v1150.py:94 | the result is a contiguous slice of the input; everything cut off on either side is whitespace; the result neither starts nor ends with whitespace |
| Numbers.ParseInt | parse_v1150.py:84 | `int(s)` succeeds exactly on an optional sign followed by one or more ASCII digits, and otherwise fails with `BadNumber(s)` |
| Numbers.NatToString | parse_v1150.py:11 | `str(n)` of a natural number is non-empty and all ASCII digits |
| Numbers.DigitsValueOfNatToString | parse_v1150.py:11 | the digits `str(n)` writes read back as n |
| Numbers.IntRoundTrip | parse_v1150.py:405 | `int(str(n)) == n` for every integer, and the spelling holds no space, so a row code survives the row split |
| Numbers.ParseFloat | parse_v1150.py:80 | `float(s)` succeeds exactly on the texts `IsFloatLiteral` accepts, keeps the text, and otherwise fails with `BadNumber(s)`; what that set is, is stated by the next three rows |
| Numbers.FloatFormIsLiteral | parse_v1150.py:80 | every well-formed spelling is accepted: a sign ("", "+" or "-"), then ASCII digits with an optional point, at least one digit in all, and an optional exponent, or inf/infinity/nan in any letter case |
| Numbers.LiteralHasFloatForm | parse_v1150.py:80 | every accepted text is such a well-formed spelling, part by part |
| Numbers.FloatLiteralGrammar | parse_v1150.py:80 | both directions at once: a text is accepted exactly when some well-formed spelling spells it |
| Numbers.IntLiteralIsFloatLiteral | parse_v1150.py:80 | every text `int` accepts, `float` accepts too |
| Tokenizer.SplitOnceSpec | parse_v1150.py:404 | `split(" ", 1)` unpacked into two fails exactly when there is no space; otherwise the first part holds no space and first part, one space and rest give back the input |
| Tokenizer.SplitOnceJoin | parse_v1150.py:404 | splitting a space-free field joined to any rest by one space gives back that field and that rest |
| Tokenizer.NextFieldSpec | parse_v1150.py:79 | one field step succeeds exactly when the lstripped text still holds a space; the field is then non-empty, space-free and does not start with whitespace, and field, space and rest give back the lstripped text |
| Tokenizer.Fields | parse_v1150.py:79-93 | k successful field steps give exactly k fields |
| Tokenizer.FieldsAreTokens | parse_v1150.py:79-93 | every field of a successful k-step run is a token |
| Tokenizer.FieldsPrefix | parse_v1150.py:79-93 | if k+1 steps succeed, then k steps succeed and give the first k of those fields |
| Tokenizer.FieldsChainAt | parse_v1150.py:79-93 | field k of an n-step run is what one step makes of the rest left after k steps |
| Tokenizer.FieldsExtend | parse_v1150.py:79-93 | one more successful step after k steps gives a (k+1)-step run that adds that field and leaves that rest |
| Classes.Lookup | parse_v1150.py:39-44 | scanning enum members in declaration order gives the first member with the wanted value, or `None` exactly when no member has it |
| Classes.NdbCode | parse_v1150.py:39-44 | `ndb_code(n)` is a member whose value is n, or `None` exactly when no NDB member has value n |
| Classes.VorCode | parse_v1150.py:47-52 | `vor_code(n)` is a member whose value is n, or `None` exactly when no VOR member has value n |
| Classes.NdbTable | parse_v1150.py:14-44 | the full NDB table: 15 LOCATOR, 25 LOW_POWER, 50 NORMAL, 75 HIGH_POWER, `None` for any other value; the same table for the stored name, `NdbClassName` (`.name if … else None`, lines 88-89) |
| Classes.VorTable | parse_v1150.py:22-52 | the full VOR table: 25 TERMINAL, 40 LOW_ALTITUDE, 130 HIGH_ALTITUDE, 125 UNSPECIFIED, `None` for any other value; the same table for the stored name, `VorClassName` (lines 132-133) |
| Records.AsTuple | parse_v1150.py:96 | tuple arity per layout: 12 for NDB/VOR/DME, 13 for LOC/GLI/MRK, 3 for the passthrough. Slot 0 is the kind and slot 1 the row code. NDB slot 7 and MRK slots 5, 6 and 8 are `None`. The last slot is the name, or the payload for the passthrough |
| Decoders.ParseNdb | parse_v1150.py:55-96 | a decoded NDB row is an NDB record with row code 2 |
| Decoders.NdbLayout | parse_v1150.py:78-96 | `parse_ndb` succeeds exactly when 9 field steps succeed, tokens 1-2 are float literals and tokens 3-5 are int literals. The record then holds those values, the class looked up from token 5, tokens 7-9 verbatim and the stripped rest as the name. Token 6 is not used |
| Decoders.ParseVor | parse_v1150.py:99-141 | a decoded VOR row is a VOR record with row code 3 |
| Decoders.VorLayout | parse_v1150.py:122-141 | `parse_vor` succeeds exactly when 9 field steps succeed, tokens 1-2 and 6 are float literals and tokens 3-5 are int literals. The record then holds those values, the class looked up from token 5, tokens 7-9 (the ENRT token kept as written) and the stripped name |
| Decoders.ParseLoc | parse_v1150.py:144-194 | a decoded localizer row is a LOC record carrying the row code it was called with |
| Decoders.LocLayout | parse_v1150.py:175-194 | `parse_loc` succeeds exactly when 10 field steps succeed, tokens 1-2 and 6 are float literals and tokens 3-5 are int literals. The record then holds those values, tokens 7-10 verbatim and the stripped name |
| Decoders.ParseGli | parse_v1150.py:197-247 | a decoded glideslope row is a GLI record with row code 6 |
| Decoders.GliLayout | parse_v1150.py:228-247 | `parse_gli` has the localizer's layout: 10 steps, the same conversions, tokens 7-10 verbatim, the stripped name |
| Decoders.ParseMrk | parse_v1150.py:250-296 | a decoded marker row is an MRK record carrying the row code it was called with |
| Decoders.MrkLayout | parse_v1150.py:279-296 | `parse_mrk` succeeds exactly when 10 field steps succeed, tokens 1-2 and 6 are float literals and token 3 is an int literal. Tokens 4, 5 and 7 are dropped without conversion. The record holds tokens 8-10 and the stripped name |
| Decoders.ParseDme | parse_v1150.py:299-355 | a decoded DME row is a DME record carrying the row code it was called with |
| Decoders.DmeLayout | parse_v1150.py:337-355 | `parse_dme` succeeds exactly when 9 field steps succeed, tokens 1-2 and 6 are float literals and tokens 3-5 are int literals. Tokens 7-9 are kept verbatim. No runway token is read, so the name is everything after token 9, stripped |
| Decoders.Echo | parse_v1150.py:363-366 | the passthrough always succeeds and returns the payload unchanged with its row code. Its kind is FPAP for 14, GLS for 15 and LTP/FTP otherwise |
| Dispatch.Apply | parse_v1150.py:389-405 | calling a passthrough entry returns the payload unchanged under the entry's row code |
| Dispatch.EndRowCodeIsStr99 | parse_v1150.py:11 | the end-of-data text is `str(99)`, that is "99" |
| Dispatch.Parse | parse_v1150.py:369-405 | `parse(row)` returns `None` exactly for rows that start with "99": `HasData` (`has_data`, lines 358-360) is tested on the text before any split |
| Dispatch.TableMatchesFormat | parse_v1150.py:389-403 | the table has an entry exactly for the codes 2-9 and 12-16. Every record an entry returns carries that entry's code and the kind label the format gives that code |
| Dispatch.ParsedRow | parse_v1150.py:404-405 | a decoded row has a space; its row code is the integer before the first space and has a table entry; the record carries that code and its kind, and is what the entry makes of the text after the space |
| Dispatch.RowRoundTrip | parse_v1150.py:404-405 | a row written as `str(code) + " " + payload` goes to that code's entry with exactly that payload. A code with no entry fails with `UnknownRowCode(code)` |
| Dispatch.KnownCodesHaveData | parse_v1150.py:358-360 | a row headed by any code in the table never counts as the end-of-data row |
| Dispatch.NoSpaceIsMalformed | parse_v1150.py:404 | a non-sentinel row with no space fails as malformed |
| Dispatch.BadRowCode | parse_v1150.py:405 | a non-sentinel row whose text before the first space is not an int literal fails with `BadNumber` of that text |
| Driver.DataRows | parse_v1150.py:411 | `lines[3:]`: everything after the three header lines, in order, and nothing when there are at most three lines |
| Driver.Parsed | parse_v1150.py:413-414 | entry k is `parse` of data row k after stripping |
| Driver.Run | parse_v1150.py:408-417 | the loop prints, counts and stops exactly as the recursive definition `Drive` of the run does |
| Driver.DriveNumbersRows | parse_v1150.py:412-417 | printed record k has number k+1 and is what data row k parses to, so records come out in file order with no gaps |
| Driver.DriveStops | parse_v1150.py:411-416 | the run stops at the first row after the printed ones. That row is the end-of-data row or the row that raised, unless the lines ran out. `record_no` counts the stopping row too |
| Driver.DriveIgnoresTail | parse_v1150.py:415-416 | rows after the stopping row never affect the run |
| Driver.SentinelEndsRun | parse_v1150.py:358-360 | a run that ends at the sentinel stops at a row starting with "99", and no printed row starts with "99" |
| Driver.HeaderIgnored | parse_v1150.py:10 | the contents of the three header lines never affect the run |

## Left out

- File I/O, `print` and the module-level `main()` call are left out. The lines are a parameter of `Driver.Run`, and the printed `(record_no, record)` pairs are its output.
- A raised exception ends the Python program. In the model it ends the run with `Failed(error)`, and the error names which of the three kinds it was. Python's exception messages are not modelled.
- The `IN`/`OUT` file names and the `geojson` import are left out: nothing in the core uses them.
- `float()` values are kept as the literal's text (`FloatLiteral`), because floating-point rounding is outside the model. What `float` accepts is modelled, but not the number it produces.
- Numbers.ParseInt: Python's `int()` also accepts surrounding whitespace, `_` digit separators and non-ASCII Unicode digits. The model accepts only an optional sign and ASCII digits. Tokens from the field step cannot start with whitespace, but they could end with a tab.
- Numbers.ParseFloat: the same whitespace, `_` and Unicode-digit corner cases of `float()` are not accepted.
- The `IntEnum` machinery is left out: the enum members are a datatype with a value and a name each, and comparing a member with an integer is comparing its value.
- Passthrough rows 16: the kind label is "LTP/FTP", as `echo` writes it. Format descriptions that spell it `LTP_FTP` do not match the code, and the model follows the code.
- The comments about splitting bearings into parts (LOC front course, GLI glideslope angle) describe no code. The model keeps the bearing field as one float literal, as the decoders do.

