/** Row dispatch: `parse(row)` recognises the end-of-data row, cuts the row
    code off the front of the row and hands the payload to the decoder the
    row-code table binds to that code. */
module Dispatch {
  import opened Outcomes
  import opened Text
  import opened Numbers
  import opened Tokenizer
  import opened Records
  import opened Decoders

  /** The text that ends the data. */
  const EndRowCode: string := "99"

  /** The end-of-data text is `str(99)`, the decimal spelling of 99. */
  lemma EndRowCodeIsStr99()
    ensures EndRowCode == IntToString(99)
  {
    assert NatToString(99) == NatToString(9) + [DigitChar(9)];
  }

  /** `has_data(row)`: the row is not the end-of-data row. */
  predicate HasData(row: string) {
    !StartsWith(row, EndRowCode)
  }

  /** An entry of the row-code table: a decoder, with the row code bound to
      it for the decoders that take one. */
  datatype Decoder =
    | NdbDecoder
    | VorDecoder
    | LocDecoder(code: int)
    | GliDecoder
    | MrkDecoder(code: int)
    | DmeDecoder(code: int)
    | EchoDecoder(code: int)

  /** The row-code table. Codes 0, 1, 10, 11 and everything above 16 have no
      entry. */
  const Table: map<int, Decoder> :=
    map[2 := NdbDecoder, 3 := VorDecoder,
        4 := LocDecoder(4), 5 := LocDecoder(5), 6 := GliDecoder,
        7 := MrkDecoder(7), 8 := MrkDecoder(8), 9 := MrkDecoder(9),
        12 := DmeDecoder(12), 13 := DmeDecoder(13),
        14 := EchoDecoder(14), 15 := EchoDecoder(15), 16 := EchoDecoder(16)]

  /** Calling a table entry on a payload. */
  function Apply(d: Decoder, payload: string): (r: Result<Record>)
    ensures d.EchoDecoder? ==> r == Ok(EchoRecord(d.code, payload))
  {
    match d
    case NdbDecoder => ParseNdb(payload)
    case VorDecoder => ParseVor(payload)
    case LocDecoder(c) => ParseLoc(payload, c)
    case GliDecoder => ParseGli(payload)
    case MrkDecoder(c) => ParseMrk(payload, c)
    case DmeDecoder(c) => ParseDme(payload, c)
    case EchoDecoder(c) => Echo(payload, c)
  }

  /** `parse(row)`: `Ok(None)` for the end-of-data row, `Ok(Some(record))`
      for a decoded row, and `Err` where the parser raises: no space after
      the row code, a row code that is not an integer, a row code with no
      table entry, or a payload its decoder rejects. The row is split as
      given, without dropping leading whitespace. */
  function Parse(row: string): (r: Result<Option<Record>>)
    ensures r == Ok(None) <==> !HasData(row)
  {
    if !HasData(row) then Ok(None)
    else
      var head :- SplitOnce(row);
      var code :- ParseInt(head.field);
      if code !in Table then Err(UnknownRowCode(code))
      else
        var record :- Apply(Table[code], head.rest);
        Ok(Some(record))
  }

  /** The kind label each row code stands for, listed code by code as the
      file format defines them; `None` for codes the format does not use. */
  function ExpectedKind(code: int): Option<string> {
    if code == 2 then Some("NDB")
    else if code == 3 then Some("VOR")
    else if code == 4 || code == 5 then Some("LOC")
    else if code == 6 then Some("GLI")
    else if 7 <= code <= 9 then Some("MRK")
    else if code == 12 || code == 13 then Some("DME")
    else if code == 14 then Some("FPAP")
    else if code == 15 then Some("GLS")
    else if code == 16 then Some("LTP/FTP")
    else None
  }

  /** The table covers exactly the codes the format uses, and each entry
      yields records that carry its own code and that code's kind label. */
  lemma TableMatchesFormat(code: int, payload: string)
    ensures code in Table <==> ExpectedKind(code).Some?
    ensures code in Table && Apply(Table[code], payload).Ok? ==>
              RowCode(Apply(Table[code], payload).value) == code
              && Kind(Apply(Table[code], payload).value) == ExpectedKind(code).value
  {
    if code in Table {
      var d := Table[code];
      if code == 2 { assert d == NdbDecoder; }
      else if code == 3 { assert d == VorDecoder; }
      else if code == 4 || code == 5 { assert d == LocDecoder(code); }
      else if code == 6 { assert d == GliDecoder; }
      else if 7 <= code <= 9 { assert d == MrkDecoder(code); }
      else if code == 12 || code == 13 { assert d == DmeDecoder(code); }
      else { assert d == EchoDecoder(code); }
    }
  }

  /** A decoded row: its row code is the integer before the first space, the
      table has an entry for it, the record carries that code and its kind
      label, and it is what that entry makes of the text after the space. */
  lemma ParsedRow(row: string)
    requires Parse(row).Ok? && Parse(row).value.Some?
    ensures HasData(row) && SplitOnce(row).Ok?
    ensures var rec := Parse(row).value.value;
            var head := SplitOnce(row).value;
            ParseInt(head.field) == Ok(RowCode(rec))
            && RowCode(rec) in Table
            && Kind(rec) == ExpectedKind(RowCode(rec)).value
            && Apply(Table[RowCode(rec)], head.rest) == Ok(rec)
  {
    var head := SplitOnce(row).value;
    var code := ParseInt(head.field).value;
    TableMatchesFormat(code, head.rest);
  }

  /** A row written as a row code, one space and a payload goes to the
      table entry of that code; a code with no entry is refused by number. */
  lemma RowRoundTrip(code: int, payload: string)
    requires HasData(IntToString(code) + " " + payload)
    ensures code in Table ==>
              Parse(IntToString(code) + " " + payload)
              == (match Apply(Table[code], payload)
                  case Ok(rec) => Ok(Some(rec))
                  case Err(e) => Err(e))
    ensures code !in Table ==>
              Parse(IntToString(code) + " " + payload) == Err(UnknownRowCode(code))
  {
    IntRoundTrip(code);
    SplitOnceJoin(IntToString(code), payload);
  }

  /** The codes the table knows never spell the end-of-data code, so the
      condition of `RowRoundTrip` holds for every one of them. */
  lemma KnownCodesHaveData(code: int, payload: string)
    requires code in Table
    ensures HasData(IntToString(code) + " " + payload)
  {
    var s := IntToString(code);
    var row := s + " " + payload;
    if code < 10 {
      assert s == [DigitChar(code)];
      assert row[1] == ' ';
    } else {
      assert s == NatToString(code / 10) + [DigitChar(code % 10)];
      assert NatToString(code / 10) == [DigitChar(1)];
      assert row[0] == '1';
    }
  }

  /** A row that is not the end-of-data row and holds no space is refused
      as malformed, whatever its text. */
  lemma NoSpaceIsMalformed(row: string)
    requires HasData(row) && ' ' !in row
    ensures Parse(row) == Err(MalformedRow)
  {
    SplitOnceSpec(row);
  }

  /** A row whose row code is not an integer is refused with that text. */
  lemma BadRowCode(row: string)
    requires HasData(row) && SplitOnce(row).Ok?
    requires !IsIntLiteral(SplitOnce(row).value.field)
    ensures Parse(row) == Err(BadNumber(SplitOnce(row).value.field))
  {
  }
}
