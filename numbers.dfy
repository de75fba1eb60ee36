/** The two number conversions the decoders apply to tokens: Python's
    `int(token)` and `float(token)`. */
module Numbers {
  import opened Outcomes

  predicate IsDigit(c: char) {
    '0' <= c <= '9'
  }

  predicate AllDigits(s: string) {
    forall i :: 0 <= i < |s| ==> IsDigit(s[i])
  }

  /** 1 when `s` opens with a '+' or '-' sign, 0 otherwise. */
  function SignLength(s: string): (n: nat)
    ensures n <= |s|
  {
    if |s| > 0 && (s[0] == '+' || s[0] == '-') then 1 else 0
  }

  /** The tokens `int(token)` accepts here: an optional sign, then one or
      more ASCII digits (leading zeros allowed). */
  predicate IsIntLiteral(s: string) {
    var d := s[SignLength(s)..];
    d != [] && AllDigits(d)
  }

  /** Decimal value of a string of ASCII digits. */
  function DigitsValue(d: string): nat
    requires AllDigits(d)
  {
    if d == [] then 0 else 10 * DigitsValue(d[..|d| - 1]) + (d[|d| - 1] as int - '0' as int)
  }

  /** `int(token)`: the value of an integer literal, `BadNumber` otherwise. */
  function ParseInt(s: string): (r: Result<int>)
    ensures r.Ok? <==> IsIntLiteral(s)
    ensures r.Err? ==> r.error == BadNumber(s)
  {
    if !IsIntLiteral(s) then Err(BadNumber(s))
    else
      var m: int := DigitsValue(s[SignLength(s)..]);
      Ok(if s[0] == '-' then -m else m)
  }

  /** The value `int(token)` gives for an integer literal. */
  function IntValue(s: string): int
    requires IsIntLiteral(s)
  {
    ParseInt(s).value
  }

  function DigitChar(k: nat): (c: char)
    requires k < 10
    ensures IsDigit(c) && c as int - '0' as int == k
  {
    ('0' as int + k) as char
  }

  /** Decimal spelling of a natural number (Python's `str(n)`). */
  function NatToString(n: nat): (s: string)
    ensures s != [] && AllDigits(s)
    decreases n
  {
    if n < 10 then [DigitChar(n)] else NatToString(n / 10) + [DigitChar(n % 10)]
  }

  /** Decimal spelling of an integer, with '-' for negatives (Python's `str(n)`). */
  function IntToString(n: int): (s: string)
    ensures s != []
  {
    if n < 0 then "-" + NatToString(-n) else NatToString(n)
  }

  lemma {:induction false} DigitsValueOfNatToString(n: nat)
    ensures DigitsValue(NatToString(n)) == n
    decreases n
  {
    if n >= 10 {
      DigitsValueOfNatToString(n / 10);
      var s := NatToString(n);
      assert s[..|s| - 1] == NatToString(n / 10);
    }
  }

  /** `int(str(n)) == n`, and the spelling holds no space. */
  lemma IntRoundTrip(n: int)
    ensures ParseInt(IntToString(n)) == Ok(n)
    ensures ' ' !in IntToString(n)
  {
    var s := IntToString(n);
    if n < 0 {
      DigitsValueOfNatToString(-n);
      assert s[SignLength(s)..] == NatToString(-n);
    } else {
      DigitsValueOfNatToString(n);
      assert s[SignLength(s)..] == NatToString(n);
    }
    assert forall i :: 0 <= i < |s| ==> s[i] == '-' || IsDigit(s[i]);
  }

  /** Length of the run of ASCII digits that opens `s`. */
  function DigitRun(s: string): (n: nat)
    ensures n <= |s| && AllDigits(s[..n])
    ensures n < |s| ==> !IsDigit(s[n])
  {
    if s != [] && IsDigit(s[0]) then 1 + DigitRun(s[1..]) else 0
  }

  /** An exponent part: 'e' or 'E', an optional sign, one or more digits. */
  predicate IsExponent(e: string) {
    |e| >= 2 && (e[0] == 'e' || e[0] == 'E') && IsIntLiteral(e[1..])
  }

  /** An unsigned decimal number: digits with an optional fraction (at least
      one digit on either side of the '.'), then an optional exponent. */
  predicate IsDecimalNumber(m: string) {
    var a := DigitRun(m);
    var rest := m[a..];
    if rest != [] && rest[0] == '.' then
      var b := DigitRun(rest[1..]);
      var tail := rest[1 + b..];
      a + b > 0 && (tail == [] || IsExponent(tail))
    else
      a > 0 && (rest == [] || IsExponent(rest))
  }

  /** ASCII lower case of one character; every other character is kept. */
  function Lower(c: char): char {
    if 'A' <= c <= 'Z' then (c as int + 32) as char else c
  }

  /** ASCII lower case of a text. */
  function LowerAscii(s: string): string {
    if s == [] then [] else [Lower(s[0])] + LowerAscii(s[1..])
  }

  /** The tokens `float(token)` accepts here: an optional sign, then a
      decimal number or one of inf, infinity, nan in any letter case. */
  predicate IsFloatLiteral(s: string) {
    var m := s[SignLength(s)..];
    IsDecimalNumber(m) || LowerAscii(m) in {"inf", "infinity", "nan"}
  }

  /** A token `float()` accepted, kept as written: the model does not
      compute with coordinates, bearings or variations. */
  datatype FloatLiteral = FloatLiteral(text: string)

  /** `float(token)`: the token itself when it is a float literal,
      `BadNumber` otherwise. */
  function ParseFloat(s: string): (r: Result<FloatLiteral>)
    ensures r.Ok? <==> IsFloatLiteral(s)
    ensures r.Ok? ==> r.value.text == s
    ensures r.Err? ==> r.error == BadNumber(s)
  {
    if IsFloatLiteral(s) then Ok(FloatLiteral(s)) else Err(BadNumber(s))
  }

  /** Every token `int()` accepts, `float()` accepts too. */
  lemma IntLiteralIsFloatLiteral(s: string)
    requires IsIntLiteral(s)
    ensures IsFloatLiteral(s)
  {
    var m := s[SignLength(s)..];
    assert DigitRun(m) == |m|;
  }

  /** A float literal spelt out part by part, the way Python's grammar for
      `float()` input reads: a sign, then either digits with an optional
      point and fraction and an optional exponent, or a special word. */
  datatype FloatForm =
    | Decimal(sign: string, whole: string, point: bool, fraction: string, exponent: string)
    | Special(sign: string, word: string)

  predicate IsSignText(p: string) {
    p == "" || p == "+" || p == "-"
  }

  /** The parts are well formed: a sign text, then proper decimal parts or
      one of the special words in any letter case. */
  predicate WellFormedFloat(f: FloatForm) {
    IsSignText(f.sign)
    && match f
       case Decimal(_, a, point, b, e) => IsDecimalParts(a, point, b, e)
       case Special(_, w) =>
         LowerAscii(w) in {"inf", "infinity", "nan"}
  }

  /** Digits only in the whole and fractional parts, at least one digit in
      all, no fraction without a point, and an empty or proper exponent. */
  predicate IsDecimalParts(a: string, point: bool, b: string, e: string) {
    AllDigits(a) && AllDigits(b) && (e == [] || IsExponent(e))
    && (if point then |a| + |b| > 0 else a != [] && b == [])
  }

  /** The text the parts spell. */
  function Spell(f: FloatForm): string {
    match f
    case Decimal(sign, a, point, b, e) => sign + a + (if point then ['.'] else []) + b + e
    case Special(sign, w) => sign + w
  }

  /** A digit run followed by a non-digit (or nothing) is scanned whole. */
  lemma {:induction false} DigitRunOfDigits(a: string, rest: string)
    requires AllDigits(a)
    requires rest == [] || !IsDigit(rest[0])
    ensures DigitRun(a + rest) == |a|
  {
    if a != [] {
      assert (a + rest)[1..] == a[1..] + rest;
      DigitRunOfDigits(a[1..], rest);
    }
  }

  /** After a sign text, a body that does not open with a sign is what
      `IsFloatLiteral` examines. */
  lemma SignedBody(sign: string, m: string)
    requires IsSignText(sign)
    requires m != [] && m[0] != '+' && m[0] != '-'
    ensures SignLength(sign + m) == |sign| && (sign + m)[|sign|..] == m
  {
  }

  /** The sign `IsFloatLiteral` cuts off is a sign text. */
  lemma SignPrefix(s: string)
    ensures IsSignText(s[..SignLength(s)])
  {
  }

  /** Digits, a point, digits and an exponent make a decimal number. */
  lemma PointedIsDecimal(a: string, b: string, e: string)
    requires AllDigits(a) && AllDigits(b) && |a| + |b| > 0
    requires e == [] || IsExponent(e)
    ensures IsDecimalNumber(a + ['.'] + b + e)
  {
    var r := ['.'] + b + e;
    DigitRunOfDigits(a, r);
    DigitRunOfDigits(b, e);
    PointedScan(a, r, b, e);
  }

  lemma PointedScan(a: string, r: string, b: string, e: string)
    requires r == ['.'] + b + e
    ensures a + ['.'] + b + e == a + r
    ensures (a + r)[|a|..] == r && r[1..] == b + e && r[1 + |b|..] == e
  {
  }

  /** Digits and an exponent make a decimal number. */
  lemma PlainIsDecimal(a: string, e: string)
    requires AllDigits(a) && a != []
    requires e == [] || IsExponent(e)
    ensures IsDecimalNumber(a + e)
  {
    DigitRunOfDigits(a, e);
    assert (a + e)[|a|..] == e;
  }

  /** A well-formed spelling with a point is a float literal. */
  lemma PointedIsLiteral(sign: string, a: string, b: string, e: string)
    requires WellFormedFloat(Decimal(sign, a, true, b, e))
    ensures IsFloatLiteral(sign + a + ['.'] + b + e)
  {
    var m := a + ['.'] + b + e;
    PointedIsDecimal(a, b, e);
    assert m[0] == (if a == [] then '.' else a[0]);
    assert sign + a + ['.'] + b + e == sign + m;
    SignedBody(sign, m);
  }

  /** A well-formed spelling without a point is a float literal. */
  lemma PlainIsLiteral(sign: string, a: string, e: string)
    requires WellFormedFloat(Decimal(sign, a, false, [], e))
    ensures IsFloatLiteral(sign + a + e)
  {
    var m := a + e;
    PlainIsDecimal(a, e);
    assert m[0] == a[0];
    assert sign + a + e == sign + m;
    SignedBody(sign, m);
  }

  /** A special word after a sign is a float literal. */
  lemma SpecialIsLiteral(sign: string, w: string)
    requires WellFormedFloat(Special(sign, w))
    ensures IsFloatLiteral(sign + w)
  {
    var l := LowerAscii(w);
    assert w != [] && l[0] == Lower(w[0]);
    assert l[0] == 'i' || l[0] == 'n';
    SignedBody(sign, w);
  }

  /** Every well-formed spelling is a float literal. */
  lemma FloatFormIsLiteral(f: FloatForm)
    requires WellFormedFloat(f)
    ensures IsFloatLiteral(Spell(f))
  {
    match f
    case Decimal(sign, a, point, b, e) =>
      if point {
        PointedIsLiteral(sign, a, b, e);
      } else {
        PlainIsLiteral(sign, a, e);
        assert Spell(f) == sign + a + e;
      }
    case Special(sign, w) => SpecialIsLiteral(sign, w);
  }

  /** Cutting a text at a point followed by digits and the rest. */
  lemma PointGlue(m: string, n: nat, k: nat)
    requires n < |m| && m[n] == '.' && k <= |m| - n - 1
    ensures m == m[..n] + ['.'] + m[n + 1..][..k] + m[n + 1 + k..]
  {
    assert m[n..] == [m[n]] + m[n + 1..][..k] + m[n + 1 + k..];
    assert m == m[..n] + m[n..];
  }

  /** The parts a decimal number is made of. */
  lemma DecimalParts(m: string) returns (a: string, point: bool, b: string, e: string)
    requires IsDecimalNumber(m)
    ensures IsDecimalParts(a, point, b, e)
    ensures m == a + (if point then ['.'] else []) + b + e
  {
    var n := DigitRun(m);
    a := m[..n];
    var rest := m[n..];
    if rest != [] && rest[0] == '.' {
      var k := DigitRun(rest[1..]);
      assert rest[1..] == m[n + 1..];
      b := rest[1..][..k];
      e := rest[1 + k..];
      assert e == m[n + 1 + k..];
      point := true;
      PointGlue(m, n, k);
    } else {
      point, b, e := false, [], rest;
      assert m == a + rest;
    }
  }

  /** A decimal number after a sign text has a well-formed spelling. */
  lemma SignedDecimalForm(sign: string, m: string) returns (f: FloatForm)
    requires IsSignText(sign) && IsDecimalNumber(m)
    ensures WellFormedFloat(f) && Spell(f) == sign + m
  {
    var a, point, b, e := DecimalParts(m);
    Regroup(sign, a, if point then ['.'] else [], b, e);
    f := Decimal(sign, a, point, b, e);
  }

  lemma Regroup(p: string, a: string, x: string, b: string, e: string)
    ensures p + a + x + b + e == p + (a + x + b + e)
  {
  }

  /** Every float literal has a well-formed spelling. */
  lemma LiteralHasFloatForm(s: string) returns (f: FloatForm)
    requires IsFloatLiteral(s)
    ensures WellFormedFloat(f) && Spell(f) == s
  {
    var sign := s[..SignLength(s)];
    var m := s[SignLength(s)..];
    SignPrefix(s);
    assert s == sign + m;
    if IsDecimalNumber(m) {
      f := SignedDecimalForm(sign, m);
    } else {
      f := Special(sign, m);
    }
  }

  /** `float()`'s accepted set described by its grammar: a text is a float
      literal exactly when some well-formed spelling spells it. */
  lemma FloatLiteralGrammar(s: string)
    ensures IsFloatLiteral(s) <==> exists f :: WellFormedFloat(f) && Spell(f) == s
  {
    if IsFloatLiteral(s) {
      var f := LiteralHasFloatForm(s);
    }
    if exists f :: WellFormedFloat(f) && Spell(f) == s {
      var f :| WellFormedFloat(f) && Spell(f) == s;
      FloatFormIsLiteral(f);
    }
  }
}
