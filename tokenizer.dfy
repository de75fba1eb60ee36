/** The field step every decoder repeats: `field, rest = rest.lstrip().split(" ", 1)`.
    It cuts at the first single space after leading whitespace is dropped;
    it does not split at runs of whitespace, and it fails when no space is left. */
module Tokenizer {
  import opened Outcomes
  import opened Text

  datatype Split = Split(field: string, rest: string)

  /** A token as the step produces it: non-empty, no ' ', no leading whitespace. */
  predicate IsToken(t: string) {
    t != [] && ' ' !in t && !IsSpace(t[0])
  }

  /** `t.split(" ", 1)` unpacked into two names: the text before the first
      space and the text after it, `MalformedRow` when `t` holds no space. */
  function SplitOnce(t: string): (r: Result<Split>)
  {
    if t == [] then Err(MalformedRow)
    else if t[0] == ' ' then Ok(Split([], t[1..]))
    else match SplitOnce(t[1..])
      case Err(e) => Err(e)
      case Ok(sp) => Ok(Split([t[0]] + sp.field, sp.rest))
  }

  /** `SplitOnce` cuts at the first space: it fails exactly when there is
      none, and otherwise the field holds no space and field, space and rest
      give back `t`. */
  lemma {:induction false} SplitOnceSpec(t: string)
    ensures SplitOnce(t).Ok? <==> ' ' in t
    ensures SplitOnce(t).Err? ==> SplitOnce(t).error == MalformedRow
    ensures SplitOnce(t).Ok? ==> ' ' !in SplitOnce(t).value.field
    ensures SplitOnce(t).Ok? ==> SplitOnce(t).value.field + " " + SplitOnce(t).value.rest == t
  {
    if t != [] && t[0] != ' ' {
      SplitOnceSpec(t[1..]);
      assert t == [t[0]] + t[1..];
      if SplitOnce(t[1..]).Ok? {
        var sp := SplitOnce(t[1..]).value;
        assert t == [t[0]] + sp.field + " " + sp.rest;
      }
    } else if t != [] {
      assert t == [] + " " + t[1..];
    }
  }

  /** The converse of `SplitOnceSpec`: joining a space-free field and any
      rest with one space, then splitting, gives back field and rest. */
  lemma {:induction false} SplitOnceJoin(field: string, rest: string)
    requires ' ' !in field
    ensures SplitOnce(field + " " + rest) == Ok(Split(field, rest))
  {
    var t := field + " " + rest;
    if field == [] {
      assert t == [' '] + rest;
    } else {
      assert t[1..] == field[1..] + " " + rest;
      SplitOnceJoin(field[1..], rest);
      assert [field[0]] + field[1..] == field;
    }
  }

  /** One tokenizer step on `s`: `s.lstrip().split(" ", 1)` unpacked. */
  function NextField(s: string): (r: Result<Split>)
  {
    SplitOnce(LStrip(s))
  }

  /** The step succeeds exactly when `s.lstrip()` still holds a space; then
      its field is a token and field, one space and rest give back
      `s.lstrip()`. */
  lemma NextFieldSpec(s: string)
    ensures NextField(s).Ok? <==> ' ' in LStrip(s)
    ensures NextField(s).Err? ==> NextField(s).error == MalformedRow
    ensures NextField(s).Ok? ==> IsToken(NextField(s).value.field)
    ensures NextField(s).Ok? ==> NextField(s).value.field + " " + NextField(s).value.rest == LStrip(s)
  {
    var t := LStrip(s);
    SplitOnceSpec(t);
    if NextField(s).Ok? {
      var sp := NextField(s).value;
      assert t[0] == (sp.field + " " + sp.rest)[0];
    }
  }

  /** `k` tokenizer steps at once: the tokens in order and what is left. */
  datatype Tokens = Tokens(fields: seq<string>, rest: string)

  /** The reference the decoders are checked against: `k` successive steps,
      `None` as soon as one of them fails. */
  function Fields(s: string, k: nat): (r: Option<Tokens>)
    ensures r.Some? ==> |r.value.fields| == k
    decreases k
  {
    if k == 0 then Some(Tokens([], s))
    else match NextField(s)
      case Err(_) => None
      case Ok(sp) =>
        match Fields(sp.rest, k - 1)
        case None => None
        case Some(t) =>
          Some(Tokens([sp.field] + t.fields, t.rest))
  }

  /** Unfolds one step of `Fields`: the first token comes from `NextField`
      and the others from the remaining `k - 1` steps on what it leaves. */
  lemma FieldsCons(s: string, k: nat)
    requires Fields(s, k).Some? && k > 0
    ensures NextField(s).Ok?
    ensures Fields(NextField(s).value.rest, k - 1).Some?
    ensures Fields(s, k).value.fields
            == [NextField(s).value.field] + Fields(NextField(s).value.rest, k - 1).value.fields
    ensures Fields(s, k).value.rest == Fields(NextField(s).value.rest, k - 1).value.rest
  {
  }

  lemma ConsAt(x: string, b: seq<string>, i: nat)
    requires 0 < i <= |b|
    ensures ([x] + b)[i] == b[i - 1]
  {
  }

  /** Every one of the `k` tokens is a token in the sense of `IsToken`. */
  lemma {:induction false} FieldsAreTokens(s: string, k: nat, i: nat)
    requires Fields(s, k).Some? && i < k
    ensures IsToken(Fields(s, k).value.fields[i])
    decreases k
  {
    FieldsCons(s, k);
    NextFieldSpec(s);
    var sp := NextField(s).value;
    var t := Fields(sp.rest, k - 1).value;
    assert |t.fields| == k - 1;
    if i > 0 {
      ConsAt(sp.field, t.fields, i);
      assert Fields(sp.rest, k - 1).Some?;
      assert i - 1 < k - 1;
      FieldsAreTokens(sp.rest, k - 1, i - 1);
    }
  }

  /** Taking `k + 1` steps succeeds only if the first `k` do, and it extends
      their tokens: a payload with fewer than `k` tokens cannot supply `k + 1`. */
  lemma {:induction false} FieldsPrefix(s: string, k: nat)
    requires Fields(s, k + 1).Some?
    ensures Fields(s, k).Some?
    ensures Fields(s, k).value.fields == Fields(s, k + 1).value.fields[..k]
    decreases k
  {
    FieldsCons(s, k + 1);
    var sp := NextField(s).value;
    var t := Fields(sp.rest, k).value;
    assert |t.fields| == k;
    if k > 0 {
      FieldsPrefix(sp.rest, k - 1);
      FieldsCons(s, k);
      assert Fields(s, k + 1).value.fields[..k] == [sp.field] + t.fields[..k - 1];
    }
  }

  /** The `k + 1`-th token and what follows it are one more tokenizer step
      on what the first `k` steps leave. */
  lemma {:induction false} FieldsLast(s: string, k: nat)
    requires Fields(s, k + 1).Some?
    ensures Fields(s, k).Some?
    ensures NextField(Fields(s, k).value.rest)
            == Ok(Split(Fields(s, k + 1).value.fields[k], Fields(s, k + 1).value.rest))
    decreases k
  {
    FieldsCons(s, k + 1);
    var sp := NextField(s).value;
    var t := Fields(sp.rest, k).value;
    assert |t.fields| == k;
    if k > 0 {
      FieldsLast(sp.rest, k - 1);
      ConsAt(sp.field, t.fields, k);
    } else {
      assert Fields(sp.rest, 0) == Some(Tokens([], sp.rest));
    }
  }

  /** Within `n` successful steps, step `k + 1` reads token `k` off what the
      first `k` steps leave: the decoders' chain of steps is `Fields`. */
  lemma {:induction false} FieldsChainAt(s: string, n: nat, k: nat)
    requires Fields(s, n).Some? && k < n
    ensures Fields(s, k).Some? && Fields(s, k + 1).Some?
    ensures NextField(Fields(s, k).value.rest)
            == Ok(Split(Fields(s, n).value.fields[k], Fields(s, k + 1).value.rest))
    decreases n - k
  {
    if n == k + 1 {
      FieldsLast(s, k);
    } else {
      FieldsPrefix(s, n - 1);
      FieldsChainAt(s, n - 1, k);
    }
  }

  /** One more successful step extends `k` steps to `k + 1`. */
  lemma {:induction false} FieldsExtend(s: string, k: nat)
    requires Fields(s, k).Some? && NextField(Fields(s, k).value.rest).Ok?
    ensures Fields(s, k + 1).Some?
    ensures Fields(s, k + 1).value.fields
            == Fields(s, k).value.fields + [NextField(Fields(s, k).value.rest).value.field]
    ensures Fields(s, k + 1).value.rest == NextField(Fields(s, k).value.rest).value.rest
    decreases k
  {
    if k == 0 {
      var sp := NextField(s).value;
      assert Fields(sp.rest, 0) == Some(Tokens([], sp.rest));
    } else {
      FieldsCons(s, k);
      var sp := NextField(s).value;
      FieldsExtend(sp.rest, k - 1);
    }
  }
}
