/** The top-level loop, `main()`: skip the header lines, then number, strip
    and parse each remaining line in order, print each decoded record with
    its number, and stop at the end-of-data row. File reading and printing
    are outside the model: the lines come in as a sequence and the printed
    pairs go out as one. */
module Driver {
  import opened Outcomes
  import opened Text
  import opened Records
  import opened Dispatch

  /** Header lines before the first data row. */
  const Offset: nat := 3

  /** `lines[OFFSET:]`: empty when there are no more lines than the header. */
  function DataRows(lines: seq<string>): (rows: seq<string>)
    ensures |rows| == if |lines| <= Offset then 0 else |lines| - Offset
    ensures forall k :: 0 <= k < |rows| ==> rows[k] == lines[Offset + k]
  {
    if |lines| <= Offset then [] else lines[Offset..]
  }

  /** How a run ends: at the end-of-data row, by running out of lines, or
      with the error a row raised. */
  datatype End = Sentinel | Exhausted | Failed(error: Error)

  /** What a run prints, the final `record_no`, and how the run ends. */
  datatype Trace = Trace(printed: seq<(nat, Record)>, recordNo: nat, end: End)

  /** What `parse` makes of each data row once it is stripped, in order. */
  function Parsed(rows: seq<string>): (outs: seq<Result<Option<Record>>>)
    ensures |outs| == |rows|
    ensures forall k :: 0 <= k < |rows| ==> outs[k] == Parse(Strip(rows[k]))
  {
    seq(|rows|, k requires 0 <= k < |rows| => Parse(Strip(rows[k])))
  }

  /** The run from data row `i` on, with `i` rows already counted, given
      what each row parses to. */
  function Drive(outs: seq<Result<Option<Record>>>, i: nat): Trace
    requires i <= |outs|
    decreases |outs| - i
  {
    if i == |outs| then Trace([], i, Exhausted)
    else match outs[i]
      case Err(e) => Trace([], i + 1, Failed(e))
      case Ok(None) => Trace([], i + 1, Sentinel)
      case Ok(Some(rec)) =>
        var t := Drive(outs, i + 1);
        Trace([(i + 1, rec)] + t.printed, t.recordNo, t.end)
  }

  /** `main()` over the lines of the file. */
  method Run(lines: seq<string>) returns (printed: seq<(nat, Record)>, recordNo: nat, end: End)
    ensures Trace(printed, recordNo, end) == Drive(Parsed(DataRows(lines)), 0)
  {
    var rows := DataRows(lines);
    ghost var outs := Parsed(rows);
    printed := [];
    recordNo := 0;
    var i := 0;
    while i < |rows|
      invariant i <= |rows| && recordNo == i
      invariant Drive(outs, 0)
                == Trace(printed + Drive(outs, i).printed, Drive(outs, i).recordNo, Drive(outs, i).end)
      decreases |rows| - i
    {
      recordNo := recordNo + 1;
      var text := Strip(rows[i]);
      var record := Parse(text);
      DriveStep(outs, i);
      if record.Err? {
        end := Failed(record.error);
        return;
      }
      if record.value.None? {
        end := Sentinel;
        return;
      }
      ghost var rest := Drive(outs, i + 1);
      assert printed + ([(recordNo, record.value.value)] + rest.printed)
             == (printed + [(recordNo, record.value.value)]) + rest.printed;
      printed := printed + [(recordNo, record.value.value)];
      i := i + 1;
    }
    end := Exhausted;
  }

  /** One step of the run: what row `i` parses to decides whether the run
      stops there or prints it and goes on. */
  lemma DriveStep(outs: seq<Result<Option<Record>>>, i: nat)
    requires i < |outs|
    ensures outs[i].Err? ==> Drive(outs, i) == Trace([], i + 1, Failed(outs[i].error))
    ensures outs[i] == Ok(None) ==> Drive(outs, i) == Trace([], i + 1, Sentinel)
    ensures outs[i].Ok? && outs[i].value.Some? ==>
              Drive(outs, i) == Trace([(i + 1, outs[i].value.value)] + Drive(outs, i + 1).printed,
                                      Drive(outs, i + 1).recordNo, Drive(outs, i + 1).end)
  {
  }

  /** The printed records are numbered from `i + 1` up without gaps, in the
      order of the rows, and each is what its own row parses to. */
  lemma {:induction false} DriveNumbersRows(outs: seq<Result<Option<Record>>>, i: nat, k: nat)
    requires i <= |outs|
    requires k < |Drive(outs, i).printed|
    ensures i + k < |outs|
    ensures Drive(outs, i).printed[k].0 == i + k + 1
    ensures outs[i + k] == Ok(Some(Drive(outs, i).printed[k].1))
    decreases k
  {
    if k > 0 {
      DriveNumbersRows(outs, i + 1, k - 1);
    }
  }

  /** Where and why a run stops. `record_no` counts every row read, the
      stopping row included. A run that ends at the end-of-data row or with
      an error stops at the first row after the printed ones, which is the
      end-of-data row or the row that raised; a run that runs out of lines
      has printed every row. */
  lemma {:induction false} DriveStops(outs: seq<Result<Option<Record>>>, i: nat)
    requires i <= |outs|
    ensures var t := Drive(outs, i);
            var j := i + |t.printed|;
            j <= |outs|
            && t.recordNo == (if t.end.Exhausted? then j else j + 1)
            && (t.end.Exhausted? <==> j == |outs|)
            && (t.end.Sentinel? ==> outs[j] == Ok(None))
            && (t.end.Failed? ==> outs[j] == Err(t.end.error))
    decreases |outs| - i
  {
    if i < |outs| && outs[i].Ok? && outs[i].value.Some? {
      DriveStops(outs, i + 1);
    }
  }

  /** Nothing after the stopping row matters: two files whose rows parse
      alike up to and including the row where one run stops give the same
      run. */
  lemma {:induction false} DriveIgnoresTail(outs: seq<Result<Option<Record>>>,
                                            other: seq<Result<Option<Record>>>, i: nat, j: nat)
    requires i <= |outs|
    requires j == i + |Drive(outs, i).printed|
    requires !Drive(outs, i).end.Exhausted?
    requires j < |other|
    requires forall k :: i <= k <= j ==> k < |outs| && other[k] == outs[k]
    ensures Drive(other, i) == Drive(outs, i)
    decreases |outs| - i
  {
    DriveStops(outs, i);
    if outs[i].Ok? && outs[i].value.Some? {
      DriveIgnoresTail(outs, other, i + 1, j);
    }
  }

  /** The end-of-data row ends the run: rows after the first one that
      starts with the end-of-data code are never parsed. */
  lemma SentinelEndsRun(rows: seq<string>)
    ensures var t := Drive(Parsed(rows), 0);
            (t.end.Sentinel? ==> |t.printed| < |rows| && !HasData(Strip(rows[|t.printed|])))
            && (forall k :: 0 <= k < |t.printed| ==> k < |rows| && HasData(Strip(rows[k])))
  {
    var outs := Parsed(rows);
    DriveStops(outs, 0);
    var t := Drive(outs, 0);
    if t.end.Sentinel? {
      StopRowIsEnd(Strip(rows[|t.printed|]));
    }
    forall k | 0 <= k < |t.printed|
      ensures k < |rows| && HasData(Strip(rows[k]))
    {
      DriveNumbersRows(outs, 0, k);
      StopRowIsEnd(Strip(rows[k]));
    }
  }

  /** A row parses to nothing exactly when it is the end-of-data row. */
  lemma StopRowIsEnd(row: string)
    ensures Parse(row) == Ok(None) <==> !HasData(row)
  {
  }

  /** The header lines are skipped unread: any three header lines in front
      of the same data rows give the same run. */
  lemma HeaderIgnored(header: seq<string>, other: seq<string>, rows: seq<string>)
    requires |header| == Offset && |other| == Offset
    ensures DataRows(header + rows) == rows
    ensures Drive(Parsed(DataRows(header + rows)), 0) == Drive(Parsed(DataRows(other + rows)), 0)
  {
    assert (header + rows)[Offset..] == rows;
    assert (other + rows)[Offset..] == rows;
  }
}
