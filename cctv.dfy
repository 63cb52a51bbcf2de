/**
 * The command-line monitor of CCTV.py: it rereads the camera's log, derives
 * the same feature table as the dashboard, and prints one predicted mode for
 * every feature row it has not printed yet. Unlike the dashboard it moves its
 * cursor only forward, and it catches no exception: the first one ends the
 * process.
 */
module Cctv {
  import opened Base
  import opened Features
  import opened Labels
  import opened Classifier
  import FeatureFacts

  /** One printed line, `Predicted Mode: {mode} in {device_name}`. */
  datatype Line = Line(mode: string, deviceName: string)

  /** One iteration of the row loop: predict the mode, decode the device code. */
  function Predict(a: Artifact, row: FeatureRow, code: nat): Result<Line, Fault>
  {
    match PredictMode(a, ClassifierInput(row, code))
    case Err(f) => Err(f)
    case Ok(mode) =>
      match Decode(a.deviceClasses, code)
      case None => Err(UnseenDeviceCode(code))
      case Some(name) => Ok(Line(mode, name))
  }

  /** The output of a range of rows: the lines printed so far, and the exception that stopped it. */
  datatype Outcome = Outcome(printed: seq<Line>, fault: Option<Fault>)

  /** `for index in range(lo, hi)`: the rows predicted and printed in order, up to the first exception. */
  function PrintRange(a: Artifact, out: seq<Line>, rows: seq<FeatureRow>, codes: seq<nat>, lo: nat, hi: nat): Outcome
    requires hi <= |rows| && |codes| == |rows|
    decreases hi
  {
    if hi <= lo then Outcome(out, None)
    else
      var p := PrintRange(a, out, rows, codes, lo, hi - 1);
      if p.fault.Some? then p
      else match Predict(a, rows[hi - 1], codes[hi - 1])
        case Err(f) => Outcome(p.printed, Some(f))
        case Ok(line) => Outcome(p.printed + [line], None)
  }

  /**
   * The process: everything printed, `last_processed_row`, and the exception
   * that ended it, if one did.
   */
  datatype CctvState = CctvState(printed: seq<Line>, cursor: nat, halted: Option<Fault>)

  const Start: CctvState := CctvState([], 0, None)

  function Max(x: nat, y: nat): nat
  {
    if x < y then y else x
  }

  /**
   * The rest of a pass of the `while True` loop once the feature table `rows`
   * is built: encode the whole Device column, then, only if the table is
   * longer than the cursor, print rows cursor.. and move the cursor to the
   * table's length.
   */
  function PollRows(a: Artifact, s: CctvState, rows: seq<FeatureRow>): CctvState
    requires s.halted.None?
  {
    match EncodeAll(a.deviceClasses, Devices(rows))
    case None => CctvState(s.printed, s.cursor, Some(UnseenDevice))
    case Some(codes) => PollCodes(a, s, rows, codes)
  }

  /** The pass once every device of the table has its code. */
  function PollCodes(a: Artifact, s: CctvState, rows: seq<FeatureRow>, codes: seq<nat>): CctvState
    requires |codes| == |rows|
  {
    if |rows| <= s.cursor then s
    else
      var p := PrintRange(a, s.printed, rows, codes, s.cursor, |rows|);
      if p.fault.Some? then CctvState(p.printed, s.cursor, p.fault)
      else CctvState(p.printed, |rows|, None)
  }

  /**
   * One pass of the loop over the log as it reads now (None when
   * `pd.read_csv` raises). A process that has stopped does nothing more.
   */
  function Polled(a: Artifact, s: CctvState, log: Option<seq<Row>>): CctvState
  {
    if s.halted.Some? then s
    else if log.None? then CctvState(s.printed, s.cursor, Some(LogUnreadable))
    else PollRows(a, s, Extract(log.value))
  }

  /** The passes over successive snapshots of the log, in order. */
  function PolledAll(a: Artifact, s: CctvState, logs: seq<Option<seq<Row>>>): CctvState
    decreases |logs|
  {
    if logs == [] then s
    else Polled(a, PolledAll(a, s, logs[..|logs| - 1]), logs[|logs| - 1])
  }

  /** What row k prints when nothing goes wrong: its predicted mode and its own device name. */
  function Expected(a: Artifact, rows: seq<FeatureRow>, codes: seq<nat>, k: nat): Line
    requires k < |rows| && |codes| == |rows|
    requires PredictMode(a, ClassifierInput(rows[k], codes[k])).Ok?
  {
    Line(PredictMode(a, ClassifierInput(rows[k], codes[k])).value, rows[k].device)
  }

  /** A range only appends lines to what was printed before it. */
  lemma {:induction false} RangeAppends(a: Artifact, out: seq<Line>, rows: seq<FeatureRow>, codes: seq<nat>, lo: nat, hi: nat)
    requires hi <= |rows| && |codes| == |rows|
    ensures var r := PrintRange(a, out, rows, codes, lo, hi).printed;
      |out| <= |r| && r[..|out|] == out
    decreases hi
  {
    if hi > lo {
      RangeAppends(a, out, rows, codes, lo, hi - 1);
      var r := PrintRange(a, out, rows, codes, lo, hi - 1).printed;
      var q := PrintRange(a, out, rows, codes, lo, hi).printed;
      assert q == r || q == r + [q[|r|]];
      assert q[..|r|] == r;
      assert r[..|out|] == out;
      assert q[..|out|] == q[..|r|][..|out|];
    }
  }

  /**
   * A range that ends without an exception printed one line for each row
   * lo..hi-1, in order: row k is line |out| + (k - lo).
   */
  lemma {:induction false} RangePrints(a: Artifact, out: seq<Line>, rows: seq<FeatureRow>, codes: seq<nat>, lo: nat, hi: nat)
    requires lo <= hi <= |rows| && |codes| == |rows|
    requires forall k :: 0 <= k < |rows| ==> Decode(a.deviceClasses, codes[k]) == Some(rows[k].device)
    requires PrintRange(a, out, rows, codes, lo, hi).fault.None?
    ensures var r := PrintRange(a, out, rows, codes, lo, hi).printed;
      && |r| == |out| + (hi - lo) && r[..|out|] == out
      && forall k :: lo <= k < hi ==>
           && PredictMode(a, ClassifierInput(rows[k], codes[k])).Ok?
           && r[|out| + (k - lo)] == Expected(a, rows, codes, k)
    decreases hi
  {
    if hi > lo {
      RangePrints(a, out, rows, codes, lo, hi - 1);
      var r := PrintRange(a, out, rows, codes, lo, hi - 1).printed;
      var q := PrintRange(a, out, rows, codes, lo, hi).printed;
      assert q == r + [q[|r|]];
      forall j | 0 <= j < |r| ensures q[j] == r[j] {
        assert q[..|r|][j] == q[j];
      }
      assert q[..|out|] == q[..|r|][..|out|];
    }
  }

  /** A range that stops on an exception printed only lines, and at most one per row. */
  lemma {:induction false} RangeBound(a: Artifact, out: seq<Line>, rows: seq<FeatureRow>, codes: seq<nat>, lo: nat, hi: nat)
    requires lo <= hi <= |rows| && |codes| == |rows|
    ensures |PrintRange(a, out, rows, codes, lo, hi).printed| <= |out| + (hi - lo)
    decreases hi
  {
    if hi > lo {
      RangeBound(a, out, rows, codes, lo, hi - 1);
    }
  }

  /** Printing one more row after a range that ended without an exception. */
  lemma RangeStep(a: Artifact, out: seq<Line>, rows: seq<FeatureRow>, codes: seq<nat>, lo: nat, i: nat)
    requires lo <= i < |rows| && |codes| == |rows|
    requires PrintRange(a, out, rows, codes, lo, i).fault.None?
    ensures var p := PrintRange(a, out, rows, codes, lo, i);
      PrintRange(a, out, rows, codes, lo, i + 1)
        == match Predict(a, rows[i], codes[i])
           case Err(f) => Outcome(p.printed, Some(f))
           case Ok(line) => Outcome(p.printed + [line], None)
  {
  }

  /** Printing lo..hi with an intermediate stop at mid: going on from mid gives the same result. */
  lemma {:induction false} RangeSplit(a: Artifact, out: seq<Line>, rows: seq<FeatureRow>, codes: seq<nat>,
                                      lo: nat, mid: nat, hi: nat)
    requires lo <= mid <= hi <= |rows| && |codes| == |rows|
    ensures var p := PrintRange(a, out, rows, codes, lo, mid);
      && (p.fault.None? ==> PrintRange(a, p.printed, rows, codes, mid, hi) == PrintRange(a, out, rows, codes, lo, hi))
      && (p.fault.Some? ==> PrintRange(a, out, rows, codes, lo, hi) == p)
    decreases hi
  {
    if hi > mid {
      RangeSplit(a, out, rows, codes, lo, mid, hi - 1);
    }
  }

  /** Printing a range depends only on the rows and codes in it. */
  lemma {:induction false} RangeCausal(a: Artifact, out: seq<Line>, rows: seq<FeatureRow>, codes: seq<nat>,
                                       more: seq<FeatureRow>, moreCodes: seq<nat>, lo: nat, hi: nat)
    requires hi <= |rows| <= |more| && |codes| == |rows| && |moreCodes| == |more|
    requires rows == more[..|rows|] && codes == moreCodes[..|codes|]
    ensures PrintRange(a, out, rows, codes, lo, hi) == PrintRange(a, out, more, moreCodes, lo, hi)
    decreases hi
  {
    if hi > lo {
      RangeCausal(a, out, rows, codes, more, moreCodes, lo, hi - 1);
      assert rows[hi - 1] == more[hi - 1] && codes[hi - 1] == moreCodes[hi - 1];
    }
  }

  /**
   * The guarded cursor: after a pass that raises nothing the cursor is the
   * larger of its old value and the table's length, so it never moves back
   * when the file shrinks; after an exception it is where it was.
   */
  lemma PollCursor(a: Artifact, s: CctvState, log: Option<seq<Row>>)
    ensures var t := Polled(a, s, log);
      && s.cursor <= t.cursor
      && (s.halted.None? && t.halted.None? ==> log.Some? && t.cursor == Max(s.cursor, |Extract(log.value)|))
      && (t.halted.Some? ==> t.cursor == s.cursor)
  {
    if s.halted.None? && log.Some? {
      RowsCursor(a, s, Extract(log.value));
    }
  }

  /** The cursor after the rest of a pass, on a table of any length. */
  lemma RowsCursor(a: Artifact, s: CctvState, rows: seq<FeatureRow>)
    requires s.halted.None?
    ensures var t := PollRows(a, s, rows);
      && s.cursor <= t.cursor
      && (t.halted.None? ==> t.cursor == Max(s.cursor, |rows|))
      && (t.halted.Some? ==> t.cursor == s.cursor)
  {
  }

  /** A pass over a table no longer than the cursor, with every device known, prints nothing and changes nothing. */
  lemma NoNewRows(a: Artifact, s: CctvState, rows: seq<FeatureRow>)
    requires s.halted.None? && |rows| <= s.cursor
    requires EncodeAll(a.deviceClasses, Devices(rows)).Some?
    ensures PollRows(a, s, rows) == s
  {
  }

  /** A device the encoder does not know, in any row of the table, stops the process before anything is printed. */
  lemma UnknownDeviceHalts(a: Artifact, s: CctvState, rows: seq<FeatureRow>, n: nat)
    requires s.halted.None? && n < |rows| && rows[n].device !in a.deviceClasses
    ensures PollRows(a, s, rows) == CctvState(s.printed, s.cursor, Some(UnseenDevice))
  {
    assert Devices(rows)[n] !in a.deviceClasses;
  }

  /**
   * A pass that raises nothing prints exactly the rows cursor..n-1 of the
   * table, in order, each with its predicted mode and its own device name.
   */
  lemma PollPrints(a: Artifact, s: CctvState, rows: seq<FeatureRow>)
    requires s.halted.None? && PollRows(a, s, rows).halted.None?
    ensures var t := PollRows(a, s, rows);
      var codes := EncodeAll(a.deviceClasses, Devices(rows)).value;
      var added := if s.cursor <= |rows| then |rows| - s.cursor else 0;
      && |t.printed| == |s.printed| + added && t.printed[..|s.printed|] == s.printed
      && forall k :: s.cursor <= k < |rows| ==>
           && PredictMode(a, ClassifierInput(rows[k], codes[k])).Ok?
           && t.printed[|s.printed| + (k - s.cursor)] == Expected(a, rows, codes, k)
  {
    CodesDecode(a.deviceClasses, rows);
    CodesPrint(a, s, rows, EncodeAll(a.deviceClasses, Devices(rows)).value);
  }

  /** PollPrints once the codes of the table are known. */
  lemma CodesPrint(a: Artifact, s: CctvState, rows: seq<FeatureRow>, codes: seq<nat>)
    requires |codes| == |rows| && forall k :: 0 <= k < |rows| ==> Decode(a.deviceClasses, codes[k]) == Some(rows[k].device)
    requires PollCodes(a, s, rows, codes).halted.None?
    ensures var t := PollCodes(a, s, rows, codes);
      var added := if s.cursor <= |rows| then |rows| - s.cursor else 0;
      && |t.printed| == |s.printed| + added && t.printed[..|s.printed|] == s.printed
      && forall k :: s.cursor <= k < |rows| ==>
           && PredictMode(a, ClassifierInput(rows[k], codes[k])).Ok?
           && t.printed[|s.printed| + (k - s.cursor)] == Expected(a, rows, codes, k)
  {
    if s.cursor < |rows| {
      RangePrints(a, s.printed, rows, codes, s.cursor, |rows|);
    }
  }

  /**
   * A pass that raises stops the process: the cursor stays, nothing printed
   * before is lost, at most one line per new row was printed, and no later
   * pass has any effect.
   */
  lemma PollHalts(a: Artifact, s: CctvState, rows: seq<FeatureRow>, logs: seq<Option<seq<Row>>>)
    requires s.halted.None? && PollRows(a, s, rows).halted.Some?
    ensures var t := PollRows(a, s, rows);
      && t.cursor == s.cursor
      && |s.printed| <= |t.printed| <= |s.printed| + |rows| && t.printed[..|s.printed|] == s.printed
      && PolledAll(a, t, logs) == t
  {
    var codes := EncodeAll(a.deviceClasses, Devices(rows));
    if codes.Some? && s.cursor < |rows| {
      RangeAppends(a, s.printed, rows, codes.value, s.cursor, |rows|);
      RangeBound(a, s.printed, rows, codes.value, s.cursor, |rows|);
    }
    HaltedStays(a, PollRows(a, s, rows), logs);
  }

  /** Once the process has stopped, further snapshots change nothing. */
  lemma {:induction false} HaltedStays(a: Artifact, s: CctvState, logs: seq<Option<seq<Row>>>)
    requires s.halted.Some?
    ensures PolledAll(a, s, logs) == s
    decreases |logs|
  {
    if logs != [] {
      HaltedStays(a, s, logs[..|logs| - 1]);
    }
  }

  /** The passes over the first i + 1 snapshots are those over the first i, then snapshot i. */
  lemma PolledAllSnoc(a: Artifact, s: CctvState, logs: seq<Option<seq<Row>>>, i: nat)
    requires i < |logs|
    ensures PolledAll(a, s, logs[..i + 1]) == Polled(a, PolledAll(a, s, logs[..i]), logs[i])
  {
    assert logs[..i + 1][..i] == logs[..i];
  }

  /** Once the passes have read every snapshot or stopped the process, the rest change nothing. */
  lemma PolledAllRest(a: Artifact, s: CctvState, logs: seq<Option<seq<Row>>>, i: nat)
    requires i <= |logs| && (i == |logs| || PolledAll(a, s, logs[..i]).halted.Some?)
    ensures PolledAll(a, s, logs) == PolledAll(a, s, logs[..i])
  {
    PolledAllAppend(a, s, logs[..i], logs[i..]);
    assert logs[..i] + logs[i..] == logs;
    if i < |logs| {
      HaltedStays(a, PolledAll(a, s, logs[..i]), logs[i..]);
    } else {
      assert logs[i..] == [];
    }
  }

  /** Running over two batches of snapshots is running over the first, then the second. */
  lemma {:induction false} PolledAllAppend(a: Artifact, s: CctvState, xs: seq<Option<seq<Row>>>, ys: seq<Option<seq<Row>>>)
    ensures PolledAll(a, s, xs + ys) == PolledAll(a, PolledAll(a, s, xs), ys)
    decreases |ys|
  {
    if ys == [] {
      assert xs + ys == xs;
    } else {
      PolledAllAppend(a, s, xs, ys[..|ys| - 1]);
      assert (xs + ys)[..|xs + ys| - 1] == xs + ys[..|ys| - 1];
      assert (xs + ys)[|xs + ys| - 1] == ys[|ys| - 1];
    }
  }

  /**
   * Two states agree on what was printed and on how the process ended, and,
   * while it runs, on the cursor too.
   */
  predicate Agree(s: CctvState, t: CctvState)
  {
    s.printed == t.printed && s.halted == t.halted && (t.halted.None? ==> s.cursor == t.cursor)
  }

  /**
   * When rows are only appended to the feature table and every device in it is
   * known, a pass over the shorter table followed by a pass over the longer one
   * prints what a single pass over the longer one prints: every feature row is
   * printed once, in order, whatever the cursor was.
   */
  lemma PollRowsAppendOnly(a: Artifact, s: CctvState, rows: seq<FeatureRow>, more: seq<FeatureRow>)
    requires s.halted.None? && |rows| <= |more| && rows == more[..|rows|]
    requires EncodeAll(a.deviceClasses, Devices(more)).Some?
    ensures EncodeAll(a.deviceClasses, Devices(rows)).Some?
    ensures var t := PollRows(a, s, rows);
      Agree(if t.halted.Some? then t else PollRows(a, t, more), PollRows(a, s, more))
  {
    assert Devices(rows) == Devices(more)[..|rows|];
    assert Devices(more) == Devices(rows) + Devices(more)[|rows|..];
    EncodeAllPrefix(a.deviceClasses, Devices(rows), Devices(more)[|rows|..]);
    var codes, moreCodes := EncodeAll(a.deviceClasses, Devices(rows)).value, EncodeAll(a.deviceClasses, Devices(more)).value;
    CodesAppendOnly(a, s, rows, codes, more, moreCodes);
  }

  /** PollRowsAppendOnly once the codes of both tables are known. */
  lemma CodesAppendOnly(a: Artifact, s: CctvState, rows: seq<FeatureRow>, codes: seq<nat>, more: seq<FeatureRow>, moreCodes: seq<nat>)
    requires s.halted.None? && |rows| <= |more| && |codes| == |rows| && |moreCodes| == |more|
    requires rows == more[..|rows|] && codes == moreCodes[..|rows|]
    ensures var t := PollCodes(a, s, rows, codes);
      Agree(if t.halted.Some? then t else PollCodes(a, t, more, moreCodes), PollCodes(a, s, more, moreCodes))
  {
    if s.cursor < |rows| {
      var p := PrintRange(a, s.printed, rows, codes, s.cursor, |rows|);
      RangeCausal(a, s.printed, rows, codes, more, moreCodes, s.cursor, |rows|);
      RangeSplit(a, s.printed, more, moreCodes, s.cursor, |rows|, |more|);
      if p.fault.None? && |rows| < |more| {
        var t := CctvState(p.printed, |rows|, None);
        assert PrintRange(a, p.printed, more, moreCodes, |rows|, |more|) == PrintRange(a, s.printed, more, moreCodes, s.cursor, |more|);
      }
    }
  }

  /** Every snapshot is readable and contains the one before it. */
  predicate Grows(logs: seq<Option<seq<Row>>>)
  {
    && (forall i :: 0 <= i < |logs| ==> logs[i].Some?)
    && forall i :: 0 < i < |logs| ==> |logs[i - 1].value| <= |logs[i].value| && logs[i - 1].value == logs[i].value[..|logs[i - 1].value|]
  }

  /** Every device in every snapshot's feature table is known to the encoder. */
  predicate KnownDevices(a: Artifact, logs: seq<Option<seq<Row>>>)
    requires forall i :: 0 <= i < |logs| ==> logs[i].Some?
  {
    forall i :: 0 <= i < |logs| ==> EncodeAll(a.deviceClasses, Devices(Extract(logs[i].value))).Some?
  }

  /**
   * A state that agrees with one pass over a log, passed over the log with rows
   * appended, agrees with one pass over the longer log.
   */
  lemma AgreeStep(a: Artifact, s: CctvState, x: CctvState, log: seq<Row>, ext: seq<Row>)
    requires s.halted.None? && Agree(x, Polled(a, s, Some(log)))
    requires EncodeAll(a.deviceClasses, Devices(Extract(log + ext))).Some?
    ensures Agree(Polled(a, x, Some(log + ext)), Polled(a, s, Some(log + ext)))
  {
    FeatureFacts.ExtractPrefix(log, ext);
    PollRowsAppendOnly(a, s, Extract(log), Extract(log + ext));
    var t := Polled(a, s, Some(log));
    if t.halted.None? {
      assert x == t;
    }
  }

  /** Dropping the last snapshot keeps the growth and the known devices. */
  lemma InitGrows(a: Artifact, logs: seq<Option<seq<Row>>>)
    requires |logs| > 0 && Grows(logs) && KnownDevices(a, logs)
    ensures Grows(logs[..|logs| - 1]) && KnownDevices(a, logs[..|logs| - 1])
  {
    var init := logs[..|logs| - 1];
    forall i | 0 <= i < |init| ensures init[i] == logs[i] { }
  }

  /** The last snapshot is the one before it with some rows appended. */
  lemma LastGrowth(a: Artifact, logs: seq<Option<seq<Row>>>) returns (log: seq<Row>, ext: seq<Row>)
    requires |logs| > 1 && Grows(logs) && KnownDevices(a, logs)
    ensures logs[|logs| - 2] == Some(log) && logs[|logs| - 1] == Some(log + ext)
    ensures EncodeAll(a.deviceClasses, Devices(Extract(log + ext))).Some?
  {
    var n := |logs|;
    log, ext := logs[n - 2].value, logs[n - 1].value[|logs[n - 2].value|..];
    assert logs[n - 1].value == log + ext;
  }

  /**
   * Under append-only growth of the log, running over all the snapshots
   * prints what one pass over the last snapshot prints: across passes each
   * feature row is printed exactly once, in increasing order.
   */
  lemma {:induction false} AppendOnlyOnce(a: Artifact, s: CctvState, logs: seq<Option<seq<Row>>>)
    requires s.halted.None? && |logs| > 0 && Grows(logs) && KnownDevices(a, logs)
    ensures Agree(PolledAll(a, s, logs), Polled(a, s, logs[|logs| - 1]))
    decreases |logs|
  {
    var n := |logs|;
    var init := logs[..n - 1];
    assert PolledAll(a, s, logs) == Polled(a, PolledAll(a, s, init), logs[n - 1]);
    if n == 1 {
      assert init == [];
    } else {
      InitGrows(a, logs);
      AppendOnlyOnce(a, s, init);
      var log, ext := LastGrowth(a, logs);
      AgreeStep(a, s, PolledAll(a, s, init), log, ext);
    }
  }

  /** From the start, a pass that raises nothing prints every row of the feature table once, in order. */
  lemma FromStart(a: Artifact, log: seq<Row>)
    requires Polled(a, Start, Some(log)).halted.None?
    ensures var rows := Extract(log);
      var t := Polled(a, Start, Some(log));
      var codes := EncodeAll(a.deviceClasses, Devices(rows)).value;
      && |t.printed| == |rows| && t.cursor == |rows|
      && forall k :: 0 <= k < |rows| ==>
           && PredictMode(a, ClassifierInput(rows[k], codes[k])).Ok?
           && t.printed[k] == Expected(a, rows, codes, k)
  {
    PollPrints(a, Start, Extract(log));
  }

  /** The process of CCTV.py: what it printed, its cursor, and the exception that ended it. */
  class CctvMonitor {
    var printed: seq<Line>
    var lastProcessedRow: nat
    var halted: Option<Fault>

    function State(): CctvState
      reads this
    {
      CctvState(printed, lastProcessedRow, halted)
    }

    constructor ()
      ensures State() == Start
    {
      printed := [];
      lastProcessedRow := 0;
      halted := None;
    }

    /** One pass of the `while True` loop over the log as it reads now. */
    method Poll(a: Artifact, log: Option<seq<Row>>)
      requires halted.None?
      modifies this
      ensures State() == Polled(a, old(State()), log)
    {
      if log.None? {
        halted := Some(LogUnreadable);
        return;
      }
      var rows := Extract(log.value);
      ProcessRows(a, rows);
    }

    /** The rest of the pass once the feature table is built. */
    method ProcessRows(a: Artifact, rows: seq<FeatureRow>)
      requires halted.None?
      modifies this
      ensures State() == PollRows(a, old(State()), rows)
    {
      var codes := EncodeAll(a.deviceClasses, Devices(rows));
      if codes.None? {
        halted := Some(UnseenDevice);
        return;
      }
      CodesDecode(a.deviceClasses, rows);
      PrintNew(a, rows, codes.value);
    }

    /** Only when the table is longer than the cursor: print rows cursor.. and move the cursor to the table's length. */
    method PrintNew(a: Artifact, rows: seq<FeatureRow>, codes: seq<nat>)
      requires halted.None?
      requires |codes| == |rows| && forall k :: 0 <= k < |rows| ==> Decode(a.deviceClasses, codes[k]).Some?
      modifies this
      ensures State() == PollCodes(a, old(State()), rows, codes)
    {
      if |rows| <= lastProcessedRow {
        return;
      }
      ghost var out := printed;
      var index := lastProcessedRow;
      while index < |rows|
        invariant lastProcessedRow == old(lastProcessedRow) <= index <= |rows| && halted.None?
        invariant PrintRange(a, out, rows, codes, lastProcessedRow, index) == Outcome(printed, None)
      {
        var input := ClassifierInput(rows[index], codes[index]);
        var predicted := PredictMode(a, input);
        if predicted.Err? {
          RangeSplit(a, out, rows, codes, lastProcessedRow, index + 1, |rows|);
          halted := Some(predicted.error);
          return;
        }
        var name := Decode(a.deviceClasses, codes[index]);
        printed := printed + [Line(predicted.value, name.value)];
        RangeStep(a, out, rows, codes, lastProcessedRow, index);
        index := index + 1;
      }
      lastProcessedRow := |rows|;
    }

    /** `main`: the passes over successive snapshots of the log, until one raises. */
    method Run(a: Artifact, logs: seq<Option<seq<Row>>>)
      modifies this
      ensures State() == PolledAll(a, old(State()), logs)
    {
      ghost var s0 := State();
      if halted.Some? {
        HaltedStays(a, s0, logs);
        return;
      }
      var i := 0;
      while i < |logs| && halted.None?
        invariant i <= |logs|
        invariant State() == PolledAll(a, s0, logs[..i])
      {
        PolledAllSnoc(a, s0, logs, i);
        Poll(a, logs[i]);
        i := i + 1;
      }
      PolledAllRest(a, s0, logs, i);
    }
  }
}
