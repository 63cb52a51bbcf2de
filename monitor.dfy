/**
 * The real-time monitor of UI.py: each device's poller reads its log, derives
 * the feature table, classifies the rows it has not seen yet, tracks the last
 * mode of every device, sends a notification on a move from Normal into an
 * anomalous mode, and lists every result in the dashboard table.
 */
module Monitor {
  import opened Base
  import opened Features
  import opened Labels
  import opened Classifier
  import FeatureFacts

  /** The status a device has before its first classification (`get(device_name, "Normal")`). */
  const DefaultStatus: string := "Normal"

  /** Modes shown green; every other mode is an anomaly, shown red. */
  predicate IsCalm(mode: string)
  {
    mode == "Normal" || mode == "Connecting"
  }

  /** The colour tag of a dashboard row. */
  datatype Tag = NormalTag | AttackTag | ErrorTag

  /** One dashboard row: a classified feature row, or the error that ended a poll. */
  datatype Record =
    | Classified(deviceType: string, deviceName: string, mode: string)
    | Failure(deviceType: string, fault: Fault)

  function TagOf(r: Record): Tag
  {
    match r
    case Classified(_, _, mode) => if IsCalm(mode) then NormalTag else AttackTag
    case Failure(_, _) => ErrorTag
  }

  /**
   * What the pollers share: the status tracker (device name to last predicted
   * mode), the notifications sent (one device name each) and the dashboard rows.
   */
  datatype Board = Board(status: map<string, string>, notifications: seq<string>, records: seq<Record>)

  function LastStatus(status: map<string, string>, name: string): string
  {
    if name in status then status[name] else DefaultStatus
  }

  /** The notification gate: an anomalous mode, and a stored status of exactly "Normal". */
  predicate Notifies(status: map<string, string>, name: string, mode: string)
  {
    !IsCalm(mode) && LastStatus(status, name) == "Normal"
  }

  /** The board after one feature row of device `name` is classified as `mode`. */
  function Observed(b: Board, deviceType: string, name: string, mode: string): Board
  {
    Board(b.status[name := mode],
          if Notifies(b.status, name, mode) then b.notifications + [name] else b.notifications,
          b.records + [Classified(deviceType, name, mode)])
  }

  /** The board after a poll stops on a fault: one error row. */
  function Failed(b: Board, deviceType: string, f: Fault): Board
  {
    Board(b.status, b.notifications, b.records + [Failure(deviceType, f)])
  }

  /**
   * One classification: a notification goes out exactly when the mode is an
   * anomaly and the device's stored status is "Normal"; the device's status
   * becomes the mode and no other device's status changes; one row is added,
   * tagged normal exactly when the mode is Normal or Connecting.
   */
  lemma ObserveFacts(b: Board, deviceType: string, name: string, mode: string)
    ensures var o := Observed(b, deviceType, name, mode);
      && (o.notifications == b.notifications + [name] <==> !IsCalm(mode) && LastStatus(b.status, name) == "Normal")
      && (o.notifications == b.notifications || o.notifications == b.notifications + [name])
      && LastStatus(o.status, name) == mode
      && (forall other :: other != name ==> LastStatus(o.status, other) == LastStatus(b.status, other))
      && o.records == b.records + [Classified(deviceType, name, mode)]
      && (TagOf(o.records[|o.records| - 1]) == NormalTag <==> IsCalm(mode))
  {
    var o := Observed(b, deviceType, name, mode);
    assert |b.notifications + [name]| != |b.notifications|;
  }

  /**
   * The board after classifications of one device with the given modes, in
   * order; RangeObservedAll shows it is what the row loop computes.
   */
  function ObservedAll(b: Board, deviceType: string, name: string, modes: seq<string>): Board
    decreases |modes|
  {
    if modes == [] then b
    else Observed(ObservedAll(b, deviceType, name, modes[..|modes| - 1]), deviceType, name, modes[|modes| - 1])
  }

  const Fresh: Board := Board(map[], [], [])

  lemma ObservedAllSnoc(b: Board, deviceType: string, name: string, modes: seq<string>, mode: string)
    ensures ObservedAll(b, deviceType, name, modes + [mode]) == Observed(ObservedAll(b, deviceType, name, modes), deviceType, name, mode)
  {
    var ms := modes + [mode];
    assert ms[..|ms| - 1] == modes;
    assert ObservedAll(b, deviceType, name, ms) == Observed(ObservedAll(b, deviceType, name, ms[..|ms| - 1]), deviceType, name, ms[|ms| - 1]);
  }

  /** One more classification, seen through the notifications so far and the device's stored status. */
  lemma ObservedAllStep(b: Board, deviceType: string, name: string, modes: seq<string>, mode: string,
                        sent: seq<string>, last: string)
    requires ObservedAll(b, deviceType, name, modes).notifications == sent
    requires LastStatus(ObservedAll(b, deviceType, name, modes).status, name) == last
    ensures ObservedAll(b, deviceType, name, modes + [mode]).notifications
         == if !IsCalm(mode) && last == "Normal" then sent + [name] else sent
    ensures LastStatus(ObservedAll(b, deviceType, name, modes + [mode]).status, name) == mode
  {
    ObservedAllSnoc(b, deviceType, name, modes, mode);
  }

  /** Displays grow one element at a time. */
  lemma DisplaySnoc<T>(a: T, b: T, c: T, d: T, e: T)
    ensures [] + [a] == [a] && [a] + [b] == [a, b] && [a, b] + [c] == [a, b, c]
    ensures [a, b, c] + [d] == [a, b, c, d] && [a, b, c, d] + [e] == [a, b, c, d, e]
  {
  }

  /** Normal, Attack, Attack, Normal, Attack from a fresh board: exactly two notifications, at the two Attacks after Normal. */
  lemma TwoTransitionsTwoNotifications(deviceType: string, name: string)
    ensures ObservedAll(Fresh, deviceType, name, ["Normal", "Attack", "Attack", "Normal", "Attack"]).notifications == [name, name]
  {
    assert "Attack" != "Normal" by { assert "Attack"[0] != "Normal"[0]; }
    assert !IsCalm("Attack");
    DisplaySnoc("Normal", "Attack", "Attack", "Normal", "Attack");
    ObservedAllStep(Fresh, deviceType, name, [], "Normal", [], "Normal");
    ObservedAllStep(Fresh, deviceType, name, ["Normal"], "Attack", [], "Normal");
    ObservedAllStep(Fresh, deviceType, name, ["Normal", "Attack"], "Attack", [name], "Attack");
    ObservedAllStep(Fresh, deviceType, name, ["Normal", "Attack", "Attack"], "Normal", [name], "Attack");
    ObservedAllStep(Fresh, deviceType, name, ["Normal", "Attack", "Attack", "Normal"], "Attack", [name], "Normal");
  }

  /** Connecting, Attack from a fresh board sends no notification: the stored status is not "Normal". */
  lemma ConnectingThenAttackIsSilent(deviceType: string, name: string)
    ensures ObservedAll(Fresh, deviceType, name, ["Connecting", "Attack"]).notifications == []
  {
    assert "Connecting" != "Normal";
    DisplaySnoc("Connecting", "Attack", "Attack", "Attack", "Attack");
    ObservedAllStep(Fresh, deviceType, name, [], "Connecting", [], "Normal");
    ObservedAllStep(Fresh, deviceType, name, ["Connecting"], "Attack", [], "Connecting");
  }

  /**
   * A two-state alert machine one might expect: CLEAR after Normal, Connecting
   * or no observation, ALERTED after any other mode; a move from CLEAR into an
   * anomaly signals.
   */
  predicate TwoStateSignals(status: map<string, string>, name: string, mode: string)
  {
    (name !in status || IsCalm(status[name])) && !IsCalm(mode)
  }

  /** The gate signals exactly as the two-state machine does, except after Connecting, where it stays silent. */
  lemma GateVersusTwoState(status: map<string, string>, name: string, mode: string)
    ensures Notifies(status, name, mode) <==> TwoStateSignals(status, name, mode) && LastStatus(status, name) != "Connecting"
  {
    assert "Normal" != "Connecting";
  }

  /** The state of the computation over a range of feature rows: the board so far, and the fault that stopped it. */
  datatype Progress = Progress(board: Board, fault: Option<Fault>)

  /** One iteration of the row loop: predict the mode, decode the device name, update the board. */
  function Step(a: Artifact, deviceType: string, b: Board, row: FeatureRow, code: nat): Progress
  {
    match PredictMode(a, ClassifierInput(row, code))
    case Err(f) => Progress(b, Some(f))
    case Ok(mode) =>
      match Decode(a.deviceClasses, code)
      case None => Progress(b, Some(UnseenDeviceCode(code)))
      case Some(name) => Progress(Observed(b, deviceType, name, mode), None)
  }

  /** `for index in range(lo, hi)`: the rows classified in order, up to the first fault. */
  function ClassifyRange(a: Artifact, deviceType: string, b: Board, rows: seq<FeatureRow>, codes: seq<nat>,
                         lo: nat, hi: nat): Progress
    requires hi <= |rows| && |codes| == |rows|
    decreases hi
  {
    if hi <= lo then Progress(b, None)
    else
      var p := ClassifyRange(a, deviceType, b, rows, codes, lo, hi - 1);
      if p.fault.Some? then p else Step(a, deviceType, p.board, rows[hi - 1], codes[hi - 1])
  }

  /** What a poller keeps between polls: the shared board and its own `last_processed_row`. */
  datatype PollerState = PollerState(board: Board, cursor: nat)

  /**
   * The rest of a poll once the feature table `rows` is built: encode the whole
   * Device column, classify rows cursor.., move the cursor to the table's
   * length. Any exception records one error row and leaves the cursor as it was.
   */
  function PollRows(a: Artifact, deviceType: string, s: PollerState, rows: seq<FeatureRow>): PollerState
  {
    match EncodeAll(a.deviceClasses, Devices(rows))
    case None => PollerState(Failed(s.board, deviceType, UnseenDevice), s.cursor)
    case Some(codes) => PollCodes(a, deviceType, s, rows, codes)
  }

  /** The poll once every device of the table has its code. */
  function PollCodes(a: Artifact, deviceType: string, s: PollerState, rows: seq<FeatureRow>, codes: seq<nat>): PollerState
    requires |codes| == |rows|
  {
    var p := ClassifyRange(a, deviceType, s.board, rows, codes, s.cursor, |rows|);
    if p.fault.Some? then PollerState(Failed(p.board, deviceType, p.fault.value), s.cursor)
    else PollerState(p.board, |rows|)
  }

  /**
   * One pass of the `while True` body of `process_device`. The log is None
   * when `pd.read_csv` fails.
   */
  function Polled(a: Artifact, deviceType: string, s: PollerState, log: Option<seq<Row>>): PollerState
  {
    if log.None? then PollerState(Failed(s.board, deviceType, LogUnreadable), s.cursor)
    else PollRows(a, deviceType, s, Extract(log.value))
  }

  /** The polls over a sequence of snapshots of the log, in order. */
  function PolledAll(a: Artifact, deviceType: string, s: PollerState, logs: seq<Option<seq<Row>>>): PollerState
    decreases |logs|
  {
    if logs == [] then s
    else Polled(a, deviceType, PolledAll(a, deviceType, s, logs[..|logs| - 1]), logs[|logs| - 1])
  }

  /** A poll of a feature table that encodes every device and classifies every new row without an exception. */
  predicate Succeeds(a: Artifact, deviceType: string, s: PollerState, rows: seq<FeatureRow>)
  {
    && var codes := EncodeAll(a.deviceClasses, Devices(rows));
    && codes.Some?
    && ClassifyRange(a, deviceType, s.board, rows, codes.value, s.cursor, |rows|).fault.None?
  }

  /** A range of rows only appends rows to the board, and only classified ones. */
  lemma {:induction false} RangeAppends(a: Artifact, deviceType: string, b: Board, rows: seq<FeatureRow>, codes: seq<nat>,
                                        lo: nat, hi: nat)
    requires hi <= |rows| && |codes| == |rows|
    ensures var r := ClassifyRange(a, deviceType, b, rows, codes, lo, hi).board.records;
      && |b.records| <= |r| && r[..|b.records|] == b.records
      && forall j :: |b.records| <= j < |r| ==> r[j].Classified?
    decreases hi
  {
    if hi > lo {
      RangeAppends(a, deviceType, b, rows, codes, lo, hi - 1);
      var p := ClassifyRange(a, deviceType, b, rows, codes, lo, hi - 1);
      var r := p.board.records;
      if p.fault.None? {
        var q := Step(a, deviceType, p.board, rows[hi - 1], codes[hi - 1]);
        assert q.board.records == r || q.board.records == r + [q.board.records[|r|]];
        assert q.board.records[..|r|] == r;
      }
    }
  }

  /**
   * A range that ends without a fault classified each row lo..hi-1 once, in
   * order: row k becomes dashboard row |b.records| + (k - lo), with its
   * predicted mode and decoded device name.
   */
  lemma {:induction false} RangeClassifies(a: Artifact, deviceType: string, b: Board, rows: seq<FeatureRow>, codes: seq<nat>,
                                           lo: nat, hi: nat)
    requires lo <= hi <= |rows| && |codes| == |rows|
    requires ClassifyRange(a, deviceType, b, rows, codes, lo, hi).fault.None?
    ensures var r := ClassifyRange(a, deviceType, b, rows, codes, lo, hi).board.records;
      && |r| == |b.records| + (hi - lo)
      && forall k :: lo <= k < hi ==>
           && PredictMode(a, ClassifierInput(rows[k], codes[k])).Ok?
           && Decode(a.deviceClasses, codes[k]).Some?
           && r[|b.records| + (k - lo)] == Classified(deviceType, Decode(a.deviceClasses, codes[k]).value,
                                                          PredictMode(a, ClassifierInput(rows[k], codes[k])).value)
    decreases hi
  {
    if hi > lo {
      RangeClassifies(a, deviceType, b, rows, codes, lo, hi - 1);
      var p := ClassifyRange(a, deviceType, b, rows, codes, lo, hi - 1);
      var r := p.board.records;
      var q := ClassifyRange(a, deviceType, b, rows, codes, lo, hi).board.records;
      assert q[..|r|] == r;
      forall j | 0 <= j < |r| ensures q[j] == r[j] {
        assert q[..|r|][j] == q[j];
      }
    }
  }

  /** Classifying one more row after a range that ended without a fault is one Step. */
  lemma RangeStep(a: Artifact, deviceType: string, b: Board, rows: seq<FeatureRow>, codes: seq<nat>, lo: nat, i: nat)
    requires lo <= i < |rows| && |codes| == |rows|
    requires ClassifyRange(a, deviceType, b, rows, codes, lo, i).fault.None?
    ensures ClassifyRange(a, deviceType, b, rows, codes, lo, i + 1)
         == Step(a, deviceType, ClassifyRange(a, deviceType, b, rows, codes, lo, i).board, rows[i], codes[i])
  {
  }

  /** A prediction that raises at row i ends the whole range there, with the board as it was before row i. */
  lemma RangeFails(a: Artifact, deviceType: string, b: Board, rows: seq<FeatureRow>, codes: seq<nat>, lo: nat, i: nat)
    requires lo <= i < |rows| && |codes| == |rows|
    requires ClassifyRange(a, deviceType, b, rows, codes, lo, i).fault.None?
    requires PredictMode(a, ClassifierInput(rows[i], codes[i])).Err?
    ensures ClassifyRange(a, deviceType, b, rows, codes, lo, |rows|)
         == Progress(ClassifyRange(a, deviceType, b, rows, codes, lo, i).board, Some(PredictMode(a, ClassifierInput(rows[i], codes[i])).error))
  {
    RangeSplit(a, deviceType, b, rows, codes, lo, i + 1, |rows|);
  }

  /** Classifying lo..hi with an intermediate stop at mid: going on from mid gives the same result. */
  lemma {:induction false} RangeSplit(a: Artifact, deviceType: string, b: Board, rows: seq<FeatureRow>, codes: seq<nat>,
                                      lo: nat, mid: nat, hi: nat)
    requires lo <= mid <= hi <= |rows| && |codes| == |rows|
    ensures var p := ClassifyRange(a, deviceType, b, rows, codes, lo, mid);
      && (p.fault.None? ==> ClassifyRange(a, deviceType, p.board, rows, codes, mid, hi) == ClassifyRange(a, deviceType, b, rows, codes, lo, hi))
      && (p.fault.Some? ==> ClassifyRange(a, deviceType, b, rows, codes, lo, hi) == p)
    decreases hi
  {
    if hi > mid {
      RangeSplit(a, deviceType, b, rows, codes, lo, mid, hi - 1);
    }
  }

  /** Classifying a range depends only on the rows and codes in it. */
  lemma {:induction false} RangeCausal(a: Artifact, deviceType: string, b: Board, rows: seq<FeatureRow>, codes: seq<nat>,
                                       more: seq<FeatureRow>, moreCodes: seq<nat>, lo: nat, hi: nat)
    requires hi <= |rows| <= |more| && |codes| == |rows| && |moreCodes| == |more|
    requires rows == more[..|rows|] && codes == moreCodes[..|codes|]
    ensures ClassifyRange(a, deviceType, b, rows, codes, lo, hi) == ClassifyRange(a, deviceType, b, more, moreCodes, lo, hi)
    decreases hi
  {
    if hi > lo {
      RangeCausal(a, deviceType, b, rows, codes, more, moreCodes, lo, hi - 1);
      assert rows[hi - 1] == more[hi - 1] && codes[hi - 1] == moreCodes[hi - 1];
    }
  }

  /**
   * A range over rows of one device, each predicted without an exception, ends
   * without a fault, and its board is the run of classifications of that device
   * with the predicted modes, in row order.
   */
  lemma {:induction false} RangeObservedAll(a: Artifact, deviceType: string, b: Board, rows: seq<FeatureRow>, codes: seq<nat>,
                                            lo: nat, hi: nat, name: string, modes: seq<string>)
    requires lo <= hi <= |rows| && |codes| == |rows| && |modes| == hi - lo
    requires forall k :: lo <= k < hi ==> Decode(a.deviceClasses, codes[k]) == Some(name)
    requires forall k :: lo <= k < hi ==> PredictMode(a, ClassifierInput(rows[k], codes[k])) == Ok(modes[k - lo])
    ensures ClassifyRange(a, deviceType, b, rows, codes, lo, hi) == Progress(ObservedAll(b, deviceType, name, modes), None)
    decreases hi
  {
    if hi > lo {
      var init, mode := modes[..|modes| - 1], modes[|modes| - 1];
      forall k | lo <= k < hi - 1 ensures PredictMode(a, ClassifierInput(rows[k], codes[k])) == Ok(init[k - lo]) {
        assert init[k - lo] == modes[k - lo];
      }
      RangeObservedAll(a, deviceType, b, rows, codes, lo, hi - 1, name, init);
      var p := ClassifyRange(a, deviceType, b, rows, codes, lo, hi - 1);
      assert PredictMode(a, ClassifierInput(rows[hi - 1], codes[hi - 1])) == Ok(mode);
      assert Step(a, deviceType, p.board, rows[hi - 1], codes[hi - 1]) == Progress(Observed(p.board, deviceType, name, mode), None);
      ObservedAllSnoc(b, deviceType, name, init, mode);
      assert init + [mode] == modes;
    }
  }

  /**
   * A first poll of five feature rows of one device, predicted Normal, Attack,
   * Attack, Normal, Attack, classifies all five, moves the cursor to 5 and
   * sends exactly two notifications.
   */
  lemma PollTwoNotifications(a: Artifact, deviceType: string, rows: seq<FeatureRow>, codes: seq<nat>, name: string)
    requires |rows| == 5 && |codes| == 5
    requires forall k :: 0 <= k < 5 ==> Decode(a.deviceClasses, codes[k]) == Some(name)
    requires forall k :: 0 <= k < 5 ==>
      PredictMode(a, ClassifierInput(rows[k], codes[k])) == Ok(["Normal", "Attack", "Attack", "Normal", "Attack"][k])
    ensures var t := PollCodes(a, deviceType, PollerState(Fresh, 0), rows, codes);
      t.board.notifications == [name, name] && |t.board.records| == 5 && t.cursor == 5
  {
    RangeObservedAll(a, deviceType, Fresh, rows, codes, 0, 5, name, ["Normal", "Attack", "Attack", "Normal", "Attack"]);
    RangeClassifies(a, deviceType, Fresh, rows, codes, 0, 5);
    TwoTransitionsTwoNotifications(deviceType, name);
  }

  /** A first poll of two rows of one device, predicted Connecting then Attack, sends no notification. */
  lemma PollConnectingThenAttackIsSilent(a: Artifact, deviceType: string, rows: seq<FeatureRow>, codes: seq<nat>, name: string)
    requires |rows| == 2 && |codes| == 2
    requires forall k :: 0 <= k < 2 ==> Decode(a.deviceClasses, codes[k]) == Some(name)
    requires forall k :: 0 <= k < 2 ==> PredictMode(a, ClassifierInput(rows[k], codes[k])) == Ok(["Connecting", "Attack"][k])
    ensures var t := PollCodes(a, deviceType, PollerState(Fresh, 0), rows, codes);
      t.board.notifications == [] && |t.board.records| == 2 && t.cursor == 2
  {
    RangeObservedAll(a, deviceType, Fresh, rows, codes, 0, 2, name, ["Connecting", "Attack"]);
    RangeClassifies(a, deviceType, Fresh, rows, codes, 0, 2);
    ConnectingThenAttackIsSilent(deviceType, name);
  }

  /**
   * A successful poll classifies feature rows cursor..n-1 once each, in
   * increasing order, names each row's own device, and then sets the cursor to
   * n, the length of the feature table, whatever the cursor was before (so it
   * moves back when the table got shorter).
   */
  lemma PollSuccess(a: Artifact, deviceType: string, s: PollerState, rows: seq<FeatureRow>)
    requires Succeeds(a, deviceType, s, rows)
    ensures var t := PollRows(a, deviceType, s, rows);
      var codes := EncodeAll(a.deviceClasses, Devices(rows)).value;
      && t.cursor == |rows|
      && |t.board.records| == |s.board.records| + (if s.cursor <= |rows| then |rows| - s.cursor else 0)
      && t.board.records[..|s.board.records|] == s.board.records
      && forall k :: s.cursor <= k < |rows| ==>
           && PredictMode(a, ClassifierInput(rows[k], codes[k])).Ok?
           && t.board.records[|s.board.records| + (k - s.cursor)]
             == Classified(deviceType, rows[k].device, PredictMode(a, ClassifierInput(rows[k], codes[k])).value)
  {
    CodesDecode(a.deviceClasses, rows);
    CodesSuccess(a, deviceType, s, rows, EncodeAll(a.deviceClasses, Devices(rows)).value);
  }

  /** PollSuccess once the codes of the table are known. */
  lemma CodesSuccess(a: Artifact, deviceType: string, s: PollerState, rows: seq<FeatureRow>, codes: seq<nat>)
    requires |codes| == |rows| && forall k :: 0 <= k < |rows| ==> Decode(a.deviceClasses, codes[k]) == Some(rows[k].device)
    requires ClassifyRange(a, deviceType, s.board, rows, codes, s.cursor, |rows|).fault.None?
    ensures var t := PollCodes(a, deviceType, s, rows, codes);
      && t.cursor == |rows|
      && |t.board.records| == |s.board.records| + (if s.cursor <= |rows| then |rows| - s.cursor else 0)
      && t.board.records[..|s.board.records|] == s.board.records
      && forall k :: s.cursor <= k < |rows| ==>
           && PredictMode(a, ClassifierInput(rows[k], codes[k])).Ok?
           && t.board.records[|s.board.records| + (k - s.cursor)]
             == Classified(deviceType, rows[k].device, PredictMode(a, ClassifierInput(rows[k], codes[k])).value)
  {
    RangeAppends(a, deviceType, s.board, rows, codes, s.cursor, |rows|);
    if s.cursor <= |rows| {
      RangeClassifies(a, deviceType, s.board, rows, codes, s.cursor, |rows|);
    }
  }

  /**
   * A poll that fails leaves the cursor where it was and adds exactly one
   * error row, after the rows it classified before the exception.
   */
  lemma PollFailure(a: Artifact, deviceType: string, s: PollerState, rows: seq<FeatureRow>)
    requires !Succeeds(a, deviceType, s, rows)
    ensures var t := PollRows(a, deviceType, s, rows);
      var r := t.board.records;
      && t.cursor == s.cursor
      && |s.board.records| < |r| && r[..|s.board.records|] == s.board.records
      && r[|r| - 1].Failure? && r[|r| - 1].deviceType == deviceType
      && forall j :: |s.board.records| <= j < |r| - 1 ==> r[j].Classified?
  {
    match EncodeAll(a.deviceClasses, Devices(rows))
    case None =>
    case Some(codes) =>
      RangeAppends(a, deviceType, s.board, rows, codes, s.cursor, |rows|);
      var p := ClassifyRange(a, deviceType, s.board, rows, codes, s.cursor, |rows|);
      assert PollCodes(a, deviceType, s, rows, codes).board.records[..|p.board.records|] == p.board.records;
  }

  /** An unreadable log adds one error row and changes nothing else. */
  lemma UnreadableLog(a: Artifact, deviceType: string, s: PollerState)
    ensures Polled(a, deviceType, s, None) == PollerState(Failed(s.board, deviceType, LogUnreadable), s.cursor)
  {
  }

  /**
   * One row naming a device the encoder does not know, anywhere in the feature
   * table (even among rows already classified), fails the whole poll before any
   * row is classified.
   */
  lemma UnknownDeviceFailsPoll(a: Artifact, deviceType: string, s: PollerState, rows: seq<FeatureRow>, n: nat)
    requires n < |rows| && rows[n].device !in a.deviceClasses
    ensures PollRows(a, deviceType, s, rows) == PollerState(Failed(s.board, deviceType, UnseenDevice), s.cursor)
  {
    assert Devices(rows)[n] !in a.deviceClasses;
  }

  /** Polling an unchanged table again after a successful poll classifies nothing and changes nothing. */
  lemma PollIdempotent(a: Artifact, deviceType: string, s: PollerState, rows: seq<FeatureRow>)
    requires Succeeds(a, deviceType, s, rows)
    ensures var t := PollRows(a, deviceType, s, rows);
      Succeeds(a, deviceType, t, rows) && PollRows(a, deviceType, t, rows) == t
  {
  }

  /**
   * When rows are only appended to the feature table, a poll of the shorter
   * table followed by a poll of the longer one gives the same board and cursor
   * as a single poll of the longer one: every feature row is classified exactly
   * once, in order. The cursor must not be past the shorter table.
   */
  lemma PollRowsAppendOnly(a: Artifact, deviceType: string, s: PollerState, rows: seq<FeatureRow>, more: seq<FeatureRow>)
    requires s.cursor <= |rows| <= |more| && rows == more[..|rows|]
    requires Succeeds(a, deviceType, s, more)
    ensures Succeeds(a, deviceType, s, rows)
    ensures PollRows(a, deviceType, PollRows(a, deviceType, s, rows), more) == PollRows(a, deviceType, s, more)
  {
    assert Devices(rows) == Devices(more)[..|rows|];
    assert Devices(more) == Devices(rows) + Devices(more)[|rows|..];
    EncodeAllPrefix(a.deviceClasses, Devices(rows), Devices(more)[|rows|..]);
    var codes, moreCodes := EncodeAll(a.deviceClasses, Devices(rows)).value, EncodeAll(a.deviceClasses, Devices(more)).value;
    CodesAppendOnly(a, deviceType, s, rows, codes, more, moreCodes);
  }

  /** PollRowsAppendOnly once the codes of both tables are known. */
  lemma CodesAppendOnly(a: Artifact, deviceType: string, s: PollerState, rows: seq<FeatureRow>, codes: seq<nat>,
                        more: seq<FeatureRow>, moreCodes: seq<nat>)
    requires s.cursor <= |rows| <= |more| && |codes| == |rows| && |moreCodes| == |more|
    requires rows == more[..|rows|] && codes == moreCodes[..|rows|]
    requires ClassifyRange(a, deviceType, s.board, more, moreCodes, s.cursor, |more|).fault.None?
    ensures ClassifyRange(a, deviceType, s.board, rows, codes, s.cursor, |rows|).fault.None?
    ensures PollCodes(a, deviceType, PollCodes(a, deviceType, s, rows, codes), more, moreCodes) == PollCodes(a, deviceType, s, more, moreCodes)
  {
    RangeCausal(a, deviceType, s.board, rows, codes, more, moreCodes, s.cursor, |rows|);
    RangeSplit(a, deviceType, s.board, more, moreCodes, s.cursor, |rows|, |more|);
  }

  /**
   * The same for the logs: appending rows to a log appends rows to its feature
   * table, so polling before and after the append classifies each row once.
   */
  lemma PollAppendOnly(a: Artifact, deviceType: string, s: PollerState, log: seq<Row>, ext: seq<Row>)
    requires s.cursor <= |Extract(log)|
    requires Succeeds(a, deviceType, s, Extract(log + ext))
    ensures Succeeds(a, deviceType, s, Extract(log))
    ensures Polled(a, deviceType, Polled(a, deviceType, s, Some(log)), Some(log + ext)) == Polled(a, deviceType, s, Some(log + ext))
  {
    FeatureFacts.ExtractPrefix(log, ext);
    PollRowsAppendOnly(a, deviceType, s, Extract(log), Extract(log + ext));
  }

  /** The state the UI shares between the device threads. */
  class Dashboard {
    var status: map<string, string>
    var notifications: seq<string>
    var records: seq<Record>

    function View(): Board
      reads this
    {
      Board(status, notifications, records)
    }

    constructor ()
      ensures View() == Fresh
    {
      status := map[];
      notifications := [];
      records := [];
    }

    /** UI.py's handling of one predicted mode: gate, status update, dashboard row. */
    method Observe(deviceType: string, name: string, mode: string)
      modifies this
      ensures View() == Observed(old(View()), deviceType, name, mode)
    {
      var last := if name in status then status[name] else DefaultStatus;
      if !(mode == "Normal" || mode == "Connecting") && last == "Normal" {
        notifications := notifications + [name];
      }
      status := status[name := mode];
      records := records + [Classified(deviceType, name, mode)];
    }

    /** The `except` branch: an error row tagged 'error'. */
    method Fail(deviceType: string, f: Fault)
      modifies this
      ensures View() == Failed(old(View()), deviceType, f)
    {
      records := records + [Failure(deviceType, f)];
    }
  }

  /** `process_device` for one device: its type, the shared dashboard and its cursor. */
  class DevicePoller {
    const deviceType: string
    const board: Dashboard
    var lastProcessedRow: nat

    function State(): PollerState
      reads this, board
    {
      PollerState(board.View(), lastProcessedRow)
    }

    constructor (deviceType: string, board: Dashboard)
      ensures this.deviceType == deviceType && this.board == board && lastProcessedRow == 0
    {
      this.deviceType := deviceType;
      this.board := board;
      lastProcessedRow := 0;
    }

    /** One pass of the polling loop over the log as it reads now. */
    method Poll(a: Artifact, log: Option<seq<Row>>)
      modifies this, board
      ensures State() == Polled(a, deviceType, old(State()), log)
    {
      if log.None? {
        board.Fail(deviceType, LogUnreadable);
        return;
      }
      var rows := Extract(log.value);
      ProcessRows(a, rows);
    }

    /** The rest of the pass once the feature table is built. */
    method ProcessRows(a: Artifact, rows: seq<FeatureRow>)
      modifies this, board
      ensures State() == PollRows(a, deviceType, old(State()), rows)
    {
      var codes := EncodeAll(a.deviceClasses, Devices(rows));
      if codes.None? {
        board.Fail(deviceType, UnseenDevice);
        return;
      }
      CodesDecode(a.deviceClasses, rows);
      ClassifyNew(a, rows, codes.value);
    }

    /** The row loop `for index in range(last_processed_row, len(df))`, then the cursor update. */
    method ClassifyNew(a: Artifact, rows: seq<FeatureRow>, codes: seq<nat>)
      requires |codes| == |rows| && forall k :: 0 <= k < |rows| ==> Decode(a.deviceClasses, codes[k]).Some?
      modifies this, board
      ensures State() == PollCodes(a, deviceType, old(State()), rows, codes)
    {
      ghost var s0 := State();
      var index := lastProcessedRow;
      while index < |rows|
        invariant lastProcessedRow == s0.cursor <= index
        invariant index <= |rows| ==>
          ClassifyRange(a, deviceType, s0.board, rows, codes, s0.cursor, index) == Progress(board.View(), None)
        invariant index > |rows| ==> index == s0.cursor && board.View() == s0.board
      {
        var input := ClassifierInput(rows[index], codes[index]);
        var predicted := PredictMode(a, input);
        if predicted.Err? {
          RangeFails(a, deviceType, s0.board, rows, codes, s0.cursor, index);
          board.Fail(deviceType, predicted.error);
          return;
        }
        var name := Decode(a.deviceClasses, codes[index]);
        RangeStep(a, deviceType, s0.board, rows, codes, s0.cursor, index);
        board.Observe(deviceType, name.value, predicted.value);
        index := index + 1;
      }
      lastProcessedRow := |rows|;
    }

    /** The polling loop over successive snapshots of the log. */
    method Run(a: Artifact, logs: seq<Option<seq<Row>>>)
      modifies this, board
      ensures State() == PolledAll(a, deviceType, old(State()), logs)
    {
      ghost var s0 := State();
      var i := 0;
      while i < |logs|
        invariant i <= |logs|
        invariant State() == PolledAll(a, deviceType, s0, logs[..i])
      {
        assert logs[..i + 1][..i] == logs[..i];
        Poll(a, logs[i]);
        i := i + 1;
      }
      assert logs[..i] == logs;
    }
  }
}
