/**
 * The serial logger of Valuesreader.py: each line from the sensor board is
 * stripped, split on commas and checked; an accepted reading is stamped and
 * buffered for its device, and the buffers are appended to one CSV file per
 * device every five seconds and once more when logging stops.
 */
module Ingest {
  import opened Base

  /** Python's whitespace, the characters `str.strip()` removes. */
  predicate IsSpace(c: char)
  {
    || ('\U{9}' <= c <= '\U{D}') || ('\U{1C}' <= c <= ' ') || c == '\U{85}' || c == '\U{A0}'
    || c == '\U{1680}' || ('\U{2000}' <= c <= '\U{200A}') || c == '\U{2028}' || c == '\U{2029}'
    || c == '\U{202F}' || c == '\U{205F}' || c == '\U{3000}'
  }

  function TrimLeft(s: string): string
    decreases |s|
  {
    if s != [] && IsSpace(s[0]) then TrimLeft(s[1..]) else s
  }

  function TrimRight(s: string): string
    decreases |s|
  {
    if s != [] && IsSpace(s[|s| - 1]) then TrimRight(s[..|s| - 1]) else s
  }

  /** `str.strip()`. */
  function Strip(s: string): string
  {
    TrimRight(TrimLeft(s))
  }

  /** TrimLeft drops a run of leading whitespace and nothing else. */
  lemma {:induction false} TrimLeftSlice(s: string) returns (i: nat)
    ensures i <= |s| && TrimLeft(s) == s[i..]
    ensures forall k :: 0 <= k < i ==> IsSpace(s[k])
    ensures TrimLeft(s) != [] ==> !IsSpace(TrimLeft(s)[0])
    decreases |s|
  {
    if s != [] && IsSpace(s[0]) {
      var j := TrimLeftSlice(s[1..]);
      i := j + 1;
      assert s[1..][j..] == s[i..];
      forall k | 0 <= k < i ensures IsSpace(s[k]) {
        if k > 0 { assert s[k] == s[1..][k - 1]; }
      }
    } else {
      i := 0;
    }
  }

  /** TrimRight drops a run of trailing whitespace and nothing else. */
  lemma {:induction false} TrimRightSlice(s: string) returns (j: nat)
    ensures j <= |s| && TrimRight(s) == s[..j]
    ensures forall k :: j <= k < |s| ==> IsSpace(s[k])
    ensures TrimRight(s) != [] ==> !IsSpace(TrimRight(s)[|TrimRight(s)| - 1])
    decreases |s|
  {
    if s != [] && IsSpace(s[|s| - 1]) {
      var init := s[..|s| - 1];
      j := TrimRightSlice(init);
      assert init[..j] == s[..j];
      forall k | j <= k < |s| ensures IsSpace(s[k]) {
        if k < |s| - 1 { assert s[k] == init[k]; }
      }
    } else {
      j := |s|;
      assert s[..j] == s;
    }
  }

  /** A string with no whitespace at either end is its own TrimLeft and TrimRight. */
  lemma TrimmedFixed(s: string)
    requires s != [] ==> !IsSpace(s[0]) && !IsSpace(s[|s| - 1])
    ensures TrimLeft(s) == s && TrimRight(s) == s
  {
  }

  /**
   * Strip removes leading and trailing whitespace only: the result is a slice
   * of the line, everything cut off is whitespace, and the result neither
   * starts nor ends with whitespace.
   */
  lemma StripSlice(s: string) returns (i: nat, j: nat)
    ensures i <= j <= |s| && Strip(s) == s[i..j]
    ensures forall k :: 0 <= k < i ==> IsSpace(s[k])
    ensures forall k :: j <= k < |s| ==> IsSpace(s[k])
    ensures Strip(s) != [] ==> !IsSpace(Strip(s)[0]) && !IsSpace(Strip(s)[|Strip(s)| - 1])
  {
    i := TrimLeftSlice(s);
    var t := s[i..];
    var m := TrimRightSlice(t);
    j := i + m;
    assert t[..m] == s[i..j];
    forall k | j <= k < |s| ensures IsSpace(s[k]) {
      assert s[k] == t[k - i];
    }
    if Strip(s) != [] {
      assert Strip(s)[0] == TrimLeft(s)[0];
    }
  }

  /** Stripping twice is stripping once. */
  lemma StripIdempotent(s: string)
    ensures Strip(Strip(s)) == Strip(s)
  {
    var i, j := StripSlice(s);
    TrimmedFixed(Strip(s));
  }

  /** `str.split(sep)`: the pieces between separators, always at least one, possibly empty. */
  function Split(s: string, sep: char): (fields: seq<string>)
    ensures |fields| >= 1
    decreases |s|
  {
    if s == [] then [""]
    else
      var rest := Split(s[1..], sep);
      if s[0] == sep then [""] + rest
      else [[s[0]] + rest[0]] + rest[1..]
  }

  /** `sep.join(fields)`. */
  function Join(fields: seq<string>, sep: char): string
    requires |fields| >= 1
    decreases |fields|
  {
    if |fields| == 1 then fields[0] else fields[0] + [sep] + Join(fields[1..], sep)
  }

  function Occurrences(s: string, c: char): nat
    decreases |s|
  {
    if s == [] then 0 else (if s[0] == c then 1 else 0) + Occurrences(s[1..], c)
  }

  /** Splitting on a character gives one more piece than it has occurrences. */
  lemma {:induction false} SplitCount(s: string, sep: char)
    ensures |Split(s, sep)| == Occurrences(s, sep) + 1
    decreases |s|
  {
    if s != [] {
      SplitCount(s[1..], sep);
    }
  }

  /** No piece contains the separator. */
  lemma {:induction false} SplitPieces(s: string, sep: char)
    ensures forall n :: 0 <= n < |Split(s, sep)| ==> sep !in Split(s, sep)[n]
    decreases |s|
  {
    if s != [] {
      SplitPieces(s[1..], sep);
      var rest := Split(s[1..], sep);
      if s[0] != sep {
        assert sep !in rest[0];
        var fields := Split(s, sep);
        forall n | 0 <= n < |fields| ensures sep !in fields[n] {
          if n > 0 { assert fields[n] == rest[n]; }
        }
      }
    }
  }

  /** Joining the pieces with the separator gives the string back. */
  lemma {:induction false} JoinSplit(s: string, sep: char)
    ensures Join(Split(s, sep), sep) == s
    decreases |s|
  {
    if s != [] {
      JoinSplit(s[1..], sep);
      var rest := Split(s[1..], sep);
      if s[0] == sep {
        assert ([""] + rest)[1..] == rest;
      } else {
        var fields := [[s[0]] + rest[0]] + rest[1..];
        if |rest| > 1 {
          assert fields[1..] == rest[1..];
          assert Join(rest, sep) == rest[0] + [sep] + Join(rest[1..], sep);
        }
      }
    }
  }

  /** A piece free of the separator, followed by more text, stays at the front of the first field. */
  lemma {:induction false} SplitFront(f: string, t: string, sep: char)
    requires sep !in f
    ensures Split(f + t, sep) == [f + Split(t, sep)[0]] + Split(t, sep)[1..]
    decreases |f|
  {
    if f == [] {
      var r := Split(t, sep);
      assert f + t == t && f + r[0] == r[0];
      assert r == [r[0]] + r[1..];
    } else {
      assert (f + t)[0] == f[0] && (f + t)[1..] == f[1..] + t;
      SplitFront(f[1..], t, sep);
      assert [f[0]] + (f[1..] + Split(t, sep)[0]) == f + Split(t, sep)[0];
    }
  }

  /** Splitting a join of separator-free pieces gives the pieces back. */
  lemma {:induction false} SplitJoin(fields: seq<string>, sep: char)
    requires |fields| >= 1 && forall n :: 0 <= n < |fields| ==> sep !in fields[n]
    ensures Split(Join(fields, sep), sep) == fields
    decreases |fields|
  {
    if |fields| == 1 {
      SplitFront(fields[0], "", sep);
      assert fields[0] + "" == fields[0];
    } else {
      var t := Join(fields[1..], sep);
      SplitJoin(fields[1..], sep);
      assert fields[0] + [sep] + t == fields[0] + ([sep] + t);
      SplitFront(fields[0], [sep] + t, sep);
      assert ([sep] + t)[1..] == t;
      assert fields[0] + "" == fields[0];
      assert [fields[0]] + fields[1..] == fields;
    }
  }

  /** The three known devices (`device_labels`), in the order the buffers are written. */
  datatype Device = Thermostat | Cctv | SmokeDetector

  const Order: seq<Device> := [Thermostat, Cctv, SmokeDetector]

  function Name(d: Device): string
  {
    match d
    case Thermostat => "Thermostat"
    case Cctv => "CCTV"
    case SmokeDetector => "Smoke Detector"
  }

  /** `csv_files[device_name]`. */
  function Path(d: Device): string
  {
    match d
    case Thermostat => "./thermostat.csv"
    case Cctv => "./cctv.csv"
    case SmokeDetector => "./smoke_detector.csv"
  }

  /** The devices have distinct files. */
  lemma PathInjective(d: Device, e: Device)
    ensures Path(d) == Path(e) <==> d == e
  {
  }

  /** `device_name in device_labels`: the device a name stands for, if any. */
  function DeviceOf(name: string): (d: Option<Device>)
    ensures forall e :: d == Some(e) <==> Name(e) == name
  {
    if name == "Thermostat" then Some(Thermostat)
    else if name == "CCTV" then Some(Cctv)
    else if name == "Smoke Detector" then Some(SmokeDetector)
    else None
  }

  /** One CSV row, its cells unparsed. */
  type CsvRow = seq<string>

  /** The header of every device file. */
  const Header: CsvRow := ["Device", "Bus Voltage (V)", "Shunt Voltage (V)", "Current (A)", "Power (W)", "Timestamp"]

  /**
   * Lines 69-88 for one stripped line: split on commas, demand five fields
   * and a known device in the first, and stamp the reading.
   */
  function Parse(line: string, stamp: string): Option<(Device, CsvRow)>
  {
    var fields := Split(line, ',');
    if |fields| != 5 then None
    else match DeviceOf(fields[0])
      case None => None
      case Some(d) => Some((d, fields + [stamp]))
  }

  /**
   * A line is accepted exactly when it has four commas and a known device
   * before the first; the row is then the five fields unchanged and in order,
   * then the stamp, and joining its first five cells gives the line back.
   */
  lemma ParseAccepts(line: string, stamp: string)
    ensures Parse(line, stamp).Some? <==> Occurrences(line, ',') == 4 && DeviceOf(Split(line, ',')[0]).Some?
    ensures Parse(line, stamp).Some? ==>
      var (d, row) := Parse(line, stamp).value;
      && |row| == 6 && row[0] == Name(d) && row[5] == stamp
      && row[..5] == Split(line, ',') && Join(row[..5], ',') == line
  {
    SplitCount(line, ',');
    JoinSplit(line, ',');
    if Parse(line, stamp).Some? {
      var row := Parse(line, stamp).value.1;
      assert row[..5] == Split(line, ',');
    }
  }

  /** A reading written out as a comma-separated line is accepted and buffered as those fields. */
  lemma ParseJoin(fields: seq<string>, d: Device, stamp: string)
    requires |fields| == 5 && fields[0] == Name(d)
    requires forall n :: 0 <= n < 5 ==> ',' !in fields[n]
    ensures Parse(Join(fields, ','), stamp) == Some((d, fields + [stamp]))
  {
    SplitJoin(fields, ',');
  }

  /** An accepted row is never the header: the header's first cell names no device. */
  lemma ParsedNotHeader(line: string, stamp: string)
    requires Parse(line, stamp).Some?
    ensures Parse(line, stamp).value.1 != Header
  {
    var (d, row) := Parse(line, stamp).value;
    assert row[0] == Name(d);
    assert DeviceOf(Header[0]) == None;
  }

  /** `data_buffer`: the rows waiting to be written, per device. */
  type Buffers = map<Device, seq<CsvRow>>

  /** The device files as the file system holds them: a path is present once the file exists. */
  type Files = map<string, seq<CsvRow>>

  /** Every device has a buffer. */
  predicate Ready(b: Buffers)
  {
    forall d: Device :: d in b
  }

  /** `{device: [] for device in device_labels}`. */
  const Empty: Buffers := map[Thermostat := [], Cctv := [], SmokeDetector := []]

  lemma EmptyReady()
    ensures Ready(Empty) && forall d :: Empty[d] == []
  {
    forall d: Device ensures d in Empty && Empty[d] == [] {
      match d
      case Thermostat =>
      case Cctv =>
      case SmokeDetector =>
    }
  }

  /** Seconds between two writes (`update_interval`). */
  const UpdateInterval: real := 5.0

  /** The logger's state: the buffers, the files, and `last_write_time`. */
  datatype LoggerState = LoggerState(buffers: Buffers, files: Files, lastWrite: real)

  /** A file as it reads before rows are appended: its rows, or just the header when it is created. */
  function Existing(f: Files, p: string): seq<CsvRow>
  {
    if p in f then f[p] else [Header]
  }

  /** One iteration of `write_to_csv`: append a non-empty buffer to its file and empty it. */
  function WriteDevice(s: LoggerState, d: Device): (t: LoggerState)
    requires Ready(s.buffers)
    ensures Ready(t.buffers)
  {
    var rows := s.buffers[d];
    if rows == [] then s
    else LoggerState(s.buffers[d := []], s.files[Path(d) := Existing(s.files, Path(d)) + rows], s.lastWrite)
  }

  /** The loop of `write_to_csv` over the devices ds, in order. */
  function WriteDevices(s: LoggerState, ds: seq<Device>): (t: LoggerState)
    requires Ready(s.buffers)
    ensures Ready(t.buffers)
    decreases |ds|
  {
    if ds == [] then s else WriteDevice(WriteDevices(s, ds[..|ds| - 1]), ds[|ds| - 1])
  }

  /** One more device in the loop is one more write. */
  lemma WriteDevicesSnoc(s: LoggerState, ds: seq<Device>, i: nat)
    requires Ready(s.buffers) && i < |ds|
    ensures WriteDevices(s, ds[..i + 1]) == WriteDevice(WriteDevices(s, ds[..i]), ds[i])
  {
    assert ds[..i + 1][..i] == ds[..i];
  }

  /** `write_to_csv()`. */
  function Flushed(s: LoggerState): (t: LoggerState)
    requires Ready(s.buffers)
    ensures Ready(t.buffers)
  {
    WriteDevices(s, Order)
  }

  /** Whether a path is some device's file. */
  predicate IsDevicePath(p: string)
  {
    p == Path(Thermostat) || p == Path(Cctv) || p == Path(SmokeDetector)
  }

  /** The loop over the three devices, one step at a time. */
  lemma FlushUnrolled(s: LoggerState)
    requires Ready(s.buffers)
    ensures Flushed(s) == WriteDevice(WriteDevice(WriteDevice(s, Thermostat), Cctv), SmokeDetector)
  {
    var s1 := WriteDevices(s, [Thermostat]);
    assert [Thermostat][..0] == [];
    assert s1 == WriteDevice(s, Thermostat);
    assert [Thermostat, Cctv][..1] == [Thermostat];
    var s2 := WriteDevices(s, [Thermostat, Cctv]);
    assert s2 == WriteDevice(s1, Cctv);
    assert Order[..2] == [Thermostat, Cctv];
    assert WriteDevices(s, Order) == WriteDevice(s2, SmokeDetector);
  }

  /** Writing device d leaves every other device's buffer and file, and every other file, as they were. */
  lemma WriteOther(s: LoggerState, d: Device, p: string, e: Device)
    requires Ready(s.buffers) && p != Path(d) && e != d
    ensures var t := WriteDevice(s, d);
      && t.buffers[e] == s.buffers[e] && t.lastWrite == s.lastWrite
      && (p in t.files <==> p in s.files) && (p in s.files ==> t.files[p] == s.files[p])
  {
  }

  /**
   * `write_to_csv()` for one device: afterwards its buffer is empty; its file
   * gained exactly its buffered rows, in order, after the header when the file
   * is new; with nothing buffered its file is untouched.
   */
  lemma FlushDevice(s: LoggerState, d: Device)
    requires Ready(s.buffers)
    ensures var t := Flushed(s);
      && t.buffers[d] == [] && t.lastWrite == s.lastWrite
      && (s.buffers[d] != [] ==> Path(d) in t.files && t.files[Path(d)] == Existing(s.files, Path(d)) + s.buffers[d])
      && (s.buffers[d] == [] ==>
            (Path(d) in t.files <==> Path(d) in s.files) && (Path(d) in s.files ==> t.files[Path(d)] == s.files[Path(d)]))
  {
    FlushUnrolled(s);
    var s1 := WriteDevice(s, Thermostat);
    var s2 := WriteDevice(s1, Cctv);
    match d
    case Thermostat =>
      PathInjective(Thermostat, Cctv);
      PathInjective(Thermostat, SmokeDetector);
      WriteOther(s1, Cctv, Path(d), d);
      WriteOther(s2, SmokeDetector, Path(d), d);
    case Cctv =>
      PathInjective(Cctv, Thermostat);
      PathInjective(Cctv, SmokeDetector);
      WriteOther(s, Thermostat, Path(d), d);
      WriteOther(s2, SmokeDetector, Path(d), d);
    case SmokeDetector =>
      PathInjective(SmokeDetector, Thermostat);
      PathInjective(SmokeDetector, Cctv);
      WriteOther(s, Thermostat, Path(d), d);
      WriteOther(s1, Cctv, Path(d), d);
  }

  /** `write_to_csv()` touches no file but the device files. */
  lemma FlushOther(s: LoggerState, p: string)
    requires Ready(s.buffers) && !IsDevicePath(p)
    ensures var t := Flushed(s);
      (p in t.files <==> p in s.files) && (p in s.files ==> t.files[p] == s.files[p])
  {
    FlushUnrolled(s);
    var s1 := WriteDevice(s, Thermostat);
    var s2 := WriteDevice(s1, Cctv);
    WriteOther(s, Thermostat, p, Cctv);
    WriteOther(s1, Cctv, p, Thermostat);
    WriteOther(s2, SmokeDetector, p, Thermostat);
  }

  /**
   * `write_to_csv()` as a whole: every buffer is emptied into its file, and no
   * other file changes.
   */
  lemma FlushFacts(s: LoggerState)
    requires Ready(s.buffers)
    ensures var t := Flushed(s);
      && t.lastWrite == s.lastWrite
      && (forall d :: t.buffers[d] == [])
      && (forall d :: s.buffers[d] != [] ==> Path(d) in t.files && t.files[Path(d)] == Existing(s.files, Path(d)) + s.buffers[d])
      && (forall d :: s.buffers[d] == [] ==>
            (Path(d) in t.files <==> Path(d) in s.files) && (Path(d) in s.files ==> t.files[Path(d)] == s.files[Path(d)]))
      && (forall p :: !IsDevicePath(p) ==> (p in t.files <==> p in s.files) && (p in s.files ==> t.files[p] == s.files[p]))
  {
    forall d { FlushDevice(s, d); }
    forall p | !IsDevicePath(p) { FlushOther(s, p); }
    FlushDevice(s, Thermostat);
  }

  /** What one line does when it is accepted: stamp it and add it to its device's buffer only. */
  function Buffer(s: LoggerState, d: Device, row: CsvRow): (t: LoggerState)
    requires Ready(s.buffers)
    ensures Ready(t.buffers)
  {
    LoggerState(s.buffers[d := s.buffers[d] + [row]], s.files, s.lastWrite)
  }

  /**
   * One pass of the `while True` loop: the line read, if one was waiting,
   * with the time `strftime` gives it; the clock at the timer check; and the
   * clock read again after a write, which restarts the timer.
   */
  datatype Event = Event(line: Option<string>, stamp: string, now: real, after: real)

  /** The reading a pass accepts, if it read a line and the line is valid. */
  function Accepted(ev: Event): Option<(Device, CsvRow)>
  {
    if ev.line.None? then None else Parse(Strip(ev.line.value), ev.stamp)
  }

  /**
   * The timer check at the end of a pass: write everything once five seconds
   * have passed at `now`, then restart the timer at `after`, the clock read
   * once the write is done.
   */
  function Timed(s: LoggerState, now: real, after: real): (t: LoggerState)
    requires Ready(s.buffers)
    ensures Ready(t.buffers)
  {
    if now - s.lastWrite >= UpdateInterval then
      var t := Flushed(s);
      LoggerState(t.buffers, t.files, after)
    else s
  }

  /**
   * One pass of the loop. A line that is rejected ends the pass with
   * `continue`, so the timer is not checked on that pass.
   */
  function Ticked(s: LoggerState, ev: Event): (t: LoggerState)
    requires Ready(s.buffers)
    ensures Ready(t.buffers)
  {
    if ev.line.None? then Timed(s, ev.now, ev.after)
    else match Accepted(ev)
      case None => s
      case Some((d, row)) => Timed(Buffer(s, d, row), ev.now, ev.after)
  }

  /** The passes over a sequence of events, in order. */
  function Ticks(s: LoggerState, events: seq<Event>): (t: LoggerState)
    requires Ready(s.buffers)
    ensures Ready(t.buffers)
    decreases |events|
  {
    if events == [] then s else Ticked(Ticks(s, events[..|events| - 1]), events[|events| - 1])
  }

  /** The state at start-up: empty buffers, the files as they were, the clock read once. */
  function Initial(files: Files, start: real): (s: LoggerState)
    ensures Ready(s.buffers)
  {
    EmptyReady();
    LoggerState(Empty, files, start)
  }

  /** The whole run: the passes, then the `finally` block's last write. */
  function Logged(files: Files, start: real, events: seq<Event>): (t: LoggerState)
    ensures Ready(t.buffers)
  {
    Flushed(Ticks(Initial(files, start), events))
  }

  /** A rejected line changes nothing at all, not even the timer. */
  lemma RejectedLine(s: LoggerState, ev: Event)
    requires Ready(s.buffers) && ev.line.Some?
    requires var fields := Split(Strip(ev.line.value), ','); |fields| != 5 || DeviceOf(fields[0]).None?
    ensures Ticked(s, ev) == s
  {
  }

  /**
   * A pass that reads an accepted line, or no line, writes exactly when five
   * seconds have passed since the last write, and then restarts the timer at
   * the clock read after the write; otherwise the files and the timer stay,
   * and only the line's device buffer gains the row.
   */
  lemma TickTimer(s: LoggerState, ev: Event)
    requires Ready(s.buffers) && (ev.line.Some? ==> Accepted(ev).Some?)
    ensures var t := Ticked(s, ev);
      && (ev.now - s.lastWrite >= UpdateInterval ==> t.lastWrite == ev.after && forall d :: t.buffers[d] == [])
      && (ev.now - s.lastWrite < UpdateInterval ==>
            && t.lastWrite == s.lastWrite && t.files == s.files
            && (ev.line.None? ==> t.buffers == s.buffers)
            && (ev.line.Some? ==>
                 var (d, row) := Accepted(ev).value;
                 t.buffers[d] == s.buffers[d] + [row] && forall e :: e != d ==> t.buffers[e] == s.buffers[e]))
  {
    if ev.line.None? {
      FlushFacts(s);
    } else {
      var (d, row) := Accepted(ev).value;
      FlushFacts(Buffer(s, d, row));
    }
  }

  /** The rows accepted for device d over a sequence of events, in order. */
  function AcceptedRows(events: seq<Event>, d: Device): seq<CsvRow>
    decreases |events|
  {
    if events == [] then []
    else
      var a := Accepted(events[|events| - 1]);
      AcceptedRows(events[..|events| - 1], d) + (if a.Some? && a.value.0 == d then [a.value.1] else [])
  }

  /** One more event adds its reading, if it has one for d. */
  lemma AcceptedRowsSnoc(events: seq<Event>, ev: Event, d: Device)
    ensures AcceptedRows(events + [ev], d)
         == AcceptedRows(events, d) + (if Accepted(ev).Some? && Accepted(ev).value.0 == d then [Accepted(ev).value.1] else [])
  {
    var es := events + [ev];
    assert es[..|es| - 1] == events && es[|es| - 1] == ev;
  }

  /** No accepted row is the header. */
  lemma {:induction false} AcceptedNotHeader(events: seq<Event>, d: Device)
    ensures Header !in AcceptedRows(events, d)
    decreases |events|
  {
    if events != [] {
      AcceptedNotHeader(events[..|events| - 1], d);
      var ev := events[|events| - 1];
      if Accepted(ev).Some? {
        ParsedNotHeader(Strip(ev.line.value), ev.stamp);
      }
    }
  }

  /** The rows the logger appended to a file, after the header it wrote when it created the file. */
  function Output(f0: Files, f: Files, p: string): seq<CsvRow>
  {
    if p in f0 then (if p in f && |f0[p]| <= |f[p]| then f[p][|f0[p]|..] else [])
    else if p in f && |f[p]| > 0 then f[p][1..] else []
  }

  /**
   * What holds of one path throughout a run that began with files f0: a file
   * that existed is only appended to, and only if it is a device file; a file
   * that did not exist is a device file that starts with the header and holds
   * at least one row after it.
   */
  predicate PathFaithful(f0: Files, f: Files, p: string)
  {
    && (p in f0 ==> p in f && |f0[p]| <= |f[p]| && f[p][..|f0[p]|] == f0[p] && (!IsDevicePath(p) ==> f[p] == f0[p]))
    && (p in f && p !in f0 ==> IsDevicePath(p) && |f[p]| > 1 && f[p][0] == Header)
  }

  /**
   * The run's invariant: every path is faithful, and per device, what was
   * appended to its file followed by what is buffered is every row accepted
   * for it.
   */
  ghost predicate Faithful(f0: Files, s: LoggerState, events: seq<Event>)
  {
    && Ready(s.buffers)
    && (forall p :: PathFaithful(f0, s.files, p))
    && (forall d :: Output(f0, s.files, Path(d)) + s.buffers[d] == AcceptedRows(events, d))
  }

  /** The run starts faithful. */
  lemma InitialFaithful(f0: Files, start: real)
    ensures Faithful(f0, Initial(f0, start), [])
  {
    EmptyReady();
    forall p ensures PathFaithful(f0, f0, p) {
      if p in f0 { assert f0[p][..|f0[p]|] == f0[p]; }
    }
    forall d ensures Output(f0, f0, Path(d)) == [] {
      if Path(d) in f0 { assert f0[Path(d)][|f0[Path(d)]|..] == []; }
    }
  }

  /** Buffering an accepted row keeps the run faithful. */
  lemma BufferFaithful(f0: Files, s: LoggerState, events: seq<Event>, ev: Event)
    requires Faithful(f0, s, events) && Accepted(ev).Some?
    ensures Faithful(f0, Buffer(s, Accepted(ev).value.0, Accepted(ev).value.1), events + [ev])
  {
    var (d, row) := Accepted(ev).value;
    var t := Buffer(s, d, row);
    assert t.files == s.files;
    forall e ensures Output(f0, t.files, Path(e)) + t.buffers[e] == AcceptedRows(events + [ev], e) {
      assert t.buffers[e] == if e == d then s.buffers[e] + [row] else s.buffers[e];
      BufferRows(Output(f0, s.files, Path(e)), s.buffers[e], events, ev, e, d, row);
    }
  }

  /** A device's written and buffered rows gain the pass's reading exactly when it is for that device. */
  lemma BufferRows(written: seq<CsvRow>, buffered: seq<CsvRow>, events: seq<Event>, ev: Event, e: Device, d: Device, row: CsvRow)
    requires Accepted(ev) == Some((d, row)) && written + buffered == AcceptedRows(events, e)
    ensures written + (if e == d then buffered + [row] else buffered) == AcceptedRows(events + [ev], e)
  {
    AcceptedRowsSnoc(events, ev, e);
    if e == d {
      assert written + (buffered + [row]) == (written + buffered) + [row];
    }
  }

  /** An event with no accepted reading adds nothing to be logged. */
  lemma SkipFaithful(f0: Files, s: LoggerState, events: seq<Event>, ev: Event)
    requires Faithful(f0, s, events) && Accepted(ev).None?
    ensures Faithful(f0, s, events + [ev])
  {
    forall e ensures AcceptedRows(events + [ev], e) == AcceptedRows(events, e) {
      AcceptedRowsSnoc(events, ev, e);
    }
  }

  /** Appending a device's non-empty buffer to its file moves its rows from the buffer to the file. */
  lemma WriteOneFaithful(f0: Files, f: Files, g: Files, p: string, b: seq<CsvRow>, acc: seq<CsvRow>)
    requires PathFaithful(f0, f, p) && IsDevicePath(p) && Output(f0, f, p) + b == acc
    requires b != [] && p in g && g[p] == Existing(f, p) + b
    ensures Output(f0, g, p) == acc && PathFaithful(f0, g, p)
  {
    if p in f0 {
      AppendExisting(f0[p], f[p], g[p], b);
    } else if p in f {
      AppendCreated(f[p], g[p], b);
    } else {
      assert g[p] == [Header] + b;
    }
  }

  /** A file that existed keeps its old rows as a prefix when rows are appended after them. */
  lemma AppendExisting(old0: seq<CsvRow>, cur: seq<CsvRow>, next: seq<CsvRow>, b: seq<CsvRow>)
    requires |old0| <= |cur| && cur[..|old0|] == old0 && next == cur + b
    ensures |old0| <= |next| && next[..|old0|] == old0 && next[|old0|..] == cur[|old0|..] + b
  {
    assert next[..|old0|] == cur[..|old0|];
    assert next[|old0|..] == cur[|old0|..] + b;
  }

  /** A file the logger created keeps its header when rows are appended. */
  lemma AppendCreated(cur: seq<CsvRow>, next: seq<CsvRow>, b: seq<CsvRow>)
    requires |cur| > 0 && next == cur + b
    ensures (b != [] ==> |next| > 1) && next[0] == cur[0] && next[1..] == cur[1..] + b
  {
    assert next[1..] == cur[1..] + b;
  }

  /** Writing the buffers keeps the run faithful. */
  lemma FlushFaithful(f0: Files, s: LoggerState, events: seq<Event>)
    requires Faithful(f0, s, events)
    ensures Faithful(f0, Flushed(s), events)
  {
    var t := Flushed(s);
    FlushFacts(s);
    forall d ensures Output(f0, t.files, Path(d)) + t.buffers[d] == AcceptedRows(events, d) && PathFaithful(f0, t.files, Path(d)) {
      if s.buffers[d] != [] {
        assert PathFaithful(f0, s.files, Path(d));
        WriteOneFaithful(f0, s.files, t.files, Path(d), s.buffers[d], AcceptedRows(events, d));
      } else {
        assert PathFaithful(f0, s.files, Path(d));
      }
    }
    forall p ensures PathFaithful(f0, t.files, p) {
      if !IsDevicePath(p) {
        assert PathFaithful(f0, s.files, p);
      } else if p == Path(Thermostat) {
      } else if p == Path(Cctv) {
      } else {
        assert PathFaithful(f0, t.files, Path(SmokeDetector));
      }
    }
  }

  /** The timer check keeps the run faithful. */
  lemma TimedFaithful(f0: Files, s: LoggerState, events: seq<Event>, now: real, after: real)
    requires Faithful(f0, s, events)
    ensures Faithful(f0, Timed(s, now, after), events)
  {
    FlushFaithful(f0, s, events);
  }

  /** One pass keeps the run faithful. */
  lemma TickFaithful(f0: Files, s: LoggerState, events: seq<Event>, ev: Event)
    requires Faithful(f0, s, events)
    ensures Faithful(f0, Ticked(s, ev), events + [ev])
  {
    if ev.line.None? {
      SkipFaithful(f0, s, events, ev);
      TimedFaithful(f0, s, events + [ev], ev.now, ev.after);
    } else if Accepted(ev).None? {
      SkipFaithful(f0, s, events, ev);
    } else {
      var (d, row) := Accepted(ev).value;
      BufferFaithful(f0, s, events, ev);
      TimedFaithful(f0, Buffer(s, d, row), events + [ev], ev.now, ev.after);
    }
  }

  /** Every prefix of the run is faithful. */
  lemma {:induction false} TicksFaithful(f0: Files, start: real, events: seq<Event>)
    ensures Faithful(f0, Ticks(Initial(f0, start), events), events)
    decreases |events|
  {
    if events == [] {
      InitialFaithful(f0, start);
    } else {
      var init := events[..|events| - 1];
      TicksFaithful(f0, start, init);
      TickFaithful(f0, Ticks(Initial(f0, start), init), init, events[|events| - 1]);
      assert init + [events[|events| - 1]] == events;
    }
  }

  /** Once a device's buffer is empty, its file holds exactly what was accepted for it. */
  lemma FinalDevice(f0: Files, t: LoggerState, events: seq<Event>, d: Device)
    requires Faithful(f0, t, events) && t.buffers[d] == []
    ensures Path(d) in f0 ==> Path(d) in t.files && t.files[Path(d)] == f0[Path(d)] + AcceptedRows(events, d)
    ensures Path(d) !in f0 ==>
      && (Path(d) in t.files <==> AcceptedRows(events, d) != [])
      && (Path(d) in t.files ==> t.files[Path(d)] == [Header] + AcceptedRows(events, d))
      && Header !in AcceptedRows(events, d)
  {
    AcceptedNotHeader(events, d);
    var p := Path(d);
    assert PathFaithful(f0, t.files, p);
    var acc := AcceptedRows(events, d);
    assert Output(f0, t.files, p) == acc by {
      assert Output(f0, t.files, p) + [] == acc;
    }
    if p in f0 {
      SplitAt(f0[p], t.files[p]);
    } else if p in t.files {
      SplitAt([Header], t.files[p]);
    }
  }

  /** A sequence that starts with pre is pre followed by the rest. */
  lemma SplitAt(pre: seq<CsvRow>, whole: seq<CsvRow>)
    requires |pre| <= |whole| && whole[..|pre|] == pre
    ensures whole == pre + whole[|pre|..]
  {
    assert whole == whole[..|pre|] + whole[|pre|..];
  }

  /**
   * At the end of a run no accepted row is left unwritten: every buffer is
   * empty; a device file that existed is its old contents followed by every
   * row accepted for that device, in order; a device file that did not exist
   * is created exactly when a row was accepted for it, and then holds the
   * header once, at its start, followed by those rows; no other file is
   * created or changed.
   */
  lemma LoggedEverything(f0: Files, start: real, events: seq<Event>)
    ensures var t := Logged(f0, start, events);
      && (forall d :: t.buffers[d] == [])
      && (forall d :: Path(d) in f0 ==> Path(d) in t.files && t.files[Path(d)] == f0[Path(d)] + AcceptedRows(events, d))
      && (forall d :: Path(d) !in f0 ==>
            && (Path(d) in t.files <==> AcceptedRows(events, d) != [])
            && (Path(d) in t.files ==> t.files[Path(d)] == [Header] + AcceptedRows(events, d))
            && Header !in AcceptedRows(events, d))
      && (forall p :: p in f0 && !IsDevicePath(p) ==> p in t.files && t.files[p] == f0[p])
      && (forall p :: p in t.files && p !in f0 ==> IsDevicePath(p))
  {
    var t := Logged(f0, start, events);
    assert Faithful(f0, t, events) && forall d :: t.buffers[d] == [] by {
      var s := Ticks(Initial(f0, start), events);
      TicksFaithful(f0, start, events);
      FlushFaithful(f0, s, events);
      FlushFacts(s);
    }
    forall d {
      FinalDevice(f0, t, events, d);
    }
    forall p | p in f0 && !IsDevicePath(p) ensures p in t.files && t.files[p] == f0[p] {
      assert PathFaithful(f0, t.files, p);
    }
    forall p | p in t.files && p !in f0 ensures IsDevicePath(p) {
      assert PathFaithful(f0, t.files, p);
    }
  }

  /** The logger process: `data_buffer`, the device files and `last_write_time`. */
  class Logger {
    var buffers: Buffers
    var files: Files
    var lastWriteTime: real

    function State(): LoggerState
      reads this
    {
      LoggerState(buffers, files, lastWriteTime)
    }

    /** Start-up: empty buffers, the files as found, and the clock read once. */
    constructor (files: Files, start: real)
      ensures State() == Initial(files, start) && Ready(buffers)
    {
      EmptyReady();
      buffers := Empty;
      this.files := files;
      lastWriteTime := start;
    }

    /** `write_to_csv()`. */
    method WriteToCsv()
      requires Ready(buffers)
      modifies this
      ensures State() == Flushed(old(State())) && Ready(buffers)
    {
      ghost var s0 := State();
      for i := 0 to |Order|
        invariant Ready(buffers)
        invariant State() == WriteDevices(s0, Order[..i])
      {
        WriteDevicesSnoc(s0, Order, i);
        WriteFile(Order[i]);
      }
      assert Order[..|Order|] == Order;
    }

    /** One iteration of `write_to_csv`'s loop. */
    method WriteFile(device: Device)
      requires Ready(buffers)
      modifies this
      ensures State() == WriteDevice(old(State()), device) && Ready(buffers)
    {
      var rows := buffers[device];
      if rows != [] {
        var path := Path(device);
        var fileExists := path in files;
        var contents := if fileExists then files[path] else [];
        if !fileExists {
          contents := contents + [Header];
        }
        assert contents == Existing(files, path);
        contents := contents + rows;
        files := files[path := contents];
        buffers := buffers[device := []];
      }
    }

    /** Lines 67-88 for one stripped line: returns whether the line was buffered rather than skipped. */
    method HandleLine(line: string, stamp: string) returns (accepted: bool)
      requires Ready(buffers)
      modifies this
      ensures accepted <==> Parse(line, stamp).Some?
      ensures accepted ==> State() == Buffer(old(State()), Parse(line, stamp).value.0, Parse(line, stamp).value.1)
      ensures !accepted ==> State() == old(State())
      ensures Ready(buffers)
    {
      var data := Split(line, ',');
      if |data| != 5 {
        return false;
      }
      var device := DeviceOf(data[0]);
      if device.None? {
        return false;
      }
      buffers := buffers[device.value := buffers[device.value] + [data + [stamp]]];
      return true;
    }

    /** One pass of the `while True` loop. */
    method Tick(ev: Event)
      requires Ready(buffers)
      modifies this
      ensures State() == Ticked(old(State()), ev) && Ready(buffers)
    {
      if ev.line.Some? {
        var line := Strip(ev.line.value);
        var accepted := HandleLine(line, ev.stamp);
        if !accepted {
          return;
        }
      }
      if ev.now - lastWriteTime >= UpdateInterval {
        WriteToCsv();
        lastWriteTime := ev.after;
      }
    }

    /** The loop over the events, then the `finally` block's last write. */
    method Run(events: seq<Event>)
      requires Ready(buffers)
      modifies this
      ensures State() == Flushed(Ticks(old(State()), events))
    {
      ghost var s0 := State();
      for i := 0 to |events|
        invariant Ready(buffers)
        invariant State() == Ticks(s0, events[..i])
      {
        assert events[..i + 1][..i] == events[..i];
        Tick(events[i]);
      }
      assert events[..|events|] == events;
      WriteToCsv();
    }
  }
}
