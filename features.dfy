/**
 * The windowed feature extractor that UI.py, CCTV.py and random_both.py
 * each apply to a whole log with pandas: for bus voltage, shunt voltage and
 * power, the 5-row rolling mean, the 5-row rolling mode and the 5-row
 * rolling mean of first differences, followed by `dropna`, which keeps only
 * the rows where every column is defined.
 */
module Features {
  import opened Base

  /** Every rolling statistic spans this many rows (`rolling(window=5)`). */
  const Window: nat := 5

  /**
   * One row of a device log as the CSV reader yields it. A numeric cell that
   * is empty in the file is None (pandas' NaN).
   */
  datatype Row = Row(device: string, bus: Option<real>, shunt: Option<real>,
                     current: Option<real>, power: Option<real>, timestamp: string)

  /** The four numeric columns of a log. */
  datatype Quantity = Bus | Shunt | Current | Power

  function Cell(r: Row, q: Quantity): Option<real>
  {
    match q
    case Bus => r.bus
    case Shunt => r.shunt
    case Current => r.current
    case Power => r.power
  }

  /** A log has no missing numeric cell. */
  predicate Complete(log: seq<Row>)
  {
    forall i, q :: 0 <= i < |log| ==> Cell(log[i], q).Some?
  }

  /** A pandas float column: None stands for NaN. */
  type Column = seq<Option<real>>

  function ColumnOf(log: seq<Row>, q: Quantity): (c: Column)
    ensures |c| == |log|
    ensures forall i :: 0 <= i < |log| ==> c[i] == Cell(log[i], q)
  {
    seq(|log|, i requires 0 <= i < |log| => Cell(log[i], q))
  }

  function Sum(w: seq<real>): real
    decreases |w|
  {
    if w == [] then 0.0 else Sum(w[..|w| - 1]) + w[|w| - 1]
  }

  function Mean(w: seq<real>): real
    requires |w| > 0
  {
    Sum(w) / (|w| as real)
  }

  /**
   * The window ending at row i: rows i-4..i, provided there are that many and
   * all of them are defined (pandas' default min_periods equals the window).
   */
  function WindowAt(c: Column, i: nat): (w: Option<seq<real>>)
    requires i < |c|
    ensures w.Some? <==> Window <= i + 1 && forall j :: i + 1 - Window <= j <= i ==> c[j].Some?
    ensures w.Some? ==> |w.value| == Window
    ensures w.Some? ==> forall k :: 0 <= k < Window ==> c[i + 1 - Window + k] == Some(w.value[k])
  {
    if i + 1 < Window then None
    else if forall j | i + 1 - Window <= j <= i :: c[j].Some? then
      Some(seq(Window, k requires 0 <= k < Window => c[i + 1 - Window + k].value))
    else None
  }

  /** `x.rolling(window=5).mean()` at row i. */
  function MeanAt(c: Column, i: nat): Option<real>
    requires i < |c|
  {
    match WindowAt(c, i)
    case None => None
    case Some(w) => Some(Mean(w))
  }

  /** How many cells of the window hold v. */
  function Count(w: seq<real>, v: real): nat
    decreases |w|
  {
    if w == [] then 0 else Count(w[..|w| - 1], v) + (if w[|w| - 1] == v then 1 else 0)
  }

  /**
   * Among w[..k], a value of highest count in w; on a tie the earlier-found
   * one unless a later one is smaller.
   */
  function PickMode(w: seq<real>, k: nat): real
    requires 0 < k <= |w|
    decreases k
  {
    if k == 1 then w[0]
    else
      var m := PickMode(w, k - 1);
      var x := w[k - 1];
      if Count(w, x) > Count(w, m) || (Count(w, x) == Count(w, m) && x < m) then x else m
  }

  /** PickMode(w, k) is a most frequent value of w among w[..k], the smallest such. */
  lemma {:induction false} PickModeIsMode(w: seq<real>, k: nat)
    requires 0 < k <= |w|
    ensures PickMode(w, k) in w[..k]
    ensures forall j :: 0 <= j < k ==> Count(w, w[j]) <= Count(w, PickMode(w, k))
    ensures forall j :: 0 <= j < k && Count(w, w[j]) == Count(w, PickMode(w, k)) ==> PickMode(w, k) <= w[j]
    decreases k
  {
    if k > 1 {
      PickModeIsMode(w, k - 1);
      assert w[..k] == w[..k - 1] + [w[k - 1]];
    }
  }

  /** `x.mode()[0]` on a non-empty window: pandas' `Series.mode` returns the modes sorted and the source takes the first. */
  function WindowMode(w: seq<real>): real
    requires |w| > 0
  {
    PickMode(w, |w|)
  }

  /** The window's mode occurs in it, no value occurs more often, and no smaller value occurs as often. */
  lemma WindowModeIsMode(w: seq<real>)
    requires |w| > 0
    ensures WindowMode(w) in w
    ensures forall j :: 0 <= j < |w| ==> Count(w, w[j]) <= Count(w, WindowMode(w))
    ensures forall j :: 0 <= j < |w| && Count(w, w[j]) == Count(w, WindowMode(w)) ==> WindowMode(w) <= w[j]
  {
    PickModeIsMode(w, |w|);
    assert w[..|w|] == w;
  }

  /** `x.rolling(window=5).apply(lambda x: x.mode()[0] ...)` at row i. */
  function ModeAt(c: Column, i: nat): Option<real>
    requires i < |c|
  {
    match WindowAt(c, i)
    case None => None
    case Some(w) => Some(WindowMode(w))
  }

  /** `x.diff()`: row 0, and any row next to a NaN, has no difference. */
  function Diff(c: Column): (d: Column)
    ensures |d| == |c|
    ensures forall j {:trigger d[j]} :: 0 <= j < |c| ==>
      d[j] == if 0 < j && c[j].Some? && c[j - 1].Some? then Some(c[j].value - c[j - 1].value) else None
  {
    seq(|c|, j requires 0 <= j < |c| =>
      if j == 0 then None
      else match (c[j], c[j - 1])
        case (Some(x), Some(y)) => Some(x - y)
        case _ => None)
  }

  /** `x.diff().rolling(window=5).mean()` at row i: the "Rate of Change". */
  function RateAt(c: Column, i: nat): Option<real>
    requires i < |c|
  {
    MeanAt(Diff(c), i)
  }

  /** The three derived features of one quantity at one row. */
  datatype Stats = Stats(mean: real, mode: real, rate: real)

  function StatsAt(c: Column, i: nat): Option<Stats>
    requires i < |c|
  {
    var mean := MeanAt(c, i);
    var mode := ModeAt(c, i);
    var rate := RateAt(c, i);
    if mean.Some? && mode.Some? && rate.Some? then Some(Stats(mean.value, mode.value, rate.value)) else None
  }

  /**
   * A row that survives `dropna`: its position in the log (pandas keeps the
   * index label), its raw cells and its nine derived features.
   */
  datatype FeatureRow = FeatureRow(pos: nat, device: string, bus: real, shunt: real,
                                   current: real, power: real, timestamp: string,
                                   busStats: Stats, shuntStats: Stats, powerStats: Stats)

  /** No numeric cell of the row is NaN. */
  predicate RowDefined(r: Row)
  {
    r.bus.Some? && r.shunt.Some? && r.current.Some? && r.power.Some?
  }

  /** Row i of the log after the nine feature columns are added, if no column of it is NaN. */
  function FeatureAt(log: seq<Row>, i: nat): (r: Option<FeatureRow>)
    requires i < |log|
    ensures r.Some? <==> && StatsAt(ColumnOf(log, Bus), i).Some? && StatsAt(ColumnOf(log, Shunt), i).Some?
                         && StatsAt(ColumnOf(log, Power), i).Some? && RowDefined(log[i])
    ensures r.Some? ==> r.value.busStats == StatsAt(ColumnOf(log, Bus), i).value
    ensures r.Some? ==> r.value.shuntStats == StatsAt(ColumnOf(log, Shunt), i).value
    ensures r.Some? ==> r.value.powerStats == StatsAt(ColumnOf(log, Power), i).value
    ensures r.Some? ==> r.value.pos == i && r.value.device == log[i].device
    ensures r.Some? ==> r.value.timestamp == log[i].timestamp && RowDefined(log[i])
    ensures r.Some? ==> log[i].bus == Some(r.value.bus) && log[i].shunt == Some(r.value.shunt)
    ensures r.Some? ==> log[i].current == Some(r.value.current) && log[i].power == Some(r.value.power)
  {
    var row := log[i];
    var bs := StatsAt(ColumnOf(log, Bus), i);
    var ss := StatsAt(ColumnOf(log, Shunt), i);
    var ps := StatsAt(ColumnOf(log, Power), i);
    if bs.Some? && ss.Some? && ps.Some? && RowDefined(row) then
      Some(FeatureRow(i, row.device, row.bus.value, row.shunt.value, row.current.value, row.power.value,
                      row.timestamp, bs.value, ss.value, ps.value))
    else None
  }

  /** The log after the nine feature columns are added: row i, or None where a column of it is NaN. */
  function Table(log: seq<Row>): (t: seq<Option<FeatureRow>>)
    ensures |t| == |log|
    ensures forall i :: 0 <= i < |log| ==> t[i] == FeatureAt(log, i)
  {
    seq(|log|, i requires 0 <= i < |log| => FeatureAt(log, i))
  }

  /** Each defined entry of a table carries its own position. */
  predicate Positioned(t: seq<Option<FeatureRow>>)
  {
    forall i :: 0 <= i < |t| && t[i].Some? ==> t[i].value.pos == i
  }

  /** `dropna` on the first k entries of a table: the defined ones, in order. */
  function DropNa(t: seq<Option<FeatureRow>>, k: nat): (rows: seq<FeatureRow>)
    requires k <= |t|
    decreases k
  {
    if k == 0 then []
    else DropNa(t, k - 1) + if t[k - 1].Some? then [t[k - 1].value] else []
  }

  /**
   * `dropna` keeps the defined entries with their positions, in increasing
   * order of position, and every one of them.
   */
  lemma {:induction false} DropNaFacts(t: seq<Option<FeatureRow>>, k: nat)
    requires k <= |t| && Positioned(t)
    ensures forall n :: 0 <= n < |DropNa(t, k)| ==> DropNa(t, k)[n].pos < k && t[DropNa(t, k)[n].pos] == Some(DropNa(t, k)[n])
    ensures forall n, m :: 0 <= n < m < |DropNa(t, k)| ==> DropNa(t, k)[n].pos < DropNa(t, k)[m].pos
    ensures forall i :: 0 <= i < k && t[i].Some? ==> t[i].value in DropNa(t, k)
    decreases k
  {
    if k > 0 {
      DropNaFacts(t, k - 1);
      var init := DropNa(t, k - 1);
      var rows := DropNa(t, k);
      assert forall n :: 0 <= n < |init| ==> rows[n] == init[n];
      assert t[k - 1].Some? ==> rows[|init|] == t[k - 1].value && |rows| == |init| + 1;
      assert t[k - 1].None? ==> rows == init;
    }
  }

  /**
   * The feature table after `dropna`: exactly the rows of the log whose every
   * column is defined, in log order.
   */
  function Extract(log: seq<Row>): (rows: seq<FeatureRow>)
    ensures forall n :: 0 <= n < |rows| ==> rows[n].pos < |log| && FeatureAt(log, rows[n].pos) == Some(rows[n])
    ensures forall n, m :: 0 <= n < m < |rows| ==> rows[n].pos < rows[m].pos
    ensures forall i :: 0 <= i < |log| && FeatureAt(log, i).Some? ==> FeatureAt(log, i).value in rows
  {
    var t := Table(log);
    DropNaFacts(t, |t|);
    DropNa(t, |t|)
  }
}
