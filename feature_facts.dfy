/**
 * What the windowed features mean: which rows survive `dropna`, the closed
 * forms of the rolling mean and the rolling rate of change, constant windows,
 * and the fact that a row's features depend only on the rows before it.
 */
module FeatureFacts {
  import opened Base
  import opened Features

  lemma SumFive(w: seq<real>)
    requires |w| == 5
    ensures Sum(w) == w[0] + w[1] + w[2] + w[3] + w[4]
  {
    assert w[..1][..0] == [];
    assert Sum(w[..1]) == w[0];
    assert w[..2][..1] == w[..1];
    assert Sum(w[..2]) == w[0] + w[1];
    assert w[..3][..2] == w[..2];
    assert Sum(w[..3]) == w[0] + w[1] + w[2];
    assert w[..4][..3] == w[..3];
    assert Sum(w[..4]) == w[0] + w[1] + w[2] + w[3];
    assert w[..4] == w[..|w| - 1];
  }

  /** Five consecutive differences of six values sum to the last minus the first. */
  lemma FiveDifferences(w: seq<real>, x0: real, x1: real, x2: real, x3: real, x4: real, x5: real)
    requires |w| == 5
    requires w[0] == x1 - x0 && w[1] == x2 - x1 && w[2] == x3 - x2 && w[3] == x4 - x3 && w[4] == x5 - x4
    ensures Sum(w) == x5 - x0 && Mean(w) == (x5 - x0) / 5.0
  {
    SumFive(w);
  }

  /** The rolling mean is defined exactly on rows 4.. whose window has no NaN, and is the average of the five cells. */
  lemma MeanFormula(c: Column, i: nat)
    requires i < |c|
    ensures MeanAt(c, i).Some? <==> 4 <= i && forall j :: i - 4 <= j <= i ==> c[j].Some?
    ensures MeanAt(c, i).Some? ==>
      MeanAt(c, i).value == (c[i - 4].value + c[i - 3].value + c[i - 2].value + c[i - 1].value + c[i].value) / 5.0
  {
    var w := WindowAt(c, i);
    if w.Some? {
      SumFive(w.value);
      assert c[i - 4] == Some(w.value[0]) && c[i - 3] == Some(w.value[1]) && c[i - 2] == Some(w.value[2]);
      assert c[i - 1] == Some(w.value[3]) && c[i] == Some(w.value[4]);
    }
  }

  /** The Diff column is defined at j exactly when j and j - 1 both are. */
  lemma DiffWindow(c: Column, i: nat)
    requires i < |c|
    ensures WindowAt(Diff(c), i).Some? <==> 5 <= i && forall j :: i - 5 <= j <= i ==> c[j].Some?
  {
    var d := Diff(c);
    assert d[0].None?;
    if WindowAt(d, i).Some? {
      assert 5 <= i;
      forall j | i - 5 <= j <= i ensures c[j].Some? {
        if j < i { assert d[j + 1].Some?; } else { assert d[j].Some?; }
      }
    }
  }

  /**
   * The rate of change is defined exactly on rows 5.. with six defined cells
   * i-5..i, and equals (x[i] - x[i-5]) / 5: the mean of five consecutive
   * differences telescopes.
   */
  lemma RateTelescopes(c: Column, i: nat)
    requires i < |c|
    ensures RateAt(c, i).Some? <==> 5 <= i && forall j :: i - 5 <= j <= i ==> c[j].Some?
    ensures RateAt(c, i).Some? ==> RateAt(c, i).value == (c[i].value - c[i - 5].value) / 5.0
  {
    DiffWindow(c, i);
    if WindowAt(Diff(c), i).Some? {
      RateValue(c, i);
    }
  }

  /** Where the window is defined, the rolling mean is the mean of the window. */
  lemma DefinedMean(x: Column, i: nat)
    requires i < |x| && WindowAt(x, i).Some?
    ensures MeanAt(x, i) == Some(Mean(WindowAt(x, i).value))
  {
  }

  /** The value half of RateTelescopes. */
  lemma RateValue(c: Column, i: nat)
    requires i < |c| && WindowAt(Diff(c), i).Some?
    ensures 5 <= i && c[i].Some? && c[i - 5].Some?
    ensures RateAt(c, i) == Some((c[i].value - c[i - 5].value) / 5.0)
  {
    DiffMean(c, i);
    DefinedMean(Diff(c), i);
  }

  /** The mean of a defined window of differences telescopes to (x[i] - x[i-5]) / 5. */
  lemma DiffMean(c: Column, i: nat)
    requires i < |c| && WindowAt(Diff(c), i).Some?
    ensures 5 <= i && c[i].Some? && c[i - 5].Some?
    ensures Mean(WindowAt(Diff(c), i).value) == (c[i].value - c[i - 5].value) / 5.0
  {
    DiffCells(c, i);
    var w := WindowAt(Diff(c), i).value;
    FiveDifferences(w, c[i - 5].value, c[i - 4].value, c[i - 3].value, c[i - 2].value, c[i - 1].value, c[i].value);
  }

  /** The five cells of a defined window of differences: x[i-4] - x[i-5], ..., x[i] - x[i-1]. */
  lemma DiffCells(c: Column, i: nat)
    requires i < |c| && WindowAt(Diff(c), i).Some?
    ensures 5 <= i && forall j :: i - 5 <= j <= i ==> c[j].Some?
    ensures var w := WindowAt(Diff(c), i).value;
      && w[0] == c[i - 4].value - c[i - 5].value && w[1] == c[i - 3].value - c[i - 4].value
      && w[2] == c[i - 2].value - c[i - 3].value && w[3] == c[i - 1].value - c[i - 2].value
      && w[4] == c[i].value - c[i - 1].value
  {
    DiffWindow(c, i);
    var d := Diff(c);
    WindowCells(d, i);
    assert d[i - 4].value == c[i - 4].value - c[i - 5].value && d[i - 3].value == c[i - 3].value - c[i - 4].value;
    assert d[i - 2].value == c[i - 2].value - c[i - 3].value && d[i - 1].value == c[i - 1].value - c[i - 2].value;
    assert d[i].value == c[i].value - c[i - 1].value;
  }

  /** The rolling mode is defined where the rolling mean is, and is a most frequent value of the window. */
  lemma ModeFacts(c: Column, i: nat)
    requires i < |c|
    ensures ModeAt(c, i).Some? <==> MeanAt(c, i).Some?
    ensures ModeAt(c, i).Some? ==>
      var w := WindowAt(c, i).value;
      var m := ModeAt(c, i).value;
      m in w && forall j :: 0 <= j < |w| ==> Count(w, w[j]) <= Count(w, m)
  {
    if ModeAt(c, i).Some? { WindowModeIsMode(WindowAt(c, i).value); }
  }

  lemma ConstantMean(c: Column, i: nat, v: real)
    requires 4 <= i < |c|
    requires forall j :: i - 4 <= j <= i ==> c[j] == Some(v)
    ensures MeanAt(c, i) == Some(v)
  {
    MeanFormula(c, i);
  }

  lemma ConstantMode(c: Column, i: nat, v: real)
    requires 4 <= i < |c|
    requires forall j :: i - 4 <= j <= i ==> c[j] == Some(v)
    ensures ModeAt(c, i) == Some(v)
  {
    var w := WindowAt(c, i).value;
    assert w == [v, v, v, v, v] by {
      forall k | 0 <= k < 5 ensures w[k] == v { assert c[i - 4 + k] == Some(w[k]); }
    }
    WindowModeIsMode(w);
  }

  /** Six equal cells v ending at row i give a rate of change of 0. */
  lemma ConstantRate(c: Column, i: nat, v: real)
    requires 5 <= i < |c|
    requires forall j :: i - 5 <= j <= i ==> c[j] == Some(v)
    ensures RateAt(c, i) == Some(0.0)
  {
    RateTelescopes(c, i);
  }

  /** The statistics of a column are all defined exactly on rows 5.. whose six cells i-5..i are defined. */
  lemma StatsDefined(c: Column, i: nat)
    requires i < |c|
    ensures StatsAt(c, i).Some? <==> 5 <= i && forall j :: i - 5 <= j <= i ==> c[j].Some?
  {
    MeanFormula(c, i);
    RateTelescopes(c, i);
  }

  /** The six rows that a row's features are computed from carry no NaN in a windowed column. */
  predicate HistoryDefined(log: seq<Row>, i: nat)
    requires 5 <= i < |log|
  {
    forall j :: i - 5 <= j <= i ==> Cell(log[j], Bus).Some? && Cell(log[j], Shunt).Some? && Cell(log[j], Power).Some?
  }

  lemma ColumnStatsDefined(log: seq<Row>, i: nat, q: Quantity)
    requires i < |log|
    ensures StatsAt(ColumnOf(log, q), i).Some? <==> 5 <= i && forall j :: i - 5 <= j <= i ==> Cell(log[j], q).Some?
  {
    StatsDefined(ColumnOf(log, q), i);
  }

  /**
   * Row i survives `dropna` exactly when i >= 5, rows i-5..i have bus
   * voltage, shunt voltage and power, and row i has every cell: `diff()` is
   * undefined at row 0 and each rate window reaches five differences back.
   */
  lemma SurvivesIff(log: seq<Row>, i: nat)
    requires i < |log|
    ensures FeatureAt(log, i).Some? <==> 5 <= i && HistoryDefined(log, i) && RowDefined(log[i])
  {
    ColumnStatsDefined(log, i, Bus);
    ColumnStatsDefined(log, i, Shunt);
    ColumnStatsDefined(log, i, Power);
  }

  /** With no missing cell, the surviving rows are exactly the rows from position 5 on. */
  lemma SurvivesComplete(log: seq<Row>, i: nat)
    requires i < |log| && Complete(log)
    ensures FeatureAt(log, i).Some? <==> 5 <= i
  {
    SurvivesIff(log, i);
    assert Cell(log[i], Current).Some?;
  }

  lemma {:induction false} DropNaFromFive(t: seq<Option<FeatureRow>>, k: nat)
    requires k <= |t| && Positioned(t)
    requires forall i :: 0 <= i < |t| ==> (t[i].Some? <==> 5 <= i)
    ensures |DropNa(t, k)| == if k <= 5 then 0 else k - 5
    ensures forall n :: 0 <= n < |DropNa(t, k)| ==> DropNa(t, k)[n].pos == n + 5
    decreases k
  {
    if k > 0 { DropNaFromFive(t, k - 1); }
  }

  /**
   * A complete log of n rows gives max(0, n - 5) feature rows, and the n-th
   * of them is log row n + 5, in log order.
   */
  lemma ExtractComplete(log: seq<Row>)
    requires Complete(log)
    ensures |Extract(log)| == if |log| <= 5 then 0 else |log| - 5
    ensures forall n :: 0 <= n < |Extract(log)| ==> Extract(log)[n].pos == n + 5
  {
    var t := Table(log);
    forall i | 0 <= i < |t| ensures t[i].Some? <==> 5 <= i { SurvivesComplete(log, i); }
    DropNaFromFive(t, |t|);
  }

  /** A log of at most five rows gives no feature row at all, complete or not. */
  lemma ShortLogIsEmpty(log: seq<Row>)
    requires |log| <= 5
    ensures Extract(log) == []
  {
    var rows := Extract(log);
    if rows != [] {
      SurvivesIff(log, rows[0].pos);
    }
  }

  lemma WindowCausal(c: Column, d: Column, i: nat)
    requires i < |c| <= |d| && c == d[..|c|]
    ensures WindowAt(c, i) == WindowAt(d, i)
  {
    forall j | 0 <= j < |c| ensures c[j] == d[j] { }
    assert WindowAt(c, i).Some? <==> WindowAt(d, i).Some?;
    if WindowAt(c, i).Some? {
      var u, w := WindowAt(c, i).value, WindowAt(d, i).value;
      forall k | 0 <= k < Window ensures u[k] == w[k] {
        assert c[i + 1 - Window + k] == d[i + 1 - Window + k];
      }
      assert u == w;
    }
  }

  lemma StatsCausal(c: Column, d: Column, i: nat)
    requires i < |c| <= |d| && c == d[..|c|]
    ensures StatsAt(c, i) == StatsAt(d, i)
  {
    WindowCausal(c, d, i);
    assert Diff(c) == Diff(d)[..|c|];
    WindowCausal(Diff(c), Diff(d), i);
  }

  /** Appending rows to a log never changes the features of an existing row. */
  lemma FeatureAtCausal(log: seq<Row>, ext: seq<Row>, i: nat)
    requires i < |log|
    ensures FeatureAt(log + ext, i) == FeatureAt(log, i)
  {
    var full := log + ext;
    assert full[i] == log[i];
    assert ColumnOf(log, Bus) == ColumnOf(full, Bus)[..|log|];
    assert ColumnOf(log, Shunt) == ColumnOf(full, Shunt)[..|log|];
    assert ColumnOf(log, Power) == ColumnOf(full, Power)[..|log|];
    StatsCausal(ColumnOf(log, Bus), ColumnOf(full, Bus), i);
    StatsCausal(ColumnOf(log, Shunt), ColumnOf(full, Shunt), i);
    StatsCausal(ColumnOf(log, Power), ColumnOf(full, Power), i);
  }

  lemma {:induction false} DropNaPrefix(t: seq<Option<FeatureRow>>, u: seq<Option<FeatureRow>>, k: nat)
    requires k <= |t| <= |u| && t == u[..|t|] && Positioned(t) && Positioned(u)
    ensures DropNa(t, k) == DropNa(u, k)
    decreases k
  {
    if k > 0 { DropNaPrefix(t, u, k - 1); }
  }

  lemma {:induction false} DropNaGrows(t: seq<Option<FeatureRow>>, k: nat, l: nat)
    requires k <= l <= |t| && Positioned(t)
    ensures |DropNa(t, k)| <= |DropNa(t, l)| && DropNa(t, k) == DropNa(t, l)[..|DropNa(t, k)|]
    decreases l
  {
    if k < l {
      DropNaGrows(t, k, l - 1);
      var a, b := DropNa(t, k), DropNa(t, l - 1);
      assert DropNa(t, l)[..|b|] == b;
      assert b[..|a|] == DropNa(t, l)[..|a|];
    }
  }

  /**
   * Appending rows to a log only appends feature rows: the feature table of
   * the shorter log is a prefix of the longer one's.
   */
  lemma ExtractPrefix(log: seq<Row>, ext: seq<Row>)
    ensures |Extract(log)| <= |Extract(log + ext)|
    ensures Extract(log) == Extract(log + ext)[..|Extract(log)|]
  {
    var t, u := Table(log), Table(log + ext);
    forall i | 0 <= i < |log| ensures t[i] == u[i] { FeatureAtCausal(log, ext, i); }
    assert t == u[..|t|];
    DropNaPrefix(t, u, |t|);
    DropNaGrows(u, |t|, |u|);
  }

  /** The statistics of a windowed quantity in a feature row. */
  function StatsOf(r: FeatureRow, q: Quantity): Stats
    requires q != Current
  {
    match q
    case Bus => r.busStats
    case Shunt => r.shuntStats
    case Power => r.powerStats
  }

  /** The statistics a surviving row carries for q are those of q's column at that row. */
  lemma StatsOfRow(log: seq<Row>, i: nat, q: Quantity)
    requires i < |log| && FeatureAt(log, i).Some? && q != Current
    ensures StatsAt(ColumnOf(log, q), i) == Some(StatsOf(FeatureAt(log, i).value, q))
  {
    var r := FeatureAt(log, i).value;
    match q
    case Bus => assert StatsOf(r, q) == r.busStats;
    case Shunt => assert StatsOf(r, q) == r.shuntStats;
    case Power => assert StatsOf(r, q) == r.powerStats;
  }

  /** Where the statistics of a column are defined, i >= 5 and the mean is (x[i-4] + ... + x[i]) / 5. */
  lemma StatsMean(x: Column, i: nat, s: Stats)
    requires i < |x| && StatsAt(x, i) == Some(s)
    ensures 5 <= i && forall j :: i - 5 <= j <= i ==> x[j].Some?
    ensures s.mean == (x[i - 4].value + x[i - 3].value + x[i - 2].value + x[i - 1].value + x[i].value) / 5.0
  {
    StatsDefined(x, i);
    MeanFormula(x, i);
  }

  /** Where the statistics of a column are defined, the rate of change is (x[i] - x[i-5]) / 5. */
  lemma StatsRate(x: Column, i: nat, s: Stats)
    requires i < |x| && StatsAt(x, i) == Some(s)
    ensures 5 <= i && forall j :: i - 5 <= j <= i ==> x[j].Some?
    ensures s.rate == (x[i].value - x[i - 5].value) / 5.0
  {
    StatsDefined(x, i);
    RateTelescopes(x, i);
  }

  /** Where the statistics of a column are defined, the mode is that of the five cells x[i-4..i]. */
  lemma StatsMode(x: Column, i: nat, s: Stats)
    requires i < |x| && StatsAt(x, i) == Some(s)
    ensures 5 <= i && forall j :: i - 5 <= j <= i ==> x[j].Some?
    ensures s.mode == WindowMode([x[i - 4].value, x[i - 3].value, x[i - 2].value, x[i - 1].value, x[i].value])
  {
    StatsDefined(x, i);
    assert ModeAt(x, i) == Some(s.mode);
    WindowCells(x, i);
  }

  /** A defined window as the literal sequence of its five cells. */
  lemma WindowCells(x: Column, i: nat)
    requires i < |x| && WindowAt(x, i).Some?
    ensures 4 <= i
    ensures WindowAt(x, i).value == [x[i - 4].value, x[i - 3].value, x[i - 2].value, x[i - 1].value, x[i].value]
  {
    var w := WindowAt(x, i).value;
    assert x[i - 4] == Some(w[0]) && x[i - 3] == Some(w[1]) && x[i - 2] == Some(w[2]);
    assert x[i - 1] == Some(w[3]) && x[i] == Some(w[4]);
  }

  /** A surviving row i has five rows of history, and its Mean of q is (x[i-4] + ... + x[i]) / 5. */
  lemma FeatureMean(log: seq<Row>, i: nat, q: Quantity)
    requires i < |log| && FeatureAt(log, i).Some? && q != Current
    ensures 5 <= i && forall j :: i - 5 <= j <= i ==> Cell(log[j], q).Some?
    ensures var x := ColumnOf(log, q);
      StatsOf(FeatureAt(log, i).value, q).mean == (x[i - 4].value + x[i - 3].value + x[i - 2].value + x[i - 1].value + x[i].value) / 5.0
  {
    var s := StatsOf(FeatureAt(log, i).value, q);
    assert StatsAt(ColumnOf(log, q), i) == Some(s) by { StatsOfRow(log, i, q); }
    StatsMean(ColumnOf(log, q), i, s);
  }

  /** The Rate of Change of q in a surviving row i is (x[i] - x[i-5]) / 5. */
  lemma FeatureRate(log: seq<Row>, i: nat, q: Quantity)
    requires i < |log| && FeatureAt(log, i).Some? && q != Current
    ensures 5 <= i && forall j :: i - 5 <= j <= i ==> Cell(log[j], q).Some?
    ensures var x := ColumnOf(log, q);
      StatsOf(FeatureAt(log, i).value, q).rate == (x[i].value - x[i - 5].value) / 5.0
  {
    var s := StatsOf(FeatureAt(log, i).value, q);
    assert StatsAt(ColumnOf(log, q), i) == Some(s) by { StatsOfRow(log, i, q); }
    StatsRate(ColumnOf(log, q), i, s);
  }

  /** The Mode of q in a surviving row i is the mode of the five cells x[i-4..i]. */
  lemma FeatureMode(log: seq<Row>, i: nat, q: Quantity)
    requires i < |log| && FeatureAt(log, i).Some? && q != Current
    ensures 5 <= i && forall j :: i - 5 <= j <= i ==> Cell(log[j], q).Some?
    ensures var x := ColumnOf(log, q);
      StatsOf(FeatureAt(log, i).value, q).mode == WindowMode([x[i - 4].value, x[i - 3].value, x[i - 2].value, x[i - 1].value, x[i].value])
  {
    var s := StatsOf(FeatureAt(log, i).value, q);
    assert StatsAt(ColumnOf(log, q), i) == Some(s) by { StatsOfRow(log, i, q); }
    StatsMode(ColumnOf(log, q), i, s);
  }

  /** Four readings of 1 and one of 50 have mode 1. */
  lemma SpikeMode()
    ensures WindowMode([1.0, 1.0, 1.0, 1.0, 50.0]) == 1.0
  {
    var w := [1.0, 1.0, 1.0, 1.0, 50.0];
    assert Count([1.0], 1.0) == 1 && Count([1.0], 50.0) == 0 by { assert [1.0][..0] == []; }
    assert [1.0, 1.0][..1] == [1.0];
    assert Count([1.0, 1.0], 1.0) == 2 && Count([1.0, 1.0], 50.0) == 0;
    assert [1.0, 1.0, 1.0][..2] == [1.0, 1.0];
    assert Count([1.0, 1.0, 1.0], 1.0) == 3 && Count([1.0, 1.0, 1.0], 50.0) == 0;
    assert [1.0, 1.0, 1.0, 1.0][..3] == [1.0, 1.0, 1.0];
    assert Count([1.0, 1.0, 1.0, 1.0], 1.0) == 4 && Count([1.0, 1.0, 1.0, 1.0], 50.0) == 0;
    assert w[..4] == [1.0, 1.0, 1.0, 1.0];
    assert Count(w, 1.0) == 4 && Count(w, 50.0) == 1;
    WindowModeIsMode(w);
    var m := WindowMode(w);
    assert Count(w, w[0]) <= Count(w, m);
  }

  /** The power statistics of row 5 when the power readings are 1, 1, 1, 1, 1, 50. */
  lemma SpikeStats(log: seq<Row>, r: FeatureRow)
    requires |log| == 6 && FeatureAt(log, 5) == Some(r)
    requires forall j :: 0 <= j < 5 ==> log[j].power == Some(1.0)
    requires log[5].power == Some(50.0)
    ensures r.powerStats == Stats(10.8, 1.0, 9.8)
  {
    var x := ColumnOf(log, Power);
    assert x[1] == Some(1.0) && x[2] == Some(1.0) && x[3] == Some(1.0) && x[4] == Some(1.0) && x[5] == Some(50.0);
    assert r.powerStats.mean == 10.8 by { FeatureMean(log, 5, Power); }
    assert r.powerStats.rate == 9.8 by {
      assert x[0] == Some(1.0);
      FeatureRate(log, 5, Power);
    }
    assert r.powerStats.mode == 1.0 by {
      assert [x[1].value, x[2].value, x[3].value, x[4].value, x[5].value] == [1.0, 1.0, 1.0, 1.0, 50.0];
      FeatureMode(log, 5, Power);
      SpikeMode();
    }
  }

  /**
   * Power readings 1, 1, 1, 1, 1, 50 give a single feature row (row 5), with
   * Power Mean 10.8, Power Mode 1 and Power Rate of Change 9.8.
   */
  lemma PowerSpike(log: seq<Row>)
    requires |log| == 6 && Complete(log)
    requires forall j :: 0 <= j < 5 ==> log[j].power == Some(1.0)
    requires log[5].power == Some(50.0)
    ensures |Extract(log)| == 1 && Extract(log)[0].pos == 5
    ensures Extract(log)[0].powerStats == Stats(10.8, 1.0, 9.8)
  {
    ExtractComplete(log);
    var r := Extract(log)[0];
    assert FeatureAt(log, 5) == Some(r);
    SpikeStats(log, r);
  }

  /** Two logs that agree on every numeric cell have the same numeric columns. */
  lemma SameColumns(log: seq<Row>, other: seq<Row>, q: Quantity)
    requires |log| == |other|
    requires forall j, q :: 0 <= j < |log| ==> Cell(log[j], q) == Cell(other[j], q)
    ensures ColumnOf(log, q) == ColumnOf(other, q)
  {
  }

  /**
   * The features of a row do not depend on any Device cell: the windows run
   * over the rows in file order, whatever device each row names.
   */
  lemma FeaturesIgnoreDevice(log: seq<Row>, other: seq<Row>, i: nat)
    requires |log| == |other| && i < |log|
    requires forall j, q :: 0 <= j < |log| ==> Cell(log[j], q) == Cell(other[j], q)
    ensures FeatureAt(log, i).Some? <==> FeatureAt(other, i).Some?
    ensures FeatureAt(log, i).Some? ==>
      var r, s := FeatureAt(log, i).value, FeatureAt(other, i).value;
      r.busStats == s.busStats && r.shuntStats == s.shuntStats && r.powerStats == s.powerStats
  {
    SameColumns(log, other, Bus);
    SameColumns(log, other, Shunt);
    SameColumns(log, other, Power);
    assert forall q :: Cell(log[i], q) == Cell(other[i], q);
    assert RowDefined(log[i]) == RowDefined(other[i]) by {
      assert Cell(log[i], Bus) == Cell(other[i], Bus) && Cell(log[i], Current) == Cell(other[i], Current);
      assert Cell(log[i], Shunt) == Cell(other[i], Shunt) && Cell(log[i], Power) == Cell(other[i], Power);
    }
  }
}
