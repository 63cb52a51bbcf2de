/**
 * The data preparation of random_both.py: the same window-5 features over the
 * whole training file, `dropna`, label encoders fitted on the rows that
 * survive, and the feature matrix X and target y taken from those rows.
 */
module Training {
  import opened Base
  import opened Features
  import opened Labels
  import opened Classifier
  import FeatureFacts

  /** A row of the training file: a log row and its Mode cell, None when the cell is empty. */
  datatype LabelledRow = LabelledRow(row: Row, mode: Option<string>)

  /** The training file without its Mode column. */
  function LogOf(data: seq<LabelledRow>): (log: seq<Row>)
    ensures |log| == |data| && forall i :: 0 <= i < |data| ==> log[i] == data[i].row
  {
    seq(|data|, i requires 0 <= i < |data| => data[i].row)
  }

  /** A training row after `dropna`: its features and its mode. */
  datatype Example = Example(row: FeatureRow, mode: string)

  /**
   * The training table after the nine feature columns are added: row i, or
   * None where a feature or the Mode cell is NaN.
   */
  function TrainingTable(data: seq<LabelledRow>): (t: seq<Option<FeatureRow>>)
    ensures |t| == |data| && Positioned(t)
    ensures forall i :: 0 <= i < |data| ==> t[i] == if data[i].mode.Some? then FeatureAt(LogOf(data), i) else None
  {
    var log := LogOf(data);
    seq(|data|, i requires 0 <= i < |data| => if data[i].mode.Some? then FeatureAt(log, i) else None)
  }

  /** `data.dropna()`: the feature rows of the training rows whose features and Mode are all defined, in order. */
  function Survivors(data: seq<LabelledRow>): (rows: seq<FeatureRow>)
    ensures forall n :: 0 <= n < |rows| ==> rows[n].pos < |data| && data[rows[n].pos].mode.Some?
  {
    var t := TrainingTable(data);
    DropNaFacts(t, |t|);
    DropNa(t, |t|)
  }

  /** The surviving rows with their modes. */
  function Examples(data: seq<LabelledRow>): (ex: seq<Example>)
    ensures |ex| == |Survivors(data)|
    ensures forall k :: 0 <= k < |ex| ==> ex[k] == Example(Survivors(data)[k], data[Survivors(data)[k].pos].mode.value)
  {
    var rows := Survivors(data);
    seq(|rows|, k requires 0 <= k < |rows| => Example(rows[k], data[rows[k].pos].mode.value))
  }

  /**
   * Training row i survives exactly when its features are defined (the live
   * scripts' condition) and its Mode cell is; the survivors stay in file
   * order and carry the features the live scripts compute for that row.
   */
  lemma ExamplesIff(data: seq<LabelledRow>, i: nat)
    requires i < |data|
    ensures (exists k :: 0 <= k < |Examples(data)| && Examples(data)[k].row.pos == i)
        <==> FeatureAt(LogOf(data), i).Some? && data[i].mode.Some?
    ensures forall k :: 0 <= k < |Examples(data)| ==>
      var r := Examples(data)[k].row;
      r.pos < |data| && FeatureAt(LogOf(data), r.pos) == Some(r) && data[r.pos].mode == Some(Examples(data)[k].mode)
    ensures forall k, l :: 0 <= k < l < |Examples(data)| ==> Examples(data)[k].row.pos < Examples(data)[l].row.pos
  {
    var t := TrainingTable(data);
    var rows := Survivors(data);
    var ex := Examples(data);
    DropNaFacts(t, |t|);
    if FeatureAt(LogOf(data), i).Some? && data[i].mode.Some? {
      var r := FeatureAt(LogOf(data), i).value;
      assert t[i] == Some(r);
      var n :| 0 <= n < |rows| && rows[n] == r;
      assert ex[n].row.pos == i;
    }
  }

  /**
   * A training file with no empty cell loses exactly its first five rows:
   * n rows give max(0, n - 5) examples, example k being row k + 5.
   */
  lemma ExamplesComplete(data: seq<LabelledRow>)
    requires Complete(LogOf(data)) && forall i :: 0 <= i < |data| ==> data[i].mode.Some?
    ensures |Examples(data)| == if |data| <= 5 then 0 else |data| - 5
    ensures forall k :: 0 <= k < |Examples(data)| ==> Examples(data)[k].row.pos == k + 5
  {
    var t := TrainingTable(data);
    forall i | 0 <= i < |t| ensures t[i].Some? <==> 5 <= i {
      FeatureFacts.SurvivesComplete(LogOf(data), i);
    }
    FeatureFacts.DropNaFromFive(t, |t|);
  }

  function Modes(ex: seq<Example>): (ms: seq<string>)
    ensures |ms| == |ex| && forall k :: 0 <= k < |ex| ==> ms[k] == ex[k].mode
  {
    seq(|ex|, k requires 0 <= k < |ex| => ex[k].mode)
  }

  function Rows(ex: seq<Example>): (rows: seq<FeatureRow>)
    ensures |rows| == |ex| && forall k :: 0 <= k < |ex| ==> rows[k] == ex[k].row
  {
    seq(|ex|, k requires 0 <= k < |ex| => ex[k].row)
  }

  /** What the script hands to the scaler and the classifier, and the two fitted encoders. */
  datatype TrainingSet = TrainingSet(x: seq<seq<real>>, y: seq<nat>, modeClasses: seq<string>, deviceClasses: seq<string>)

  /**
   * Lines 25-36: fit both encoders on the surviving rows, encode Mode and
   * Device, and take X (every column but Mode and the five raw ones) and y
   * (Mode) from the same rows.
   */
  function Prepare(data: seq<LabelledRow>): TrainingSet
  {
    PrepareFrom(Examples(data))
  }

  /** Lines 27-36 on the surviving rows. */
  function PrepareFrom(ex: seq<Example>): TrainingSet
  {
    var modeClasses := Fit(Modes(ex));
    var deviceClasses := Fit(Devices(Rows(ex)));
    var y := EncodeAll(modeClasses, Modes(ex)).value;
    var codes := EncodeAll(deviceClasses, Devices(Rows(ex))).value;
    var x := seq(|ex|, k requires 0 <= k < |ex| => ClassifierInput(ex[k].row, codes[k]));
    TrainingSet(x, y, modeClasses, deviceClasses)
  }

  /**
   * X and y are aligned row for row: entry k of both comes from example k,
   * y[k] decodes to its mode, X[k] is its classifier input, and the device
   * code in it decodes to its device.
   */
  lemma PrepareAligned(ex: seq<Example>)
    ensures var t := PrepareFrom(ex);
      && |t.x| == |ex| && |t.y| == |ex|
      && forall k :: 0 <= k < |ex| ==>
           && Decode(t.modeClasses, t.y[k]) == Some(ex[k].mode)
           && exists code: nat ::
                && t.x[k] == ClassifierInput(ex[k].row, code)
                && Decode(t.deviceClasses, code) == Some(ex[k].row.device)
  {
    var t := PrepareFrom(ex);
    var codes := EncodeAll(t.deviceClasses, Devices(Rows(ex))).value;
    forall k | 0 <= k < |ex| ensures
      && Decode(t.modeClasses, t.y[k]) == Some(ex[k].mode)
      && Decode(t.deviceClasses, codes[k]) == Some(ex[k].row.device)
    {
      assert Encode(t.modeClasses, Modes(ex)[k]) == Some(t.y[k]);
      assert Encode(t.deviceClasses, Devices(Rows(ex))[k]) == Some(codes[k]);
    }
    forall k | 0 <= k < |ex| ensures exists code: nat ::
      && t.x[k] == ClassifierInput(ex[k].row, code)
      && Decode(t.deviceClasses, code) == Some(ex[k].row.device)
    {
      assert t.x[k] == ClassifierInput(ex[k].row, codes[k]);
    }
  }

  /**
   * The encoders are fitted after `dropna`: a mode or device name gets a code
   * exactly when it appears in a surviving row, so a name seen only in dropped
   * rows has none. Both class lists are sorted, as the live scripts need.
   */
  lemma PrepareCodes(ex: seq<Example>, name: string)
    ensures var t := PrepareFrom(ex);
      && (Encode(t.modeClasses, name).Some? <==> exists k :: 0 <= k < |ex| && ex[k].mode == name)
      && (Encode(t.deviceClasses, name).Some? <==> exists k :: 0 <= k < |ex| && ex[k].row.device == name)
      && StrictlySorted(t.modeClasses) && StrictlySorted(t.deviceClasses)
  {
    assert (exists k :: 0 <= k < |ex| && ex[k].mode == name) <==> name in Modes(ex);
    assert (exists k :: 0 <= k < |ex| && ex[k].row.device == name) <==> name in Devices(Rows(ex));
  }

  /**
   * Row k of X holds, column by column, the classifier columns of example k:
   * the code of its own device, then its nine derived features.
   */
  lemma PrepareColumns(ex: seq<Example>, k: nat)
    requires k < |ex|
    ensures var t := PrepareFrom(ex);
      && |t.x[k]| == |FeatureColumns|
      && exists code: nat ::
           && Decode(t.deviceClasses, code) == Some(ex[k].row.device)
           && forall j :: 0 <= j < |FeatureColumns| ==> ColumnValue(ex[k].row, code, FeatureColumns[j]) == Some(t.x[k][j])
  {
    var t := PrepareFrom(ex);
    var codes := EncodeAll(t.deviceClasses, Devices(Rows(ex))).value;
    var x := ClassifierInput(ex[k].row, codes[k]);
    assert t.x[k] == x;
    assert Encode(t.deviceClasses, Devices(Rows(ex))[k]) == Some(codes[k]);
    assert Decode(t.deviceClasses, codes[k]) == Some(ex[k].row.device);
    assert forall j :: 0 <= j < |FeatureColumns| ==> ColumnValue(ex[k].row, codes[k], FeatureColumns[j]) == Some(t.x[k][j]);
  }

  /**
   * A mode that labels only rows `dropna` removes, such as the first five,
   * gets no code from the fitted mode encoder.
   */
  lemma DroppedModeHasNoCode(data: seq<LabelledRow>, name: string)
    requires forall i :: 0 <= i < |data| && data[i].mode == Some(name) ==> FeatureAt(LogOf(data), i).None?
    ensures Encode(Prepare(data).modeClasses, name).None?
  {
    var ex := Examples(data);
    PrepareCodes(ex, name);
    if |data| > 0 {
      ExamplesIff(data, 0);
    }
    forall k | 0 <= k < |ex| ensures ex[k].mode != name {
      var r := ex[k].row;
      assert FeatureAt(LogOf(data), r.pos) == Some(r);
    }
  }
}
