/**
 * The trained artifact as the live scripts use it: the columns that reach the
 * classifier, the standardization step, the classifier itself and the
 * decoding of its class index into a mode name (`predict_mode`).
 */
module Classifier {
  import opened Base
  import opened Features
  import opened Labels

  /** The columns of the logs and of the tables the scripts derive from them. */
  datatype Col =
    | DeviceCol | BusCol | ShuntCol | CurrentCol | PowerCol | TimestampCol
    | BusMean | BusMode | ShuntMean | ShuntMode | PowerMean | PowerMode
    | BusRate | ShuntRate | PowerRate
    | ModeCol

  /** A column's name in the CSV header and in the data frames. */
  function Header(c: Col): string
  {
    match c
    case DeviceCol => "Device"
    case BusCol => "Bus Voltage (V)"
    case ShuntCol => "Shunt Voltage (V)"
    case CurrentCol => "Current (A)"
    case PowerCol => "Power (W)"
    case TimestampCol => "Timestamp"
    case BusMean => "Bus Voltage Mean"
    case BusMode => "Bus Voltage Mode"
    case ShuntMean => "Shunt Voltage Mean"
    case ShuntMode => "Shunt Voltage Mode"
    case PowerMean => "Power Mean"
    case PowerMode => "Power Mode"
    case BusRate => "Bus Voltage Rate of Change"
    case ShuntRate => "Shunt Voltage Rate of Change"
    case PowerRate => "Power Rate of Change"
    case ModeCol => "Mode"
  }

  /** The header of a device log, in file order. */
  const LogColumns: seq<Col> := [DeviceCol, BusCol, ShuntCol, CurrentCol, PowerCol, TimestampCol]

  /** The columns dropped before classification. */
  const RawColumns: seq<Col> := [BusCol, ShuntCol, CurrentCol, PowerCol, TimestampCol]

  /** The nine derived columns, in the order the scripts add them. */
  const DerivedColumns: seq<Col> :=
    [BusMean, BusMode, ShuntMean, ShuntMode, PowerMean, PowerMode, BusRate, ShuntRate, PowerRate]

  /** The columns of the feature table after the nine derived columns are added. */
  const TableColumns: seq<Col> := LogColumns + DerivedColumns

  /** The columns the classifier sees: the device code and the nine derived features. */
  const FeatureColumns: seq<Col> := [DeviceCol] + DerivedColumns

  /** `DataFrame.drop(columns=names)`: the columns not named, in their order. */
  function Drop(cols: seq<Col>, names: seq<Col>): (r: seq<Col>)
    ensures |r| <= |cols|
  {
    if cols == [] then []
    else (if cols[0] in names then [] else [cols[0]]) + Drop(cols[1..], names)
  }

  /** A column survives the drop exactly when it was there and is not named. */
  lemma {:induction false} DropMembers(cols: seq<Col>, names: seq<Col>, c: Col)
    ensures c in Drop(cols, names) <==> c in cols && c !in names
    decreases |cols|
  {
    if cols != [] {
      DropMembers(cols[1..], names, c);
      assert cols == [cols[0]] + cols[1..];
    }
  }

  /** Dropping columns from two blocks of columns drops them from each. */
  lemma {:induction false} DropAppend(a: seq<Col>, b: seq<Col>, names: seq<Col>)
    ensures Drop(a + b, names) == Drop(a, names) + Drop(b, names)
    decreases |a|
  {
    if a != [] {
      assert (a + b)[0] == a[0] && (a + b)[1..] == a[1..] + b;
      DropAppend(a[1..], b, names);
      var e := if a[0] in names then [] else [a[0]];
      assert Drop(a + b, names) == e + (Drop(a[1..], names) + Drop(b, names));
      assert e + (Drop(a[1..], names) + Drop(b, names)) == (e + Drop(a[1..], names)) + Drop(b, names);
    } else {
      assert a + b == b;
    }
  }

  /** Naming a column that is not there drops nothing more. */
  lemma {:induction false} DropAbsent(cols: seq<Col>, names: seq<Col>, extra: Col)
    requires extra !in cols
    ensures Drop(cols, [extra] + names) == Drop(cols, names)
    decreases |cols|
  {
    if cols != [] {
      DropAbsent(cols[1..], names, extra);
    }
  }

  /** Dropping names none of which is there leaves the columns as they are. */
  lemma {:induction false} DropNone(cols: seq<Col>, names: seq<Col>)
    requires forall k :: 0 <= k < |cols| ==> cols[k] !in names
    ensures Drop(cols, names) == cols
    decreases |cols|
  {
    if cols != [] {
      DropNone(cols[1..], names);
      assert [cols[0]] + cols[1..] == cols;
    }
  }

  /** Dropping every column there is leaves none. */
  lemma {:induction false} DropAll(cols: seq<Col>, names: seq<Col>)
    requires forall k :: 0 <= k < |cols| ==> cols[k] in names
    ensures Drop(cols, names) == []
    decreases |cols|
  {
    if cols != [] {
      DropAll(cols[1..], names);
    }
  }

  /**
   * Dropping the five raw columns from the live feature table leaves exactly
   * the device code and the nine derived features, in that order.
   */
  lemma LiveInputColumns()
    ensures Drop(TableColumns, RawColumns) == FeatureColumns
  {
    DropAppend(LogColumns, DerivedColumns, RawColumns);
    LogKeepsDevice();
    DerivedKept();
  }

  lemma LogKeepsDevice()
    ensures Drop(LogColumns, RawColumns) == [DeviceCol]
  {
    assert LogColumns[0] == DeviceCol && DeviceCol !in RawColumns && LogColumns[1..] == RawColumns;
    DropAll(RawColumns, RawColumns);
    assert Drop(LogColumns, RawColumns) == [DeviceCol] + Drop(RawColumns, RawColumns);
  }

  lemma DerivedKept()
    ensures Drop(DerivedColumns, RawColumns) == DerivedColumns
  {
    assert forall k :: 0 <= k < |DerivedColumns| ==> DerivedColumns[k] !in RawColumns;
    DropNone(DerivedColumns, RawColumns);
  }

  /**
   * The training table has a Mode column somewhere among the others. Dropping
   * Mode and the five raw columns from it leaves the same columns, in the same
   * order, as dropping the raw columns from a live table, which has no Mode.
   */
  lemma TrainingInputColumns(k: nat)
    requires k <= |TableColumns|
    ensures Drop(TableColumns[..k] + [ModeCol] + TableColumns[k..], [ModeCol] + RawColumns) == FeatureColumns
  {
    assert ModeCol !in TableColumns;
    DropInserted(TableColumns, k, ModeCol, RawColumns);
    LiveInputColumns();
  }

  /** Dropping a column inserted anywhere into columns that lacked it, along with other names, undoes the insertion. */
  lemma DropInserted(t: seq<Col>, k: nat, extra: Col, names: seq<Col>)
    requires k <= |t| && extra !in t
    ensures Drop(t[..k] + [extra] + t[k..], [extra] + names) == Drop(t, names)
  {
    assert t[..k] + t[k..] == t;
    DropBetween(t[..k], t[k..], extra, names);
  }

  /** DropInserted with the columns before and after the insertion given apart. */
  lemma DropBetween(pre: seq<Col>, post: seq<Col>, extra: Col, names: seq<Col>)
    requires extra !in pre && extra !in post
    ensures Drop(pre + [extra] + post, [extra] + names) == Drop(pre + post, names)
  {
    var all := [extra] + names;
    DropSkips(pre, post, extra, all);
    DropAbsent(pre, names, extra);
    DropAbsent(post, names, extra);
    DropAppend(pre, post, names);
  }

  /** A named column between two blocks is dropped, and the blocks are dropped from separately. */
  lemma DropSkips(pre: seq<Col>, post: seq<Col>, extra: Col, all: seq<Col>)
    requires extra in all
    ensures Drop(pre + [extra] + post, all) == Drop(pre, all) + Drop(post, all)
  {
    DropAppend(pre + [extra], post, all);
    DropAppend(pre, [extra], all);
    DropAll([extra], all);
    assert Drop(pre, all) + [] == Drop(pre, all);
  }

  /** The value of a numeric column in a feature-table row whose device code is `code`. */
  function ColumnValue(r: FeatureRow, code: nat, c: Col): Option<real>
  {
    match c
    case DeviceCol => Some(code as real)
    case BusCol => Some(r.bus)
    case ShuntCol => Some(r.shunt)
    case CurrentCol => Some(r.current)
    case PowerCol => Some(r.power)
    case BusMean => Some(r.busStats.mean)
    case BusMode => Some(r.busStats.mode)
    case ShuntMean => Some(r.shuntStats.mean)
    case ShuntMode => Some(r.shuntStats.mode)
    case PowerMean => Some(r.powerStats.mean)
    case PowerMode => Some(r.powerStats.mode)
    case BusRate => Some(r.busStats.rate)
    case ShuntRate => Some(r.shuntStats.rate)
    case PowerRate => Some(r.powerStats.rate)
    case _ => None
  }

  /**
   * The one-row frame passed to `predict_mode`: entry k is the row's value in
   * the k-th classifier column.
   */
  function ClassifierInput(r: FeatureRow, code: nat): (x: seq<real>)
    ensures |x| == |FeatureColumns|
    ensures forall k :: 0 <= k < |FeatureColumns| ==> ColumnValue(r, code, FeatureColumns[k]) == Some(x[k])
  {
    [code as real, r.busStats.mean, r.busStats.mode, r.shuntStats.mean, r.shuntStats.mode,
     r.powerStats.mean, r.powerStats.mode, r.busStats.rate, r.shuntStats.rate, r.powerStats.rate]
  }

  /** The Device column of the feature table. */
  function Devices(rows: seq<FeatureRow>): (names: seq<string>)
    ensures |names| == |rows| && forall k :: 0 <= k < |rows| ==> names[k] == rows[k].device
  {
    seq(|rows|, k requires 0 <= k < |rows| => rows[k].device)
  }

  /** The device codes of a table whose every device is known decode to the devices. */
  lemma CodesDecode(classes: seq<string>, rows: seq<FeatureRow>)
    requires EncodeAll(classes, Devices(rows)).Some?
    ensures var codes := EncodeAll(classes, Devices(rows)).value;
      forall k :: 0 <= k < |rows| ==> Decode(classes, codes[k]) == Some(rows[k].device)
  {
    var codes := EncodeAll(classes, Devices(rows)).value;
    forall k | 0 <= k < |rows| ensures Decode(classes, codes[k]) == Some(rows[k].device) {
      assert Encode(classes, Devices(rows)[k]) == Some(codes[k]);
    }
  }

  /** A fitted scale is never 0: the scaler replaces a zero standard deviation by 1. */
  type Scale = x: real | x != 0.0 witness 1.0

  /** One column of a fitted StandardScaler: its training mean and scale. */
  datatype ColumnScale = ColumnScale(mean: real, scale: Scale)

  /** `scaler.transform`: each entry centred and divided by its scale; a width mismatch is an error. */
  function Standardize(s: seq<ColumnScale>, x: seq<real>): (z: Option<seq<real>>)
    ensures z.Some? <==> |x| == |s|
    ensures z.Some? ==> |z.value| == |x| && forall k :: 0 <= k < |x| ==> z.value[k] * s[k].scale + s[k].mean == x[k]
  {
    if |x| != |s| then None
    else Some(seq(|x|, k requires 0 <= k < |x| => (x[k] - s[k].mean) / s[k].scale))
  }

  /** `scaler.inverse_transform`. */
  function Unstandardize(s: seq<ColumnScale>, z: seq<real>): (x: seq<real>)
    requires |z| == |s|
    ensures |x| == |z|
  {
    seq(|z|, k requires 0 <= k < |z| => z[k] * s[k].scale + s[k].mean)
  }

  lemma Cancel(x: real, c: Scale)
    ensures (x * c) / c == x
  {
  }

  /** Standardizing and then undoing it gives back the input, and the other way round. */
  lemma StandardizeRoundTrip(s: seq<ColumnScale>, x: seq<real>)
    requires |x| == |s|
    ensures Unstandardize(s, Standardize(s, x).value) == x
    ensures Standardize(s, Unstandardize(s, x)) == Some(x)
  {
    var u := Unstandardize(s, x);
    var z := Standardize(s, u).value;
    forall k | 0 <= k < |x| ensures z[k] == x[k] {
      assert z[k] == (u[k] - s[k].mean) / s[k].scale;
      assert u[k] - s[k].mean == x[k] * s[k].scale;
      Cancel(x[k], s[k].scale);
    }
    assert z == x;
    var y := Unstandardize(s, Standardize(s, x).value);
    forall k | 0 <= k < |x| ensures y[k] == x[k] { }
  }

  /**
   * The loaded artifact: the fitted scaler, the fitted classifier (a class
   * index for a standardized row) and the classes of the two label encoders.
   */
  datatype Artifact = Artifact(scaler: seq<ColumnScale>, model: seq<real> -> int,
                               modeClasses: seq<string>, deviceClasses: seq<string>)

  /** Both encoders hold the sorted distinct classes that `LabelEncoder.fit` produces. */
  predicate Fitted(a: Artifact)
  {
    StrictlySorted(a.modeClasses) && StrictlySorted(a.deviceClasses)
  }

  /** Why a poll of a device log stopped. */
  datatype Fault =
    | LogUnreadable          // `pd.read_csv` failed (no such file, unparsable text)
    | UnseenDevice           // `label_encoder_device.transform` met a name it was not fitted on
    | FeatureCountMismatch   // the scaler was fitted on a different number of columns
    | UnseenModeCode(code: int) // `label_encoder_mode.inverse_transform` met an unknown index
    | UnseenDeviceCode(code: int) // `label_encoder_device.inverse_transform` met an unknown index

  /** The class index the classifier gives a row, once standardized. */
  function Label(a: Artifact, x: seq<real>): int
    requires |x| == |a.scaler|
  {
    a.model(Standardize(a.scaler, x).value)
  }

  /** `predict_mode`: standardize, classify, decode the class index into a mode name. */
  function PredictMode(a: Artifact, x: seq<real>): (r: Result<string, Fault>)
    ensures |x| != |a.scaler| ==> r == Err(FeatureCountMismatch)
    ensures |x| == |a.scaler| ==>
      (r.Ok? <==> 0 <= Label(a, x) < |a.modeClasses|) &&
      (r.Err? ==> r.error == UnseenModeCode(Label(a, x)))
    ensures r.Ok? ==> |x| == |a.scaler| && r.value in a.modeClasses
  {
    match Standardize(a.scaler, x)
    case None => Err(FeatureCountMismatch)
    case Some(z) =>
      match Decode(a.modeClasses, a.model(z))
      case None => Err(UnseenModeCode(a.model(z)))
      case Some(m) => Ok(m)
  }

  /** The predicted mode name encodes back to exactly the class index the classifier gave. */
  lemma PredictedModeEncodes(a: Artifact, x: seq<real>)
    requires Fitted(a) && PredictMode(a, x).Ok?
    ensures Encode(a.modeClasses, PredictMode(a, x).value) == Some(Label(a, x))
  {
    var l := Label(a, x);
    assert a.modeClasses[l] == PredictMode(a, x).value;
    EncodeDecode(a.modeClasses, l);
  }
}
