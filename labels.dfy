/**
 * The label encoders of the trained artifact (scikit-learn's LabelEncoder as
 * used in random_both.py and UI.py): fitting keeps the distinct values in
 * sorted order, the code of a value is its position in that list, and
 * transforming a column that holds a value never seen at fit time raises.
 */
module Labels {
  import opened Base

  /** Python's string order: lexicographic by code point. */
  predicate Less(a: string, b: string)
    decreases |a|
  {
    if a == [] then b != []
    else if b == [] then false
    else if a[0] != b[0] then a[0] < b[0]
    else Less(a[1..], b[1..])
  }

  lemma {:induction false} LessIrreflexive(a: string)
    ensures !Less(a, a)
    decreases |a|
  {
    if a != [] { LessIrreflexive(a[1..]); }
  }

  lemma {:induction false} LessTransitive(a: string, b: string, c: string)
    requires Less(a, b) && Less(b, c)
    ensures Less(a, c)
    decreases |a|
  {
    if a != [] && b != [] && c != [] && a[0] == b[0] && b[0] == c[0] {
      LessTransitive(a[1..], b[1..], c[1..]);
    }
  }

  lemma {:induction false} LessTotal(a: string, b: string)
    requires a != b
    ensures Less(a, b) || Less(b, a)
    decreases |a|
  {
    if a != [] && b != [] && a[0] == b[0] {
      assert a == [a[0]] + a[1..] && b == [b[0]] + b[1..];
      LessTotal(a[1..], b[1..]);
    }
  }

  /** The shape of a fitted `classes_` array: strictly increasing, hence duplicate-free. */
  predicate StrictlySorted(s: seq<string>)
  {
    forall i, j :: 0 <= i < j < |s| ==> Less(s[i], s[j])
  }

  /** Inserts one value into a fitted class list, keeping it sorted and distinct. */
  function Insert(s: seq<string>, x: string): (r: seq<string>)
    requires StrictlySorted(s)
    ensures StrictlySorted(r)
    ensures forall v :: v in r <==> v in s || v == x
    decreases |s|
  {
    if s == [] then [x]
    else if s[0] == x then s
    else if Less(x, s[0]) then
      assert forall j :: 0 <= j < |s| ==> Less(x, s[j]) by {
        forall j | 0 <= j < |s| ensures Less(x, s[j]) {
          if j > 0 { LessTransitive(x, s[0], s[j]); }
        }
      }
      [x] + s
    else
      var tail := Insert(s[1..], x);
      LessTotal(x, s[0]);
      assert forall v :: v in s[1..] ==> Less(s[0], v) by {
        forall v | v in s[1..] ensures Less(s[0], v) {
          var j :| 0 <= j < |s[1..]| && s[1..][j] == v;
          assert s[j + 1] == v;
        }
      }
      assert forall j :: 0 <= j < |tail| ==> Less(s[0], tail[j]) by {
        forall j | 0 <= j < |tail| ensures Less(s[0], tail[j]) {
          assert tail[j] in tail;
        }
      }
      assert s == [s[0]] + s[1..];
      [s[0]] + tail
  }

  /** `LabelEncoder.fit`: the sorted distinct values of a column. */
  function Fit(values: seq<string>): (classes: seq<string>)
    ensures StrictlySorted(classes)
    ensures forall v :: v in classes <==> v in values
    decreases |values|
  {
    if values == [] then []
    else Insert(Fit(values[..|values| - 1]), values[|values| - 1])
  }

  /** `LabelEncoder.transform` on one value: its position in `classes`, or None when unseen. */
  function Encode(classes: seq<string>, v: string): (code: Option<nat>)
    ensures code.Some? <==> v in classes
    ensures code.Some? ==> code.value < |classes| && classes[code.value] == v
    decreases |classes|
  {
    if classes == [] then None
    else if classes[0] == v then Some(0)
    else match Encode(classes[1..], v)
      case None => None
      case Some(k) => Some(k + 1)
  }

  /** `LabelEncoder.inverse_transform` on one code: the class at that position, or None when out of range. */
  function Decode(classes: seq<string>, code: int): (v: Option<string>)
    ensures v.Some? <==> 0 <= code < |classes|
  {
    if 0 <= code < |classes| then Some(classes[code]) else None
  }

  /** Decoding the code of a known value gives the value back. */
  lemma DecodeEncode(classes: seq<string>, v: string)
    requires v in classes
    ensures Encode(classes, v).Some?
    ensures Decode(classes, Encode(classes, v).value) == Some(v)
  {
  }

  /** On a fitted class list, distinct known values get distinct codes. */
  lemma EncodeInjective(classes: seq<string>, v: string, w: string)
    requires StrictlySorted(classes)
    requires v in classes && w in classes && v != w
    ensures Encode(classes, v) != Encode(classes, w)
  {
  }

  /** On a fitted class list, a code in range encodes back to itself. */
  lemma {:induction false} EncodeDecode(classes: seq<string>, code: nat)
    requires StrictlySorted(classes)
    requires code < |classes|
    ensures Encode(classes, classes[code]) == Some(code)
  {
    var c := Encode(classes, classes[code]);
    assert c.Some? && classes[c.value] == classes[code];
    if c.value != code {
      if c.value < code { LessIrreflexive(classes[code]); } else { LessIrreflexive(classes[code]); }
    }
  }

  /**
   * `LabelEncoder.transform` on a whole column: every value's code, or None
   * (the ValueError) as soon as one value of the column is unseen.
   */
  function EncodeAll(classes: seq<string>, vs: seq<string>): (codes: Option<seq<nat>>)
    ensures codes.Some? <==> forall k :: 0 <= k < |vs| ==> vs[k] in classes
    ensures codes.Some? ==> |codes.value| == |vs|
    ensures codes.Some? ==> forall k :: 0 <= k < |vs| ==> Encode(classes, vs[k]) == Some(codes.value[k])
    decreases |vs|
  {
    if vs == [] then Some([])
    else match EncodeAll(classes, vs[..|vs| - 1])
      case None => None
      case Some(init) =>
        match Encode(classes, vs[|vs| - 1])
        case None => None
        case Some(c) => Some(init + [c])
  }

  /** Encoding a longer column extends the codes of its prefix. */
  lemma EncodeAllPrefix(classes: seq<string>, vs: seq<string>, ws: seq<string>)
    requires EncodeAll(classes, vs + ws).Some?
    ensures EncodeAll(classes, vs).Some?
    ensures EncodeAll(classes, vs).value == EncodeAll(classes, vs + ws).value[..|vs|]
  {
    var all := EncodeAll(classes, vs + ws).value;
    forall k | 0 <= k < |vs| ensures vs[k] in classes {
      assert (vs + ws)[k] == vs[k];
    }
    var pre := EncodeAll(classes, vs).value;
    forall k | 0 <= k < |vs| ensures pre[k] == all[k] {
      assert (vs + ws)[k] == vs[k];
    }
  }
}
