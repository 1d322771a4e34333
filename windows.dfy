/** The windowing engine: where an N-D window sits inside an example whose
    leading axis is the channel axis and whose remaining axes are spatial, and
    the fixed-location crops (`FixedSizeCrop`, `FixedSizeCropND`) built on it. */
module Windows {
  import opened NdArrays
  import opened Results
  import opened Batches

  /** `window` has one length per spatial axis of an example of shape `shape`
      and no length exceeds its axis. */
  predicate WindowFits(shape: seq<nat>, window: seq<nat>)
  {
    |shape| == |window| + 1 && forall k :: 0 <= k < |window| ==> window[k] <= shape[k + 1]
  }

  /** The checks made before an example is cropped: a rank that does not match
      the window is a format error, a window longer than its axis a size error. */
  function CheckWindow(shape: seq<nat>, window: seq<nat>): (r: Outcome)
    ensures r.Pass? <==> WindowFits(shape, window)
    ensures r == Fail(FormatError) <==> |shape| != |window| + 1
    ensures r.Fail? ==> r.error == FormatError || r.error == SizeError
  {
    if |shape| != |window| + 1 then Fail(FormatError)
    else if exists k :: 0 <= k < |window| && shape[k + 1] < window[k] then Fail(SizeError)
    else Pass
  }

  /** The largest offset per spatial axis, `dim - window`. */
  function MaxOffsets(shape: seq<nat>, window: seq<nat>): (r: seq<nat>)
    requires WindowFits(shape, window)
    ensures |r| == |window| && forall k :: 0 <= k < |window| ==> r[k] + window[k] == shape[k + 1]
  {
    seq(|window|, k requires 0 <= k < |window| => shape[k + 1] - window[k])
  }

  /** Spatial offsets that keep the window inside the example. */
  predicate OffsetsFit(shape: seq<nat>, window: seq<nat>, off: seq<nat>)
  {
    && WindowFits(shape, window)
    && |off| == |window|
    && forall k :: 0 <= k < |window| ==> off[k] + window[k] <= shape[k + 1]
  }

  /** The shape of a cropped example: all channels, then the window. */
  function CroppedShape(shape: seq<nat>, window: seq<nat>): seq<nat>
    requires |shape| >= 1
  {
    [shape[0]] + window
  }

  lemma OffsetsFitWhole(shape: seq<nat>, window: seq<nat>, off: seq<nat>)
    requires OffsetsFit(shape, window, off)
    ensures Fits(shape, [0] + off, CroppedShape(shape, window))
  {
    forall k | 0 <= k < |shape| ensures ([0] + off)[k] + CroppedShape(shape, window)[k] <= shape[k] {
      if k > 0 {
        assert ([0] + off)[k] == off[k - 1];
        assert CroppedShape(shape, window)[k] == window[k - 1];
      }
    }
  }

  /** `example[:, off[0]:off[0]+window[0], off[1]:off[1]+window[1], ...]`. */
  function CropExample(x: NdArray<real>, off: seq<nat>, window: seq<nat>): (r: NdArray<real>)
    requires x.Valid() && OffsetsFit(x.shape, window, off)
    ensures r.Valid() && r.shape == CroppedShape(x.shape, window)
  {
    OffsetsFitWhole(x.shape, window, off);
    NdArray(CroppedShape(x.shape, window), Crop(x.data, x.shape, [0] + off, CroppedShape(x.shape, window)))
  }

  /** Channel c at spatial position j of the crop is channel c at spatial
      position `j + off` of the example: every channel is kept and each
      spatial axis is the slice `[off, off + window)`. */
  lemma CropExampleAt(x: NdArray<real>, off: seq<nat>, window: seq<nat>, c: nat, j: seq<nat>)
    requires x.Valid() && OffsetsFit(x.shape, window, off)
    requires c < x.shape[0] && InBounds(j, window)
    ensures InBounds([c] + j, CroppedShape(x.shape, window))
    ensures InBounds([c] + Shift(j, off), x.shape)
    ensures At(CropExample(x, off, window).data, CroppedShape(x.shape, window), [c] + j)
         == At(x.data, x.shape, [c] + Shift(j, off))
  {
    var w := CroppedShape(x.shape, window);
    OffsetsFitWhole(x.shape, window, off);
    assert w[1..] == window;
    InBoundsCons(c, j, w);
    CropAt(x.data, x.shape, [0] + off, w, [c] + j);
    assert Shift([c] + j, [0] + off) == [c] + Shift(j, off);
  }

  // ---------------------------------------------------------------------
  // Fixed-location crops

  /** The `location` argument as given: a bare number or a sequence of numbers. */
  datatype LocationArg = Number(n: int) | Sequence(items: seq<int>)

  /** The constructor's check of `location`: a sequence with one entry per
      window axis, each 0 (window at the start of the axis) or 1 (window at
      its end). Anything else is a configuration error. */
  function ParseLocation(window: seq<nat>, loc: LocationArg): (r: Result<seq<bool>>)
    ensures r.Ok? <==>
      loc.Sequence? && |loc.items| == |window| &&
      forall k :: 0 <= k < |loc.items| ==> loc.items[k] == 0 || loc.items[k] == 1
    ensures r.Ok? ==> |r.value| == |window| && forall k :: 0 <= k < |window| ==> (r.value[k] <==> loc.items[k] == 1)
    ensures r.Err? ==> r.error == ConfigError
  {
    match loc
    case Number(_) => Err(ConfigError)
    case Sequence(items) =>
      if |items| != |window| then Err(ConfigError)
      else if exists k :: 0 <= k < |items| && items[k] != 0 && items[k] != 1 then Err(ConfigError)
      else Ok(seq(|items|, k requires 0 <= k < |items| => items[k] == 1))
  }

  /** The spatial offsets of a fixed crop: 0 where the location bit is off,
      `dim - window` (window flush with the far edge) where it is on. */
  function CornerOffsets(shape: seq<nat>, window: seq<nat>, atEnd: seq<bool>): (r: seq<nat>)
    requires WindowFits(shape, window) && |atEnd| == |window|
    ensures OffsetsFit(shape, window, r)
    ensures forall k :: 0 <= k < |window| ==> (!atEnd[k] ==> r[k] == 0) && (atEnd[k] ==> r[k] + window[k] == shape[k + 1])
  {
    seq(|window|, k requires 0 <= k < |window| => if atEnd[k] then shape[k + 1] - window[k] else 0)
  }

  /** A configured `FixedSizeCropND` (and, with a two-axis window, `FixedSizeCrop`). */
  datatype FixedSizeCropND = FixedSizeCropND(window: seq<nat>, atEnd: seq<bool>)
  {
    predicate Valid() { |atEnd| == |window| }

    /** The rank every example must have: the channel axis plus one per window axis. */
    function Rule(): RankRule { Exactly(|window| + 1) }

    /** The crop of one example. */
    function CropOne(x: NdArray<real>): (r: Result<NdArray<real>>)
      requires Valid() && x.Valid()
      ensures r.Ok? <==> WindowFits(x.shape, window)
      ensures r.Err? ==> r.error == FormatError || r.error == SizeError
      ensures r.Ok? ==> r.value.Valid() && r.value.shape == CroppedShape(x.shape, window)
    {
      match CheckWindow(x.shape, window)
      case Fail(e) => Err(e)
      case Pass => Ok(CropExample(x, CornerOffsets(x.shape, window, atEnd), window))
    }

    /** The crop as a per-example transform; the position in the batch plays no part. */
    function Step(): (f: Transform)
      requires Valid()
      ensures WellBehaved(f)
    {
      (i: nat, x: NdArray<real>) requires x.Valid() => CropOne(x)
    }

    /** `transform_source_example`. */
    function TransformExample(v: Value): Result<NdArray<real>>
      requires Valid() && (v.Array? ==> v.arr.Valid())
    {
      ApplyExample(0, v, Rule(), Step())
    }

    /** `transform_source_batch`. */
    function TransformBatch(b: Batch): Result<Batch>
      requires Valid() && b.WellFormed()
    {
      MapExamples(b, Rule(), Step())
    }
  }

  /** The `FixedSizeCropND` constructor. */
  function NewFixedSizeCropND(window: seq<nat>, loc: LocationArg): (r: Result<FixedSizeCropND>)
    ensures r.Ok? <==> ParseLocation(window, loc).Ok?
    ensures r.Err? ==> r.error == ConfigError
    ensures r.Ok? ==> r.value.Valid() && r.value.window == window && r.value.atEnd == ParseLocation(window, loc).value
  {
    match ParseLocation(window, loc)
    case Err(e) => Err(e)
    case Ok(atEnd) => Ok(FixedSizeCropND(window, atEnd))
  }

  /** The `FixedSizeCrop` constructor: the two-axis case of `FixedSizeCropND`,
      the window given as (height, width). */
  function NewFixedSizeCrop(height: nat, width: nat, loc: LocationArg): (r: Result<FixedSizeCropND>)
    ensures r.Ok? <==> loc.Sequence? && |loc.items| == 2 && (loc.items[0] == 0 || loc.items[0] == 1) && (loc.items[1] == 0 || loc.items[1] == 1)
    ensures r.Ok? ==> r.value.window == [height, width] && |r.value.atEnd| == 2 && (r.value.atEnd[0] <==> loc.items[0] == 1) && (r.value.atEnd[1] <==> loc.items[1] == 1)
  {
    NewFixedSizeCropND([height, width], loc)
  }

  /** The constructor rejects `location=1`, `[0, 1, 0]` and `[2, 0]` for a
      two-axis window. */
  lemma RejectedLocations(window: seq<nat>)
    requires |window| == 2
    ensures NewFixedSizeCropND(window, Number(1)) == Err(ConfigError)
    ensures NewFixedSizeCropND(window, Sequence([0, 1, 0])) == Err(ConfigError)
    ensures NewFixedSizeCropND(window, Sequence([2, 0])) == Err(ConfigError)
  {
    assert Sequence([2, 0]).items[0] == 2;
  }

  /** A lone example is cropped exactly when it is an array whose rank and
      spatial sizes fit the window; the crop holds every channel at the
      configured corner. */
  lemma FixedTransformExample(c: FixedSizeCropND, v: Value)
    requires c.Valid() && (v.Array? ==> v.arr.Valid())
    ensures c.TransformExample(v).Ok? <==> v.Array? && WindowFits(v.arr.shape, c.window)
    ensures v.NonArray? ==> c.TransformExample(v) == Err(FormatError)
    ensures v.Array? && |v.arr.shape| != |c.window| + 1 ==> c.TransformExample(v) == Err(FormatError)
    ensures c.TransformExample(v).Ok? ==>
      c.TransformExample(v).value == CropExample(v.arr, CornerOffsets(v.arr.shape, c.window, c.atEnd), c.window)
  {
  }

  /** A batch is cropped exactly when every example fits the window (and,
      for a dense stack, its examples have the right rank); each result then
      has all its channels and the window's spatial shape, and the batch
      keeps its number of examples. */
  lemma {:induction false} FixedTransformBatch(c: FixedSizeCropND, b: Batch)
    requires c.Valid() && b.WellFormed()
    ensures var xs := Examples(b);
      c.TransformBatch(b).Ok? <==>
        AdmittedAsBatch(b, c.Rule()) &&
        forall i :: 0 <= i < |xs| ==> xs[i].Array? && WindowFits(xs[i].arr.shape, c.window)
    ensures var xs := Examples(b);
      c.TransformBatch(b).Ok? ==>
        && c.TransformBatch(b).value.Count() == b.Count()
        && forall i :: 0 <= i < |xs| ==>
             Examples(c.TransformBatch(b).value)[i]
             == Array(CropExample(xs[i].arr, CornerOffsets(xs[i].arr.shape, c.window, c.atEnd), c.window))
  {
    var xs := Examples(b);
    MapExamplesIsPerExampleMap(b, c.Rule(), c.Step());
    assert forall i :: 0 <= i < |xs| ==>
      (c.TransformExample(xs[i]).Ok? <==> ApplyExample(i, xs[i], c.Rule(), c.Step()).Ok?);
    assert forall i :: 0 <= i < |xs| ==>
      (c.TransformExample(xs[i]).Ok? <==> xs[i].Array? && WindowFits(xs[i].arr.shape, c.window));
  }

  // ---------------------------------------------------------------------
  // Coverage by the corner crops

  /** Spatial position j lies inside the window placed at `off`. */
  predicate InWindow(j: seq<nat>, off: seq<nat>, window: seq<nat>)
  {
    |j| == |window| && |off| == |window| &&
    forall k :: 0 <= k < |window| ==> off[k] <= j[k] < off[k] + window[k]
  }

  /** Every axis is at most twice its window, so the window at the start and
      the window at the end of the axis overlap or touch. */
  predicate CornersMeet(shape: seq<nat>, window: seq<nat>)
    requires WindowFits(shape, window)
  {
    forall k :: 0 <= k < |window| ==> shape[k + 1] <= 2 * window[k]
  }

  /** No spatial axis is empty. */
  predicate SpatiallyNonEmpty(shape: seq<nat>)
  {
    forall k :: 1 <= k < |shape| ==> shape[k] > 0
  }

  /** The location bits whose crop contains spatial position j. */
  function CoveringCorner(shape: seq<nat>, window: seq<nat>, j: seq<nat>): (atEnd: seq<bool>)
    requires WindowFits(shape, window) && CornersMeet(shape, window) && InBounds(j, shape[1..])
    ensures |atEnd| == |window| && InWindow(j, CornerOffsets(shape, window, atEnd), window)
  {
    var atEnd := seq(|window|, k requires 0 <= k < |window| => j[k] >= window[k]);
    assert forall k :: 0 <= k < |window| ==> j[k] < shape[1..][k] == shape[k + 1];
    atEnd
  }

  /** The 2^n corner crops together see every spatial position of an
      example exactly when every axis is at most twice its window. */
  lemma CornersCoverIff(shape: seq<nat>, window: seq<nat>)
    requires WindowFits(shape, window) && SpatiallyNonEmpty(shape)
    ensures CornersMeet(shape, window) <==>
      forall j :: InBounds(j, shape[1..]) ==>
        exists atEnd: seq<bool> :: |atEnd| == |window| && InWindow(j, CornerOffsets(shape, window, atEnd), window)
  {
    if CornersMeet(shape, window) {
      forall j | InBounds(j, shape[1..])
        ensures exists atEnd: seq<bool> :: |atEnd| == |window| && InWindow(j, CornerOffsets(shape, window, atEnd), window)
      {
        var atEnd := CoveringCorner(shape, window, j);
      }
    } else {
      var k :| 0 <= k < |window| && shape[k + 1] > 2 * window[k];
      var j := seq(|window|, i requires 0 <= i < |window| => if i == k then window[k] else 0);
      assert InBounds(j, shape[1..]) by {
        forall i | 0 <= i < |j| ensures j[i] < shape[1..][i] {
          assert shape[1..][i] == shape[i + 1];
        }
      }
      forall atEnd: seq<bool> | |atEnd| == |window|
        ensures !InWindow(j, CornerOffsets(shape, window, atEnd), window)
      {
        var off := CornerOffsets(shape, window, atEnd);
        assert !(off[k] <= j[k] < off[k] + window[k]);
      }
    }
  }

  /** Value `v` appears somewhere in array `y`. */
  ghost predicate Holds(y: NdArray<real>, v: real)
    requires y.Valid()
  {
    exists w :: InBounds(w, y.shape) && At(y.data, y.shape, w) == v
  }

  /** A crop holds every cell whose spatial position lies inside its window. */
  lemma CropHoldsCell(x: NdArray<real>, window: seq<nat>, atEnd: seq<bool>, idx: seq<nat>)
    requires x.Valid() && WindowFits(x.shape, window) && |atEnd| == |window|
    requires InBounds(idx, x.shape) && InWindow(idx[1..], CornerOffsets(x.shape, window, atEnd), window)
    ensures Holds(FixedSizeCropND(window, atEnd).CropOne(x).value, At(x.data, x.shape, idx))
  {
    var j := idx[1..];
    var off := CornerOffsets(x.shape, window, atEnd);
    var w := WindowPosition(j, off, window);
    CropExampleAt(x, off, window, idx[0], w);
    assert [idx[0]] + Shift(w, off) == idx by {
      assert Shift(w, off) == j;
    }
    var y := CropExample(x, off, window);
    assert FixedSizeCropND(window, atEnd).CropOne(x) == Ok(y);
    assert InBounds([idx[0]] + w, y.shape) && At(y.data, y.shape, [idx[0]] + w) == At(x.data, x.shape, idx);
  }

  /** The position inside the window of a spatial position that lies in it. */
  function WindowPosition(j: seq<nat>, off: seq<nat>, window: seq<nat>): (w: seq<nat>)
    requires InWindow(j, off, window)
    ensures InBounds(w, window) && Shift(w, off) == j
  {
    var w := seq(|window|, k requires 0 <= k < |window| => j[k] - off[k]);
    assert forall k :: 0 <= k < |window| ==> w[k] + off[k] == j[k];
    w
  }

  /** Every cell of an example appears in one of the corner crops when every
      axis is at most twice its window. */
  lemma CornerCropsSeeEveryCell(x: NdArray<real>, window: seq<nat>, idx: seq<nat>)
    requires x.Valid() && WindowFits(x.shape, window) && CornersMeet(x.shape, window)
    requires InBounds(idx, x.shape)
    ensures exists atEnd: seq<bool> ::
      |atEnd| == |window| && Holds(FixedSizeCropND(window, atEnd).CropOne(x).value, At(x.data, x.shape, idx))
  {
    InBoundsTail(idx, x.shape);
    var atEnd := CoveringCorner(x.shape, window, idx[1..]);
    CropHoldsCell(x, window, atEnd, idx);
  }

  /** The union of the corner crops of a batch is every cell of every
      example, whether the batch is a dense stack, a list or an object array. */
  lemma CornerCropsSeeEveryBatchCell(b: Batch, window: seq<nat>, i: nat, idx: seq<nat>)
    requires b.WellFormed() && i < b.Count()
    requires forall n :: 0 <= n < b.Count() ==>
      Examples(b)[n].Array? && WindowFits(Examples(b)[n].arr.shape, window) && CornersMeet(Examples(b)[n].arr.shape, window)
    requires b.Dense? ==> |b.stack.shape| == |window| + 2
    requires InBounds(idx, Examples(b)[i].arr.shape)
    ensures exists atEnd: seq<bool> ::
      && |atEnd| == |window|
      && var r := FixedSizeCropND(window, atEnd).TransformBatch(b);
         && r.Ok?
         && r.value.Count() == b.Count()
         && Examples(r.value)[i].Array?
         && Holds(Examples(r.value)[i].arr, At(Examples(b)[i].arr.data, Examples(b)[i].arr.shape, idx))
  {
    var x := Examples(b)[i].arr;
    CornerCropsSeeEveryCell(x, window, idx);
    var atEnd: seq<bool> :| |atEnd| == |window| &&
      Holds(FixedSizeCropND(window, atEnd).CropOne(x).value, At(x.data, x.shape, idx));
    var c := FixedSizeCropND(window, atEnd);
    FixedTransformBatch(c, b);
    if b.List? {
      assert ListAdmitted(b.elems, c.Rule()) by {
        forall n | 0 <= n < |b.elems| ensures b.elems[n].Array? && c.Rule().Admits(b.elems[n].arr.Rank()) {
          assert Examples(b)[n] == b.elems[n];
        }
      }
    }
    assert AdmittedAsBatch(b, c.Rule());
  }
}
