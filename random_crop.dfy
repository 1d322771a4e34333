/** `RandomFixedSizeCrop`: every example is cropped to the window at offsets
    drawn from the transformer's generator, one draw per spatial axis in axis
    order, example after example. */
module RandomCrops {
  import opened NdArrays
  import opened Results
  import opened Batches
  import opened Random
  import opened Windows

  /** The crop of the example at position i of a batch whose draws start at
      `pos`: the example's offsets are draws `pos + i*n .. pos + i*n + n - 1`
      for a window of n axes. An example the window does not fit takes no draw. */
  function RandomCropStep(window: seq<nat>, s: Stream, pos: nat, i: nat, x: NdArray<real>): (r: Result<NdArray<real>>)
    requires x.Valid()
    ensures r.Ok? <==> WindowFits(x.shape, window)
    ensures r.Err? ==> r.error == FormatError || r.error == SizeError
    ensures r.Ok? ==> r.value.Valid() && r.value.shape == CroppedShape(x.shape, window)
  {
    match CheckWindow(x.shape, window)
    case Fail(e) => Err(e)
    case Pass => Ok(CropExample(x, Integers(s, pos + i * |window|, MaxOffsets(x.shape, window)), window))
  }

  /** The random crop as a per-example transform. */
  function RandomCrop(window: seq<nat>, s: Stream, pos: nat): (f: Transform)
    ensures WellBehaved(f)
  {
    (i: nat, x: NdArray<real>) requires x.Valid() => RandomCropStep(window, s, pos, i, x)
  }

  /** A random crop is a crop: some offsets in `[0, dim - window]`, drawn in
      axis order from the example's own draws, give exactly the result. */
  lemma RandomCropIsAWindow(window: seq<nat>, s: Stream, pos: nat, i: nat, x: NdArray<real>)
    requires x.Valid() && WindowFits(x.shape, window)
    ensures exists off ::
      && OffsetsFit(x.shape, window, off)
      && (forall k :: 0 <= k < |window| ==> off[k] == Uniform(s(pos + i * |window| + k), x.shape[k + 1] - window[k]))
      && RandomCropStep(window, s, pos, i, x) == Ok(CropExample(x, off, window))
  {
    var off := Integers(s, pos + i * |window|, MaxOffsets(x.shape, window));
    assert OffsetsFit(x.shape, window, off);
  }

  /** Example i of a batch starting at `pos` is cropped exactly as a lone
      example would be by a generator that has already made `pos + i*n` draws. */
  lemma RandomCropShift(window: seq<nat>, s: Stream, pos: nat, i: nat, v: Value)
    requires v.Array? ==> v.arr.Valid()
    ensures ApplyExample(i, v, Exactly(|window| + 1), RandomCrop(window, s, pos))
         == ApplyExample(0, v, Exactly(|window| + 1), RandomCrop(window, s, pos + i * |window|))
  {
  }

  /** Every example of a successfully cropped batch is the window of that
      example at its own offsets, drawn per example and then per axis. */
  lemma {:induction false} RandomCropBatchOrder(window: seq<nat>, s: Stream, pos: nat, b: Batch)
    requires b.WellFormed()
    ensures var r := MapExamples(b, Exactly(|window| + 1), RandomCrop(window, s, pos));
      var xs := Examples(b);
      r.Ok? ==>
        forall i :: 0 <= i < |xs| ==>
          xs[i].Array? && WindowFits(xs[i].arr.shape, window) &&
          Examples(r.value)[i]
          == Array(CropExample(xs[i].arr, Integers(s, pos + i * |window|, MaxOffsets(xs[i].arr.shape, window)), window))
  {
    var rule := Exactly(|window| + 1);
    var f := RandomCrop(window, s, pos);
    var r := MapExamples(b, rule, f);
    var xs := Examples(b);
    MapExamplesIsPerExampleMap(b, rule, f);
    if r.Ok? {
      forall i | 0 <= i < |xs|
        ensures xs[i].Array? && WindowFits(xs[i].arr.shape, window)
        ensures Examples(r.value)[i]
          == Array(CropExample(xs[i].arr, Integers(s, pos + i * |window|, MaxOffsets(xs[i].arr.shape, window)), window))
      {
        var e := ApplyExample(i, xs[i], rule, f);
        assert e.Ok?;
        assert Examples(r.value)[i] == Array(e.value);
        assert e == RandomCropStep(window, s, pos, i, xs[i].arr);
      }
    }
  }

  /** The same examples give the same random crops, from the same draws,
      whether they arrive as a dense stack, a list or an object array. */
  lemma RandomCropRepresentationIndependent(window: seq<nat>, s: Stream, pos: nat, b: Batch)
    requires b.WellFormed() && (b.Dense? ==> b.Count() > 0)
    ensures List(Examples(b)).WellFormed()
    ensures var r := MapExamples(b, Exactly(|window| + 1), RandomCrop(window, s, pos));
      var l := MapExamples(List(Examples(b)), Exactly(|window| + 1), RandomCrop(window, s, pos));
      (r.Ok? <==> l.Ok?) && (r.Ok? ==> Examples(r.value) == Examples(l.value))
  {
    RepresentationIndependent(b, Exactly(|window| + 1), RandomCrop(window, s, pos));
  }

  lemma MulMonotone(a: nat, i: nat, n: nat)
    requires i <= n
    ensures i * a <= n * a
  {
  }

  /** A `RandomFixedSizeCrop` transformer: its window and the generator it
      draws offsets from. */
  class RandomFixedSizeCrop {
    const window: seq<nat>
    const rng: Rng

    constructor (window: seq<nat>, rng: Rng)
      ensures this.window == window && this.rng == rng
    {
      this.window := window;
      this.rng := rng;
    }

    /** `transform_source_example`: rejects a non-array or an example whose
      rank or size does not fit the window, taking no draw; otherwise draws
      one offset per spatial axis and crops. */
    method TransformExample(v: Value) returns (r: Result<NdArray<real>>)
      requires v.Array? ==> v.arr.Valid()
      modifies rng
      ensures r == ApplyExample(0, v, Exactly(|window| + 1), RandomCrop(window, rng.stream, old(rng.drawn)))
      ensures rng.drawn == old(rng.drawn) + (if r.Ok? then |window| else 0)
    {
      if v.NonArray? || |v.arr.shape| != |window| + 1 {
        return Err(FormatError);
      }
      var x := v.arr;
      match CheckWindow(x.shape, window)
      case Fail(e) =>
        return Err(e);
      case Pass =>
        var off := rng.RandomIntegers(MaxOffsets(x.shape, window));
        assert old(rng.drawn) + 0 * |window| == old(rng.drawn);
        r := Ok(CropExample(x, off, window));
    }

    /** The examples cropped in order until one is rejected: `ys` holds the
      crops made, `failure` the error of the first rejected example. */
    method CropEach(xs: seq<Value>) returns (ys: seq<NdArray<real>>, failure: Outcome)
      requires forall j :: 0 <= j < |xs| ==> xs[j].Array? ==> xs[j].arr.Valid()
      modifies rng
      ensures |ys| <= |xs|
      ensures forall j :: 0 <= j < |ys| ==>
        var e := ApplyExample(j, xs[j], Exactly(|window| + 1), RandomCrop(window, rng.stream, old(rng.drawn)));
        e.Ok? && ys[j] == e.value
      ensures failure.Pass? <==> |ys| == |xs|
      ensures failure.Fail? ==>
        ApplyExample(|ys|, xs[|ys|], Exactly(|window| + 1), RandomCrop(window, rng.stream, old(rng.drawn))) == Err(failure.error)
      ensures rng.drawn == old(rng.drawn) + |ys| * |window|
    {
      var rule := Exactly(|window| + 1);
      ghost var f := RandomCrop(window, rng.stream, rng.drawn);
      ghost var start := rng.drawn;
      ys := [];
      for i := 0 to |xs|
        invariant rng.drawn == start + i * |window|
        invariant |ys| == i
        invariant forall j :: 0 <= j < i ==>
          ApplyExample(j, xs[j], rule, f).Ok? && ys[j] == ApplyExample(j, xs[j], rule, f).value
      {
        RandomCropShift(window, rng.stream, start, i, xs[i]);
        var y := TransformExample(xs[i]);
        assert y == ApplyExample(i, xs[i], rule, f);
        if y.Err? {
          return ys, Fail(y.error);
        }
        ghost var done := ys;
        ys := ys + [y.value];
        assert forall j :: 0 <= j < i ==> ys[j] == done[j];
      }
      failure := Pass;
    }

    /** `transform_source_batch`: the batch-level checks first, then every
      example in order through the per-example crop. On success the batch has
      taken one draw per axis per example. */
    method TransformBatch(b: Batch) returns (r: Result<Batch>)
      requires b.WellFormed()
      modifies rng
      ensures r == MapExamples(b, Exactly(|window| + 1), RandomCrop(window, rng.stream, old(rng.drawn)))
      ensures r.Ok? ==> rng.drawn == old(rng.drawn) + b.Count() * |window|
      ensures old(rng.drawn) <= rng.drawn <= old(rng.drawn) + b.Count() * |window|
    {
      var rule := Exactly(|window| + 1);
      MulMonotone(|window|, 0, b.Count());
      if b.Dense? && !rule.Admits(b.stack.Rank() - 1) {
        return Err(FormatError);
      }
      if b.List? && !ListAdmitted(b.elems, rule) {
        return Err(FormatError);
      }
      r := CropAdmitted(b);
    }

    /** A batch that passed the batch-level checks, cropped example by example. */
    method CropAdmitted(b: Batch) returns (r: Result<Batch>)
      requires b.WellFormed() && AdmittedAsBatch(b, Exactly(|window| + 1))
      modifies rng
      ensures r == MapExamples(b, Exactly(|window| + 1), RandomCrop(window, rng.stream, old(rng.drawn)))
      ensures r.Ok? ==> rng.drawn == old(rng.drawn) + b.Count() * |window|
      ensures old(rng.drawn) <= rng.drawn <= old(rng.drawn) + b.Count() * |window|
    {
      var rule := Exactly(|window| + 1);
      ghost var f := RandomCrop(window, rng.stream, rng.drawn);
      var xs := Examples(b);
      var ys, failure := CropEach(xs);
      MulMonotone(|window|, |ys|, |xs|);
      if failure.Fail? {
        MapExamplesStopsAtFirstFailure(b, rule, f, |ys|);
        return Err(failure.error);
      }
      MapExamplesOfResults(b, rule, f, ys);
      r := Ok(Rebuild(b, ys));
    }
  }
}
