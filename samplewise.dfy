/** `SamplewiseCropTransformer` without a weight source: every example is
    cropped to the window at uniformly drawn offsets. A dense
    (batch, channel, spatial...) array takes, per spatial axis in order, one
    vector of offsets with an entry per example, and its windows are copied
    out as `window_batch_bchw3d` does. A call given a seed draws from a
    fresh generator seeded with it and leaves the transformer's own
    generator alone; a call without one draws from the transformer's own
    generator, which the first such call creates from the default seed. */
module Samplewise {
  import opened NdArrays
  import opened Results
  import opened Batches
  import opened Random
  import opened Windows
  import opened RandomCrops
  import WindowCopy

  /** `n` copies of `hi`: the bounds of one `random_integers(0, hi, size=n)`. */
  function Repeat(hi: nat, n: nat): (r: seq<nat>)
    ensures |r| == n && forall b :: 0 <= b < n ==> r[b] == hi
  {
    seq(n, _ => hi)
  }

  /** The offsets of every example of a dense batch of n examples whose
      draws start at `pos`: example b's offset on axis k is entry b of the
      k-th vector, draw `pos + k*n + b`. */
  function DenseOffsets(s: Stream, pos: nat, n: nat, maxs: seq<nat>): (table: seq<seq<nat>>)
    ensures |table| == n
    ensures forall b :: 0 <= b < n ==> |table[b]| == |maxs|
    ensures forall b, k :: 0 <= b < n && 0 <= k < |maxs| ==> table[b][k] <= maxs[k]
  {
    seq(n, b requires 0 <= b < n =>
      seq(|maxs|, k requires 0 <= k < |maxs| => Integers(s, pos + k * n, Repeat(maxs[k], n))[b]))
  }

  /** The axis-k offset of example b is uniform in [0, maxs[k]] from draw `pos + k*n + b`. */
  lemma DenseOffsetAt(s: Stream, pos: nat, n: nat, maxs: seq<nat>, b: nat, k: nat)
    requires b < n && k < |maxs|
    ensures DenseOffsets(s, pos, n, maxs)[b][k] == Uniform(s(pos + k * n + b), maxs[k])
  {
  }

  /** Each example of a dense batch cropped at its row of offsets. */
  function CropRows(st: NdArray<real>, window: seq<nat>, table: seq<seq<nat>>): (ys: seq<NdArray<real>>)
    requires st.Valid() && |st.shape| >= 2 && |table| == st.shape[0]
    requires forall b :: 0 <= b < |table| ==> OffsetsFit(st.shape[1..], window, table[b])
    ensures |ys| == |table|
    ensures forall b :: 0 <= b < |ys| ==> ys[b].Valid() && ys[b].shape == CroppedShape(st.shape[1..], window)
  {
    seq(|table|, b requires 0 <= b < |table| => CropExample(Slice(st, b), table[b], window))
  }

  /** Offsets no larger than `dim - window` keep every window inside its example. */
  lemma TableFits(shape: seq<nat>, window: seq<nat>, table: seq<seq<nat>>)
    requires WindowFits(shape, window)
    requires forall b :: 0 <= b < |table| ==> |table[b]| == |window|
    requires forall b, k :: 0 <= b < |table| && 0 <= k < |window| ==> table[b][k] <= MaxOffsets(shape, window)[k]
    ensures forall b :: 0 <= b < |table| ==> OffsetsFit(shape, window, table[b])
  {
    var maxs := MaxOffsets(shape, window);
    forall b | 0 <= b < |table| ensures OffsetsFit(shape, window, table[b]) {
      forall k | 0 <= k < |window| ensures table[b][k] + window[k] <= shape[k + 1] {
        assert table[b][k] <= maxs[k];
      }
    }
  }

  /** The crop of a dense batch: the examples (channel, spatial...) must
      match the window in rank and be at least as large on every axis. */
  function CropDense(window: seq<nat>, s: Stream, pos: nat, st: NdArray<real>): (r: Result<Batch>)
    requires st.Valid()
    ensures r.Ok? <==> |st.shape| >= 1 && WindowFits(st.shape[1..], window)
    ensures r.Err? ==> r.error == FormatError || r.error == SizeError
    ensures r.Ok? ==> r.value.Dense? && r.value.stack.shape == [st.shape[0]] + CroppedShape(st.shape[1..], window)
  {
    if |st.shape| == 0 then Err(FormatError)
    else
      match CheckWindow(st.shape[1..], window)
      case Fail(e) => Err(e)
      case Pass =>
        var maxs := MaxOffsets(st.shape[1..], window);
        var table := DenseOffsets(s, pos, st.shape[0], maxs);
        TableFits(st.shape[1..], window, table);
        var ys := CropRows(st, window, table);
        RestackShape(ys, CroppedShape(st.shape[1..], window));
        Ok(Restack(ys, CroppedShape(st.shape[1..], window)))
  }

  /** Example b of a cropped dense batch is the window of example b at its
      row of offsets, which fit; `DenseOffsetAt` says which draw each offset
      comes from. */
  lemma CropDenseAt(window: seq<nat>, s: Stream, pos: nat, st: NdArray<real>, b: nat)
    requires st.Valid() && CropDense(window, s, pos, st).Ok? && b < st.shape[0]
    ensures var off := DenseOffsets(s, pos, st.shape[0], MaxOffsets(st.shape[1..], window))[b];
      && OffsetsFit(Slice(st, b).shape, window, off)
      && Examples(CropDense(window, s, pos, st).value)[b] == Array(CropExample(Slice(st, b), off, window))
  {
    var n := st.shape[0];
    var shape := st.shape[1..];
    var maxs := MaxOffsets(shape, window);
    var table := DenseOffsets(s, pos, n, maxs);
    TableFits(shape, window, table);
    var ys := CropRows(st, window, table);
    var r := Restack(ys, CroppedShape(shape, window));
    assert CropDense(window, s, pos, st) == Ok(r);
    RestackExamples(ys, CroppedShape(shape, window));
    assert ys[b] == CropExample(Slice(st, b), table[b], window);
  }

  /** Every example takes its offsets from the same draws as a lone example
      would, whatever its position: the seeded per-element call. */
  function SameDraws(window: seq<nat>, s: Stream): (f: Transform)
    ensures WellBehaved(f)
  {
    (i: nat, x: NdArray<real>) requires x.Valid() => RandomCropStep(window, s, 0, 0, x)
  }

  /** The rank of every example: its channel axis and one axis per window axis. */
  function Rule(window: seq<nat>): RankRule
  {
    Exactly(|window| + 1)
  }

  /** `transform_source_example` on a generator whose draws start at `pos`. */
  function CropExampleFrom(window: seq<nat>, s: Stream, pos: nat, v: Value): Result<NdArray<real>>
    requires v.Array? ==> v.arr.Valid()
  {
    ApplyExample(0, v, Rule(window), RandomCrop(window, s, pos))
  }

  /** `transform_source_batch`: a dense array is cropped as a whole; the
      examples of a list or object array go one by one through the example
      entry point, each with a fresh generator when a seed is given, and one
      after the other from the generator's draws otherwise. */
  function CropBatchFrom(window: seq<nat>, s: Stream, pos: nat, seeded: bool, b: Batch): Result<Batch>
    requires b.WellFormed()
  {
    match b
    case Dense(st) => CropDense(window, s, pos, st)
    case _ =>
      if seeded then MapExamples(b, Rule(window), SameDraws(window, s))
      else MapExamples(b, Rule(window), RandomCrop(window, s, pos))
  }

  /** A seeded call on an object array is the seeded example call on each
      element: it succeeds exactly when every element's crop does, and then
      holds those crops in order. */
  lemma SeededObjectArrayIsPerExample(window: seq<nat>, seeding: Seeding, seed: nat, vs: seq<Value>)
    requires ObjectArray(vs).WellFormed()
    ensures var r := CropBatchFrom(window, seeding(seed), 0, true, ObjectArray(vs));
      r.Ok? <==> forall i :: 0 <= i < |vs| ==> CropExampleFrom(window, seeding(seed), 0, vs[i]).Ok?
    ensures var r := CropBatchFrom(window, seeding(seed), 0, true, ObjectArray(vs));
      r.Ok? ==> forall i :: 0 <= i < |vs| ==>
        Examples(r.value)[i] == Array(CropExampleFrom(window, seeding(seed), 0, vs[i]).value)
  {
    var b := ObjectArray(vs);
    var s := seeding(seed);
    MapExamplesIsPerExampleMap(b, Rule(window), SameDraws(window, s));
    assert forall i :: 0 <= i < |vs| ==>
      ApplyExample(i, vs[i], Rule(window), SameDraws(window, s)) == CropExampleFrom(window, s, 0, vs[i]);
  }

  /** With a seed, every element of an object array of one shape is cropped
      at the same offsets. */
  lemma SeededSameWindow(window: seq<nat>, s: Stream, vs: seq<Value>, i: nat, j: nat)
    requires ObjectArray(vs).WellFormed()
    requires CropBatchFrom(window, s, 0, true, ObjectArray(vs)).Ok?
    requires i < |vs| && j < |vs| && vs[i].Array? && vs[j].Array? && vs[i].arr.shape == vs[j].arr.shape
    ensures exists off ::
      && OffsetsFit(vs[i].arr.shape, window, off)
      && Examples(CropBatchFrom(window, s, 0, true, ObjectArray(vs)).value)[i] == Array(CropExample(vs[i].arr, off, window))
      && Examples(CropBatchFrom(window, s, 0, true, ObjectArray(vs)).value)[j] == Array(CropExample(vs[j].arr, off, window))
  {
    var b := ObjectArray(vs);
    MapExamplesAt(b, Rule(window), SameDraws(window, s), i);
    MapExamplesAt(b, Rule(window), SameDraws(window, s), j);
    var off := Integers(s, 0, MaxOffsets(vs[i].arr.shape, window));
    assert OffsetsFit(vs[i].arr.shape, window, off);
  }

  /** Co-registered sources: two dense sources of one shape, cropped with the
      same seed, are cropped at the same offsets. */
  lemma CoSourcesSameWindow(window: seq<nat>, s: Stream, pos: nat, a: NdArray<real>, c: NdArray<real>, b: nat)
    requires a.Valid() && c.Valid() && a.shape == c.shape
    requires CropDense(window, s, pos, a).Ok? && b < a.shape[0]
    ensures CropDense(window, s, pos, c).Ok?
    ensures exists off ::
      && OffsetsFit(Slice(a, b).shape, window, off)
      && Examples(CropDense(window, s, pos, a).value)[b] == Array(CropExample(Slice(a, b), off, window))
      && Examples(CropDense(window, s, pos, c).value)[b] == Array(CropExample(Slice(c, b), off, window))
  {
    CropDenseAt(window, s, pos, a, b);
    CropDenseAt(window, s, pos, c, b);
  }

  /** The buffer `window_batch_bchw3d` fills, given the offsets a dense
      three-dimensional crop draws, holds that crop cell for cell. */
  lemma WindowCopyIsCropDense(window: seq<nat>, s: Stream, pos: nat, st: NdArray<real>,
                              xo: seq<nat>, yo: seq<nat>, zo: seq<nat>, out: array5<real>)
    requires st.Valid() && |window| == 3 && CropDense(window, s, pos, st).Ok?
    requires out.Length0 == st.shape[0] && out.Length1 == st.shape[1]
    requires WindowCopy.Window(out) == window
    requires |xo| == |yo| == |zo| == st.shape[0]
    requires forall b :: 0 <= b < st.shape[0] ==>
      [xo[b], yo[b], zo[b]] == DenseOffsets(s, pos, st.shape[0], MaxOffsets(st.shape[1..], window))[b]
    requires WindowCopy.Geometry(st, xo, yo, zo, out) ==>
      forall i, j, k, l, m :: WindowCopy.InOut(out, i, j, k, l, m) ==>
        out[i, j, k, l, m] == WindowCopy.Cell(st, xo, yo, zo, out, i, j, k, l, m)
    ensures WindowCopy.Geometry(st, xo, yo, zo, out)
    ensures forall b, c, x, y, z :: WindowCopy.InOut(out, b, c, x, y, z) ==>
      var e := Examples(CropDense(window, s, pos, st).value)[b];
      && e.Array? && InBounds([c, x, y, z], e.arr.shape)
      && out[b, c, x, y, z] == At(e.arr.data, e.arr.shape, [c, x, y, z])
  {
    var n := st.shape[0];
    forall b | 0 <= b < n
      ensures xo[b] + out.Length2 <= st.shape[2] && yo[b] + out.Length3 <= st.shape[3] && zo[b] + out.Length4 <= st.shape[4]
      ensures Examples(CropDense(window, s, pos, st).value)[b]
        == Array(CropExample(Slice(st, b), [xo[b], yo[b], zo[b]], window))
    {
      CropDenseAt(window, s, pos, st, b);
      var off := DenseOffsets(s, pos, n, MaxOffsets(st.shape[1..], window))[b];
      assert off[0] == xo[b] && off[1] == yo[b] && off[2] == zo[b];
      assert Slice(st, b).shape == st.shape[1..];
    }
    assert WindowCopy.Geometry(st, xo, yo, zo, out);
    WindowCopy.BufferHoldsCrops(st, xo, yo, zo, out);
  }

  /** A `SamplewiseCropTransformer` without a weight source. */
  class SamplewiseCropTransformer {
    const window: seq<nat>
    /** The stream a generator seeded with a given seed produces. */
    const seeding: Seeding
    /** `config.default_seed`. */
    const defaultSeed: nat
    /** The transformer's own generator, created by the first unseeded call. */
    var rng: Rng?

    constructor (window: seq<nat>, seeding: Seeding, defaultSeed: nat)
      ensures this.window == window && this.seeding == seeding && this.defaultSeed == defaultSeed
      ensures rng == null
    {
      this.window := window;
      this.seeding := seeding;
      this.defaultSeed := defaultSeed;
      rng := null;
    }

    /** The transformer's own generator, created from the default seed on first use. */
    method OwnRng() returns (g: Rng)
      modifies this
      ensures rng == g
      ensures old(rng) == null ==> fresh(g) && g.stream == seeding(defaultSeed) && g.drawn == 0
      ensures old(rng) != null ==> g == old(rng)
    {
      if rng == null {
        rng := new Rng(seeding(defaultSeed));
      }
      g := rng;
    }

    /** `transform_source_example(example, source_name, seed)`. */
    method TransformExample(v: Value, seed: Option<nat>) returns (r: Result<NdArray<real>>)
      requires v.Array? ==> v.arr.Valid()
      modifies this, rng
      ensures seed.Some? ==>
        && r == CropExampleFrom(window, seeding(seed.value), 0, v)
        && rng == old(rng) && (rng != null ==> rng.drawn == old(rng.drawn))
      ensures seed.None? ==>
        && rng != null
        && (old(rng) == null ==> fresh(rng) && rng.stream == seeding(defaultSeed))
        && (old(rng) != null ==> rng == old(rng))
        && r == CropExampleFrom(window, rng.stream, if old(rng) == null then 0 else old(rng.drawn), v)
        && rng.drawn == (if old(rng) == null then 0 else old(rng.drawn)) + (if r.Ok? then |window| else 0)
    {
      var g: Rng;
      if seed.Some? {
        g := new Rng(seeding(seed.value));
      } else {
        g := OwnRng();
      }
      var crop := new RandomFixedSizeCrop(window, g);
      r := crop.TransformExample(v);
    }

    /** `transform_source_batch(source, source_name, seed)`. */
    method TransformBatch(b: Batch, seed: Option<nat>) returns (r: Result<Batch>)
      requires b.WellFormed()
      modifies this, rng
      ensures seed.Some? ==>
        && r == CropBatchFrom(window, seeding(seed.value), 0, true, b)
        && rng == old(rng) && (rng != null ==> rng.drawn == old(rng.drawn))
      ensures seed.None? ==>
        && rng != null
        && (old(rng) == null ==> fresh(rng) && rng.stream == seeding(defaultSeed))
        && (old(rng) != null ==> rng == old(rng))
        && r == CropBatchFrom(window, rng.stream, if old(rng) == null then 0 else old(rng.drawn), false, b)
        && (r.Ok? ==> rng.drawn == (if old(rng) == null then 0 else old(rng.drawn)) + b.Count() * |window|)
        && (if old(rng) == null then 0 else old(rng.drawn)) <= rng.drawn
        && rng.drawn <= (if old(rng) == null then 0 else old(rng.drawn)) + b.Count() * |window|
    {
      var g: Rng;
      if seed.Some? {
        g := new Rng(seeding(seed.value));
      } else {
        g := OwnRng();
      }
      if b.Dense? {
        r := CropDenseDrawing(g, b.stack);
      } else if seed.Some? {
        r := MapExamples(b, Rule(window), SameDraws(window, g.stream));
      } else {
        var crop := new RandomFixedSizeCrop(window, g);
        r := crop.TransformBatch(b);
      }
    }

    /** The dense crop, drawing one vector of offsets per axis from `g`. */
    method CropDenseDrawing(g: Rng, st: NdArray<real>) returns (r: Result<Batch>)
      requires st.Valid()
      modifies g
      ensures r == CropDense(window, g.stream, old(g.drawn), st)
      ensures r.Ok? ==> g.drawn == old(g.drawn) + st.shape[0] * |window|
      ensures r.Err? ==> g.drawn == old(g.drawn)
    {
      if |st.shape| == 0 {
        return Err(FormatError);
      }
      match CheckWindow(st.shape[1..], window)
      case Fail(e) =>
        return Err(e);
      case Pass =>
        var n := st.shape[0];
        var maxs := MaxOffsets(st.shape[1..], window);
        ghost var pos := g.drawn;
        var vectors := DrawVectors(g, n, maxs);
        var table := seq(n, b requires 0 <= b < n => seq(|maxs|, k requires 0 <= k < |maxs| => vectors[k][b]));
        forall b | 0 <= b < n ensures table[b] == DenseOffsets(g.stream, pos, n, maxs)[b] {
        }
        assert table == DenseOffsets(g.stream, pos, n, maxs);
        TableFits(st.shape[1..], window, table);
        r := Ok(Restack(CropRows(st, window, table), CroppedShape(st.shape[1..], window)));
    }
  }

  /** One `random_integers(0, maxs[k], size=n)` vector per axis, in axis order. */
  method DrawVectors(g: Rng, n: nat, maxs: seq<nat>) returns (vectors: seq<seq<nat>>)
    modifies g
    ensures |vectors| == |maxs|
    ensures forall k :: 0 <= k < |maxs| ==> vectors[k] == Integers(g.stream, old(g.drawn) + k * n, Repeat(maxs[k], n))
    ensures g.drawn == old(g.drawn) + |maxs| * n
  {
    vectors := [];
    for k := 0 to |maxs|
      invariant |vectors| == k
      invariant g.drawn == old(g.drawn) + k * n
      invariant forall j :: 0 <= j < k ==> vectors[j] == Integers(g.stream, old(g.drawn) + j * n, Repeat(maxs[j], n))
    {
      var v := g.RandomIntegers(Repeat(maxs[k], n));
      vectors := vectors + [v];
    }
  }

  /** Two unseeded example calls on a new transformer: the first crops from
      the start of the default-seed stream, and the second continues that
      stream where the first left off. */
  method UnseededCallsContinue(window: seq<nat>, seeding: Seeding, defaultSeed: nat, v: Value, w: Value)
    returns (r1: Result<NdArray<real>>, r2: Result<NdArray<real>>)
    requires v.Array? ==> v.arr.Valid()
    requires w.Array? ==> w.arr.Valid()
    ensures r1 == CropExampleFrom(window, seeding(defaultSeed), 0, v)
    ensures r2 == CropExampleFrom(window, seeding(defaultSeed), if r1.Ok? then |window| else 0, w)
  {
    var t := new SamplewiseCropTransformer(window, seeding, defaultSeed);
    r1 := t.TransformExample(v, None);
    r2 := t.TransformExample(w, None);
  }
}
