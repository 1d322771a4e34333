/** `RandomSpatialFlip`: each example is reversed along its width (last) axis
    and/or its height (second-to-last) axis, each decided by a Bernoulli(0.5)
    bit. A batch of n examples takes one vector of n bits for the horizontal
    flips, then one vector of n bits for the vertical flips; an axis that is
    not enabled takes no draw. */
module Flips {
  import opened NdArrays
  import opened Results
  import opened Batches
  import opened Random

  /** Every example has a channel axis, a height axis and a width axis at least. */
  const FlipRule: RankRule := AtLeast(3)

  /** `idx` as read through a flip: the width coordinate mirrored when `h`,
      the height coordinate mirrored when `v`, every other coordinate kept. */
  function FlippedIndex(idx: seq<nat>, shape: seq<nat>, h: bool, v: bool): (r: seq<nat>)
    requires InBounds(idx, shape) && |shape| >= 2
    ensures InBounds(r, shape)
    ensures forall k :: 0 <= k < |shape| - 2 ==> r[k] == idx[k]
    ensures r[|shape| - 2] == if v then shape[|shape| - 2] - 1 - idx[|shape| - 2] else idx[|shape| - 2]
    ensures r[|shape| - 1] == if h then shape[|shape| - 1] - 1 - idx[|shape| - 1] else idx[|shape| - 1]
  {
    var a := if v then Mirror(idx, shape, |shape| - 2) else idx;
    if h then Mirror(a, shape, |shape| - 1) else a
  }

  /** The example reversed along the width axis when `h` and along the
      height axis when `v`, the same way in every channel. */
  function Flip(x: NdArray<real>, h: bool, v: bool): (r: NdArray<real>)
    requires x.Valid() && x.Rank() >= 2
    ensures r.Valid() && r.shape == x.shape
  {
    var a := if h then ReverseAxis(x.data, x.shape, |x.shape| - 1) else x.data;
    NdArray(x.shape, if v then ReverseAxis(a, x.shape, |x.shape| - 2) else a)
  }

  /** Cell `idx` of the flipped example is the input cell at the flipped index. */
  lemma FlipAt(x: NdArray<real>, h: bool, v: bool, idx: seq<nat>)
    requires x.Valid() && x.Rank() >= 2 && InBounds(idx, x.shape)
    ensures At(Flip(x, h, v).data, x.shape, idx) == At(x.data, x.shape, FlippedIndex(idx, x.shape, h, v))
  {
    var n := |x.shape|;
    var a := if h then ReverseAxis(x.data, x.shape, n - 1) else x.data;
    var m := if v then Mirror(idx, x.shape, n - 2) else idx;
    if v {
      ReverseAxisAt(a, x.shape, n - 2, idx);
    }
    assert At(Flip(x, h, v).data, x.shape, idx) == At(a, x.shape, m);
    if h {
      ReverseAxisAt(x.data, x.shape, n - 1, m);
    }
  }

  /** Flipping twice with the same bits gives the example back. */
  lemma FlipTwice(x: NdArray<real>, h: bool, v: bool)
    requires x.Valid() && x.Rank() >= 2
    ensures Flip(Flip(x, h, v), h, v) == x
  {
    var y := Flip(x, h, v);
    var z := Flip(y, h, v);
    forall idx | InBounds(idx, x.shape)
      ensures At(z.data, x.shape, idx) == At(x.data, x.shape, idx)
    {
      var m := FlippedIndex(idx, x.shape, h, v);
      FlipAt(y, h, v, idx);
      FlipAt(x, h, v, m);
      assert FlippedIndex(m, x.shape, h, v) == idx;
    }
    Extensionality(z.data, x.data, x.shape);
  }

  /** The bit of example i in a vector of drawn bits; no vector means no flip. */
  function Bit(bits: seq<bool>, i: nat): bool
  {
    i < |bits| && bits[i]
  }

  /** The flip as a per-example transform, example i flipped by bit i of
      each vector. */
  function FlipStep(hs: seq<bool>, vs: seq<bool>): (f: Transform)
    ensures WellBehaved(f)
  {
    (i: nat, x: NdArray<real>) requires x.Valid() =>
      if x.Rank() >= 3 then Ok(Flip(x, Bit(hs, i), Bit(vs, i))) else Err(FormatError)
  }

  /** Which axes a `RandomSpatialFlip` may flip. */
  datatype FlipAxes = FlipAxes(flipH: bool, flipV: bool)
  {
    /** The number of draws a batch of n examples takes. */
    function Draws(n: nat): nat
    {
      (if flipH then n else 0) + (if flipV then n else 0)
    }

    /** The horizontal bits of a batch of n examples whose draws start at `pos`. */
    function HBits(s: Stream, pos: nat, n: nat): seq<bool>
    {
      if flipH then Coins(s, pos, n) else []
    }

    /** The vertical bits: drawn after the horizontal ones. */
    function VBits(s: Stream, pos: nat, n: nat): seq<bool>
    {
      if flipV then Coins(s, pos + |HBits(s, pos, n)|, n) else []
    }

    /** Neither axis may be flipped. */
    predicate Disabled()
    {
      !flipH && !flipV
    }

    /** `transform_source_batch` on a batch whose draws start at `pos`: with
        neither axis enabled the batch is returned as it is. */
    function FlipBatch(s: Stream, pos: nat, b: Batch): Result<Batch>
      requires b.WellFormed()
    {
      if Disabled() then Ok(b)
      else MapExamples(b, FlipRule, FlipStep(HBits(s, pos, b.Count()), VBits(s, pos, b.Count())))
    }

    /** `transform_source_example`: the batch rule for a batch of one; with
        neither axis enabled an array is returned as it is. */
    function FlipExample(s: Stream, pos: nat, v: Value): Result<NdArray<real>>
      requires v.Array? ==> v.arr.Valid()
    {
      if Disabled() && v.Array? then Ok(v.arr)
      else ApplyExample(0, v, FlipRule, FlipStep(HBits(s, pos, 1), VBits(s, pos, 1)))
    }
  }

  /** With an axis enabled, a batch is flipped exactly when each of its
      examples is an array with at least a channel, a height and a width axis
      (for a dense stack, also when it is empty); with none enabled every
      batch is accepted. A flipped batch keeps its number of examples. */
  lemma {:induction false} FlipBatchAccepts(c: FlipAxes, s: Stream, pos: nat, b: Batch)
    requires b.WellFormed()
    ensures var xs := Examples(b);
      c.FlipBatch(s, pos, b).Ok? <==>
        || c.Disabled()
        || (&& (b.Dense? ==> b.stack.Rank() >= 4)
            && forall i :: 0 <= i < |xs| ==> xs[i].Array? && xs[i].arr.Rank() >= 3)
    ensures c.FlipBatch(s, pos, b).Ok? ==> c.FlipBatch(s, pos, b).value.Count() == b.Count()
  {
    if c.Disabled() {
      return;
    }
    var xs := Examples(b);
    var n := |xs|;
    var f := FlipStep(c.HBits(s, pos, n), c.VBits(s, pos, n));
    MapExamplesIsPerExampleMap(b, FlipRule, f);
    if forall i :: 0 <= i < |xs| ==> xs[i].Array? && xs[i].arr.Rank() >= 3 {
      if b.List? {
        assert ListAdmitted(b.elems, FlipRule);
      }
    } else {
      var i :| 0 <= i < |xs| && !(xs[i].Array? && xs[i].arr.Rank() >= 3);
      assert ApplyExample(i, xs[i], FlipRule, f).Err?;
    }
  }

  /** The bits example i of a batch of n is flipped by. */
  lemma BitsOfExample(c: FlipAxes, s: Stream, pos: nat, n: nat, i: nat)
    requires i < n
    ensures Bit(c.HBits(s, pos, n), i) == (c.flipH && Coin(s(pos + i)))
    ensures Bit(c.VBits(s, pos, n), i) == (c.flipV && Coin(s(pos + (if c.flipH then n else 0) + i)))
  {
    assert |c.HBits(s, pos, n)| == if c.flipH then n else 0;
  }

  /** Example i of a flipped batch of n examples is flipped horizontally
      exactly when the horizontal flip is enabled and draw `pos + i` comes up
      1, and vertically exactly when the vertical flip is enabled and the
      draw after the horizontal ones, `pos + n + i` (or `pos + i` when the
      horizontal flip is off), comes up 1. */
  lemma FlipBatchDrawOrder(c: FlipAxes, s: Stream, pos: nat, b: Batch, i: nat)
    requires b.WellFormed() && c.FlipBatch(s, pos, b).Ok? && i < b.Count()
    ensures !c.Disabled() ==> Examples(b)[i].Array? && Examples(b)[i].arr.Rank() >= 3
    ensures !c.Disabled() ==>
      Examples(c.FlipBatch(s, pos, b).value)[i]
         == Array(Flip(Examples(b)[i].arr,
                       c.flipH && Coin(s(pos + i)),
                       c.flipV && Coin(s(pos + (if c.flipH then b.Count() else 0) + i))))
  {
    if !c.Disabled() {
      var n := b.Count();
      var f := FlipStep(c.HBits(s, pos, n), c.VBits(s, pos, n));
      MapExamplesAt(b, FlipRule, f, i);
      BitsOfExample(c, s, pos, n, i);
    }
  }

  /** With neither axis enabled no draw is taken and every batch, and every
      array given to the example entry point, comes back unchanged. */
  lemma FlipNothingUnchanged(s: Stream, pos: nat, b: Batch, v: Value)
    requires b.WellFormed() && (v.Array? ==> v.arr.Valid())
    ensures FlipAxes(false, false).Draws(b.Count()) == 0
    ensures FlipAxes(false, false).FlipBatch(s, pos, b) == Ok(b)
    ensures v.Array? ==> FlipAxes(false, false).FlipExample(s, pos, v) == Ok(v.arr)
  {
  }

  /** Examples whose bits are all off come back unchanged: a flip step
      with no bit set is the identity on every batch it accepts. */
  lemma NoBitsUnchanged(hs: seq<bool>, vs: seq<bool>, b: Batch)
    requires b.WellFormed()
    requires forall i :: 0 <= i < b.Count() ==> !Bit(hs, i) && !Bit(vs, i)
    ensures MapExamples(b, FlipRule, FlipStep(hs, vs)).Ok? ==> MapExamples(b, FlipRule, FlipStep(hs, vs)).value == b
  {
    var n := b.Count();
    var f := FlipStep(hs, vs);
    var r := MapExamples(b, FlipRule, f);
    if r.Ok? {
      var xs := Examples(b);
      var ys := seq(n, i requires 0 <= i < n => ApplyExample(i, xs[i], FlipRule, f).value);
      MapExamplesIsPerExampleMap(b, FlipRule, f);
      forall i | 0 <= i < n ensures xs[i].Array? && ys[i] == xs[i].arr {
        assert ApplyExample(i, xs[i], FlipRule, f).Ok?;
        assert ys[i] == Flip(xs[i].arr, false, false);
      }
      match b
      case Dense(st) =>
        if n > 0 {
          assert SameShapes(ys);
          assert st.shape == [n] + ys[0].shape;
          assert st.data.items == seq(n, i requires 0 <= i < n => ys[i].data);
        }
      case List(vs) =>
        assert Arrays(ys) == vs;
      case ObjectArray(vs) =>
        assert Arrays(ys) == vs;
    }
  }

  /** The per-example entry point flips a lone array as the batch entry
      point flips a batch holding only that array; a lone non-array is
      refused whenever a flip is enabled, as the batch entry point refuses it. */
  lemma FlipExampleIsBatchOfOne(c: FlipAxes, s: Stream, pos: nat, v: Value)
    requires v.Array? ==> v.arr.Valid()
    ensures v.Array? || !c.Disabled() ==> (c.FlipExample(s, pos, v).Ok? <==> c.FlipBatch(s, pos, List([v])).Ok?)
    ensures c.FlipExample(s, pos, v).Ok? ==>
      Examples(c.FlipBatch(s, pos, List([v])).value) == [Array(c.FlipExample(s, pos, v).value)]
  {
    if c.Disabled() {
      return;
    }
    var b := List([v]);
    var f := FlipStep(c.HBits(s, pos, 1), c.VBits(s, pos, 1));
    assert Examples(b) == [v];
    MapExamplesIsPerExampleMap(b, FlipRule, f);
  }

  /** The same examples are flipped the same way, from the same draws,
      whether they arrive as a dense stack, a list or an object array. */
  lemma FlipRepresentationIndependent(c: FlipAxes, s: Stream, pos: nat, b: Batch)
    requires b.WellFormed() && (b.Dense? ==> b.Count() > 0)
    ensures List(Examples(b)).WellFormed()
    ensures c.FlipBatch(s, pos, b).Ok? <==> c.FlipBatch(s, pos, List(Examples(b))).Ok?
    ensures c.FlipBatch(s, pos, b).Ok? ==>
      Examples(c.FlipBatch(s, pos, b).value) == Examples(c.FlipBatch(s, pos, List(Examples(b))).value)
  {
    var n := b.Count();
    assert List(Examples(b)).Count() == n;
    if c.Disabled() {
      return;
    }
    RepresentationIndependent(b, FlipRule, FlipStep(c.HBits(s, pos, n), c.VBits(s, pos, n)));
  }

  /** A `RandomSpatialFlip` transformer: the axes it may flip and the
      generator its bits come from. */
  class RandomSpatialFlip {
    const axes: FlipAxes
    const rng: Rng

    constructor (flipH: bool, flipV: bool, rng: Rng)
      ensures axes == FlipAxes(flipH, flipV) && this.rng == rng
    {
      axes := FlipAxes(flipH, flipV);
      this.rng := rng;
    }

    /** `transform_source_batch`: one vector of bits per enabled axis,
      horizontal first, then the flips. */
    method TransformBatch(b: Batch) returns (r: Result<Batch>)
      requires b.WellFormed()
      modifies rng
      ensures r == axes.FlipBatch(rng.stream, old(rng.drawn), b)
      ensures rng.drawn == old(rng.drawn) + axes.Draws(b.Count())
    {
      if axes.Disabled() {
        return Ok(b);
      }
      var n := b.Count();
      var hs: seq<bool> := [];
      if axes.flipH {
        hs := rng.Binomial(n);
      }
      var vs: seq<bool> := [];
      if axes.flipV {
        vs := rng.Binomial(n);
      }
      r := MapExamples(b, FlipRule, FlipStep(hs, vs));
    }

    /** `transform_source_example`: one bit per enabled axis. */
    method TransformExample(v: Value) returns (r: Result<NdArray<real>>)
      requires v.Array? ==> v.arr.Valid()
      modifies rng
      ensures r == axes.FlipExample(rng.stream, old(rng.drawn), v)
      ensures rng.drawn == old(rng.drawn) + axes.Draws(1)
    {
      if axes.Disabled() && v.Array? {
        return Ok(v.arr);
      }
      var hs: seq<bool> := [];
      if axes.flipH {
        hs := rng.Binomial(1);
      }
      var vs: seq<bool> := [];
      if axes.flipV {
        vs := rng.Binomial(1);
      }
      r := ApplyExample(0, v, FlipRule, FlipStep(hs, vs));
    }
  }
}
