/** `SamplewiseCropTransformer.calculate_heatmap`: a weight array of shape
    (batch, channel, spatial...) divided by the sum of its interior, the
    slice `[2:-1]` of every spatial axis (two cells left out at the start of
    the axis, one at its end). Values are exact reals. */
module Heatmaps {
  import opened NdArrays
  import opened Results

  /** Position p of an axis of length d is kept by the slice `[2:-1]`. */
  predicate InSlice(p: nat, d: nat)
  {
    2 <= p && p + 1 < d
  }

  /** Python's slice `2:-1` on an axis of length d, as (start, length). */
  function InteriorRange(d: nat): (r: (nat, nat))
    ensures r.0 + r.1 <= d
    ensures forall p: nat :: InSlice(p, d) <==> r.0 <= p < r.0 + r.1
  {
    if d >= 3 then (2, d - 3) else (0, 0)
  }

  /** Where the interior starts on each axis: the batch and channel axes are
      taken whole. */
  function InteriorOffsets(shape: seq<nat>): (r: seq<nat>)
    requires |shape| >= 2
    ensures |r| == |shape| && r[0] == 0 && r[1] == 0
    ensures forall k :: 2 <= k < |shape| ==> r[k] == InteriorRange(shape[k]).0
  {
    seq(|shape|, k requires 0 <= k < |shape| => if k < 2 then 0 else InteriorRange(shape[k]).0)
  }

  /** How long the interior is on each axis. */
  function InteriorLengths(shape: seq<nat>): (r: seq<nat>)
    requires |shape| >= 2
    ensures |r| == |shape| && r[0] == shape[0] && r[1] == shape[1]
    ensures forall k :: 2 <= k < |shape| ==> r[k] == InteriorRange(shape[k]).1
  {
    seq(|shape|, k requires 0 <= k < |shape| => if k < 2 then shape[k] else InteriorRange(shape[k]).1)
  }

  lemma InteriorFits(shape: seq<nat>)
    requires |shape| >= 2
    ensures Fits(shape, InteriorOffsets(shape), InteriorLengths(shape))
  {
  }

  /** A cell lies in the interior: every spatial coordinate p has 2 <= p < dim - 1. */
  predicate InInterior(idx: seq<nat>, shape: seq<nat>)
    requires |idx| == |shape|
  {
    forall k :: 2 <= k < |shape| ==> InSlice(idx[k], shape[k])
  }

  /** The cells of the interior crop are exactly the interior cells: cell j
      of the crop is cell `j + off` of the array, and every interior cell is
      reached this way. */
  lemma InteriorIsSlice(shape: seq<nat>, idx: seq<nat>)
    requires |shape| >= 2 && InBounds(idx, shape)
    ensures InInterior(idx, shape) <==>
      exists j :: InBounds(j, InteriorLengths(shape)) && Shift(j, InteriorOffsets(shape)) == idx
  {
    var off := InteriorOffsets(shape);
    var len := InteriorLengths(shape);
    if InInterior(idx, shape) {
      var j := seq(|idx|, k requires 0 <= k < |idx| => idx[k] - off[k]);
      forall k | 0 <= k < |idx| ensures off[k] <= idx[k] && j[k] < len[k] {
        if k >= 2 {
          assert InSlice(idx[k], shape[k]);
        }
      }
      assert InBounds(j, len);
      assert Shift(j, off) == idx;
    }
    if exists j :: InBounds(j, len) && Shift(j, off) == idx {
      var j :| InBounds(j, len) && Shift(j, off) == idx;
      forall k | 2 <= k < |shape| ensures InSlice(idx[k], shape[k]) {
        assert idx[k] == j[k] + off[k];
      }
    }
  }

  /** The sum of all cells of an array. */
  function Total(a: Arr<real>, shape: seq<nat>): real
    requires HasShape(a, shape)
    decreases |shape|, 1, 0
  {
    if shape == [] then a.value else TotalOf(a.items, shape[1..])
  }

  /** The sum of all cells of a sequence of equally shaped arrays. */
  function TotalOf(items: seq<Arr<real>>, shape: seq<nat>): real
    requires forall i :: 0 <= i < |items| ==> HasShape(items[i], shape)
    decreases |shape| + 1, 0, |items|
  {
    if items == [] then 0.0
    else TotalOf(items[..|items| - 1], shape) + Total(items[|items| - 1], shape)
  }

  /** `w[:, :, 2:-1, 2:-1, ...].sum()`. */
  function InteriorSum(w: NdArray<real>): real
    requires w.Valid() && |w.shape| >= 2
  {
    InteriorFits(w.shape);
    Total(Crop(w.data, w.shape, InteriorOffsets(w.shape), InteriorLengths(w.shape)), InteriorLengths(w.shape))
  }

  /** Every cell divided by `s`. */
  function Divided(a: Arr<real>, s: real): Arr<real>
    requires s != 0.0
    decreases a
  {
    match a
    case Scalar(v) => Scalar(v / s)
    case Stack(items) => Stack(seq(|items|, i requires 0 <= i < |items| => Divided(items[i], s)))
  }

  lemma {:induction false} DividedShape(a: Arr<real>, shape: seq<nat>, s: real)
    requires s != 0.0 && HasShape(a, shape)
    ensures HasShape(Divided(a, s), shape)
    decreases |shape|
  {
    if shape != [] {
      forall i | 0 <= i < shape[0] ensures HasShape(Divided(a, s).items[i], shape[1..]) {
        DividedShape(a.items[i], shape[1..], s);
      }
    }
  }

  /** Cell idx of the divided array is cell idx of the array divided by `s`. */
  lemma {:induction false} DividedAt(a: Arr<real>, shape: seq<nat>, s: real, idx: seq<nat>)
    requires s != 0.0 && HasShape(a, shape) && InBounds(idx, shape)
    ensures HasShape(Divided(a, s), shape)
    ensures At(Divided(a, s), shape, idx) == At(a, shape, idx) / s
    decreases |shape|
  {
    DividedShape(a, shape, s);
    if shape != [] {
      InBoundsTail(idx, shape);
      DividedAt(a.items[idx[0]], shape[1..], s, idx[1..]);
    }
  }

  /** Dividing and then cropping is cropping and then dividing. */
  lemma {:induction false} CropDivided(a: Arr<real>, shape: seq<nat>, off: seq<nat>, win: seq<nat>, s: real)
    requires s != 0.0 && HasShape(a, shape) && Fits(shape, off, win)
    ensures HasShape(Divided(a, s), shape)
    ensures Crop(Divided(a, s), shape, off, win) == Divided(Crop(a, shape, off, win), s)
    decreases |shape|
  {
    DividedShape(a, shape, s);
    if shape != [] {
      FitsTail(shape, off, win);
      var l := Crop(Divided(a, s), shape, off, win);
      var r := Divided(Crop(a, shape, off, win), s);
      forall i | 0 <= i < win[0] ensures l.items[i] == r.items[i] {
        CropDivided(a.items[off[0] + i], shape[1..], off[1..], win[1..], s);
      }
    }
  }

  /** The sum of the divided array is the sum divided by `s`. */
  lemma {:induction false} TotalDivided(a: Arr<real>, shape: seq<nat>, s: real)
    requires s != 0.0 && HasShape(a, shape)
    ensures HasShape(Divided(a, s), shape)
    ensures Total(Divided(a, s), shape) == Total(a, shape) / s
    decreases |shape|, 1, 0
  {
    DividedShape(a, shape, s);
    if shape != [] {
      TotalOfDivided(a.items, shape[1..], s);
      assert Divided(a, s).items == seq(|a.items|, i requires 0 <= i < |a.items| => Divided(a.items[i], s));
    }
  }

  lemma {:induction false} TotalOfDivided(items: seq<Arr<real>>, shape: seq<nat>, s: real)
    requires s != 0.0 && forall i :: 0 <= i < |items| ==> HasShape(items[i], shape)
    ensures forall i :: 0 <= i < |items| ==> HasShape(Divided(items[i], s), shape)
    ensures TotalOf(seq(|items|, i requires 0 <= i < |items| => Divided(items[i], s)), shape) == TotalOf(items, shape) / s
    decreases |shape| + 1, 0, |items|
  {
    forall i | 0 <= i < |items| ensures HasShape(Divided(items[i], s), shape) {
      DividedShape(items[i], shape, s);
    }
    var ds := seq(|items|, i requires 0 <= i < |items| => Divided(items[i], s));
    if items != [] {
      var n := |items| - 1;
      TotalOfDivided(items[..n], shape, s);
      TotalDivided(items[n], shape, s);
      assert ds[..n] == seq(n, i requires 0 <= i < n => Divided(items[..n][i], s));
      var a := TotalOf(items[..n], shape);
      var c := Total(items[n], shape);
      assert TotalOf(ds, shape) == a / s + c / s;
      assert TotalOf(items, shape) == a + c;
      SumDivided(a, c, s);
    }
  }

  lemma SumDivided(a: real, c: real, s: real)
    requires s != 0.0
    ensures a / s + c / s == (a + c) / s
  {
  }

  /** `calculate_heatmap(w)`: `w` divided by the sum of its interior. The
      array must have a batch axis, a channel axis and a spatial axis; an
      interior that sums to 0 is refused (numpy would fill the result with
      infinities and NaNs). */
  function CalculateHeatmap(w: NdArray<real>): (r: Result<NdArray<real>>)
    requires w.Valid()
    ensures r.Ok? <==> w.Rank() >= 3 && InteriorSum(w) != 0.0
    ensures r.Err? ==> r.error == (if w.Rank() < 3 then FormatError else DegenerateWeights)
    ensures r.Ok? ==> r.value.Valid() && r.value.shape == w.shape
  {
    if w.Rank() < 3 then Err(FormatError)
    else
      var s := InteriorSum(w);
      if s == 0.0 then Err(DegenerateWeights)
      else
        DividedShape(w.data, w.shape, s);
        Ok(NdArray(w.shape, Divided(w.data, s)))
  }

  /** Every cell of the heatmap is the weight divided by the interior sum. */
  lemma HeatmapAt(w: NdArray<real>, idx: seq<nat>)
    requires w.Valid() && CalculateHeatmap(w).Ok? && InBounds(idx, w.shape)
    ensures At(CalculateHeatmap(w).value.data, w.shape, idx) == At(w.data, w.shape, idx) / InteriorSum(w)
  {
    DividedAt(w.data, w.shape, InteriorSum(w), idx);
  }

  /** The interior of a heatmap sums to 1. */
  lemma HeatmapInteriorSumsToOne(w: NdArray<real>)
    requires w.Valid() && CalculateHeatmap(w).Ok?
    ensures InteriorSum(CalculateHeatmap(w).value) == 1.0
  {
    var s := InteriorSum(w);
    var off := InteriorOffsets(w.shape);
    var len := InteriorLengths(w.shape);
    InteriorFits(w.shape);
    CropDivided(w.data, w.shape, off, len, s);
    TotalDivided(Crop(w.data, w.shape, off, len), len, s);
    var h := CalculateHeatmap(w).value;
    assert h == NdArray(w.shape, Divided(w.data, s));
    assert InteriorSum(h) == Total(Crop(Divided(w.data, s), w.shape, off, len), len);
    assert s == Total(Crop(w.data, w.shape, off, len), len);
    assert InteriorSum(h) == s / s;
    assert s / s == 1.0;
  }
}
