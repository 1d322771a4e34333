/** `Drop`: border blanking (every cell closer than `border` to the edge of
    some spatial axis becomes 0) and dropout (cells chosen at random become
    0). A call on a batch leaves the batch and channel axes alone (flag
    "source"), a call on one example its channel axis (flag "example"). */
module Drops {
  import opened NdArrays
  import opened Results
  import opened Batches

  /** How many leading axes are not spatial under a flag: two for "source"
      (batch and channel), one for "example" (channel); other flags are
      refused. */
  function LeadingAxes(flag: string): (r: Result<nat>)
    ensures r.Ok? <==> flag == "source" || flag == "example"
    ensures flag == "source" ==> r == Ok(2)
    ensures flag == "example" ==> r == Ok(1)
    ensures r.Err? ==> r.error == ConfigError
  {
    if flag == "source" then Ok(2)
    else if flag == "example" then Ok(1)
    else Err(ConfigError)
  }

  /** Every spatial coordinate of `idx` (those from `lead` on) lies in
      `[border, dim - border)`. */
  predicate InsideBorder(idx: seq<nat>, shape: seq<nat>, lead: nat, border: nat)
    requires |idx| == |shape|
  {
    forall k :: lead <= k < |shape| ==> border <= idx[k] && idx[k] + border < shape[k]
  }

  /** The border fits: on every spatial axis it is less than half the axis. */
  predicate BorderFits(shape: seq<nat>, lead: nat, border: nat)
  {
    forall k :: lead <= k < |shape| ==> 2 * border < shape[k]
  }

  /** Cells inside the border are kept, all others become 0. */
  function Blank(x: NdArray<real>, lead: nat, border: nat): (r: NdArray<real>)
    requires x.Valid()
    ensures r.Valid() && r.shape == x.shape
  {
    NdArray(x.shape, Pointwise(x.data, x.shape,
      (idx: seq<nat>, v: real) => if |idx| == |x.shape| && InsideBorder(idx, x.shape, lead, border) then v else 0.0,
      []))
  }

  /** `_border_func(volume, border, flag)`: a bad flag, a value that is not
      an array, an array with no spatial axis, or a border of half an axis or
      more is refused. */
  function BorderFunc(v: Value, border: nat, flag: string): (r: Result<NdArray<real>>)
    requires v.Array? ==> v.arr.Valid()
    ensures r.Ok? <==>
      && LeadingAxes(flag).Ok?
      && v.Array? && v.arr.Rank() > LeadingAxes(flag).value
      && BorderFits(v.arr.shape, LeadingAxes(flag).value, border)
    ensures !LeadingAxes(flag).Ok? ==> r == Err(ConfigError)
    ensures r.Ok? ==> r.value.Valid() && r.value.shape == v.arr.shape
  {
    match LeadingAxes(flag)
    case Err(e) => Err(e)
    case Ok(lead) =>
      if v.NonArray? || v.arr.Rank() <= lead then Err(FormatError)
      else if !BorderFits(v.arr.shape, lead, border) then Err(SizeError)
      else Ok(Blank(v.arr, lead, border))
  }

  /** Cell idx of a blanked array is the input cell when every spatial
      coordinate lies in `[border, dim - border)`, and 0 otherwise. */
  lemma BlankAt(x: NdArray<real>, lead: nat, border: nat, idx: seq<nat>)
    requires x.Valid() && InBounds(idx, x.shape)
    ensures At(Blank(x, lead, border).data, x.shape, idx)
         == if InsideBorder(idx, x.shape, lead, border) then At(x.data, x.shape, idx) else 0.0
  {
    PointwiseAt(x.data, x.shape,
      (idx: seq<nat>, v: real) => if |idx| == |x.shape| && InsideBorder(idx, x.shape, lead, border) then v else 0.0,
      [], idx);
    assert [] + idx == idx;
  }

  /** A border of 0 keeps every cell. */
  lemma BlankNothing(x: NdArray<real>, lead: nat)
    requires x.Valid()
    ensures Blank(x, lead, 0) == x
  {
    forall idx | InBounds(idx, x.shape)
      ensures At(Blank(x, lead, 0).data, x.shape, idx) == At(x.data, x.shape, idx)
    {
      BlankAt(x, lead, 0, idx);
    }
    Extensionality(Blank(x, lead, 0).data, x.data, x.shape);
  }

  /** When every spatial axis is `2 * border + 1` long, only the centre cell
      of each leading position survives. */
  lemma OnlyCentreSurvives(shape: seq<nat>, lead: nat, border: nat, idx: seq<nat>)
    requires InBounds(idx, shape)
    requires forall k :: lead <= k < |shape| ==> shape[k] == 2 * border + 1
    ensures InsideBorder(idx, shape, lead, border) <==> forall k :: lead <= k < |shape| ==> idx[k] == border
  {
  }

  /** Blanking a dense batch with the "source" flag blanks each of its
      examples as the "example" flag does. */
  lemma BlankSourceIsPerExample(s: NdArray<real>, border: nat, i: nat)
    requires s.Valid() && |s.shape| >= 1 && i < s.shape[0]
    ensures Slice(Blank(s, 2, border), i) == Blank(Slice(s, i), 1, border)
  {
    var x := Slice(s, i);
    var l := Slice(Blank(s, 2, border), i);
    var r := Blank(x, 1, border);
    forall idx | InBounds(idx, x.shape)
      ensures At(l.data, x.shape, idx) == At(r.data, x.shape, idx)
    {
      AtCons(Blank(s, 2, border).data, s.shape, i, idx);
      AtCons(s.data, s.shape, i, idx);
      BlankAt(s, 2, border, [i] + idx);
      BlankAt(x, 1, border, idx);
      assert InsideBorder([i] + idx, s.shape, 2, border) <==> InsideBorder(idx, x.shape, 1, border) by {
        forall k | 1 <= k < |x.shape| ensures ([i] + idx)[k + 1] == idx[k] && s.shape[k + 1] == x.shape[k] {
        }
        if InsideBorder(idx, x.shape, 1, border) {
          forall k | 2 <= k < |s.shape| ensures border <= ([i] + idx)[k] && ([i] + idx)[k] + border < s.shape[k] {
            assert ([i] + idx)[k] == idx[k - 1];
          }
        }
      }
    }
    Extensionality(l.data, r.data, x.shape);
  }

  /** Cells whose mask bit is off become 0, the others are kept. The mask
      stands for numpy's uniform draws, which the model leaves abstract. */
  function Dropout(x: NdArray<real>, keep: seq<nat> -> bool): (r: NdArray<real>)
    requires x.Valid()
    ensures r.Valid() && r.shape == x.shape
  {
    NdArray(x.shape, Pointwise(x.data, x.shape, (idx: seq<nat>, v: real) => if keep(idx) then v else 0.0, []))
  }

  /** Every cell after dropout is the input cell or 0. */
  lemma DropoutAt(x: NdArray<real>, keep: seq<nat> -> bool, idx: seq<nat>)
    requires x.Valid() && InBounds(idx, x.shape)
    ensures At(Dropout(x, keep).data, x.shape, idx) == if keep(idx) then At(x.data, x.shape, idx) else 0.0
  {
    PointwiseAt(x.data, x.shape, (idx: seq<nat>, v: real) => if keep(idx) then v else 0.0, [], idx);
    assert [] + idx == idx;
  }

  /** A configured `Drop`: its border and its dropout probability. */
  datatype Drop = Drop(border: nat, dropout: real)
  {
    /** The transform of a value under a flag: the rank check, then the
        border when it is positive, then dropout when its probability is. */
    function Apply(v: Value, flag: string, keep: seq<nat> -> bool): (r: Result<NdArray<real>>)
      requires v.Array? ==> v.arr.Valid()
      requires flag == "source" || flag == "example"
      ensures r.Ok? ==> v.Array? && r.value.Valid() && r.value.shape == v.arr.shape
    {
      var lead := LeadingAxes(flag).value;
      if v.NonArray? || v.arr.Rank() <= lead then Err(FormatError)
      else
        match (if border > 0 then BorderFunc(v, border, flag) else Ok(v.arr))
        case Err(e) => Err(e)
        case Ok(y) => Ok(if dropout > 0.0 then Dropout(y, keep) else y)
    }

    /** `transform_source_example`. */
    function TransformExample(v: Value, keep: seq<nat> -> bool): Result<NdArray<real>>
      requires v.Array? ==> v.arr.Valid()
    {
      Apply(v, "example", keep)
    }

    /** `transform_source_batch` on a dense batch. */
    function TransformBatch(v: Value, keep: seq<nat> -> bool): Result<NdArray<real>>
      requires v.Array? ==> v.arr.Valid()
    {
      Apply(v, "source", keep)
    }
  }

  /** What a `Drop` call does to every cell: a cell outside the border
      becomes 0, a cell inside it is the input cell or 0, and the input cell
      when dropout is off. A value that is not an array, or has no spatial
      axis, is refused. */
  lemma DropAt(d: Drop, v: Value, flag: string, keep: seq<nat> -> bool, idx: seq<nat>)
    requires v.Array? ==> v.arr.Valid()
    requires flag == "source" || flag == "example"
    ensures var lead := LeadingAxes(flag).value;
      d.Apply(v, flag, keep).Ok? <==> v.Array? && v.arr.Rank() > lead && (d.border > 0 ==> BorderFits(v.arr.shape, lead, d.border))
    ensures var lead := LeadingAxes(flag).value;
      d.Apply(v, flag, keep).Ok? && InBounds(idx, v.arr.shape) ==>
        var out := At(d.Apply(v, flag, keep).value.data, v.arr.shape, idx);
        var cell := At(v.arr.data, v.arr.shape, idx);
        && (out == cell || out == 0.0)
        && (!InsideBorder(idx, v.arr.shape, lead, d.border) ==> out == 0.0)
        && (d.dropout <= 0.0 && InsideBorder(idx, v.arr.shape, lead, d.border) ==> out == cell)
  {
    var lead := LeadingAxes(flag).value;
    var r := d.Apply(v, flag, keep);
    if r.Ok? && InBounds(idx, v.arr.shape) {
      var x := v.arr;
      var y := if d.border > 0 then Blank(x, lead, d.border) else x;
      if d.border > 0 {
        BlankAt(x, lead, d.border, idx);
      } else {
        assert InsideBorder(idx, x.shape, lead, d.border);
      }
      if d.dropout > 0.0 {
        DropoutAt(y, keep, idx);
      }
    }
  }

  /** `Drop(border=0, dropout=0)` is the identity on every array with a
      spatial axis. */
  lemma DropNothingIsIdentity(v: Value, flag: string, keep: seq<nat> -> bool)
    requires v.Array? ==> v.arr.Valid()
    requires flag == "source" || flag == "example"
    ensures Drop(0, 0.0).Apply(v, flag, keep).Ok? <==> v.Array? && v.arr.Rank() > LeadingAxes(flag).value
    ensures Drop(0, 0.0).Apply(v, flag, keep).Ok? ==> Drop(0, 0.0).Apply(v, flag, keep).value == v.arr
  {
  }
}
