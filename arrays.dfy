/** N-dimensional arrays as numpy holds them: a block of cells with a shape.
    The cells are a nested stack along the leading axis; `At` reads one cell
    by its index tuple, and every operation on arrays is specified by what
    `At` returns on its result. */
module NdArrays {

  /** The cells of an array: a scalar (rank 0) or a stack of sub-arrays along
      the leading axis. */
  datatype Arr<T> = Scalar(value: T) | Stack(items: seq<Arr<T>>)

  /** `a` is a uniform block of the given shape. */
  predicate HasShape<T>(a: Arr<T>, shape: seq<nat>)
    decreases |shape|
  {
    if shape == [] then a.Scalar?
    else
      && a.Stack?
      && |a.items| == shape[0]
      && forall i :: 0 <= i < |a.items| ==> HasShape(a.items[i], shape[1..])
  }

  /** A numpy array: its shape and its cells. */
  datatype NdArray<T> = NdArray(shape: seq<nat>, data: Arr<T>)
  {
    predicate Valid() { HasShape(data, shape) }
    function Rank(): nat { |shape| }
  }

  /** `idx` addresses a cell of an array of shape `shape`. */
  predicate InBounds(idx: seq<nat>, shape: seq<nat>)
  {
    |idx| == |shape| && forall k :: 0 <= k < |idx| ==> idx[k] < shape[k]
  }

  lemma InBoundsTail(idx: seq<nat>, shape: seq<nat>)
    requires InBounds(idx, shape) && shape != []
    ensures InBounds(idx[1..], shape[1..])
  {
    forall k | 0 <= k < |idx| - 1 ensures idx[1..][k] < shape[1..][k] {
      assert idx[1..][k] == idx[k + 1];
    }
  }

  lemma InBoundsCons(i: nat, idx: seq<nat>, shape: seq<nat>)
    requires shape != [] && i < shape[0] && InBounds(idx, shape[1..])
    ensures InBounds([i] + idx, shape)
  {
    forall k | 0 <= k < |shape| ensures ([i] + idx)[k] < shape[k] {
      if k > 0 { assert ([i] + idx)[k] == idx[k - 1]; }
    }
  }

  /** The cell at index `idx` (numpy's `a[idx]`). */
  function At<T>(a: Arr<T>, shape: seq<nat>, idx: seq<nat>): T
    requires HasShape(a, shape) && InBounds(idx, shape)
    decreases |shape|
  {
    if shape == [] then a.value
    else
      InBoundsTail(idx, shape);
      At(a.items[idx[0]], shape[1..], idx[1..])
  }

  /** Reading a cell through the leading axis. */
  lemma AtCons<T>(a: Arr<T>, shape: seq<nat>, i: nat, idx: seq<nat>)
    requires HasShape(a, shape) && shape != [] && i < shape[0] && InBounds(idx, shape[1..])
    ensures InBounds([i] + idx, shape)
    ensures At(a, shape, [i] + idx) == At(a.items[i], shape[1..], idx)
  {
    InBoundsCons(i, idx, shape);
    assert ([i] + idx)[1..] == idx;
  }

  /** Two arrays of one shape that agree on every cell are the same array. */
  lemma {:induction false} Extensionality<T>(a: Arr<T>, b: Arr<T>, shape: seq<nat>)
    requires HasShape(a, shape) && HasShape(b, shape)
    requires forall idx :: InBounds(idx, shape) ==> At(a, shape, idx) == At(b, shape, idx)
    ensures a == b
    decreases |shape|
  {
    if shape == [] {
      assert At(a, shape, []) == At(b, shape, []);
    } else {
      forall i | 0 <= i < shape[0] ensures a.items[i] == b.items[i] {
        forall idx | InBounds(idx, shape[1..])
          ensures At(a.items[i], shape[1..], idx) == At(b.items[i], shape[1..], idx)
        {
          AtCons(a, shape, i, idx);
          AtCons(b, shape, i, idx);
        }
        Extensionality(a.items[i], b.items[i], shape[1..]);
      }
      assert a.items == b.items;
    }
  }

  /** `idx + off`, axis by axis. */
  function Shift(idx: seq<nat>, off: seq<nat>): (r: seq<nat>)
    requires |idx| == |off|
    ensures |r| == |idx| && forall k :: 0 <= k < |r| ==> r[k] == idx[k] + off[k]
  {
    seq(|idx|, k requires 0 <= k < |idx| => idx[k] + off[k])
  }

  /** A window of length `win[k]` starting at `off[k]` fits axis k of `shape`. */
  predicate Fits(shape: seq<nat>, off: seq<nat>, win: seq<nat>)
  {
    && |off| == |shape|
    && |win| == |shape|
    && forall k :: 0 <= k < |shape| ==> off[k] + win[k] <= shape[k]
  }

  lemma FitsTail(shape: seq<nat>, off: seq<nat>, win: seq<nat>)
    requires Fits(shape, off, win) && shape != []
    ensures Fits(shape[1..], off[1..], win[1..])
  {
    forall k | 0 <= k < |shape| - 1 ensures off[1..][k] + win[1..][k] <= shape[1..][k] {
      assert off[k + 1] + win[k + 1] <= shape[k + 1];
    }
  }

  /** The sub-array `a[off[0]:off[0]+win[0], off[1]:off[1]+win[1], ...]`. */
  function Crop<T>(a: Arr<T>, shape: seq<nat>, off: seq<nat>, win: seq<nat>): (r: Arr<T>)
    requires HasShape(a, shape) && Fits(shape, off, win)
    ensures HasShape(r, win)
    decreases |shape|
  {
    if shape == [] then a
    else
      FitsTail(shape, off, win);
      var sub := a.items[off[0]..off[0] + win[0]];
      assert forall i :: 0 <= i < |sub| ==> HasShape(sub[i], shape[1..]);
      var items := seq(win[0], i requires 0 <= i < win[0] =>
        Crop(sub[i], shape[1..], off[1..], win[1..]));
      Stack(items)
  }

  /** Cell `idx` of a crop is cell `idx + off` of the array. */
  lemma {:induction false} CropAt<T>(a: Arr<T>, shape: seq<nat>, off: seq<nat>, win: seq<nat>, idx: seq<nat>)
    requires HasShape(a, shape) && Fits(shape, off, win) && InBounds(idx, win)
    ensures InBounds(Shift(idx, off), shape)
    ensures At(Crop(a, shape, off, win), win, idx) == At(a, shape, Shift(idx, off))
    decreases |shape|
  {
    if shape != [] {
      FitsTail(shape, off, win);
      InBoundsTail(idx, win);
      CropAt(a.items[off[0] + idx[0]], shape[1..], off[1..], win[1..], idx[1..]);
      assert Shift(idx, off) == [off[0] + idx[0]] + Shift(idx[1..], off[1..]);
      AtCons(a, shape, off[0] + idx[0], Shift(idx[1..], off[1..]));
    }
  }

  /** `idx` with its axis-k coordinate mirrored. */
  function Mirror(idx: seq<nat>, shape: seq<nat>, k: nat): (r: seq<nat>)
    requires InBounds(idx, shape) && k < |shape|
    ensures InBounds(r, shape)
  {
    idx[k := shape[k] - 1 - idx[k]]
  }

  /** The array reversed along axis k (numpy's `a[(slice(None),) * k + (slice(None, None, -1),)]`). */
  function ReverseAxis<T>(a: Arr<T>, shape: seq<nat>, k: nat): (r: Arr<T>)
    requires HasShape(a, shape) && k < |shape|
    ensures HasShape(r, shape)
    decreases k
  {
    if k == 0 then
      Stack(seq(shape[0], i requires 0 <= i < shape[0] => a.items[shape[0] - 1 - i]))
    else
      Stack(seq(shape[0], i requires 0 <= i < shape[0] => ReverseAxis(a.items[i], shape[1..], k - 1)))
  }

  /** Cell `idx` of the reversal is the input cell with coordinate k mirrored. */
  lemma {:induction false} ReverseAxisAt<T>(a: Arr<T>, shape: seq<nat>, k: nat, idx: seq<nat>)
    requires HasShape(a, shape) && k < |shape| && InBounds(idx, shape)
    ensures At(ReverseAxis(a, shape, k), shape, idx) == At(a, shape, Mirror(idx, shape, k))
    decreases k
  {
    InBoundsTail(idx, shape);
    var m := Mirror(idx, shape, k);
    if k == 0 {
      assert m == [shape[0] - 1 - idx[0]] + idx[1..];
      AtCons(a, shape, shape[0] - 1 - idx[0], idx[1..]);
    } else {
      ReverseAxisAt(a.items[idx[0]], shape[1..], k - 1, idx[1..]);
      assert m == [idx[0]] + Mirror(idx[1..], shape[1..], k - 1);
      AtCons(a, shape, idx[0], Mirror(idx[1..], shape[1..], k - 1));
    }
  }

  /** Reversing an axis twice gives the array back. */
  lemma ReverseAxisTwice<T>(a: Arr<T>, shape: seq<nat>, k: nat)
    requires HasShape(a, shape) && k < |shape|
    ensures ReverseAxis(ReverseAxis(a, shape, k), shape, k) == a
  {
    var r := ReverseAxis(a, shape, k);
    forall idx | InBounds(idx, shape)
      ensures At(ReverseAxis(r, shape, k), shape, idx) == At(a, shape, idx)
    {
      ReverseAxisAt(r, shape, k, idx);
      ReverseAxisAt(a, shape, k, Mirror(idx, shape, k));
      assert Mirror(Mirror(idx, shape, k), shape, k) == idx;
    }
    Extensionality(ReverseAxis(r, shape, k), a, shape);
  }

  /** Reversals of two axes commute. */
  lemma ReverseAxesCommute<T>(a: Arr<T>, shape: seq<nat>, j: nat, k: nat)
    requires HasShape(a, shape) && j < |shape| && k < |shape|
    ensures ReverseAxis(ReverseAxis(a, shape, j), shape, k)
         == ReverseAxis(ReverseAxis(a, shape, k), shape, j)
  {
    var jk := ReverseAxis(ReverseAxis(a, shape, j), shape, k);
    var kj := ReverseAxis(ReverseAxis(a, shape, k), shape, j);
    forall idx | InBounds(idx, shape)
      ensures At(jk, shape, idx) == At(kj, shape, idx)
    {
      ReverseAxisAt(ReverseAxis(a, shape, j), shape, k, idx);
      ReverseAxisAt(a, shape, j, Mirror(idx, shape, k));
      ReverseAxisAt(ReverseAxis(a, shape, k), shape, j, idx);
      ReverseAxisAt(a, shape, k, Mirror(idx, shape, j));
      assert Mirror(Mirror(idx, shape, k), shape, j) == Mirror(Mirror(idx, shape, j), shape, k);
    }
    Extensionality(jk, kj, shape);
  }

  /** The array whose cell at index `idx` is `g(prefix + idx, cell idx)`:
      an element-wise map that also sees where each cell sits. */
  function Pointwise<T>(a: Arr<T>, shape: seq<nat>, g: (seq<nat>, T) -> T, prefix: seq<nat>): (r: Arr<T>)
    requires HasShape(a, shape)
    ensures HasShape(r, shape)
    decreases |shape|
  {
    if shape == [] then Scalar(g(prefix, a.value))
    else Stack(seq(shape[0], i requires 0 <= i < shape[0] => Pointwise(a.items[i], shape[1..], g, prefix + [i])))
  }

  lemma {:induction false} PointwiseAt<T>(a: Arr<T>, shape: seq<nat>, g: (seq<nat>, T) -> T, prefix: seq<nat>, idx: seq<nat>)
    requires HasShape(a, shape) && InBounds(idx, shape)
    ensures At(Pointwise(a, shape, g, prefix), shape, idx) == g(prefix + idx, At(a, shape, idx))
    decreases |shape|
  {
    if shape == [] {
      assert idx == [];
      assert prefix + idx == prefix;
    } else {
      InBoundsTail(idx, shape);
      PointwiseAt(a.items[idx[0]], shape[1..], g, prefix + [idx[0]], idx[1..]);
      assert prefix + [idx[0]] + idx[1..] == prefix + idx;
    }
  }
}
