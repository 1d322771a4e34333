/** `window_batch_bchw3d`: copies one 3-D window per example of a
    (batch, channel, x, y, z) volume into a preallocated output buffer of shape
    (batch, channel) + window, the window of example b starting at
    (xo[b], yo[b], zo[b]). */
module WindowCopy {
  import opened NdArrays
  import opened Batches
  import opened Windows

  /** The volume, the per-example offsets and the buffer agree: one offset per
      example on each axis, and every window lies inside the volume. */
  predicate Geometry(src: NdArray<real>, xo: seq<nat>, yo: seq<nat>, zo: seq<nat>, out: array5<real>)
  {
    && src.Valid() && |src.shape| == 5
    && |xo| == src.shape[0] && |yo| == src.shape[0] && |zo| == src.shape[0]
    && out.Length0 == src.shape[0] && out.Length1 == src.shape[1]
    && forall b :: 0 <= b < src.shape[0] ==>
         && xo[b] + out.Length2 <= src.shape[2]
         && yo[b] + out.Length3 <= src.shape[3]
         && zo[b] + out.Length4 <= src.shape[4]
  }

  /** The window of the buffer, (x, y, z). */
  function Window(out: array5<real>): seq<nat>
  {
    [out.Length2, out.Length3, out.Length4]
  }

  /** (b, c, x, y, z) addresses a cell of the buffer. */
  predicate InOut(out: array5<real>, b: int, c: int, x: int, y: int, z: int)
  {
    0 <= b < out.Length0 && 0 <= c < out.Length1 && 0 <= x < out.Length2 && 0 <= y < out.Length3 && 0 <= z < out.Length4
  }

  /** The value cell (b, c, x, y, z) of the buffer must receive: the volume at
      the same example and channel, shifted by the example's offsets. */
  function Cell(src: NdArray<real>, xo: seq<nat>, yo: seq<nat>, zo: seq<nat>, out: array5<real>,
                b: nat, c: nat, x: nat, y: nat, z: nat): real
    requires Geometry(src, xo, yo, zo, out) && InOut(out, b, c, x, y, z)
  {
    assert InBounds([b, c, x + xo[b], y + yo[b], z + zo[b]], src.shape);
    At(src.data, src.shape, [b, c, x + xo[b], y + yo[b], z + zo[b]])
  }

  /** What the buffer holds is the crop of each example: cell (b, c, x, y, z)
      is cell (c, x, y, z) of example b cropped at (xo[b], yo[b], zo[b]). */
  lemma CellIsCrop(src: NdArray<real>, xo: seq<nat>, yo: seq<nat>, zo: seq<nat>, out: array5<real>,
                   b: nat, c: nat, x: nat, y: nat, z: nat)
    requires Geometry(src, xo, yo, zo, out) && InOut(out, b, c, x, y, z)
    ensures OffsetsFit(Slice(src, b).shape, Window(out), [xo[b], yo[b], zo[b]])
    ensures InBounds([c, x, y, z], CroppedShape(Slice(src, b).shape, Window(out)))
    ensures Cell(src, xo, yo, zo, out, b, c, x, y, z)
         == At(CropExample(Slice(src, b), [xo[b], yo[b], zo[b]], Window(out)).data,
               CroppedShape(Slice(src, b).shape, Window(out)), [c, x, y, z])
  {
    var ex := Slice(src, b);
    var off := [xo[b], yo[b], zo[b]];
    var w := Window(out);
    assert OffsetsFit(ex.shape, w, off);
    assert InBounds([x, y, z], w);
    CropExampleAt(ex, off, w, c, [x, y, z]);
    assert [c] + [x, y, z] == [c, x, y, z];
    assert [c] + Shift([x, y, z], off) == [c, x + xo[b], y + yo[b], z + zo[b]];
    assert InBounds([c, x + xo[b], y + yo[b], z + zo[b]], src.shape[1..]);
    AtCons(src.data, src.shape, b, [c, x + xo[b], y + yo[b], z + zo[b]]);
    assert [b] + [c, x + xo[b], y + yo[b], z + zo[b]] == [b, c, x + xo[b], y + yo[b], z + zo[b]];
  }

  /** Fills the line (b, c, x, y, ·). */
  method FillLine(src: NdArray<real>, xo: seq<nat>, yo: seq<nat>, zo: seq<nat>, out: array5<real>,
                  b: nat, c: nat, x: nat, y: nat)
    requires Geometry(src, xo, yo, zo, out)
    requires b < out.Length0 && c < out.Length1 && x < out.Length2 && y < out.Length3
    modifies out
    ensures forall z :: 0 <= z < out.Length4 ==> out[b, c, x, y, z] == Cell(src, xo, yo, zo, out, b, c, x, y, z)
    ensures forall i, j, k, l, m :: InOut(out, i, j, k, l, m) && (i != b || j != c || k != x || l != y) ==>
      out[i, j, k, l, m] == old(out[i, j, k, l, m])
  {
    for z := 0 to out.Length4
      invariant forall m :: 0 <= m < z ==> out[b, c, x, y, m] == Cell(src, xo, yo, zo, out, b, c, x, y, m)
      invariant forall i, j, k, l, m :: InOut(out, i, j, k, l, m) && (i != b || j != c || k != x || l != y) ==>
        out[i, j, k, l, m] == old(out[i, j, k, l, m])
    {
      out[b, c, x, y, z] := Cell(src, xo, yo, zo, out, b, c, x, y, z);
    }
  }

  /** Fills the plane (b, c, x, ·, ·). */
  method FillPlane(src: NdArray<real>, xo: seq<nat>, yo: seq<nat>, zo: seq<nat>, out: array5<real>,
                   b: nat, c: nat, x: nat)
    requires Geometry(src, xo, yo, zo, out)
    requires b < out.Length0 && c < out.Length1 && x < out.Length2
    modifies out
    ensures forall l, m :: InOut(out, b, c, x, l, m) ==> out[b, c, x, l, m] == Cell(src, xo, yo, zo, out, b, c, x, l, m)
    ensures forall i, j, k, l, m :: InOut(out, i, j, k, l, m) && (i != b || j != c || k != x) ==>
      out[i, j, k, l, m] == old(out[i, j, k, l, m])
  {
    for y := 0 to out.Length3
      invariant forall l, m :: InOut(out, b, c, x, l, m) && l < y ==> out[b, c, x, l, m] == Cell(src, xo, yo, zo, out, b, c, x, l, m)
      invariant forall i, j, k, l, m :: InOut(out, i, j, k, l, m) && (i != b || j != c || k != x) ==>
        out[i, j, k, l, m] == old(out[i, j, k, l, m])
    {
      FillLine(src, xo, yo, zo, out, b, c, x, y);
    }
  }

  /** Fills the block (b, c, ·, ·, ·): one channel of one example. */
  method FillChannel(src: NdArray<real>, xo: seq<nat>, yo: seq<nat>, zo: seq<nat>, out: array5<real>,
                     b: nat, c: nat)
    requires Geometry(src, xo, yo, zo, out)
    requires b < out.Length0 && c < out.Length1
    modifies out
    ensures forall k, l, m :: InOut(out, b, c, k, l, m) ==> out[b, c, k, l, m] == Cell(src, xo, yo, zo, out, b, c, k, l, m)
    ensures forall i, j, k, l, m :: InOut(out, i, j, k, l, m) && (i != b || j != c) ==>
      out[i, j, k, l, m] == old(out[i, j, k, l, m])
  {
    for x := 0 to out.Length2
      invariant forall k, l, m :: InOut(out, b, c, k, l, m) && k < x ==> out[b, c, k, l, m] == Cell(src, xo, yo, zo, out, b, c, k, l, m)
      invariant forall i, j, k, l, m :: InOut(out, i, j, k, l, m) && (i != b || j != c) ==>
        out[i, j, k, l, m] == old(out[i, j, k, l, m])
    {
      FillPlane(src, xo, yo, zo, out, b, c, x);
    }
  }

  /** Fills every channel of example b. */
  method FillExample(src: NdArray<real>, xo: seq<nat>, yo: seq<nat>, zo: seq<nat>, out: array5<real>, b: nat)
    requires Geometry(src, xo, yo, zo, out)
    requires b < out.Length0
    modifies out
    ensures forall j, k, l, m :: InOut(out, b, j, k, l, m) ==> out[b, j, k, l, m] == Cell(src, xo, yo, zo, out, b, j, k, l, m)
    ensures forall i, j, k, l, m :: InOut(out, i, j, k, l, m) && i != b ==>
      out[i, j, k, l, m] == old(out[i, j, k, l, m])
  {
    for c := 0 to out.Length1
      invariant forall j, k, l, m :: InOut(out, b, j, k, l, m) && j < c ==> out[b, j, k, l, m] == Cell(src, xo, yo, zo, out, b, j, k, l, m)
      invariant forall i, j, k, l, m :: InOut(out, i, j, k, l, m) && i != b ==>
        out[i, j, k, l, m] == old(out[i, j, k, l, m])
    {
      FillChannel(src, xo, yo, zo, out, b, c);
    }
  }

  /** `window_batch_bchw3d(src, xo, yo, zo, out)`: afterwards every cell of
      the buffer holds the volume's cell at the same example and channel,
      shifted by that example's offsets. */
  method WindowBatch3D(src: NdArray<real>, xo: seq<nat>, yo: seq<nat>, zo: seq<nat>, out: array5<real>)
    requires Geometry(src, xo, yo, zo, out)
    modifies out
    ensures forall i, j, k, l, m :: InOut(out, i, j, k, l, m) ==> out[i, j, k, l, m] == Cell(src, xo, yo, zo, out, i, j, k, l, m)
  {
    for b := 0 to out.Length0
      invariant forall i, j, k, l, m :: InOut(out, i, j, k, l, m) && i < b ==> out[i, j, k, l, m] == Cell(src, xo, yo, zo, out, i, j, k, l, m)
    {
      FillExample(src, xo, yo, zo, out, b);
    }
  }

  /** The buffer after `WindowBatch3D` holds, example by example, the crops of
      the volume's examples at their offsets. */
  lemma BufferHoldsCrops(src: NdArray<real>, xo: seq<nat>, yo: seq<nat>, zo: seq<nat>, out: array5<real>)
    requires Geometry(src, xo, yo, zo, out)
    requires forall i, j, k, l, m :: InOut(out, i, j, k, l, m) ==> out[i, j, k, l, m] == Cell(src, xo, yo, zo, out, i, j, k, l, m)
    ensures forall b :: 0 <= b < out.Length0 ==> OffsetsFit(Slice(src, b).shape, Window(out), [xo[b], yo[b], zo[b]])
    ensures forall b, c, x, y, z :: InOut(out, b, c, x, y, z) ==>
      InBounds([c, x, y, z], CroppedShape(Slice(src, b).shape, Window(out))) &&
      out[b, c, x, y, z]
      == At(CropExample(Slice(src, b), [xo[b], yo[b], zo[b]], Window(out)).data,
            CroppedShape(Slice(src, b).shape, Window(out)), [c, x, y, z])
  {
    forall b | 0 <= b < out.Length0 ensures OffsetsFit(Slice(src, b).shape, Window(out), [xo[b], yo[b], zo[b]]) {
      assert Slice(src, b).shape == src.shape[1..];
    }
    forall b, c, x, y, z | InOut(out, b, c, x, y, z)
      ensures InBounds([c, x, y, z], CroppedShape(Slice(src, b).shape, Window(out)))
      ensures out[b, c, x, y, z]
           == At(CropExample(Slice(src, b), [xo[b], yo[b], zo[b]], Window(out)).data,
                 CroppedShape(Slice(src, b).shape, Window(out)), [c, x, y, z])
    {
      CellIsCrop(src, xo, yo, zo, out, b, c, x, y, z);
    }
  }
}
