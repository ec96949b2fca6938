/** `Offset2Coordinate` (decode/neuralfitter/coord_transform.py): the network
    predicts, in channels 2 and 3 of an N x C x H x W output, x and y offsets
    relative to the pixel centres; the transform adds the centre mesh to
    those two channels and leaves every other channel as it is. */
module CoordTransform {
  import opened Wrappers

  /** One H x W channel of one batch element. */
  type Grid = seq<seq<real>>

  /** An N x h x w tensor, `x[:, c]`: its trailing dimensions are kept with
      the planes so that an empty batch still has a shape. */
  datatype Stack = Stack(h: nat, w: nat, planes: seq<Grid>)

  /** A tensor of any rank; its entries are held only when the rank is 4,
      as N x C x H x W nested sequences. */
  datatype Tensor = Tensor(shape: seq<nat>, data: seq<seq<Grid>>)

  predicate IsGrid(g: Grid, h: nat, w: nat) {
    |g| == h && forall i :: 0 <= i < h ==> |g[i]| == w
  }

  predicate StackShaped(s: Stack) {
    forall k :: 0 <= k < |s.planes| ==> IsGrid(s.planes[k], s.h, s.w)
  }

  predicate WellFormed(t: Tensor) {
    if |t.shape| == 4 then
      && |t.data| == t.shape[0]
      && (forall n :: 0 <= n < |t.data| ==> |t.data[n]| == t.shape[1])
      && (forall n, c :: 0 <= n < |t.data| && 0 <= c < |t.data[n]| ==> IsGrid(t.data[n][c], t.shape[2], t.shape[3]))
    else t.data == []
  }

  /** The entry at (n, c, i, j) of a well-formed rank-4 tensor. */
  function At(t: Tensor, n: nat, c: nat, i: nat, j: nat): real
    requires WellFormed(t) && |t.shape| == 4
    requires n < t.shape[0] && c < t.shape[1] && i < t.shape[2] && j < t.shape[3]
  {
    t.data[n][c][i][j]
  }

  /** `x[:, c]`. */
  function Channel(x: Tensor, c: nat): (s: Stack)
    requires WellFormed(x) && |x.shape| == 4 && c < x.shape[1]
    ensures StackShaped(s) && |s.planes| == x.shape[0] && s.h == x.shape[2] && s.w == x.shape[3]
  {
    Stack(x.shape[2], x.shape[3], seq(x.shape[0], n requires 0 <= n < x.shape[0] => x.data[n][c]))
  }

  /** The size two broadcast dimensions give in torch, None when they clash. */
  function BroadcastDim(a: nat, b: nat): (r: Option<nat>)
    ensures r.Some? <==> a == b || a == 1 || b == 1
    ensures r.Some? ==> (r.value == a || a == 1) && (r.value == b || b == 1)
  {
    if a == b then Some(a) else if a == 1 then Some(b) else if b == 1 then Some(a) else None
  }

  /** The index an index of the broadcast result reads in an operand of
      size `size`: a size-1 dimension is repeated. */
  function Bc(size: nat, i: nat): nat {
    if size == 1 then 0 else i
  }

  /** The x-mesh of `torch.meshgrid([ctrX, ctrY])`: row i holds ctrX[i]. */
  function MeshX(ctrX: seq<real>, ctrY: seq<real>): (m: Grid)
    ensures IsGrid(m, |ctrX|, |ctrY|)
    ensures forall i, j :: 0 <= i < |ctrX| && 0 <= j < |ctrY| ==> m[i][j] == ctrX[i]
  {
    seq(|ctrX|, i requires 0 <= i < |ctrX| => seq(|ctrY|, j => ctrX[i]))
  }

  /** The y-mesh of `torch.meshgrid([ctrX, ctrY])`: column j holds ctrY[j]. */
  function MeshY(ctrX: seq<real>, ctrY: seq<real>): (m: Grid)
    ensures IsGrid(m, |ctrX|, |ctrY|)
    ensures forall i, j :: 0 <= i < |ctrX| && 0 <= j < |ctrY| ==> m[i][j] == ctrY[j]
  {
    seq(|ctrX|, i => seq(|ctrY|, j requires 0 <= j < |ctrY| => ctrY[j]))
  }

  /** A grid broadcast to h x w: a size-1 dimension is repeated. */
  function Expand(g: Grid, gh: nat, gw: nat, h: nat, w: nat): (r: Grid)
    requires IsGrid(g, gh, gw) && (gh == h || gh == 1) && (gw == w || gw == 1)
    ensures IsGrid(r, h, w)
    ensures forall i, j :: 0 <= i < h && 0 <= j < w ==> r[i][j] == g[Bc(gh, i)][Bc(gw, j)]
  {
    seq(h, i requires 0 <= i < h => seq(w, j requires 0 <= j < w => g[Bc(gh, i)][Bc(gw, j)]))
  }

  /** The entrywise sum of two h x w grids. */
  function AddGrids(a: Grid, b: Grid, h: nat, w: nat): (r: Grid)
    requires IsGrid(a, h, w) && IsGrid(b, h, w)
    ensures IsGrid(r, h, w)
    ensures forall i, j :: 0 <= i < h && 0 <= j < w ==> r[i][j] == a[i][j] + b[i][j]
  {
    seq(h, i requires 0 <= i < h => seq(w, j requires 0 <= j < w => a[i][j] + b[i][j]))
  }

  /** The sum of the mesh repeated over the batch and the offsets, with
      torch broadcasting of the two trailing dimensions. */
  function AddMesh(mesh: Grid, rows: nat, cols: nat, off: Stack, h: nat, w: nat): (s: Stack)
    requires IsGrid(mesh, rows, cols) && StackShaped(off)
    requires (h == rows || rows == 1) && (h == off.h || off.h == 1)
    requires (w == cols || cols == 1) && (w == off.w || off.w == 1)
    ensures StackShaped(s) && s.h == h && s.w == w && |s.planes| == |off.planes|
    ensures forall k :: 0 <= k < |off.planes| ==>
      s.planes[k] == AddGrids(Expand(mesh, rows, cols, h, w), Expand(off.planes[k], off.h, off.w, h, w), h, w)
  {
    var m := Expand(mesh, rows, cols, h, w);
    Stack(h, w, seq(|off.planes|, k requires 0 <= k < |off.planes| =>
      AddGrids(m, Expand(off.planes[k], off.h, off.w, h, w), h, w)))
  }

  /** A value of the given trailing shape can be assigned into an N x h x w
      slice: each of its dimensions equals the slice's or is 1. */
  predicate Assignable(s: Stack, h: nat, w: nat) {
    (s.h == h || s.h == 1) && (s.w == w || s.w == 1)
  }

  class Offset2Coordinate {
    /** `_x_mesh` and `_y_mesh` without their leading size-1 dimension. */
    const xMesh: Grid
    const yMesh: Grid
    /** The mesh shape (a torch tensor knows its shape even when empty). */
    const rows: nat
    const cols: nat

    predicate Valid() {
      IsGrid(xMesh, rows, cols) && IsGrid(yMesh, rows, cols)
    }

    /** `__init__`: the meshes of the pixel-centre coordinates; the centres
        come from `frame_grid`, which is not part of this model. */
    constructor(ctrX: seq<real>, ctrY: seq<real>)
      ensures Valid()
      ensures xMesh == MeshX(ctrX, ctrY) && yMesh == MeshY(ctrX, ctrY)
      ensures rows == |ctrX| && cols == |ctrY|
    {
      xMesh := MeshX(ctrX, ctrY);
      yMesh := MeshY(ctrX, ctrY);
      rows := |ctrX|;
      cols := |ctrY|;
    }

    /** The x-centre that output pixel (i, j) receives. */
    function XCentre(i: nat, j: nat): real
      requires Valid() && (rows == 1 || i < rows) && (cols == 1 || j < cols)
    {
      xMesh[Bc(rows, i)][Bc(cols, j)]
    }

    function YCentre(i: nat, j: nat): real
      requires Valid() && (rows == 1 || i < rows) && (cols == 1 || j < cols)
    {
      yMesh[Bc(rows, i)][Bc(cols, j)]
    }

    /** `_subpx_to_absolute`: the meshes repeated over the batch plus the
        offsets; shapes that do not broadcast raise RuntimeError. */
    function SubpxToAbsolute(xOff: Stack, yOff: Stack): (r: Result<(Stack, Stack)>)
      requires Valid() && StackShaped(xOff) && StackShaped(yOff)
      requires xOff.h == yOff.h && xOff.w == yOff.w && |xOff.planes| == |yOff.planes|
      ensures r.Ok? <==> BroadcastDim(rows, xOff.h).Some? && BroadcastDim(cols, xOff.w).Some?
      ensures r.Ok? ==> var (xc, yc) := r.value;
        && StackShaped(xc) && StackShaped(yc)
        && xc.h == yc.h == BroadcastDim(rows, xOff.h).value
        && xc.w == yc.w == BroadcastDim(cols, xOff.w).value
        && |xc.planes| == |yc.planes| == |xOff.planes|
    {
      var h := BroadcastDim(rows, xOff.h);
      var w := BroadcastDim(cols, xOff.w);
      if h.None? || w.None? then Err(RuntimeError("The size of tensor a must match the size of tensor b"))
      else Ok((AddMesh(xMesh, rows, cols, xOff, h.value, w.value), AddMesh(yMesh, rows, cols, yOff, h.value, w.value)))
    }

    /** `forward`: a copy of x whose channels 2 and 3 are replaced by the
        absolute coordinates. A tensor that is not 4-dimensional raises
        ValueError, fewer than four channels IndexError, and a mesh whose
        shape does not fit the frame RuntimeError. */
    function Forward(x: Tensor): (r: Result<Tensor>)
      requires Valid() && WellFormed(x)
      ensures |x.shape| != 4 ==> r == Err(ValueError("Wrong dimensionality. Needs to be N x C x H x W."))
      ensures |x.shape| == 4 && x.shape[1] < 4 ==> r == Err(IndexError)
      ensures r.Ok? <==> |x.shape| == 4 && x.shape[1] >= 4 && (rows == x.shape[2] || rows == 1) && (cols == x.shape[3] || cols == 1)
      ensures r.Ok? ==> r.value.shape == x.shape && WellFormed(r.value)
    {
      if |x.shape| != 4 then Err(ValueError("Wrong dimensionality. Needs to be N x C x H x W."))
      else if x.shape[1] < 4 then Err(IndexError)
      else
        var coords := SubpxToAbsolute(Channel(x, 2), Channel(x, 3));
        if coords.Err? then Err(coords.error)
        else
          var (xc, yc) := coords.value;
          if !Assignable(xc, x.shape[2], x.shape[3]) then Err(RuntimeError("shape mismatch"))
          else Ok(Replace(x, xc, yc))
    }

    /** The centres subtracted from channels 2 and 3 again: the inverse of
        `forward` on the tensors it accepts. */
    function Backward(y: Tensor): (r: Tensor)
      requires Valid() && WellFormed(y) && |y.shape| == 4 && y.shape[1] >= 4
      requires (rows == y.shape[2] || rows == 1) && (cols == y.shape[3] || cols == 1)
      ensures r.shape == y.shape && WellFormed(r)
    {
      var h, w := y.shape[2], y.shape[3];
      var mx := Expand(xMesh, rows, cols, h, w);
      var my := Expand(yMesh, rows, cols, h, w);
      Tensor(y.shape, seq(y.shape[0], n requires 0 <= n < y.shape[0] =>
        ReplaceChannels(y.data[n], SubGrids(y.data[n][2], mx, h, w), SubGrids(y.data[n][3], my, h, w))))
    }
  }

  /** The entrywise difference of two h x w grids. */
  function SubGrids(a: Grid, b: Grid, h: nat, w: nat): (r: Grid)
    requires IsGrid(a, h, w) && IsGrid(b, h, w)
    ensures IsGrid(r, h, w)
    ensures forall i, j :: 0 <= i < h && 0 <= j < w ==> r[i][j] == a[i][j] - b[i][j]
  {
    seq(h, i requires 0 <= i < h => seq(w, j requires 0 <= j < w => a[i][j] - b[i][j]))
  }

  /** The value `Backward` gives at (n, c, i, j). */
  lemma BackwardValue(o: Offset2Coordinate, y: Tensor, n: nat, c: nat, i: nat, j: nat)
    requires o.Valid() && WellFormed(y) && |y.shape| == 4 && y.shape[1] >= 4
    requires (o.rows == y.shape[2] || o.rows == 1) && (o.cols == y.shape[3] || o.cols == 1)
    requires n < y.shape[0] && c < y.shape[1] && i < y.shape[2] && j < y.shape[3]
    ensures At(o.Backward(y), n, c, i, j) ==
      if c == 2 then At(y, n, 2, i, j) - o.XCentre(i, j)
      else if c == 3 then At(y, n, 3, i, j) - o.YCentre(i, j)
      else At(y, n, c, i, j)
  {
  }

  /** The value `forward` writes at (n, c, i, j): the pixel centre plus the
      offset in channels 2 and 3, the input value in every other channel. */
  lemma ForwardValue(o: Offset2Coordinate, x: Tensor, n: nat, c: nat, i: nat, j: nat)
    requires o.Valid() && WellFormed(x) && o.Forward(x).Ok?
    requires n < x.shape[0] && c < x.shape[1] && i < x.shape[2] && j < x.shape[3]
    ensures At(o.Forward(x).value, n, c, i, j) ==
      if c == 2 then o.XCentre(i, j) + At(x, n, 2, i, j)
      else if c == 3 then o.YCentre(i, j) + At(x, n, 3, i, j)
      else At(x, n, c, i, j)
  {
    var h, w := x.shape[2], x.shape[3];
    var xo, yo := Channel(x, 2), Channel(x, 3);
    var (xc, yc) := o.SubpxToAbsolute(xo, yo).value;
    assert xc.h == h && xc.w == w;
    assert o.Forward(x).value == Replace(x, xc, yc);
    assert Bc(h, i) == i && Bc(w, j) == j;
    if c == 2 {
      assert xc.planes[n] == AddGrids(Expand(o.xMesh, o.rows, o.cols, h, w), Expand(xo.planes[n], h, w, h, w), h, w);
    } else if c == 3 {
      assert yc.planes[n] == AddGrids(Expand(o.yMesh, o.rows, o.cols, h, w), Expand(yo.planes[n], h, w, h, w), h, w);
    }
  }

  /** With the meshes built from the bin centres and a frame of the same
      size, channel 2 of pixel (i, j) becomes ctrX[i] plus the offset and
      channel 3 becomes ctrY[j] plus the offset, in every batch element. */
  lemma ForwardAddsCentres(o: Offset2Coordinate, ctrX: seq<real>, ctrY: seq<real>, x: Tensor, n: nat, i: nat, j: nat)
    requires o.xMesh == MeshX(ctrX, ctrY) && o.yMesh == MeshY(ctrX, ctrY) && o.rows == |ctrX| && o.cols == |ctrY|
    requires WellFormed(x) && |x.shape| == 4 && x.shape[1] >= 4 && x.shape[2] == |ctrX| && x.shape[3] == |ctrY|
    requires n < x.shape[0] && i < x.shape[2] && j < x.shape[3]
    ensures o.Valid() && o.Forward(x).Ok?
    ensures At(o.Forward(x).value, n, 2, i, j) == ctrX[i] + At(x, n, 2, i, j)
    ensures At(o.Forward(x).value, n, 3, i, j) == ctrY[j] + At(x, n, 3, i, j)
  {
    ForwardValue(o, x, n, 2, i, j);
    ForwardValue(o, x, n, 3, i, j);
  }

  /** Subtracting the centres again gives back the input: `forward` loses
      nothing, and the input itself is left as it was. */
  lemma ForwardRoundTrip(o: Offset2Coordinate, x: Tensor)
    requires o.Valid() && WellFormed(x) && o.Forward(x).Ok?
    ensures o.Backward(o.Forward(x).value) == x
  {
    var y := o.Forward(x).value;
    var b := o.Backward(y);
    forall n, c, i, j | 0 <= n < x.shape[0] && 0 <= c < x.shape[1] && 0 <= i < x.shape[2] && 0 <= j < x.shape[3]
      ensures At(b, n, c, i, j) == At(x, n, c, i, j)
    {
      ForwardValue(o, x, n, c, i, j);
      BackwardValue(o, y, n, c, i, j);
    }
    TensorExt(b, x);
  }

  /** Two well-formed rank-4 tensors of one shape with the same entries are equal. */
  lemma TensorExt(a: Tensor, b: Tensor)
    requires WellFormed(a) && WellFormed(b) && |a.shape| == 4 && a.shape == b.shape
    requires forall n, c, i, j :: 0 <= n < a.shape[0] && 0 <= c < a.shape[1] && 0 <= i < a.shape[2] && 0 <= j < a.shape[3] ==>
      At(a, n, c, i, j) == At(b, n, c, i, j)
    ensures a == b
  {
    forall n, c | 0 <= n < a.shape[0] && 0 <= c < a.shape[1]
      ensures a.data[n][c] == b.data[n][c]
    {
      forall i | 0 <= i < a.shape[2]
        ensures a.data[n][c][i] == b.data[n][c][i]
      {
        assert IsGrid(a.data[n][c], a.shape[2], a.shape[3]) && IsGrid(b.data[n][c], a.shape[2], a.shape[3]);
        var ra, rb := a.data[n][c][i], b.data[n][c][i];
        assert |ra| == |rb| == a.shape[3];
        forall j | 0 <= j < |ra|
          ensures ra[j] == rb[j]
        {
          assert At(a, n, c, i, j) == At(b, n, c, i, j);
        }
      }
    }
    forall n | 0 <= n < a.shape[0]
      ensures a.data[n] == b.data[n]
    {
    }
  }

  /** `output_converted = x.clone()` with channels 2 and 3 overwritten by
      xc and yc, broadcast into the H x W slices. */
  function Replace(x: Tensor, xc: Stack, yc: Stack): (r: Tensor)
    requires WellFormed(x) && |x.shape| == 4 && x.shape[1] >= 4
    requires StackShaped(xc) && StackShaped(yc) && |xc.planes| == |yc.planes| == x.shape[0]
    requires xc.h == yc.h && xc.w == yc.w && Assignable(xc, x.shape[2], x.shape[3])
    ensures r.shape == x.shape && WellFormed(r)
    ensures forall n :: 0 <= n < x.shape[0] ==> r.data[n] == ReplaceChannels(x.data[n], Expand(xc.planes[n], xc.h, xc.w, x.shape[2], x.shape[3]), Expand(yc.planes[n], yc.h, yc.w, x.shape[2], x.shape[3]))
  {
    var h := x.shape[2];
    var w := x.shape[3];
    Tensor(x.shape, seq(x.shape[0], n requires 0 <= n < x.shape[0] =>
      ReplaceChannels(x.data[n], Expand(xc.planes[n], xc.h, xc.w, h, w), Expand(yc.planes[n], yc.h, yc.w, h, w))))
  }

  /** The channels of one batch element with 2 and 3 replaced. */
  function ReplaceChannels(chans: seq<Grid>, xg: Grid, yg: Grid): (r: seq<Grid>)
    requires |chans| >= 4
    ensures |r| == |chans| && r[2] == xg && r[3] == yg
    ensures forall c :: 0 <= c < |chans| && c != 2 && c != 3 ==> r[c] == chans[c]
  {
    chans[2 := xg][3 := yg]
  }
}
