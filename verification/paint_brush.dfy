/**
 * Brush-level helpers of image painting: the blur kernel a soften brush
 * convolves with, and whether a brush paints through an opacity mask.
 */
module PaintBrush {
  import opened Options

  datatype KernelType = Box | Gaussian | Unknown(code: int)

  /**
   * One kernel weight. A Gaussian weight is the exponential of the negated
   * squared distance from the kernel centre over twice the variance; it is
   * kept symbolically as the centre offsets, in half pixels, along both axes.
   */
  datatype Weight = Unit | Gauss(di2: int, dj2: int)

  /**
   * A blur kernel: side length, weight count, radius in half pixels, the
   * recorded pixel length in half pixels, and the weights, row `j` of the
   * square at indices `j * side .. j * side + side`.
   */
  datatype BlurKernel = BlurKernel(side: nat, sideSquared: nat, radius2: nat, pixelLen2: nat, wdata: seq<Weight>)

  /** Row `j` of a Gaussian kernel of the given side whose centre is `r2` half pixels from a corner. */
  function GaussRow(side: nat, r2: int, j: nat): (row: seq<Weight>)
    ensures |row| == side
  {
    seq(side, i requires 0 <= i < side => Gauss(r2 - 2 * i, r2 - 2 * j))
  }

  /** Rows `j..side-1` of a Gaussian kernel, one after the other. */
  function GaussRows(side: nat, r2: int, j: nat): seq<Weight>
    decreases side - j
  {
    if j >= side then [] else GaussRow(side, r2, j) + GaussRows(side, r2, j + 1)
  }

  /** Index of cell (i, j) in a kernel of the given side. */
  function Idx(side: nat, i: nat, j: nat): nat
  {
    i + j * side
  }

  /** Cell (i, j) of a Gaussian kernel weighs its offsets from the centre. */
  predicate GaussianCells(k: BlurKernel)
  {
    forall i, j :: 0 <= i < k.side && 0 <= j < k.side ==>
      Idx(k.side, i, j) < |k.wdata| && k.wdata[Idx(k.side, i, j)] == Gauss(k.radius2 - 2 * i, k.radius2 - 2 * j)
  }

  lemma {:induction false} GaussRowsLength(side: nat, r2: int, j: nat)
    requires j <= side
    ensures |GaussRows(side, r2, j)| == (side - j) * side
    decreases side - j
  {
    if j < side {
      GaussRowsLength(side, r2, j + 1);
      assert (side - j) * side == side + (side - (j + 1)) * side;
    }
  }

  /** Cell `i` of the `t`-th row from row `j0` sits at index `i + t * side`. */
  lemma {:induction false} GaussRowsCell(side: nat, r2: int, j0: nat, t: nat, i: nat)
    requires i < side && j0 + t < side
    ensures i + t * side < |GaussRows(side, r2, j0)|
    ensures GaussRows(side, r2, j0)[i + t * side] == Gauss(r2 - 2 * i, r2 - 2 * (j0 + t))
    decreases t
  {
    GaussRowsLength(side, r2, j0 + 1);
    var rest := GaussRows(side, r2, j0 + 1);
    if t > 0 {
      GaussRowsCell(side, r2, j0 + 1, t - 1, i);
      assert i + t * side == side + (i + (t - 1) * side);
    }
  }

  lemma GaussRowsCells(side: nat, r2: nat)
    ensures |GaussRows(side, r2, 0)| == side * side
    ensures GaussianCells(BlurKernel(side, side * side, r2, r2, GaussRows(side, r2, 0)))
  {
    GaussRowsLength(side, r2, 0);
    var k := BlurKernel(side, side * side, r2, r2, GaussRows(side, r2, 0));
    forall i, j | 0 <= i < k.side && 0 <= j < k.side
      ensures Idx(k.side, i, j) < |k.wdata| && k.wdata[Idx(k.side, i, j)] == Gauss(k.radius2 - 2 * i, k.radius2 - 2 * j)
    {
      GaussRowsCell(side, r2, 0, j, i);
    }
  }

  /**
   * A new kernel for a brush whose blur radius is `brushRadius`. Projection
   * painting uses a 2 by 2 kernel of radius and pixel length one half.
   * Otherwise a radius of at most zero is first reset to 1 on the brush
   * itself, and the kernel has side `2 * radius + 1` and pixel length
   * `radius`. A box kernel weighs every cell 1; a Gaussian kernel weighs cell
   * (i, j) by its distance from the centre; an unknown kernel type yields no
   * kernel (the brush radius is still reset). The second component is the
   * brush's radius afterwards.
   */
  function NewBlurKernel(brushRadius: int, kind: KernelType, proj: bool): (r: (Option<BlurKernel>, int))
    ensures r.1 == (if !proj && brushRadius <= 0 then 1 else brushRadius)
    ensures r.0.None? <==> kind.Unknown?
    ensures r.0.Some? ==>
              var k := r.0.value;
              && k.side == (if proj then 2 else 2 * r.1 + 1)
              && k.radius2 == k.side - 1
              && k.pixelLen2 == (if proj then 1 else 2 * r.1)
              && k.sideSquared == k.side * k.side == |k.wdata|
              && (kind == Box ==> forall n :: 0 <= n < |k.wdata| ==> k.wdata[n] == Unit)
              && (kind == Gaussian ==> GaussianCells(k))
  {
    var radius := if !proj && brushRadius <= 0 then 1 else brushRadius;
    var side: nat := if proj then 2 else 2 * radius + 1;
    var r2: nat := side - 1;
    match kind
    case Box => (Some(BlurKernel(side, side * side, r2, r2, seq(side * side, _ => Unit))), radius)
    case Gaussian =>
      GaussRowsCells(side, r2);
      (Some(BlurKernel(side, side * side, r2, r2, GaussRows(side, r2, 0))), radius)
    case Unknown(_) => (None, radius)
  }

  /** The squared distance a Gaussian weight stands for, in quarter pixels squared. */
  function SqDist(w: Weight): nat
  {
    match w
    case Unit => 0
    case Gauss(a, b) => a * a + b * b
  }

  /** The weight of cell (i, j) of a Gaussian kernel. */
  function Cell(k: BlurKernel, i: nat, j: nat): Weight
    requires GaussianCells(k) && i < k.side && j < k.side
  {
    k.wdata[Idx(k.side, i, j)]
  }

  /**
   * A centred Gaussian kernel is symmetric: mirroring a cell along either
   * axis, or swapping the axes, keeps its distance from the centre.
   */
  lemma GaussianSymmetric(k: BlurKernel, i: nat, j: nat)
    requires GaussianCells(k) && k.radius2 == k.side - 1
    requires i < k.side && j < k.side
    ensures SqDist(Cell(k, i, j)) == SqDist(Cell(k, k.side - 1 - i, j))
    ensures SqDist(Cell(k, i, j)) == SqDist(Cell(k, i, k.side - 1 - j))
    ensures SqDist(Cell(k, i, j)) == SqDist(Cell(k, j, i))
  {
    var r2: int := k.radius2;
    var a, b := r2 - 2 * i, r2 - 2 * j;
    assert Cell(k, i, j) == Gauss(a, b);
    assert Cell(k, k.side - 1 - i, j) == Gauss(-a, b);
    assert Cell(k, i, k.side - 1 - j) == Gauss(a, -b);
    assert Cell(k, j, i) == Gauss(b, a);
    SqDistMirror(a, b);
  }

  /** Negating either offset or swapping them keeps the squared distance. */
  lemma SqDistMirror(a: int, b: int)
    ensures SqDist(Gauss(-a, b)) == SqDist(Gauss(a, b))
    ensures SqDist(Gauss(a, -b)) == SqDist(Gauss(a, b))
    ensures SqDist(Gauss(b, a)) == SqDist(Gauss(a, b))
  {
    assert (-a) * (-a) == a * a && (-b) * (-b) == b * b;
  }

  /** The reset radius is a fixed point: building again from the updated brush gives the same kernel. */
  lemma BlurKernelStable(brushRadius: int, kind: KernelType, proj: bool)
    ensures var r := NewBlurKernel(brushRadius, kind, proj);
            NewBlurKernel(r.1, kind, proj) == r
  {
  }

  // ---------------------------------------------------------------------------
  // Opacity masking

  datatype PaintTool = Draw | Soften | Smear | Clone | Fill | Mask
  datatype MapMode = ViewPlane | AreaPlane | Tiled | Map3D | Random | Stencil

  /** The brush settings that decide opacity masking. */
  datatype Brush = Brush(airbrush: bool, dragDot: bool, anchored: bool, useGradient: bool,
                         tool: PaintTool, hasTexture: bool, mapMode: MapMode)

  /**
   * Whether a brush paints through an opacity mask. Brushes that restamp
   * over their own paint (airbrush, drag-dot, anchored), that read the canvas
   * (smear, soften) or fill it, that use a gradient, or whose texture moves
   * with the stroke (mapping other than tiled, stencil or 3D) do not; all
   * other brushes do.
   */
  function UseOpacityMasking(b: Brush): (r: bool)
    ensures b.airbrush || b.dragDot || b.anchored || b.useGradient ==> !r
    ensures b.tool in {Smear, Soften, Fill} ==> !r
    ensures b.hasTexture && b.mapMode in {ViewPlane, AreaPlane, Random} ==> !r
    ensures (&& !b.airbrush && !b.dragDot && !b.anchored && !b.useGradient && b.tool in {Draw, Clone, Mask}
             && (!b.hasTexture || b.mapMode in {Tiled, Stencil, Map3D})) ==> r
  {
    if b.airbrush || b.dragDot || b.anchored
       || b.tool == Smear || b.tool == Soften
       || b.tool == Fill
       || b.useGradient
       || (b.hasTexture && !(b.mapMode == Tiled || b.mapMode == Stencil || b.mapMode == Map3D))
    then false
    else true
  }

  /** Opacity masking depends only on the brush's flags, tool and texture mapping, and turning on any stroke flag disables it. */
  lemma OpacityMaskingMonotone(b: Brush)
    ensures UseOpacityMasking(b.(airbrush := true)) == false
    ensures UseOpacityMasking(b) ==> UseOpacityMasking(b.(hasTexture := false))
    ensures !b.hasTexture ==> UseOpacityMasking(b.(mapMode := ViewPlane)) == UseOpacityMasking(b)
  {
  }
}
