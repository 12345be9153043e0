/**
 * Index-buffer generation for multires grid nodes. A node holds `|hidden|`
 * grids of `gs` x `gs` elements, i.e. `(gs-1)^2` quad subfaces each. A grid's
 * vertices occupy one block of the vertex buffer: `gs^2` shared vertices in
 * smooth mode, or four private vertices per subface (`4 (gs-1)^2`) in flat
 * mode. Four lists are produced: full triangles and lines over the visible
 * subfaces, and "fast" triangles and lines over each visible grid's corners.
 */
module GridIndex {
  import opened NodeBuffers

  /** Hidden-subface information of one grid; an absent bitmap hides nothing. */
  datatype GridHidden = NoBitmap | Bitmap(faceHidden: (nat, nat) -> bool)

  /** Whether the subface in column `k`, row `j` is skipped. */
  predicate SubfaceHidden(h: GridHidden, k: nat, j: nat)
  {
    h.Bitmap? && h.faceHidden(k, j)
  }

  /** Subfaces per grid side; the loops run over `[0, gs - 1)`, which is empty for `gs <= 1`. */
  function Side(gs: nat): nat
  {
    if gs == 0 then 0 else gs - 1
  }

  /** Vertices one grid occupies in the vertex buffer. */
  function GridVertLen(smooth: bool, gs: nat): nat
  {
    if smooth then gs * gs else Side(gs) * Side(gs) * 4
  }

  /** One grid of the node, with the offset of its vertex block. */
  datatype Grid = Grid(smooth: bool, gs: nat, off: nat, hidden: GridHidden)

  /** Four vertex indices of a quad in clockwise order. */
  datatype Quad = Quad(v0: nat, v1: nat, v2: nat, v3: nat)

  /** The vertices of subface (row `j`, column `k`). */
  function SubfaceQuad(g: Grid, j: nat, k: nat): Quad
  {
    if g.smooth then
      var v0 := g.off + j * g.gs + k;
      var v1 := v0 + 1;
      var v2 := v1 + g.gs;
      Quad(v0, v1, v2, v2 - 1)
    else
      var v0 := g.off + (j * Side(g.gs) + k) * 4;
      Quad(v0, v0 + 1, v0 + 2, v0 + 3)
  }

  /** The two triangles a quad is split into. */
  function QuadTris(q: Quad): seq<Elem>
  {
    [Tri(q.v0, q.v2, q.v1), Tri(q.v0, q.v3, q.v2)]
  }

  /** The outline of a quad as four lines. */
  function QuadOutline(q: Quad): seq<Elem>
  {
    [Line(q.v0, q.v1), Line(q.v1, q.v2), Line(q.v2, q.v3), Line(q.v3, q.v0)]
  }

  /**
   * Per-grid emission state: primitives so far, whether any subface was
   * emitted, and the most recently emitted subface (read only when `visible`).
   */
  datatype Emit = Emit(tris: seq<Elem>, lines: seq<Elem>, visible: bool, last: Quad)

  const Start := Emit([], [], false, Quad(0, 0, 0, 0))

  /** Emission for one visible subface: two triangles, its top and left edges, and its bottom edge on the last row. */
  function Place(g: Grid, j: nat, k: nat, e: Emit): Emit
  {
    PlaceQuad(e, SubfaceQuad(g, j, k), j + 2 == g.gs)
  }

  /** Emits quad `q`: its two triangles, its top and left edges, and its bottom edge on the last row. */
  function PlaceQuad(e: Emit, q: Quad, lastRow: bool): Emit
  {
    Emit(e.tris + QuadTris(q),
         e.lines + [Line(q.v0, q.v1), Line(q.v0, q.v3)]
         + (if lastRow then [Line(q.v2, q.v3)] else []),
         true, q)
  }

  /** Subfaces `k..` of row `j`. */
  function RowFrom(g: Grid, j: nat, k: nat, e: Emit): Emit
    decreases Side(g.gs) - k
  {
    if k >= Side(g.gs) then e
    else RowFrom(g, j, k + 1, if SubfaceHidden(g.hidden, k, j) then e else Place(g, j, k, e))
  }

  /** End of a row: once the grid is visible, the right edge of the last emitted subface. */
  function CloseRow(e: Emit): Emit
  {
    if e.visible then e.(lines := e.lines + [Line(e.last.v1, e.last.v2)]) else e
  }

  /** Rows `j..` of the grid. */
  function RowsFrom(g: Grid, j: nat, e: Emit): Emit
    decreases Side(g.gs) - j
  {
    if j >= Side(g.gs) then e
    else RowsFrom(g, j + 1, CloseRow(RowFrom(g, j, 0, e)))
  }

  /** Some subface of the grid is not hidden. */
  predicate AnyVisible(g: Grid)
  {
    exists j: nat, k: nat :: j < Side(g.gs) && k < Side(g.gs) && !SubfaceHidden(g.hidden, k, j)
  }

  /** The grid's four corner vertices in the vertex buffer (meaningful for `gs >= 2`). */
  function FastCorners(g: Grid): Quad
    requires g.gs >= 2
  {
    if g.smooth then
      var n := g.gs * g.gs;
      Quad(g.off, g.off + g.gs - 1, g.off + n - 1, g.off + n - g.gs)
    else
      var s := Side(g.gs);
      var n := s * s * 4;
      assert s * 4 <= n by { MulMono(1, s, s * 4); }
      Quad(g.off, g.off + s * 4 - 3, g.off + n - 2, g.off + n - s * 4 + 3)
  }

  /** What one grid contributes to the four index lists. */
  datatype GridOut = GridOut(tris: seq<Elem>, lines: seq<Elem>, fastTris: seq<Elem>, fastLines: seq<Elem>)

  function GridEmit(g: Grid): GridOut
  {
    var e := RowsFrom(g, 0, Start);
    if e.visible then
      RowsVisible(g, 0, Start);
      var c := FastCorners(g);
      GridOut(e.tris, e.lines, QuadTris(c), QuadOutline(c))
    else
      GridOut(e.tris, e.lines, [], [])
  }

  // ---------------------------------------------------------------------------
  // Arithmetic helpers

  lemma MulMono(a: nat, b: nat, c: nat)
    requires a <= b
    ensures a * c <= b * c
  {
  }

  lemma MulSucc(m: nat, n: nat)
    ensures (m + 1) * n == m * n + n
  {
  }

  /** The last smooth vertex a subface of a `gs`-wide grid touches is inside the grid. */
  lemma SmoothBound(gs: nat, j: nat, k: nat)
    requires j + 2 <= gs && k + 2 <= gs
    ensures j * gs + k + gs + 1 < gs * gs
  {
    MulMono(j + 2, gs, gs);
    MulSucc(j + 1, gs);
    MulSucc(j, gs);
  }

  /** The last flat vertex of subface `(j, k)` of an `s`-wide grid is inside the grid. */
  lemma FlatBound(s: nat, j: nat, k: nat)
    requires j < s && k < s
    ensures (j * s + k) * 4 + 3 < s * s * 4
  {
    MulMono(j + 1, s, s);
    MulSucc(j, s);
  }

  // ---------------------------------------------------------------------------
  // Visibility

  /** A row leaves the grid visible iff it was already or some of its remaining subfaces is shown. */
  lemma {:induction false} RowVisible(g: Grid, j: nat, k: nat, e: Emit)
    ensures RowFrom(g, j, k, e).visible <==>
            (e.visible || exists k': nat :: k <= k' < Side(g.gs) && !SubfaceHidden(g.hidden, k', j))
    decreases Side(g.gs) - k
  {
    if k < Side(g.gs) {
      RowVisible(g, j, k + 1, if SubfaceHidden(g.hidden, k, j) then e else Place(g, j, k, e));
    }
  }

  /** The grid ends visible iff some subface in rows `j..` is shown (or it was already visible). */
  lemma {:induction false} RowsVisible(g: Grid, j: nat, e: Emit)
    ensures RowsFrom(g, j, e).visible <==>
            (e.visible || exists j': nat, k: nat :: j <= j' < Side(g.gs) && k < Side(g.gs) && !SubfaceHidden(g.hidden, k, j'))
    ensures RowsFrom(g, j, e).visible ==> e.visible || g.gs >= 2
    decreases Side(g.gs) - j
  {
    if j < Side(g.gs) {
      var r := RowFrom(g, j, 0, e);
      RowVisible(g, j, 0, e);
      RowsVisible(g, j + 1, CloseRow(r));
    }
  }

  // ---------------------------------------------------------------------------
  // Index ranges

  /** All vertex indices of `x` lie in `[lo, hi)`. */
  predicate ElemIn(x: Elem, lo: nat, hi: nat)
  {
    match x
    case Tri(a, b, c) => lo <= a < hi && lo <= b < hi && lo <= c < hi
    case Line(a, b) => lo <= a < hi && lo <= b < hi
  }

  predicate AllIn(s: seq<Elem>, lo: nat, hi: nat)
  {
    forall i :: 0 <= i < |s| ==> ElemIn(s[i], lo, hi)
  }

  predicate QuadIn(q: Quad, lo: nat, hi: nat)
  {
    lo <= q.v0 < hi && lo <= q.v1 < hi && lo <= q.v2 < hi && lo <= q.v3 < hi
  }

  lemma AllInConcat(a: seq<Elem>, b: seq<Elem>, lo: nat, hi: nat)
    ensures AllIn(a + b, lo, hi) <==> AllIn(a, lo, hi) && AllIn(b, lo, hi)
  {
    if AllIn(a, lo, hi) && AllIn(b, lo, hi) {
      forall i | 0 <= i < |a + b| ensures ElemIn((a + b)[i], lo, hi) {
        if i >= |a| { assert (a + b)[i] == b[i - |a|]; }
      }
    }
    if AllIn(a + b, lo, hi) {
      forall i | 0 <= i < |a| ensures ElemIn(a[i], lo, hi) {
        assert (a + b)[i] == a[i];
      }
      forall i | 0 <= i < |b| ensures ElemIn(b[i], lo, hi) {
        assert (a + b)[|a| + i] == b[i];
      }
    }
  }

  /** Every subface's vertices lie inside its grid's vertex block. */
  lemma SubfaceInBlock(g: Grid, j: nat, k: nat)
    requires j < Side(g.gs) && k < Side(g.gs)
    ensures QuadIn(SubfaceQuad(g, j, k), g.off, g.off + GridVertLen(g.smooth, g.gs))
  {
    if g.smooth {
      SmoothSubfaceIn(g.off, g.gs, j, k);
    } else {
      FlatSubfaceIn(g.off, Side(g.gs), j, k);
    }
  }

  lemma SmoothSubfaceIn(off: nat, gs: nat, j: nat, k: nat)
    requires j + 2 <= gs && k + 2 <= gs
    ensures var v0 := off + j * gs + k;
            QuadIn(Quad(v0, v0 + 1, v0 + 1 + gs, v0 + gs), off, off + gs * gs)
  {
    SmoothBound(gs, j, k);
  }

  lemma FlatSubfaceIn(off: nat, s: nat, j: nat, k: nat)
    requires j < s && k < s
    ensures var v0 := off + (j * s + k) * 4;
            QuadIn(Quad(v0, v0 + 1, v0 + 2, v0 + 3), off, off + s * s * 4)
  {
    FlatBound(s, j, k);
  }

  predicate EmitIn(e: Emit, lo: nat, hi: nat)
  {
    AllIn(e.tris, lo, hi) && AllIn(e.lines, lo, hi) && (e.visible ==> QuadIn(e.last, lo, hi))
  }

  /** Emitting a quad inside a range keeps the emission inside it. */
  lemma PlaceQuadIn(e: Emit, q: Quad, lastRow: bool, lo: nat, hi: nat)
    requires EmitIn(e, lo, hi) && QuadIn(q, lo, hi)
    ensures EmitIn(PlaceQuad(e, q, lastRow), lo, hi)
  {
    AllInConcat(e.tris, QuadTris(q), lo, hi);
    var l1 := e.lines + [Line(q.v0, q.v1), Line(q.v0, q.v3)];
    AllInConcat(e.lines, [Line(q.v0, q.v1), Line(q.v0, q.v3)], lo, hi);
    AllInConcat(l1, if lastRow then [Line(q.v2, q.v3)] else [], lo, hi);
  }

  lemma {:induction false} RowIn(g: Grid, j: nat, k: nat, e: Emit)
    requires j < Side(g.gs)
    requires EmitIn(e, g.off, g.off + GridVertLen(g.smooth, g.gs))
    ensures EmitIn(RowFrom(g, j, k, e), g.off, g.off + GridVertLen(g.smooth, g.gs))
    decreases Side(g.gs) - k
  {
    var hi := g.off + GridVertLen(g.smooth, g.gs);
    if k < Side(g.gs) {
      if SubfaceHidden(g.hidden, k, j) {
        RowIn(g, j, k + 1, e);
      } else {
        SubfaceInBlock(g, j, k);
        PlaceQuadIn(e, SubfaceQuad(g, j, k), j + 2 == g.gs, g.off, hi);
        RowIn(g, j, k + 1, Place(g, j, k, e));
      }
    }
  }

  lemma {:induction false} RowsIn(g: Grid, j: nat, e: Emit)
    requires EmitIn(e, g.off, g.off + GridVertLen(g.smooth, g.gs))
    ensures EmitIn(RowsFrom(g, j, e), g.off, g.off + GridVertLen(g.smooth, g.gs))
    decreases Side(g.gs) - j
  {
    var hi := g.off + GridVertLen(g.smooth, g.gs);
    if j < Side(g.gs) {
      var r := RowFrom(g, j, 0, e);
      RowIn(g, j, 0, e);
      if r.visible {
        AllInConcat(r.lines, [Line(r.last.v1, r.last.v2)], g.off, hi);
      }
      RowsIn(g, j + 1, CloseRow(r));
    }
  }

  /** The grid corners are the outer corners of the four corner subfaces. */
  lemma FastCornersAreSubfaceCorners(g: Grid)
    requires g.gs >= 2
    ensures var s := Side(g.gs);
            FastCorners(g) == Quad(SubfaceQuad(g, 0, 0).v0, SubfaceQuad(g, 0, s - 1).v1,
                                   SubfaceQuad(g, s - 1, s - 1).v2, SubfaceQuad(g, s - 1, 0).v3)
  {
    var s := Side(g.gs);
    if g.smooth {
      assert (s - 1) * g.gs + g.gs == s * g.gs;
      assert g.gs * g.gs == s * g.gs + s + 1;
    } else {
      assert ((s - 1) * s + (s - 1)) * 4 + 2 == s * s * 4 - 2;
      assert ((s - 1) * s) * 4 + 3 == s * s * 4 - s * 4 + 3;
    }
  }

  /** Everything a grid emits, fast lists included, stays inside its vertex block. */
  lemma GridInBlock(g: Grid)
    ensures var o := GridEmit(g); var hi := g.off + GridVertLen(g.smooth, g.gs);
            AllIn(o.tris, g.off, hi) && AllIn(o.lines, g.off, hi)
            && AllIn(o.fastTris, g.off, hi) && AllIn(o.fastLines, g.off, hi)
  {
    RowsIn(g, 0, Start);
    RowsVisible(g, 0, Start);
    if RowsFrom(g, 0, Start).visible {
      FastCornersIn(g);
      QuadElemsIn(FastCorners(g), g.off, g.off + GridVertLen(g.smooth, g.gs));
    }
  }

  /** The coarse corners lie in the grid's vertex block. */
  lemma FastCornersIn(g: Grid)
    requires g.gs >= 2
    ensures QuadIn(FastCorners(g), g.off, g.off + GridVertLen(g.smooth, g.gs))
  {
    if g.smooth {
      MulMono(1, g.gs, g.gs);
    } else {
      var s := Side(g.gs);
      MulMono(1, s, s * 4);
      assert s * (s * 4) == s * s * 4;
    }
  }

  /** A quad inside a range has its triangles and outline inside it. */
  lemma QuadElemsIn(q: Quad, lo: nat, hi: nat)
    requires QuadIn(q, lo, hi)
    ensures AllIn(QuadTris(q), lo, hi) && AllIn(QuadOutline(q), lo, hi)
  {
  }

  // ---------------------------------------------------------------------------
  // Triangles: an independent row-major description

  /** Triangles of the shown subfaces `k..` of row `j`, two per subface. */
  function RowTris(g: Grid, j: nat, k: nat): seq<Elem>
    decreases Side(g.gs) - k
  {
    if k >= Side(g.gs) then []
    else (if SubfaceHidden(g.hidden, k, j) then [] else QuadTris(SubfaceQuad(g, j, k))) + RowTris(g, j, k + 1)
  }

  /** Triangles of the shown subfaces of rows `j..`. */
  function RowsTris(g: Grid, j: nat): seq<Elem>
    decreases Side(g.gs) - j
  {
    if j >= Side(g.gs) then [] else RowTris(g, j, 0) + RowsTris(g, j + 1)
  }

  /** Shown subfaces `k..` of row `j` of a grid with hidden map `h`. */
  function RowCount(h: GridHidden, gs: nat, j: nat, k: nat): nat
    decreases Side(gs) - k
  {
    if k >= Side(gs) then 0
    else (if SubfaceHidden(h, k, j) then 0 else 1) + RowCount(h, gs, j, k + 1)
  }

  /** Shown subfaces of rows `j..`. */
  function RowsCount(h: GridHidden, gs: nat, j: nat): nat
    decreases Side(gs) - j
  {
    if j >= Side(gs) then 0 else RowCount(h, gs, j, 0) + RowsCount(h, gs, j + 1)
  }

  /** Number of shown subfaces of one grid. */
  function GridQuads(h: GridHidden, gs: nat): nat
  {
    RowsCount(h, gs, 0)
  }

  function VisibleQuads(g: Grid): nat
  {
    GridQuads(g.hidden, g.gs)
  }

  lemma {:induction false} RowTrisMatch(g: Grid, j: nat, k: nat, e: Emit)
    ensures RowFrom(g, j, k, e).tris == e.tris + RowTris(g, j, k)
    decreases Side(g.gs) - k
  {
    if k < Side(g.gs) {
      var e' := if SubfaceHidden(g.hidden, k, j) then e else Place(g, j, k, e);
      RowTrisMatch(g, j, k + 1, e');
    }
  }

  lemma {:induction false} RowsTrisMatch(g: Grid, j: nat, e: Emit)
    ensures RowsFrom(g, j, e).tris == e.tris + RowsTris(g, j)
    decreases Side(g.gs) - j
  {
    if j < Side(g.gs) {
      RowTrisMatch(g, j, 0, e);
      RowsTrisMatch(g, j + 1, CloseRow(RowFrom(g, j, 0, e)));
    }
  }

  lemma {:induction false} RowTrisCount(g: Grid, j: nat, k: nat)
    ensures |RowTris(g, j, k)| == 2 * RowCount(g.hidden, g.gs, j, k)
    decreases Side(g.gs) - k
  {
    if k < Side(g.gs) { RowTrisCount(g, j, k + 1); }
  }

  lemma {:induction false} RowsTrisCount(g: Grid, j: nat)
    ensures |RowsTris(g, j)| == 2 * RowsCount(g.hidden, g.gs, j)
    decreases Side(g.gs) - j
  {
    if j < Side(g.gs) {
      RowTrisCount(g, j, 0);
      RowsTrisCount(g, j + 1);
    }
  }

  /** Every shown subface contributes its two triangles. */
  lemma {:induction false} RowTrisContain(g: Grid, j: nat, k0: nat, k: nat)
    requires k0 <= k < Side(g.gs) && !SubfaceHidden(g.hidden, k, j)
    ensures forall t :: t in QuadTris(SubfaceQuad(g, j, k)) ==> t in RowTris(g, j, k0)
    decreases k - k0
  {
    var here := if SubfaceHidden(g.hidden, k0, j) then [] else QuadTris(SubfaceQuad(g, j, k0));
    assert RowTris(g, j, k0) == here + RowTris(g, j, k0 + 1);
    if k0 < k { RowTrisContain(g, j, k0 + 1, k); }
  }

  lemma {:induction false} RowsTrisContain(g: Grid, j0: nat, j: nat, k: nat)
    requires j0 <= j < Side(g.gs) && k < Side(g.gs) && !SubfaceHidden(g.hidden, k, j)
    ensures forall t :: t in QuadTris(SubfaceQuad(g, j, k)) ==> t in RowsTris(g, j0)
    decreases j - j0
  {
    assert RowsTris(g, j0) == RowTris(g, j0, 0) + RowsTris(g, j0 + 1);
    if j0 < j { RowsTrisContain(g, j0 + 1, j, k); }
    else { RowTrisContain(g, j, 0, k); }
  }

  /** Every triangle comes from a shown subface: hidden subfaces emit nothing. */
  lemma {:induction false} RowTrisFromShown(g: Grid, j: nat, k0: nat)
    ensures forall t :: t in RowTris(g, j, k0) ==>
              exists k: nat :: k0 <= k < Side(g.gs) && !SubfaceHidden(g.hidden, k, j) && t in QuadTris(SubfaceQuad(g, j, k))
    decreases Side(g.gs) - k0
  {
    if k0 < Side(g.gs) { RowTrisFromShown(g, j, k0 + 1); }
  }

  lemma {:induction false} RowsTrisFromShown(g: Grid, j0: nat)
    ensures forall t :: t in RowsTris(g, j0) ==>
              exists j: nat, k: nat :: j0 <= j < Side(g.gs) && k < Side(g.gs) && !SubfaceHidden(g.hidden, k, j)
                                       && t in QuadTris(SubfaceQuad(g, j, k))
    decreases Side(g.gs) - j0
  {
    if j0 < Side(g.gs) {
      RowTrisFromShown(g, j0, 0);
      RowsTrisFromShown(g, j0 + 1);
    }
  }

  /**
   * The full triangle list of a grid: exactly two triangles per shown subface,
   * `(v0,v2,v1)` and `(v0,v3,v2)`, and nothing for hidden ones.
   */
  lemma GridTriangles(g: Grid)
    ensures |GridEmit(g).tris| == 2 * VisibleQuads(g)
    ensures forall j: nat, k: nat, t ::
              (j < Side(g.gs) && k < Side(g.gs) && !SubfaceHidden(g.hidden, k, j)
               && t in QuadTris(SubfaceQuad(g, j, k))) ==> t in GridEmit(g).tris
    ensures forall t :: t in GridEmit(g).tris ==>
              exists j: nat, k: nat :: j < Side(g.gs) && k < Side(g.gs) && !SubfaceHidden(g.hidden, k, j)
                                       && t in QuadTris(SubfaceQuad(g, j, k))
  {
    RowsTrisMatch(g, 0, Start);
    assert GridEmit(g).tris == RowsTris(g, 0);
    RowsTrisCount(g, 0);
    RowsTrisFromShown(g, 0);
    forall j: nat, k: nat | j < Side(g.gs) && k < Side(g.gs) && !SubfaceHidden(g.hidden, k, j)
      ensures forall t :: t in QuadTris(SubfaceQuad(g, j, k)) ==> t in GridEmit(g).tris
    {
      RowsTrisContain(g, 0, j, k);
    }
  }

  /** Shown subfaces are counted: the grid is visible iff its quad count is positive. */
  lemma {:induction false} RowCountPositive(g: Grid, j: nat, k0: nat)
    ensures RowCount(g.hidden, g.gs, j, k0) > 0 <==> exists k: nat :: k0 <= k < Side(g.gs) && !SubfaceHidden(g.hidden, k, j)
    decreases Side(g.gs) - k0
  {
    if k0 < Side(g.gs) { RowCountPositive(g, j, k0 + 1); }
  }

  lemma {:induction false} RowsCountPositive(g: Grid, j0: nat)
    ensures RowsCount(g.hidden, g.gs, j0) > 0 <==>
            exists j: nat, k: nat :: j0 <= j < Side(g.gs) && k < Side(g.gs) && !SubfaceHidden(g.hidden, k, j)
    decreases Side(g.gs) - j0
  {
    if j0 < Side(g.gs) {
      RowCountPositive(g, j0, 0);
      RowsCountPositive(g, j0 + 1);
    }
  }

  /**
   * A grid contributes two fast triangles and four fast lines, over its corner
   * vertices, iff at least one subface is shown; otherwise none.
   */
  lemma GridFast(g: Grid)
    ensures AnyVisible(g) <==> VisibleQuads(g) > 0
    ensures AnyVisible(g) ==>
              (&& g.gs >= 2
               && GridEmit(g).fastTris == QuadTris(FastCorners(g))
               && GridEmit(g).fastLines == QuadOutline(FastCorners(g)))
    ensures !AnyVisible(g) ==> GridEmit(g).fastTris == [] && GridEmit(g).fastLines == []
  {
    RowsVisible(g, 0, Start);
    RowsCountPositive(g, 0);
  }

  // ---------------------------------------------------------------------------
  // Lines: the reserved capacity `2 gs (gs - 1)` per grid is never exceeded

  function LinesBound(s: nat, j: nat): nat
  {
    if j >= s then 0 else (s - j) * (2 * s + 1) + s
  }

  lemma {:induction false} RowLines(g: Grid, j: nat, k: nat, e: Emit)
    ensures var r := RowFrom(g, j, k, e);
            |r.lines| <= |e.lines| + (if k <= Side(g.gs) then (Side(g.gs) - k) * (if j + 2 == g.gs then 3 else 2) else 0)
    decreases Side(g.gs) - k
  {
    if k < Side(g.gs) {
      var e' := if SubfaceHidden(g.hidden, k, j) then e else Place(g, j, k, e);
      RowLines(g, j, k + 1, e');
    }
  }

  lemma {:induction false} RowsLines(g: Grid, j: nat, e: Emit)
    ensures |RowsFrom(g, j, e).lines| <= |e.lines| + LinesBound(Side(g.gs), j)
    decreases Side(g.gs) - j
  {
    var s := Side(g.gs);
    if j < s {
      var r := RowFrom(g, j, 0, e);
      RowLines(g, j, 0, e);
      RowsLines(g, j + 1, CloseRow(r));
      var perRow := s * (if j + 2 == g.gs then 3 else 2) + 1;
      assert |RowsFrom(g, j, e).lines| <= |e.lines| + perRow + LinesBound(s, j + 1);
      if j + 1 < s {
        assert j + 2 != g.gs;
        assert LinesBound(s, j) == (2 * s + 1) + LinesBound(s, j + 1) by {
          assert (s - j) * (2 * s + 1) == (2 * s + 1) + (s - (j + 1)) * (2 * s + 1);
        }
      } else {
        assert j + 2 == g.gs;
      }
    }
  }

  /** The full line list of a grid never exceeds `2 gs (gs - 1)` entries. */
  lemma GridLinesCapacity(g: Grid)
    ensures |GridEmit(g).lines| <= 2 * g.gs * Side(g.gs)
  {
    RowsLines(g, 0, Start);
    var s := Side(g.gs);
    if s > 0 {
      assert LinesBound(s, 0) == s * (2 * s + 1) + s;
      assert s * (2 * s + 1) + s == 2 * (s + 1) * s;
    }
  }
}
