/**
 * Static-mesh node creation: which loop triangles are drawn, how many, and
 * the wireframe index buffer over their real edges. Each visible triangle
 * owns three consecutive vertices (`3k`, `3k+1`, `3k+2` for the k-th visible
 * one), so the line buffer can be built before any vertex is written.
 */
module MeshBuild {
  import opened Options
  import opened NodeBuffers

  /** Face-set id at or below which a face is not drawn. */
  const FaceSetNone := 0

  datatype Poly = Poly(smooth: bool, matNr: int)

  /**
   * A loop triangle: its polygon, whether paint-hide hides it, and whether
   * each of its edges 0-1, 1-2, 2-0 is a real mesh edge (not a triangulation
   * diagonal).
   */
  datatype LoopTri = LoopTri(poly: nat, hidden: bool, real0: bool, real1: bool, real2: bool)

  /**
   * The node's triangle and polygon indices address existing elements, and a
   * face-set array, when there is one, has one entry per polygon.
   */
  predicate WellFormed(polys: seq<Poly>, looptris: seq<LoopTri>, faceIndices: seq<nat>, faceSets: Option<seq<int>>)
  {
    && (forall i :: 0 <= i < |faceIndices| ==> faceIndices[i] < |looptris|)
    && (forall t :: 0 <= t < |looptris| ==> looptris[t].poly < |polys|)
    && (faceSets.Some? ==> |faceSets.value| == |polys|)
  }

  /** A triangle is drawn iff it is not hidden and its face set is above none; no face-set array means nothing is drawn. */
  predicate Visible(lt: LoopTri, faceSets: Option<seq<int>>)
    requires faceSets.Some? ==> lt.poly < |faceSets.value|
  {
    && !lt.hidden
    && faceSets.Some?
    && faceSets.value[lt.poly] > FaceSetNone
  }

  /** The node's i-th triangle. */
  function NodeTri(looptris: seq<LoopTri>, faceIndices: seq<nat>, i: nat): LoopTri
    requires i < |faceIndices| && faceIndices[i] < |looptris|
  {
    looptris[faceIndices[i]]
  }

  /** The node's triangles exist, and so do the face-set entries of their polygons. */
  predicate IndicesOk(looptris: seq<LoopTri>, faceIndices: seq<nat>, faceSets: Option<seq<int>>)
  {
    forall i :: 0 <= i < |faceIndices| ==>
      && faceIndices[i] < |looptris|
      && (faceSets.Some? ==> looptris[faceIndices[i]].poly < |faceSets.value|)
  }

  /** Visible triangles among the node's first `i`. */
  function VisibleCount(looptris: seq<LoopTri>, faceIndices: seq<nat>, faceSets: Option<seq<int>>, i: nat): nat
    requires i <= |faceIndices| && IndicesOk(looptris, faceIndices, faceSets)
  {
    if i == 0 then 0
    else VisibleCount(looptris, faceIndices, faceSets, i - 1)
         + (if Visible(NodeTri(looptris, faceIndices, i - 1), faceSets) then 1 else 0)
  }

  /** Real edges of one triangle. */
  function RealEdges(lt: LoopTri): nat
  {
    (if lt.real0 then 1 else 0) + (if lt.real1 then 1 else 0) + (if lt.real2 then 1 else 0)
  }

  /** Real edges of the visible triangles among the node's first `i`. */
  function RealEdgeCount(looptris: seq<LoopTri>, faceIndices: seq<nat>, faceSets: Option<seq<int>>, i: nat): nat
    requires i <= |faceIndices| && IndicesOk(looptris, faceIndices, faceSets)
  {
    if i == 0 then 0
    else RealEdgeCount(looptris, faceIndices, faceSets, i - 1)
         + (var lt := NodeTri(looptris, faceIndices, i - 1); if Visible(lt, faceSets) then RealEdges(lt) else 0)
  }

  /** The lines of the k-th visible triangle: one per real edge, over its vertices `3k..3k+2`. */
  function TriLines(lt: LoopTri, k: nat): seq<Elem>
  {
    (if lt.real0 then [Line(3 * k + 0, 3 * k + 1)] else [])
    + (if lt.real1 then [Line(3 * k + 1, 3 * k + 2)] else [])
    + (if lt.real2 then [Line(3 * k + 2, 3 * k + 0)] else [])
  }

  /** Reference wireframe of the node's first `i` triangles. */
  function LinesRef(looptris: seq<LoopTri>, faceIndices: seq<nat>, faceSets: Option<seq<int>>, i: nat): seq<Elem>
    requires i <= |faceIndices| && IndicesOk(looptris, faceIndices, faceSets)
  {
    if i == 0 then []
    else
      var lt := NodeTri(looptris, faceIndices, i - 1);
      LinesRef(looptris, faceIndices, faceSets, i - 1)
      + (if Visible(lt, faceSets) then TriLines(lt, VisibleCount(looptris, faceIndices, faceSets, i - 1)) else [])
  }

  /** A line joining two consecutive corners of the k-th triangle, for some k below `tot`. */
  predicate TriangleEdge(x: Elem, tot: nat)
  {
    x.Line? && x.a / 3 == x.b / 3 < tot && x.b % 3 == (x.a % 3 + 1) % 3
  }

  /**
   * The wireframe has one line per real edge of a visible triangle, and each
   * joins two consecutive corners of one visible triangle's vertex triple.
   */
  lemma {:induction false} LinesRefShape(looptris: seq<LoopTri>, faceIndices: seq<nat>, faceSets: Option<seq<int>>, i: nat)
    requires i <= |faceIndices| && IndicesOk(looptris, faceIndices, faceSets)
    ensures |LinesRef(looptris, faceIndices, faceSets, i)| == RealEdgeCount(looptris, faceIndices, faceSets, i)
    ensures forall x :: x in LinesRef(looptris, faceIndices, faceSets, i) ==>
              TriangleEdge(x, VisibleCount(looptris, faceIndices, faceSets, i))
  {
    if i > 0 {
      LinesRefShape(looptris, faceIndices, faceSets, i - 1);
      var k := VisibleCount(looptris, faceIndices, faceSets, i - 1);
      var lt := NodeTri(looptris, faceIndices, i - 1);
      TriLinesEdges(lt, k);
    }
  }

  /** One triangle's lines: one per real edge, each joining consecutive corners of triple `k`. */
  lemma TriLinesEdges(lt: LoopTri, k: nat)
    ensures |TriLines(lt, k)| == RealEdges(lt)
    ensures forall x :: x in TriLines(lt, k) ==> TriangleEdge(x, k + 1)
  {
    assert (3 * k + 0) / 3 == k && (3 * k + 1) / 3 == k && (3 * k + 2) / 3 == k;
    assert (3 * k + 0) % 3 == 0 && (3 * k + 1) % 3 == 1 && (3 * k + 2) % 3 == 2;
  }

  /**
   * Node creation. The node's shading is the first triangle's polygon's. With
   * no visible triangle the node records zero triangles and zero face indices
   * and builds nothing; otherwise one line buffer (handle `newId`) holds the
   * wireframe, sized by a first pass over the triangles.
   */
  method MeshBuffersBuild(polys: seq<Poly>, looptris: seq<LoopTri>, faceIndices: seq<nat>,
                          faceSets: Option<seq<int>>, newId: nat)
    returns (b: Buffers)
    requires |faceIndices| > 0
    requires WellFormed(polys, looptris, faceIndices, faceSets)
    ensures b.smooth == polys[looptris[faceIndices[0]].poly].smooth
    ensures !b.showOverlay && b.vertBuf.None? && NoBatches(b)
    ensures b.totTri == VisibleCount(looptris, faceIndices, faceSets, |faceIndices|)
    ensures b.totTri == 0 <==> (forall i :: 0 <= i < |faceIndices| ==> !Visible(looptris[faceIndices[i]], faceSets))
    ensures b.totTri == 0 ==> b.faceIndicesLen == 0 && OwnsNothing(b)
    ensures b.totTri > 0 ==>
              && b.faceIndicesLen == |faceIndices|
              && b.indexLinesBuf == Some(IndexBuf(newId, LinesRef(looptris, faceIndices, faceSets, |faceIndices|)))
              && |b.indexLinesBuf.value.elems| == RealEdgeCount(looptris, faceIndices, faceSets, |faceIndices|)
              && (forall x :: x in b.indexLinesBuf.value.elems ==> TriangleEdge(x, b.totTri))
  {
    var smooth := polys[looptris[faceIndices[0]].poly].smooth;
    var tottri, totRealEdges := CountVisible(looptris, faceIndices, faceSets);
    if tottri == 0 {
      b := Zeroed().(smooth := smooth, totTri := 0, faceIndicesLen := 0);
      return;
    }
    var lines := BuildLines(looptris, faceIndices, faceSets);
    LinesRefShape(looptris, faceIndices, faceSets, |faceIndices|);
    b := Zeroed().(smooth := smooth, indexLinesBuf := Some(IndexBuf(newId, lines)),
                   totTri := tottri, faceIndicesLen := |faceIndices|);
  }

  /** First pass: counts the visible triangles and their real edges. */
  method CountVisible(looptris: seq<LoopTri>, faceIndices: seq<nat>, faceSets: Option<seq<int>>)
    returns (tottri: nat, totRealEdges: nat)
    requires IndicesOk(looptris, faceIndices, faceSets)
    ensures tottri == VisibleCount(looptris, faceIndices, faceSets, |faceIndices|)
    ensures totRealEdges == RealEdgeCount(looptris, faceIndices, faceSets, |faceIndices|)
    ensures tottri == 0 <==> (forall i :: 0 <= i < |faceIndices| ==> !Visible(looptris[faceIndices[i]], faceSets))
  {
    tottri, totRealEdges := 0, 0;
    var i := 0;
    while i < |faceIndices|
      invariant 0 <= i <= |faceIndices|
      invariant tottri == VisibleCount(looptris, faceIndices, faceSets, i)
      invariant totRealEdges == RealEdgeCount(looptris, faceIndices, faceSets, i)
      invariant tottri == 0 <==> (forall i' :: 0 <= i' < i ==> !Visible(looptris[faceIndices[i']], faceSets))
    {
      var lt := looptris[faceIndices[i]];
      if Visible(lt, faceSets) {
        totRealEdges := totRealEdges + RealEdges(lt);
        tottri := tottri + 1;
      }
      i := i + 1;
    }
  }

  /** Second pass: one line per real edge of each visible triangle, over its vertex triple. */
  method BuildLines(looptris: seq<LoopTri>, faceIndices: seq<nat>, faceSets: Option<seq<int>>)
    returns (lines: seq<Elem>)
    requires IndicesOk(looptris, faceIndices, faceSets)
    ensures lines == LinesRef(looptris, faceIndices, faceSets, |faceIndices|)
  {
    lines := [];
    var vertIdx := 0;
    var i := 0;
    while i < |faceIndices|
      invariant 0 <= i <= |faceIndices|
      invariant vertIdx == VisibleCount(looptris, faceIndices, faceSets, i)
      invariant lines == LinesRef(looptris, faceIndices, faceSets, i)
    {
      var lt := looptris[faceIndices[i]];
      if Visible(lt, faceSets) {
        ghost var before := lines;
        if lt.real0 { lines := lines + [Line(vertIdx * 3 + 0, vertIdx * 3 + 1)]; }
        if lt.real1 { lines := lines + [Line(vertIdx * 3 + 1, vertIdx * 3 + 2)]; }
        if lt.real2 { lines := lines + [Line(vertIdx * 3 + 2, vertIdx * 3 + 0)]; }
        assert lines == before + TriLines(lt, vertIdx);
        vertIdx := vertIdx + 1;
      }
      i := i + 1;
    }
  }
}
