/**
 * Dynamic-topology (BMesh) node updates. A node holds a table of triangular
 * faces, and a triangle buffer with shared vertices. The update is one of
 * three paths. The flat-colour path gives every drawn face 18 vertices, 6
 * around each corner. The indexed path, for smooth nodes without UVs, draws
 * the shared triangle buffer through an index buffer. The default path gives
 * every drawn face 3 vertices. All paths draw only the unhidden faces of one
 * material. A node with nothing to draw has its triangle count zeroed. It is
 * also marked for clearing when its face table is empty.
 */
module Dyntopo {
  import opened Options
  import opened NodeBuffers
  import opened GridIndex

  /** A triangular face of the node's table. */
  datatype Face = Face(hidden: bool, matNr: int)

  /** A triangle of the node's shared-vertex triangle buffer. */
  datatype BufTri = BufTri(v0: nat, v1: nat, v2: nat)

  /** The node's triangle buffer: its triangles and how many shared vertices they use. */
  datatype TriBuf = TriBuf(tris: seq<BufTri>, totvert: nat)

  /** A face is drawn for material `m` iff it is unhidden and has that material. */
  predicate Shown(f: Face, m: int)
  {
    !f.hidden && f.matNr == m
  }

  /** Number of faces drawn for material `m`. */
  function VisibleFaceCount(faces: seq<Face>, m: int): (n: nat)
    ensures n <= |faces|
    ensures n == 0 <==> forall i :: 0 <= i < |faces| ==> !Shown(faces[i], m)
  {
    if |faces| == 0 then 0
    else (if Shown(faces[0], m) then 1 else 0) + VisibleFaceCount(faces[1..], m)
  }

  // ---------------------------------------------------------------------------
  // Wireframes over per-face vertex blocks

  /**
   * The outline of a face whose corners are `c` vertices apart starting at `s`:
   * corner 0 to 1, 1 to 2, 2 back to 0.
   */
  function FaceOutline(s: nat, c: nat): seq<Elem>
  {
    [Line(s, s + c), Line(s + c, s + 2 * c), Line(s + 2 * c, s)]
  }

  /**
   * The wireframe of the drawn faces, in table order, when each drawn face
   * takes `3 * c` consecutive vertices starting at `v`: 6-apart corners on the
   * flat-colour path, 1-apart on the default path.
   */
  function FaceWire(faces: seq<Face>, m: int, v: nat, c: nat): seq<Elem>
  {
    if |faces| == 0 then []
    else if Shown(faces[0], m) then FaceOutline(v, c) + FaceWire(faces[1..], m, v + 3 * c, c)
    else FaceWire(faces[1..], m, v, c)
  }

  /** Closed form of the i-th wireframe line: line `i % 3` of the outline of drawn face `i / 3`. */
  function WireLine(v: nat, c: nat, i: nat): Elem
  {
    var s := v + 3 * c * (i / 3);
    Line(s + c * (i % 3), s + c * ((i % 3 + 1) % 3))
  }

  lemma WireLineShift(v: nat, c: nat, i: nat)
    requires i >= 3
    ensures WireLine(v, c, i) == WireLine(v + 3 * c, c, i - 3)
  {
    var q := (i - 3) / 3;
    assert i / 3 == q + 1 && i % 3 == (i - 3) % 3;
    assert 3 * c * (q + 1) == 3 * c * q + 3 * c;
  }

  /**
   * The wireframe has three lines per drawn face, and line `i` is line
   * `i % 3` of the outline of the `(i / 3)`-th drawn face.
   */
  lemma {:induction false} FaceWireShape(faces: seq<Face>, m: int, v: nat, c: nat)
    ensures |FaceWire(faces, m, v, c)| == 3 * VisibleFaceCount(faces, m)
    ensures forall i :: 0 <= i < |FaceWire(faces, m, v, c)| ==> FaceWire(faces, m, v, c)[i] == WireLine(v, c, i)
  {
    if |faces| > 0 {
      if Shown(faces[0], m) {
        FaceWireShape(faces[1..], m, v + 3 * c, c);
        var w := FaceWire(faces, m, v, c);
        forall i | 0 <= i < |w| ensures w[i] == WireLine(v, c, i) {
          if i >= 3 {
            WireLineShift(v, c, i);
          }
        }
      } else {
        FaceWireShape(faces[1..], m, v, c);
      }
    }
  }

  /** The vertex just past the blocks of the drawn faces, when they start at `v`. */
  function FaceWireEnd(faces: seq<Face>, m: int, v: nat, c: nat): nat
  {
    if |faces| == 0 then v
    else if Shown(faces[0], m) then FaceWireEnd(faces[1..], m, v + 3 * c, c)
    else FaceWireEnd(faces[1..], m, v, c)
  }

  lemma {:induction false} FaceWireInEnd(faces: seq<Face>, m: int, v: nat, c: nat)
    ensures v <= FaceWireEnd(faces, m, v, c)
    ensures AllIn(FaceWire(faces, m, v, c), v, FaceWireEnd(faces, m, v, c) + 1)
  {
    if |faces| > 0 {
      if Shown(faces[0], m) {
        var e := FaceWireEnd(faces, m, v, c);
        FaceWireInEnd(faces[1..], m, v + 3 * c, c);
        assert AllIn(FaceOutline(v, c), v, e + 1);
        AllInConcat(FaceOutline(v, c), FaceWire(faces[1..], m, v + 3 * c, c), v, e + 1);
      } else {
        FaceWireInEnd(faces[1..], m, v, c);
      }
    }
  }

  lemma {:induction false} FaceWireEndValue(faces: seq<Face>, m: int, v: nat, c: nat)
    ensures FaceWireEnd(faces, m, v, c) == v + 3 * c * VisibleFaceCount(faces, m)
  {
    if |faces| > 0 {
      var n := VisibleFaceCount(faces[1..], m);
      if Shown(faces[0], m) {
        FaceWireEndValue(faces[1..], m, v + 3 * c, c);
        MulSucc(n, 3 * c);
        assert 3 * c * (n + 1) == (n + 1) * (3 * c);
        assert 3 * c * n == n * (3 * c);
      } else {
        FaceWireEndValue(faces[1..], m, v, c);
      }
    }
  }

  /** Every wireframe line stays inside the vertex blocks of the drawn faces. */
  lemma FaceWireInBlocks(faces: seq<Face>, m: int, v: nat, c: nat)
    ensures AllIn(FaceWire(faces, m, v, c), v, v + 3 * c * VisibleFaceCount(faces, m) + 1)
  {
    FaceWireInEnd(faces, m, v, c);
    FaceWireEndValue(faces, m, v, c);
  }

  // ---------------------------------------------------------------------------
  // Triangle-buffer elements

  /** The triangle buffer's triangles as index-buffer triangles, in order. */
  function TriElems(tris: seq<BufTri>): (r: seq<Elem>)
    ensures |r| == |tris|
    ensures forall i :: 0 <= i < |tris| ==> r[i] == Tri(tris[i].v0, tris[i].v1, tris[i].v2)
  {
    seq(|tris|, i requires 0 <= i < |tris| => Tri(tris[i].v0, tris[i].v1, tris[i].v2))
  }

  /** The triangle buffer's wireframe: each triangle's three edges, triangle by triangle. */
  function TriWire(tris: seq<BufTri>): seq<Elem>
  {
    if |tris| == 0 then []
    else TriWire(tris[..|tris| - 1])
         + (var t := tris[|tris| - 1]; [Line(t.v0, t.v1), Line(t.v1, t.v2), Line(t.v2, t.v0)])
  }

  /** Lines `3i`, `3i+1`, `3i+2` of the wireframe are the edges of triangle `i`. */
  lemma {:induction false} TriWireShape(tris: seq<BufTri>)
    ensures |TriWire(tris)| == 3 * |tris|
    ensures forall i :: 0 <= i < |tris| ==>
              && TriWire(tris)[3 * i] == Line(tris[i].v0, tris[i].v1)
              && TriWire(tris)[3 * i + 1] == Line(tris[i].v1, tris[i].v2)
              && TriWire(tris)[3 * i + 2] == Line(tris[i].v2, tris[i].v0)
  {
    if |tris| > 0 {
      var p := tris[..|tris| - 1];
      TriWireShape(p);
      forall i | 0 <= i < |p| ensures tris[i] == p[i] { }
    }
  }

  /** Every triangle of the buffer uses only its shared vertices. */
  predicate TriBufOk(tb: TriBuf)
  {
    forall i :: 0 <= i < |tb.tris| ==> tb.tris[i].v0 < tb.totvert && tb.tris[i].v1 < tb.totvert && tb.tris[i].v2 < tb.totvert
  }

  /** A well-formed triangle buffer yields index buffers inside its vertex range. */
  lemma TriBufInRange(tb: TriBuf)
    requires TriBufOk(tb)
    ensures AllIn(TriElems(tb.tris), 0, tb.totvert)
    ensures AllIn(TriWire(tb.tris), 0, tb.totvert)
  {
    TriWireShape(tb.tris);
    var w := TriWire(tb.tris);
    forall k | 0 <= k < |w| ensures ElemIn(w[k], 0, tb.totvert) {
      var i := k / 3;
      var t := tb.tris[i];
      assert t.v0 < tb.totvert && t.v1 < tb.totvert && t.v2 < tb.totvert;
      if k == 3 * i { assert w[k] == Line(t.v0, t.v1); }
      else if k == 3 * i + 1 { assert w[k] == Line(t.v1, t.v2); }
      else { assert w[k] == Line(t.v2, t.v0); }
    }
  }

  // ---------------------------------------------------------------------------
  // Update paths

  /**
   * Nothing to draw: the triangle count becomes zero, and a node whose face
   * table is empty (rather than merely hidden) is marked to clear on flush.
   * A mark already set stays set.
   */
  function EmptyUpdate(b: Buffers, faces: seq<Face>): (r: Buffers)
    ensures r.totTri == 0
    ensures r.clearOnFlush <==> (b.clearOnFlush || |faces| == 0)
    ensures r == b.(totTri := 0, clearOnFlush := r.clearOnFlush)
  {
    if |faces| != 0 then b.(totTri := 0)
    else b.(clearOnFlush := true, totTri := 0)
  }

  /**
   * Flat-colour path. Six triangles (18 vertices) per drawn face; the line
   * buffer (handle `newId`) outlines each drawn face through its corner
   * vertices. `overlay` is the mask and face-set overlay flag computed from
   * the face data.
   */
  function FlatVcolUpdate(b: Buffers, faces: seq<Face>, m: int, allocOk: bool, newId: nat, overlay: bool): (r: Buffers)
    ensures r.smooth == b.smooth && r.useBmesh == b.useBmesh
    ensures var n := VisibleFaceCount(faces, m);
            && (n == 0 ==> r == EmptyUpdate(b, faces))
            && (n > 0 ==> r.clearOnFlush == b.clearOnFlush)
            && (n > 0 ==>
                  && r.vertBuf.Some? && r.vertBuf.value.len == 18 * n
                  && (r.vertBuf.value.hasData <==> (allocOk || Mapped(b.vertBuf, 18 * n))))
            && (n > 0 && r.vertBuf.value.hasData ==>
                  && r.totTri == 6 * n && r.materialIndex == m && r.showOverlay == overlay
                  && r.indexLinesBuf == Some(IndexBuf(newId, FaceWire(faces, m, 0, 6)))
                  && |r.indexLinesBuf.value.elems| == 3 * n
                  && AllIn(r.indexLinesBuf.value.elems, 0, 18 * n)
                  && r.triangles.Some? && r.lines.Some?)
            && (n > 0 && !r.vertBuf.value.hasData ==> r == b.(vertBuf := r.vertBuf))
    ensures DrawsFrom(b) && b.lines.None? && (b.vertBuf.None? ==> NoBatches(b)) ==> DrawsFrom(r)
  {
    var tottri := VisibleFaceCount(faces, m) * 6;
    if tottri == 0 then EmptyUpdate(b, faces)
    else
      var (b1, ok) := VertBufDataSet(b, tottri * 3, allocOk, newId);
      if !ok then b1
      else
        var wire := FaceWire(faces, m, 0, 6);
        FaceWireShape(faces, m, 0, 6);
        FaceWireInBlocks(faces, m, 0, 6);
        AllInWidenTo(wire, 0, 3 * 6 * VisibleFaceCount(faces, m) + 1, tottri * 3);
        BatchInit(b1.(indexLinesBuf := Some(IndexBuf(newId, wire)), totTri := tottri,
                      materialIndex := m, showOverlay := overlay), Tris)
  }

  /**
   * Lines of a face outline reach at most the block's last corner, so the
   * bound `hi` (one past the block plus one) tightens to the block end.
   */
  lemma AllInWidenTo(s: seq<Elem>, lo: nat, hi: nat, hi': nat)
    requires AllIn(s, lo, hi) && hi <= hi' + 1
    requires forall i :: 0 <= i < |s| ==> ElemIn(s[i], lo, hi')
    ensures AllIn(s, lo, hi')
  {
  }

  /**
   * Indexed path. The triangle buffer's triangles go into the index buffer,
   * rebuilt in place (keeping its handle) when one exists and created as
   * `newId` otherwise, and its edges into a new line buffer `newId + 1`.
   */
  function IndexedUpdate(b: Buffers, faces: seq<Face>, tb: TriBuf, m: int, allocOk: bool, newId: nat, overlay: bool): (r: Buffers)
    ensures r.smooth == b.smooth && r.useBmesh == b.useBmesh
    ensures |tb.tris| == 0 ==> r == EmptyUpdate(b, faces)
    ensures |tb.tris| > 0 ==> r.clearOnFlush == b.clearOnFlush
    ensures |tb.tris| > 0 ==>
              && r.vertBuf.Some? && r.vertBuf.value.len == tb.totvert
              && (r.vertBuf.value.hasData <==> (allocOk || Mapped(b.vertBuf, tb.totvert)))
    ensures |tb.tris| > 0 && r.vertBuf.value.hasData ==>
              && r.totTri == |tb.tris| && r.materialIndex == m && r.showOverlay == overlay
              && r.indexBuf.Some? && r.indexBuf.value.elems == TriElems(tb.tris)
              && r.indexBuf.value.id == (if b.indexBuf.Some? then b.indexBuf.value.id else newId)
              && r.indexLinesBuf == Some(IndexBuf(newId + 1, TriWire(tb.tris)))
              && |r.indexLinesBuf.value.elems| == 3 * |tb.tris|
              && r.triangles.Some? && r.lines.Some?
    ensures |tb.tris| > 0 && !r.vertBuf.value.hasData ==> r == b.(vertBuf := r.vertBuf)
    ensures && DrawsFrom(b) && b.lines.None? && (b.indexBuf.None? ==> b.triangles.None?)
            && (b.vertBuf.None? ==> NoBatches(b))
            ==> DrawsFrom(r)
  {
    var tottri := |tb.tris|;
    if tottri == 0 then EmptyUpdate(b, faces)
    else
      var (b1, ok) := VertBufDataSet(b, tb.totvert, allocOk, newId);
      if !ok then b1
      else
        TriWireShape(tb.tris);
        var id := if b1.indexBuf.Some? then b1.indexBuf.value.id else newId;
        BatchInit(b1.(totTri := tottri,
                      indexBuf := Some(IndexBuf(id, TriElems(tb.tris))),
                      indexLinesBuf := Some(IndexBuf(newId + 1, TriWire(tb.tris))),
                      materialIndex := m, showOverlay := overlay), Tris)
  }

  /**
   * Default path. The triangle count, and so the vertex buffer's size (three
   * vertices per triangle), comes from the triangle buffer. The line buffer
   * (handle `newId`) outlines each drawn face of the table over its own three
   * vertices.
   */
  function DefaultUpdate(b: Buffers, faces: seq<Face>, tb: TriBuf, m: int, allocOk: bool, newId: nat, overlay: bool): (r: Buffers)
    ensures r.smooth == b.smooth && r.useBmesh == b.useBmesh
    ensures |tb.tris| == 0 ==> r == EmptyUpdate(b, faces)
    ensures |tb.tris| > 0 ==> r.clearOnFlush == b.clearOnFlush
    ensures |tb.tris| > 0 ==>
              && r.vertBuf.Some? && r.vertBuf.value.len == 3 * |tb.tris|
              && (r.vertBuf.value.hasData <==> (allocOk || Mapped(b.vertBuf, 3 * |tb.tris|)))
    ensures |tb.tris| > 0 && r.vertBuf.value.hasData ==>
              && r.totTri == |tb.tris| && r.materialIndex == m && r.showOverlay == overlay
              && r.indexLinesBuf == Some(IndexBuf(newId, FaceWire(faces, m, 0, 1)))
              && |r.indexLinesBuf.value.elems| == 3 * VisibleFaceCount(faces, m)
              && r.triangles.Some? && r.lines.Some?
    ensures |tb.tris| > 0 && !r.vertBuf.value.hasData ==> r == b.(vertBuf := r.vertBuf)
    ensures DrawsFrom(b) && b.lines.None? && (b.vertBuf.None? ==> NoBatches(b)) ==> DrawsFrom(r)
  {
    var tottri := |tb.tris|;
    if tottri == 0 then EmptyUpdate(b, faces)
    else
      var (b1, ok) := VertBufDataSet(b, tottri * 3, allocOk, newId);
      if !ok then b1
      else
        FaceWireShape(faces, m, 0, 1);
        BatchInit(b1.(indexLinesBuf := Some(IndexBuf(newId, FaceWire(faces, m, 0, 1))), totTri := tottri,
                      materialIndex := m, showOverlay := overlay), Tris)
  }

  /** When the triangle buffer holds exactly the drawn faces, the default path's lines stay inside its vertex buffer. */
  lemma DefaultLinesInVertexBuffer(faces: seq<Face>, tb: TriBuf, m: int)
    requires |tb.tris| == VisibleFaceCount(faces, m)
    ensures AllIn(FaceWire(faces, m, 0, 1), 0, 3 * |tb.tris|)
  {
    FaceWireShape(faces, m, 0, 1);
    FaceWireInBlocks(faces, m, 0, 1);
    var w := FaceWire(faces, m, 0, 1);
    forall i | 0 <= i < |w| ensures ElemIn(w[i], 0, 3 * |tb.tris|) {
      assert i / 3 < |tb.tris|;
    }
  }

  /** The choice of update path. */
  datatype Path = FlatVcol | Indexed | Default

  /** Flat colour needs a colour layer; otherwise smooth nodes without UVs are indexed. */
  function ChoosePath(flatVcol: bool, hasColorLayer: bool, smooth: bool, haveUv: bool): (p: Path)
    ensures p == FlatVcol <==> flatVcol && hasColorLayer
    ensures p == Indexed <==> !(flatVcol && hasColorLayer) && smooth && !haveUv
  {
    if flatVcol && hasColorLayer then FlatVcol
    else if smooth && !haveUv then Indexed
    else Default
  }

  /** Whether the chosen path finds nothing to draw: no drawn face for flat colour, an empty triangle buffer otherwise. */
  predicate NothingToDraw(p: Path, faces: seq<Face>, tb: TriBuf, m: int)
  {
    if p == FlatVcol then VisibleFaceCount(faces, m) == 0 else |tb.tris| == 0
  }

  /**
   * The dynamic-topology update entry point. With nothing to draw the
   * triangle count is zeroed and only an empty face table marks the node for
   * clearing; with something to draw and a mapped vertex buffer the node gets
   * a positive triangle count, the material and both full batches; a failed
   * mapping leaves all but the vertex buffer as they were.
   */
  function BmeshBuffersUpdate(b: Buffers, faces: seq<Face>, tb: TriBuf, flatVcol: bool, hasColorLayer: bool,
                              haveUv: bool, m: int, allocOk: bool, newId: nat, overlay: bool): (r: Buffers)
    ensures r.smooth == b.smooth && r.useBmesh == b.useBmesh
    ensures r.clearOnFlush <==> (b.clearOnFlush || (|faces| == 0 && NothingToDraw(ChoosePath(flatVcol, hasColorLayer, b.smooth, haveUv), faces, tb, m)))
    ensures NothingToDraw(ChoosePath(flatVcol, hasColorLayer, b.smooth, haveUv), faces, tb, m) ==> r == EmptyUpdate(b, faces)
    ensures !NothingToDraw(ChoosePath(flatVcol, hasColorLayer, b.smooth, haveUv), faces, tb, m) ==>
              && r.vertBuf.Some?
              && (r.vertBuf.value.hasData <==> (allocOk || Mapped(b.vertBuf, r.vertBuf.value.len)))
              && (r.vertBuf.value.hasData ==>
                    r.totTri > 0 && r.materialIndex == m && r.showOverlay == overlay && r.triangles.Some? && r.lines.Some?)
              && (!r.vertBuf.value.hasData ==> r == b.(vertBuf := r.vertBuf))
  {
    var p := ChoosePath(flatVcol, hasColorLayer, b.smooth, haveUv);
    if p == FlatVcol then FlatVcolUpdate(b, faces, m, allocOk, newId, overlay)
    else if p == Indexed then IndexedUpdate(b, faces, tb, m, allocOk, newId, overlay)
    else DefaultUpdate(b, faces, tb, m, allocOk, newId, overlay)
  }

  /** A node with an empty face table and triangle buffer owns nothing once the next flush has run. */
  lemma EmptyNodeClearedByFlush(b: Buffers, tb: TriBuf, flatVcol: bool, hasColorLayer: bool,
                                haveUv: bool, m: int, allocOk: bool, newId: nat, overlay: bool)
    requires |tb.tris| == 0
    ensures var r := BmeshBuffersUpdate(b, [], tb, flatVcol, hasColorLayer, haveUv, m, allocOk, newId, overlay);
            var (f, upload) := UpdateFlush(r);
            OwnsNothing(f) && !f.clearOnFlush && !upload && f.totTri == 0
  {
  }

  /**
   * The invalidation before an update followed by any of the three paths
   * leaves every batch drawing from the node's current vertex buffer and
   * index buffers: the vertex buffer is re-allocated in place, and every
   * batch over an index buffer the update replaces was dropped beforehand.
   */
  lemma UpdateKeepsBatchesCurrent(b: Buffers, faces: seq<Face>, tb: TriBuf, flatVcol: bool, hasColorLayer: bool,
                                  haveUv: bool, m: int, allocOk: bool, newId: nat, overlay: bool)
    requires DrawsFrom(b) && (b.vertBuf.None? ==> NoBatches(b))
    ensures DrawsFrom(BmeshBuffersUpdate(BmeshUpdateFree(b), faces, tb, flatVcol, hasColorLayer, haveUv, m,
                                         allocOk, newId, overlay))
  {
    var f := BmeshUpdateFree(b);
    assert DrawsFrom(f) && f.lines.None? && (f.vertBuf.None? ==> NoBatches(f));
    var p := ChoosePath(flatVcol, hasColorLayer, f.smooth, haveUv);
    if p == FlatVcol {
      assert FlatVcolUpdate(f, faces, m, allocOk, newId, overlay)
             == BmeshBuffersUpdate(f, faces, tb, flatVcol, hasColorLayer, haveUv, m, allocOk, newId, overlay);
    } else if p == Indexed {
      assert f.indexBuf.None? ==> f.triangles.None?;
      assert IndexedUpdate(f, faces, tb, m, allocOk, newId, overlay)
             == BmeshBuffersUpdate(f, faces, tb, flatVcol, hasColorLayer, haveUv, m, allocOk, newId, overlay);
    } else {
      assert DefaultUpdate(f, faces, tb, m, allocOk, newId, overlay)
             == BmeshBuffersUpdate(f, faces, tb, flatVcol, hasColorLayer, haveUv, m, allocOk, newId, overlay);
    }
  }

  /**
   * A smooth node's invalidation followed by an indexed update leaves its
   * batches over the index buffers just built, never over discarded ones.
   */
  lemma SmoothRebuildBatchesCurrent(b: Buffers, faces: seq<Face>, tb: TriBuf, m: int, newId: nat, overlay: bool)
    requires b.smooth && |tb.tris| > 0
    ensures var r := IndexedUpdate(BmeshUpdateFree(b), faces, tb, m, true, newId, overlay);
            && r.indexBuf == Some(IndexBuf(newId, TriElems(tb.tris)))
            && r.triangles == Some(Batch(Tris, VertId(r.vertBuf), IndexId(r.indexBuf)))
            && r.lines == Some(Batch(Lines, VertId(r.vertBuf), IndexId(r.indexLinesBuf)))
  {
  }
}
