/**
 * The multires node update as far as its index buffers are concerned: the
 * per-node fill over all grids, the "totally hidden" early return, reuse of
 * existing index buffers, vertex-buffer sizing and the material index.
 */
module GridBuffers {
  import opened Options
  import opened NodeBuffers
  import opened GridIndex

  /** The four index lists of a node. */
  datatype FillOut = FillOut(tris: seq<Elem>, lines: seq<Elem>, fastTris: seq<Elem>, fastLines: seq<Elem>)

  /** What the node reads of one of its grids, in node order. */
  datatype GridInfo = GridInfo(smooth: bool, matNr: int, hidden: GridHidden)

  /** Grid `i` of the node: its vertex block starts at `i * n`, whatever the other grids hide. */
  function NodeGrid(smooth: bool, gs: nat, hidden: seq<GridHidden>, i: nat): Grid
    requires i < |hidden|
  {
    Grid(smooth, gs, i * GridVertLen(smooth, gs), hidden[i])
  }

  function Append(a: FillOut, o: GridOut): FillOut
  {
    FillOut(a.tris + o.tris, a.lines + o.lines, a.fastTris + o.fastTris, a.fastLines + o.fastLines)
  }

  /** Reference description of the node's lists: its grids' lists in node order. */
  function FillRef(smooth: bool, gs: nat, hidden: seq<GridHidden>): FillOut
    decreases |hidden|
  {
    if |hidden| == 0 then FillOut([], [], [], [])
    else Append(FillRef(smooth, gs, hidden[..|hidden| - 1]), GridEmit(NodeGrid(smooth, gs, hidden, |hidden| - 1)))
  }

  /** Shown subfaces over all grids of the node (the visible quad count). */
  function NodeQuads(gs: nat, hidden: seq<GridHidden>): nat
    decreases |hidden|
  {
    if |hidden| == 0 then 0
    else NodeQuads(gs, hidden[..|hidden| - 1]) + GridQuads(hidden[|hidden| - 1], gs)
  }

  /** Grids of the node with at least one shown subface. */
  function VisibleGrids(gs: nat, hidden: seq<GridHidden>): nat
    decreases |hidden|
  {
    if |hidden| == 0 then 0
    else VisibleGrids(gs, hidden[..|hidden| - 1]) + (if GridQuads(hidden[|hidden| - 1], gs) > 0 then 1 else 0)
  }

  lemma AllInWiden(s: seq<Elem>, lo: nat, hi: nat, lo': nat, hi': nat)
    requires AllIn(s, lo, hi) && lo' <= lo && hi <= hi'
    ensures AllIn(s, lo', hi')
  {
  }

  lemma FillRefUnfold(smooth: bool, gs: nat, hidden: seq<GridHidden>)
    requires |hidden| > 0
    ensures FillRef(smooth, gs, hidden)
            == Append(FillRef(smooth, gs, hidden[..|hidden| - 1]), GridEmit(NodeGrid(smooth, gs, hidden, |hidden| - 1)))
  {
  }

  lemma CapacityStep(m: nat, gs: nat, s: nat)
    ensures 2 * (m + 1) * gs * s == 2 * m * gs * s + 2 * gs * s
  {
  }

  /** Triangle and fast-list counts of the node. */
  lemma {:induction false} FillRefCounts(smooth: bool, gs: nat, hidden: seq<GridHidden>)
    ensures var f := FillRef(smooth, gs, hidden);
            && |f.tris| == 2 * NodeQuads(gs, hidden)
            && |f.fastTris| == 2 * VisibleGrids(gs, hidden)
            && |f.fastLines| == 4 * VisibleGrids(gs, hidden)
            && VisibleGrids(gs, hidden) <= |hidden|
    decreases |hidden|
  {
    if |hidden| > 0 {
      var m := |hidden| - 1;
      FillRefCounts(smooth, gs, hidden[..m]);
      var g := NodeGrid(smooth, gs, hidden, m);
      GridTriangles(g);
      GridFast(g);
    }
  }

  /** The node's line list never exceeds the `2 totgrid gs (gs - 1)` entries reserved for it. */
  lemma {:induction false} FillRefLines(smooth: bool, gs: nat, hidden: seq<GridHidden>)
    ensures |FillRef(smooth, gs, hidden).lines| <= 2 * |hidden| * gs * Side(gs)
    decreases |hidden|
  {
    if |hidden| > 0 {
      var m := |hidden| - 1;
      FillRefLines(smooth, gs, hidden[..m]);
      GridLinesCapacity(NodeGrid(smooth, gs, hidden, m));
      FillRefUnfold(smooth, gs, hidden);
      CapacityStep(m, gs, Side(gs));
    }
  }

  /** Every index of the node's lists addresses one of its `totgrid * n` vertices. */
  lemma {:induction false} FillRefRange(smooth: bool, gs: nat, hidden: seq<GridHidden>)
    ensures var f := FillRef(smooth, gs, hidden); var hi := |hidden| * GridVertLen(smooth, gs);
            && AllIn(f.tris, 0, hi) && AllIn(f.lines, 0, hi)
            && AllIn(f.fastTris, 0, hi) && AllIn(f.fastLines, 0, hi)
    decreases |hidden|
  {
    if |hidden| > 0 {
      var m := |hidden| - 1;
      var n := GridVertLen(smooth, gs);
      var hi := |hidden| * n;
      FillRefRange(smooth, gs, hidden[..m]);
      var g := NodeGrid(smooth, gs, hidden, m);
      GridInBlock(g);
      var f := FillRef(smooth, gs, hidden[..m]);
      var o := GridEmit(g);
      FillRefUnfold(smooth, gs, hidden);
      MulSucc(m, n);
      AllInWiden(f.tris, 0, m * n, 0, hi);
      AllInWiden(f.lines, 0, m * n, 0, hi);
      AllInWiden(f.fastTris, 0, m * n, 0, hi);
      AllInWiden(f.fastLines, 0, m * n, 0, hi);
      AllInWiden(o.tris, m * n, m * n + n, 0, hi);
      AllInWiden(o.lines, m * n, m * n + n, 0, hi);
      AllInWiden(o.fastTris, m * n, m * n + n, 0, hi);
      AllInWiden(o.fastLines, m * n, m * n + n, 0, hi);
      AllInConcat(f.tris, o.tris, 0, hi);
      AllInConcat(f.lines, o.lines, 0, hi);
      AllInConcat(f.fastTris, o.fastTris, 0, hi);
      AllInConcat(f.fastLines, o.fastLines, 0, hi);
    }
  }

  /**
   * The node fill of `gpu_pbvh_grid_fill_index_buffers`: one pass over the
   * grids, the vertex offset advancing by one grid's vertex count per grid.
   */
  method FillIndexBuffers(smooth: bool, gs: nat, hidden: seq<GridHidden>) returns (out: FillOut)
    ensures out == FillRef(smooth, gs, hidden)
    ensures |out.tris| == 2 * NodeQuads(gs, hidden)
    ensures |out.fastTris| == 2 * VisibleGrids(gs, hidden) <= 2 * |hidden|
    ensures |out.fastLines| == 4 * VisibleGrids(gs, hidden) <= 4 * |hidden|
    ensures |out.lines| <= 2 * |hidden| * gs * Side(gs)
    ensures AllIn(out.tris, 0, |hidden| * GridVertLen(smooth, gs))
    ensures AllIn(out.lines, 0, |hidden| * GridVertLen(smooth, gs))
  {
    var n := GridVertLen(smooth, gs);
    var offset := 0;
    var i := 0;
    out := FillOut([], [], [], []);
    while i < |hidden|
      invariant 0 <= i <= |hidden|
      invariant offset == i * n
      invariant out == FillRef(smooth, gs, hidden[..i])
    {
      var o := GridEmit(Grid(smooth, gs, offset, hidden[i]));
      out := Append(out, o);
      assert hidden[..i + 1][..i] == hidden[..i];
      assert NodeGrid(smooth, gs, hidden[..i + 1], i) == Grid(smooth, gs, offset, hidden[i]);
      offset := offset + n;
      i := i + 1;
    }
    assert hidden[..|hidden|] == hidden;
    FillRefCounts(smooth, gs, hidden);
    FillRefLines(smooth, gs, hidden);
    FillRefRange(smooth, gs, hidden);
  }

  function Hiddens(grids: seq<GridInfo>): (h: seq<GridHidden>)
    ensures |h| == |grids|
    ensures forall i :: 0 <= i < |grids| ==> h[i] == grids[i].hidden
  {
    seq(|grids|, i requires 0 <= i < |grids| => grids[i].hidden)
  }

  /**
   * The index side of a multires node update. The node takes the first grid's
   * smooth flag. Without index buffers it counts the visible quads: none means
   * a totally hidden node, which returns before anything else is built;
   * otherwise the four index buffers are built (with handles `newId` to
   * `newId + 3`). Existing index buffers are kept. Then the vertex buffer
   * (created as `newId` when missing, otherwise kept and re-allocated in
   * place) is sized for every grid's block, missing batches are created over
   * it if it could be mapped, the material index is read from the first grid,
   * and the overlay flag is set to
   * `overlay` when the vertex buffer was mapped and to false otherwise.
   * `overlay` stands for "some mask value is non-zero or some face set is not
   * the default one"; the scan that decides it runs only over a mapped buffer.
   */
  function GridBuffersUpdate(b: Buffers, grids: seq<GridInfo>, gs: nat, allocOk: bool, newId: nat, overlay: bool): (r: Buffers)
    requires |grids| > 0
    ensures r.smooth == grids[0].smooth
    ensures b.indexBuf.None? && NodeQuads(gs, Hiddens(grids)) == 0 ==> r == b.(smooth := grids[0].smooth)
    ensures b.indexBuf.Some? ==>
              && r.indexBuf == b.indexBuf && r.indexBufFast == b.indexBufFast
              && r.indexLinesBuf == b.indexLinesBuf && r.indexLinesBufFast == b.indexLinesBufFast
    ensures b.indexBuf.None? && NodeQuads(gs, Hiddens(grids)) > 0 ==>
              var f := FillRef(grids[0].smooth, gs, Hiddens(grids));
              && r.indexBuf == Some(IndexBuf(newId, f.tris))
              && r.indexBufFast == Some(IndexBuf(newId + 1, f.fastTris))
              && r.indexLinesBuf == Some(IndexBuf(newId + 2, f.lines))
              && r.indexLinesBufFast == Some(IndexBuf(newId + 3, f.fastLines))
              && |f.tris| == 2 * NodeQuads(gs, Hiddens(grids))
    ensures b.indexBuf.Some? || NodeQuads(gs, Hiddens(grids)) > 0 ==>
              var len := NodeVertLen(|grids|, GridVertLen(grids[0].smooth, gs));
              && r.materialIndex == grids[0].matNr
              && r.showOverlay == (overlay && Mapped(r.vertBuf, len))
              && (Mapped(r.vertBuf, len) ==> r.triangles.Some? && r.lines.Some? && Batched(r))
              && (allocOk ==> Mapped(r.vertBuf, len))
              && r.vertBuf.Some? && r.vertBuf.value.id == (if b.vertBuf.Some? then b.vertBuf.value.id else newId)
    ensures SameBookkeeping(r, b)
    ensures KeepsBatches(b, r)
    ensures b.vertBuf.Some? ==> r.vertBuf.Some? && r.vertBuf.value.id == b.vertBuf.value.id
    ensures DrawsFrom(b) && (b.vertBuf.None? || b.indexBuf.None? ==> NoBatches(b)) ==> DrawsFrom(r)
  {
    var smooth := grids[0].smooth;
    var b1 := b.(smooth := smooth);
    var hidden := Hiddens(grids);
    if b1.indexBuf.None? && NodeQuads(gs, hidden) == 0 then
      b1
    else
      BuildAndUpload(b1, gs, hidden, NodeVertLen(|grids|, GridVertLen(smooth, gs)), allocOk, newId, overlay, grids[0].matNr)
  }

  /**
   * The update past the early return: index buffers are built when missing,
   * then the vertex buffer is uploaded and batched, the material recorded and
   * the overlay flag set when the buffer was mapped.
   */
  function BuildAndUpload(b: Buffers, gs: nat, hidden: seq<GridHidden>, len: nat, allocOk: bool,
                          newId: nat, overlay: bool, mat: int): (r: Buffers)
    ensures b.indexBuf.Some? ==>
              && r.indexBuf == b.indexBuf && r.indexBufFast == b.indexBufFast
              && r.indexLinesBuf == b.indexLinesBuf && r.indexLinesBufFast == b.indexLinesBufFast
    ensures b.indexBuf.None? ==>
              var f := FillRef(b.smooth, gs, hidden);
              && r.indexBuf == Some(IndexBuf(newId, f.tris))
              && r.indexBufFast == Some(IndexBuf(newId + 1, f.fastTris))
              && r.indexLinesBuf == Some(IndexBuf(newId + 2, f.lines))
              && r.indexLinesBufFast == Some(IndexBuf(newId + 3, f.fastLines))
              && |f.tris| == 2 * NodeQuads(gs, hidden)
    ensures r.showOverlay == (overlay && Mapped(r.vertBuf, len))
    ensures Mapped(r.vertBuf, len) ==> r.triangles.Some? && r.lines.Some? && Batched(r)
    ensures allocOk ==> Mapped(r.vertBuf, len)
    ensures r.vertBuf.Some? && r.vertBuf.value.id == (if b.vertBuf.Some? then b.vertBuf.value.id else newId)
    ensures SameBookkeeping(r, b) && r.smooth == b.smooth && r.materialIndex == mat
    ensures KeepsBatches(b, r)
    ensures DrawsFrom(b) && (b.vertBuf.None? || b.indexBuf.None? ==> NoBatches(b)) ==> DrawsFrom(r)
  {
    var b2 := if b.indexBuf.None? then BuildIndexBuffers(b, gs, hidden, newId) else b;
    UploadAndBatch(b2, len, allocOk, mat, newId, overlay)
  }

  /** Vertices of `count` grids of `per` vertices each, laid out one after another. */
  function NodeVertLen(count: nat, per: nat): nat
  {
    if count == 0 then 0 else NodeVertLen(count - 1, per) + per
  }

  /** The node's vertex buffer holds exactly `totgrid * grid_vert_len` vertices. */
  lemma {:induction false} NodeVertLenIsProduct(count: nat, per: nat)
    ensures NodeVertLen(count, per) == count * per
  {
    if count > 0 {
      NodeVertLenIsProduct(count - 1, per);
      MulSucc(count - 1, per);
    }
  }

  /** Builds the four index buffers of a node from its filled grids, with handles `newId` to `newId + 3`. */
  function BuildIndexBuffers(b: Buffers, gs: nat, hidden: seq<GridHidden>, newId: nat): (r: Buffers)
    ensures var f := FillRef(b.smooth, gs, hidden);
            && r.indexBuf == Some(IndexBuf(newId, f.tris))
            && r.indexBufFast == Some(IndexBuf(newId + 1, f.fastTris))
            && r.indexLinesBuf == Some(IndexBuf(newId + 2, f.lines))
            && r.indexLinesBufFast == Some(IndexBuf(newId + 3, f.fastLines))
            && |f.tris| == 2 * NodeQuads(gs, hidden)
    ensures r.vertBuf == b.vertBuf && r.triangles == b.triangles && r.trianglesFast == b.trianglesFast
    ensures r.lines == b.lines && r.linesFast == b.linesFast && SameSettings(r, b)
  {
    var f := FillRef(b.smooth, gs, hidden);
    FillRefCounts(b.smooth, gs, hidden);
    Buffers(Some(IndexBuf(newId, f.tris)), Some(IndexBuf(newId + 1, f.fastTris)),
            Some(IndexBuf(newId + 2, f.lines)), Some(IndexBuf(newId + 3, f.fastLines)), b.vertBuf,
            b.lines, b.linesFast, b.triangles, b.trianglesFast, b.useBmesh, b.clearOnFlush, b.totTri,
            b.faceIndicesLen, b.materialIndex, b.smooth, b.showOverlay)
  }

  /**
   * Sizes the vertex buffer for `len` vertices (creating it as `newId` when
   * missing), creates the missing batches when its data is live, and records
   * the material and the overlay flag, which is false when the buffer could not
   * be mapped; index buffers, existing batches and the other settings are
   * untouched.
   */
  function UploadAndBatch(b: Buffers, len: nat, allocOk: bool, mat: int, newId: nat, overlay: bool): (r: Buffers)
    ensures allocOk ==> Mapped(r.vertBuf, len)
    ensures r.showOverlay == (overlay && Mapped(r.vertBuf, len))
    ensures Mapped(r.vertBuf, len) ==> r.triangles.Some? && r.lines.Some?
    ensures r.vertBuf.Some? && r.vertBuf.value.id == (if b.vertBuf.Some? then b.vertBuf.value.id else newId)
    ensures Mapped(b.vertBuf, len) ==> r.vertBuf == b.vertBuf
    ensures Mapped(r.vertBuf, len) ==> Batched(r)
    ensures Mapped(b.vertBuf, len) && Batched(b) && b.materialIndex == mat && b.showOverlay == overlay ==> r == b
    ensures r.indexBuf == b.indexBuf && r.indexBufFast == b.indexBufFast
    ensures r.indexLinesBuf == b.indexLinesBuf && r.indexLinesBufFast == b.indexLinesBufFast
    ensures SameBookkeeping(r, b) && r.smooth == b.smooth && r.materialIndex == mat
    ensures KeepsBatches(b, r)
    ensures DrawsFrom(b) && (b.vertBuf.Some? || NoBatches(b)) ==> DrawsFrom(r)
  {
    var (b3, ok) := VertBufDataSet(b, len, allocOk, newId);
    (if ok then BatchInit(b3, Tris) else b3).(materialIndex := mat, showOverlay := overlay && ok)
  }

  /**
   * A second update with the same grids rebuilds nothing: the index buffers
   * (and so the triangle and line counts) are those of the first update.
   */
  lemma GridUpdateIdempotentIndices(b: Buffers, grids: seq<GridInfo>, gs: nat, ok1: bool, ok2: bool, f1: nat, f2: nat, o1: bool, o2: bool)
    requires |grids| > 0
    ensures var r1 := GridBuffersUpdate(b, grids, gs, ok1, f1, o1);
            var r2 := GridBuffersUpdate(r1, grids, gs, ok2, f2, o2);
            && r2.indexBuf == r1.indexBuf && r2.indexBufFast == r1.indexBufFast
            && r2.indexLinesBuf == r1.indexLinesBuf && r2.indexLinesBufFast == r1.indexLinesBufFast
  {
  }

  /**
   * Once an update has mapped its vertex buffer, repeating it with the same
   * grids and overlay verdict changes nothing at all, whatever the second
   * map would do and whatever handles it would hand out.
   */
  lemma GridUpdateIdempotent(b: Buffers, grids: seq<GridInfo>, gs: nat, f1: nat, ok2: bool, f2: nat, overlay: bool)
    requires |grids| > 0
    ensures var r1 := GridBuffersUpdate(b, grids, gs, true, f1, overlay);
            GridBuffersUpdate(r1, grids, gs, ok2, f2, overlay) == r1
  {
    var r1 := GridBuffersUpdate(b, grids, gs, true, f1, overlay);
    var hidden := Hiddens(grids);
    if r1.indexBuf.Some? || NodeQuads(gs, hidden) > 0 {
      var len := NodeVertLen(|grids|, GridVertLen(grids[0].smooth, gs));
      assert r1.(smooth := grids[0].smooth) == r1;
      assert GridBuffersUpdate(r1, grids, gs, ok2, f2, overlay)
             == UploadAndBatch(r1, len, ok2, grids[0].matNr, f2, overlay);
    }
  }

  /**
   * A freshly created node whose grids are all hidden gets neither index
   * buffers nor a vertex buffer, and draws nothing.
   */
  lemma FullyHiddenNodeBuildsNothing(grids: seq<GridInfo>, gs: nat, allocOk: bool, newId: nat, overlay: bool)
    requires |grids| > 0
    requires forall i :: 0 <= i < |grids| ==>
               (grids[i].hidden.Bitmap? && forall j: nat, k: nat :: grids[i].hidden.faceHidden(k, j))
    ensures var r := GridBuffersUpdate(GridBuffersBuild(), grids, gs, allocOk, newId, overlay);
            OwnsNothing(r) && BatchGet(r, true, false).None? && BatchGet(r, false, true).None?
  {
    NoShownSubfaces(gs, Hiddens(grids));
  }

  lemma {:induction false} NoShownSubfaces(gs: nat, hidden: seq<GridHidden>)
    requires forall i :: 0 <= i < |hidden| ==>
               (hidden[i].Bitmap? && forall j: nat, k: nat :: hidden[i].faceHidden(k, j))
    ensures NodeQuads(gs, hidden) == 0
    decreases |hidden|
  {
    if |hidden| > 0 {
      var m := |hidden| - 1;
      NoShownSubfaces(gs, hidden[..m]);
      var g := Grid(true, gs, 0, hidden[m]);
      RowsCountPositive(g, 0);
    }
  }
}
