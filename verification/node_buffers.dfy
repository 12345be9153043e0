/**
 * The per-node GPU buffer object of the sculpt drawing code and its lifecycle:
 * lazy batch creation, batch selection, discarding, flushing and the
 * invalidations that precede a rebuild. Device objects are plain values with
 * an identity: an index buffer is the list of primitives it holds, a vertex
 * buffer is its allocated length plus whether its host-side data pointer is
 * live, and a batch refers to the vertex and index buffer objects it was
 * created over by their identities, so it draws whatever those objects hold
 * now. Vertex and index buffers are different kinds of object; identities are
 * compared only within a kind.
 */
module NodeBuffers {
  import opened Options

  /** Primitive kind a batch draws. */
  datatype Prim = Tris | Lines

  /** One primitive of an index buffer, by vertex index. */
  datatype Elem = Tri(v0: nat, v1: nat, v2: nat) | Line(a: nat, b: nat)

  /** A built index buffer: a device object identity and its primitives in build order. */
  datatype IndexBuf = IndexBuf(id: nat, elems: seq<Elem>)

  /** A vertex buffer: a device object identity, allocated vertex count and whether its data pointer is non-null. */
  datatype VertBuf = VertBuf(id: nat, len: nat, hasData: bool)

  /** A draw batch, referring to the vertex and index buffer objects it was created over. */
  datatype Batch = Batch(prim: Prim, verts: Option<nat>, indices: Option<nat>)

  /** Identity of a possibly absent vertex buffer. */
  function VertId(v: Option<VertBuf>): (r: Option<nat>)
    ensures r.Some? <==> v.Some?
    ensures v.Some? ==> r.value == v.value.id
  {
    match v
    case None => None
    case Some(x) => Some(x.id)
  }

  /** Identity of a possibly absent index buffer. */
  function IndexId(i: Option<IndexBuf>): (r: Option<nat>)
    ensures r.Some? <==> i.Some?
    ensures i.Some? ==> r.value == i.value.id
  {
    match i
    case None => None
    case Some(x) => Some(x.id)
  }

  /** A vertex buffer of `len` vertices exists and its data is mapped. */
  predicate Mapped(v: Option<VertBuf>, len: nat)
  {
    v.Some? && v.value.len == len && v.value.hasData
  }

  /** The node buffer object. Absent handles are `None`. */
  datatype Buffers = Buffers(
    indexBuf: Option<IndexBuf>,
    indexBufFast: Option<IndexBuf>,
    indexLinesBuf: Option<IndexBuf>,
    indexLinesBufFast: Option<IndexBuf>,
    vertBuf: Option<VertBuf>,
    lines: Option<Batch>,
    linesFast: Option<Batch>,
    triangles: Option<Batch>,
    trianglesFast: Option<Batch>,
    useBmesh: bool,
    clearOnFlush: bool,
    totTri: nat,
    faceIndicesLen: nat,
    materialIndex: int,
    smooth: bool,
    showOverlay: bool)

  /** True when the object owns no batch, index buffer or vertex buffer. */
  predicate OwnsNothing(b: Buffers)
  {
    && b.indexBuf.None? && b.indexBufFast.None? && b.indexLinesBuf.None? && b.indexLinesBufFast.None?
    && b.vertBuf.None?
    && b.lines.None? && b.linesFast.None? && b.triangles.None? && b.trianglesFast.None?
  }

  /** True when no batch exists. */
  predicate NoBatches(b: Buffers)
  {
    b.lines.None? && b.linesFast.None? && b.triangles.None? && b.trianglesFast.None?
  }

  /** `bt`, when present, draws `prim` primitives from vertex buffer `v` and index buffer `i`. */
  predicate Over(bt: Option<Batch>, v: Option<VertBuf>, i: Option<IndexBuf>)
  {
    bt.Some? ==> bt.value.verts == VertId(v) && bt.value.indices == IndexId(i)
  }

  /**
   * Every batch the object holds draws from the object's current vertex buffer
   * and from the index buffer of its own kind (full or fast, triangles or lines).
   */
  predicate DrawsFrom(b: Buffers)
  {
    && Over(b.triangles, b.vertBuf, b.indexBuf)
    && Over(b.trianglesFast, b.vertBuf, b.indexBufFast)
    && Over(b.lines, b.vertBuf, b.indexLinesBuf)
    && Over(b.linesFast, b.vertBuf, b.indexLinesBufFast)
  }

  /** Every batch of `b` is still in `r`, unchanged. */
  predicate KeepsBatches(b: Buffers, r: Buffers)
  {
    && (b.triangles.Some? ==> r.triangles == b.triangles)
    && (b.trianglesFast.Some? ==> r.trianglesFast == b.trianglesFast)
    && (b.lines.Some? ==> r.lines == b.lines)
    && (b.linesFast.Some? ==> r.linesFast == b.linesFast)
  }

  /** True when every batch that `BatchInit` would create already exists. */
  predicate Batched(b: Buffers)
  {
    && b.triangles.Some? && b.lines.Some?
    && (b.indexBufFast.Some? ==> b.trianglesFast.Some?)
    && (b.indexLinesBufFast.Some? ==> b.linesFast.Some?)
  }

  /** True when `a` and `b` agree on the mode, the flush request and the triangle and face counts. */
  predicate SameBookkeeping(a: Buffers, b: Buffers)
  {
    && a.useBmesh == b.useBmesh && a.clearOnFlush == b.clearOnFlush
    && a.totTri == b.totTri && a.faceIndicesLen == b.faceIndicesLen
  }

  /** True when `a` and `b` agree on everything except the owned device objects. */
  predicate SameSettings(a: Buffers, b: Buffers)
  {
    && SameBookkeeping(a, b)
    && a.materialIndex == b.materialIndex && a.smooth == b.smooth && a.showOverlay == b.showOverlay
  }

  /** A zero-filled buffer object, as a fresh zeroed allocation gives. */
  function Zeroed(): (b: Buffers)
    ensures OwnsNothing(b)
    ensures !b.useBmesh && !b.clearOnFlush && !b.smooth && !b.showOverlay
    ensures b.totTri == 0 && b.faceIndicesLen == 0 && b.materialIndex == 0
  {
    Buffers(None, None, None, None, None, None, None, None, None,
            false, false, 0, 0, 0, false, false)
  }

  /** Creation of a dynamic-topology node's buffer object. */
  function BmeshBuffersBuild(smoothShading: bool): (b: Buffers)
    ensures OwnsNothing(b)
    ensures b.useBmesh && b.smooth == smoothShading && b.showOverlay
    ensures !b.clearOnFlush && b.totTri == 0
  {
    Zeroed().(useBmesh := true, smooth := smoothShading, showOverlay := true)
  }

  /** Creation of a multires-grid node's buffer object. */
  function GridBuffersBuild(): (b: Buffers)
    ensures OwnsNothing(b)
    ensures !b.useBmesh && !b.showOverlay && !b.clearOnFlush && b.totTri == 0
  {
    Zeroed()
  }

  /**
   * Ensures a vertex buffer of `len` vertices with live data. A missing buffer
   * is created with identity `newId`; one without data or of another length
   * has its data (re)allocated in place, keeping its identity, and `allocOk`
   * says whether the device could map it. `r.1` reports whether the data
   * pointer is live afterwards.
   */
  function VertBufDataSet(b: Buffers, len: nat, allocOk: bool, newId: nat): (r: (Buffers, bool))
    ensures r.1 <==> Mapped(r.0.vertBuf, len)
    ensures r.1 <==> (allocOk || Mapped(b.vertBuf, len))
    ensures r.0.vertBuf.Some?
    ensures r.0.vertBuf.value.id == (if b.vertBuf.Some? then b.vertBuf.value.id else newId)
    ensures Mapped(b.vertBuf, len) ==> r.0.vertBuf == b.vertBuf
    ensures r.0 == b.(vertBuf := r.0.vertBuf)
  {
    var vb := b.vertBuf.OrElse(VertBuf(newId, 0, false));
    var vb' := if !vb.hasData || vb.len != len then vb.(len := len, hasData := allocOk) else vb;
    (b.(vertBuf := Some(vb')), vb'.hasData)
  }

  /**
   * Lazily creates the batches: the full triangle and line batches always
   * (their index buffer may be absent), the fast ones only when their fast
   * index buffer exists. Existing batches are kept.
   */
  function BatchInit(b: Buffers, prim: Prim): (r: Buffers)
    ensures r.triangles.Some? && r.lines.Some? && Batched(r)
    ensures Batched(b) ==> r == b
    ensures r.trianglesFast.Some? <==> (b.trianglesFast.Some? || b.indexBufFast.Some?)
    ensures r.linesFast.Some? <==> (b.linesFast.Some? || b.indexLinesBufFast.Some?)
    ensures KeepsBatches(b, r)
    ensures b.triangles.None? ==> r.triangles == Some(Batch(prim, VertId(b.vertBuf), IndexId(b.indexBuf)))
    ensures b.trianglesFast.None? && b.indexBufFast.Some? ==>
              r.trianglesFast == Some(Batch(prim, VertId(b.vertBuf), IndexId(b.indexBufFast)))
    ensures b.lines.None? ==> r.lines == Some(Batch(Lines, VertId(b.vertBuf), IndexId(b.indexLinesBuf)))
    ensures b.linesFast.None? && b.indexLinesBufFast.Some? ==>
              r.linesFast == Some(Batch(Lines, VertId(b.vertBuf), IndexId(b.indexLinesBufFast)))
    ensures r.indexBuf == b.indexBuf && r.indexBufFast == b.indexBufFast
    ensures r.indexLinesBuf == b.indexLinesBuf && r.indexLinesBufFast == b.indexLinesBufFast
    ensures r.vertBuf == b.vertBuf && SameSettings(r, b)
    ensures DrawsFrom(b) ==> DrawsFrom(r)
  {
    var v := VertId(b.vertBuf);
    var tris := if b.triangles.None? then Some(Batch(prim, v, IndexId(b.indexBuf))) else b.triangles;
    var trisFast := if b.trianglesFast.None? && b.indexBufFast.Some?
                    then Some(Batch(prim, v, IndexId(b.indexBufFast))) else b.trianglesFast;
    var lines := if b.lines.None? then Some(Batch(Lines, v, IndexId(b.indexLinesBuf))) else b.lines;
    var linesFast := if b.linesFast.None? && b.indexLinesBufFast.Some?
                     then Some(Batch(Lines, v, IndexId(b.indexLinesBufFast))) else b.linesFast;
    Buffers(b.indexBuf, b.indexBufFast, b.indexLinesBuf, b.indexLinesBufFast, b.vertBuf,
            lines, linesFast, tris, trisFast, b.useBmesh, b.clearOnFlush, b.totTri, b.faceIndicesLen,
            b.materialIndex, b.smooth, b.showOverlay)
  }

  /** The batch to draw: the fast variant when asked for and present, else the full one. */
  function BatchGet(b: Buffers, fast: bool, wires: bool): (r: Option<Batch>)
    ensures wires && fast && b.linesFast.Some? ==> r == b.linesFast
    ensures wires && (!fast || b.linesFast.None?) ==> r == b.lines
    ensures !wires && fast && b.trianglesFast.Some? ==> r == b.trianglesFast
    ensures !wires && (!fast || b.trianglesFast.None?) ==> r == b.triangles
  {
    if wires then (if fast && b.linesFast.Some? then b.linesFast else b.lines)
    else (if fast && b.trianglesFast.Some? then b.trianglesFast else b.triangles)
  }

  /** After batch creation every request yields a batch, and it is a fast one only if it was asked for. */
  lemma BatchGetAfterInit(b: Buffers, prim: Prim, fast: bool, wires: bool)
    ensures BatchGet(BatchInit(b, prim), fast, wires).Some?
    ensures !fast ==> BatchGet(BatchInit(b, prim), fast, wires)
                      == (if wires then BatchInit(b, prim).lines else BatchInit(b, prim).triangles)
    ensures fast && b.indexBufFast.None? && b.trianglesFast.None? && !wires ==>
              BatchGet(BatchInit(b, prim), fast, wires) == BatchInit(b, prim).triangles
  {
  }

  /** Discards every batch, index buffer and the vertex buffer; discarding an absent one is a no-op. */
  function Clear(b: Buffers): (r: Buffers)
    ensures OwnsNothing(r) && SameSettings(r, b)
  {
    b.(lines := None, linesFast := None, triangles := None, trianglesFast := None,
       indexLinesBufFast := None, indexLinesBuf := None, indexBufFast := None, indexBuf := None,
       vertBuf := None)
  }

  /**
   * Flush before drawing. A node marked for clearing loses every device object
   * and the mark; then a vertex buffer with live data is uploaded (`upload`).
   */
  function UpdateFlush(b: Buffers): (r: (Buffers, bool))
    ensures b.clearOnFlush ==> OwnsNothing(r.0) && !r.0.clearOnFlush && !r.1
    ensures b.clearOnFlush ==> r.0 == Clear(b).(clearOnFlush := false)
    ensures !b.clearOnFlush ==> r.0 == b
    ensures r.1 <==> !b.clearOnFlush && b.vertBuf.Some? && b.vertBuf.value.hasData
  {
    var c := if b.clearOnFlush then Clear(b).(clearOnFlush := false) else b;
    (c, c.vertBuf.Some? && c.vertBuf.value.hasData)
  }

  /** Flushing twice does what flushing once does to the object. */
  lemma UpdateFlushIdempotent(b: Buffers)
    ensures UpdateFlush(UpdateFlush(b).0).0 == UpdateFlush(b).0
  {
  }

  /**
   * Freeing the object: everything it owns is discarded first. The release of
   * the object's own memory has no counterpart in a value model; `None` stands
   * for the freed pointer.
   */
  function Free(b: Option<Buffers>): (r: (Option<Buffers>, Option<Buffers>))
    ensures r.0.None?
    ensures b.Some? ==> r.1 == Some(Clear(b.value)) && OwnsNothing(r.1.value)
    ensures b.None? ==> r.1.None?
  {
    match b
    case None => (None, None)
    case Some(x) => (None, Some(Clear(x)))
  }

  /**
   * Multires smoothing change: when the node's first grid's smooth flag differs
   * from the stored one, the flag is taken over and all four batches and all
   * four index buffers are discarded; otherwise nothing changes.
   */
  function GridUpdateFree(b: Buffers, gridSmooth: seq<bool>): (r: Buffers)
    requires |gridSmooth| > 0
    ensures r.smooth == gridSmooth[0]
    ensures b.smooth == gridSmooth[0] ==> r == b
    ensures b.smooth != gridSmooth[0] ==>
              && NoBatches(r)
              && r.indexBuf.None? && r.indexBufFast.None? && r.indexLinesBuf.None? && r.indexLinesBufFast.None?
              && r.vertBuf == b.vertBuf
              && r == b.(smooth := r.smooth, indexBuf := None, indexBufFast := None,
                         indexLinesBuf := None, indexLinesBufFast := None,
                         lines := None, linesFast := None, triangles := None, trianglesFast := None)
  {
    var smooth := gridSmooth[0];
    if b.smooth != smooth then
      b.(smooth := smooth,
         triangles := None, trianglesFast := None, lines := None, linesFast := None,
         indexBuf := None, indexBufFast := None, indexLinesBuf := None, indexLinesBufFast := None)
    else b
  }

  /**
   * Dynamic-topology invalidation before an update: a smooth node (whose index
   * buffer is rebuilt) loses its triangle and line batches and both full index
   * buffers; a flat node loses only its line batch and line index buffer.
   */
  function BmeshUpdateFree(b: Buffers): (r: Buffers)
    ensures r.lines.None? && r.indexLinesBuf.None?
    ensures b.smooth ==> r.triangles.None? && r.indexBuf.None?
    ensures !b.smooth ==> r.triangles == b.triangles && r.indexBuf == b.indexBuf
    ensures r.linesFast == b.linesFast && r.trianglesFast == b.trianglesFast
    ensures r.indexBufFast == b.indexBufFast && r.indexLinesBufFast == b.indexLinesBufFast
    ensures r.vertBuf == b.vertBuf && SameSettings(r, b)
  {
    if b.smooth then
      b.(triangles := None, lines := None, indexLinesBuf := None, indexBuf := None)
    else
      b.(lines := None, indexLinesBuf := None)
  }

  /** A smoothing change leaves no batch that could refer to a discarded index buffer. */
  lemma GridToggleThenInitRebuildsOverCurrentBuffers(b: Buffers, gridSmooth: seq<bool>, prim: Prim)
    requires |gridSmooth| > 0 && b.smooth != gridSmooth[0]
    ensures var r := BatchInit(GridUpdateFree(b, gridSmooth), prim);
            && r.triangles == Some(Batch(prim, VertId(b.vertBuf), None))
            && r.lines == Some(Batch(Lines, VertId(b.vertBuf), None))
            && r.trianglesFast.None? && r.linesFast.None?
  {
  }
}
