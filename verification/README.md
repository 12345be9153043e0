# Sculpt PBVH draw buffers, image-paint helpers and attribute references — a Dafny model

This project models the core of Blender's sculpt-mode draw-buffer builder,
`gpu_buffers.c`. For each PBVH node it:

- builds and refreshes the GPU buffer object;
- fills the multires-grid index buffers, in the full and the coarse ("fast") variants;
- builds the triangle and wireframe index buffers of a regular mesh node;
- builds the three dynamic-topology (BMesh) update paths: flat shading with
  colour, the indexed smooth path, and the default non-indexed path;
- orders the vertex-colour layers;
- creates, looks up, clears, flushes and frees the batches.

Next to it sit a few small cores from other parts of Blender:

- the image-paint undo-tile and dirty-region logic, the blur-kernel
  construction and the opacity-masking decision (`paint_image.cc`);
- the parent-panel lookup and ordered child insertion of the file-browser
  I/O panels (`io_ops.c`);
- the attribute identifier reference, typed lookups and writer `finish`
  of the geometry attribute API (`BKE_attribute.hh`);
- the Cycles `uint3` / `packed_uint3` component access (`types_uint3_impl.h`).

All GPU objects are modelled as values:

- An index buffer is its list of elements (triangles or lines) together with an
  identity. Where the C code refills an existing buffer in place, the model
  keeps the identity.
- A vertex buffer is its length plus a flag saying whether its data is mapped,
  together with an identity. The C code re-allocates an existing vertex buffer
  in place, so a resize keeps the identity.
- A batch records its primitive and the identities of the vertex and index
  buffers it was created over. `DrawsFrom` says that every batch of a node
  refers to the node's current buffers.

A failed device allocation or map is a boolean parameter. Fresh object
identities are parameters too.

Modules:

| file | module | contents |
|---|---|---|
| options.dfy | `Options` | `Option` |
| node_buffers.dfy | `NodeBuffers` | buffer object, creation, batches, clear/flush/free, invalidation |
| grid_index.dfy | `GridIndex` | one grid's triangles, lines and coarse corners |
| grid_buffers.dfy | `GridBuffers` | filling a node's grids, the grid update |
| mesh_build.dfy | `MeshBuild` | regular-mesh node build |
| dyntopo.dfy | `Dyntopo` | dynamic-topology paths and their dispatcher |
| vcol_layers.dfy | `VcolLayers` | vertex-colour layer order |
| paint_tiles.dfy | `PaintTiles` | undo tiles and dirty region |
| paint_brush.dfy | `PaintBrush` | blur kernel, opacity masking |
| panel_parent.dfy | `PanelParent` | panel parent lookup and insertion |
| attributes.dfy | `Attributes` | identifiers, lookups, writers |
| uint3.dfy | `Uint3` | vector component access |

## Model

| member | source | states |
|---|---|---|
| NodeBuffers.Zeroed | source/blender/gpu/intern/gpu_buffers.c:2090 | a zero-initialised buffer object owns no device object, has every flag cleared and every count zero |
| NodeBuffers.BmeshBuffersBuild | source/blender/gpu/intern/gpu_buffers.c:2087-2096 | a new dynamic-topology buffer object owns nothing, uses BMesh, shows the overlay, keeps the requested shading and has no triangles |
| NodeBuffers.GridBuffersBuild | source/blender/gpu/intern/gpu_buffers.c:1012-1023 | a new grid buffer object owns nothing and is not BMesh, overlay, clear-marked or populated |
| NodeBuffers.VertBufDataSet | source/blender/gpu/intern/gpu_buffers.c:365-395 | afterwards a vertex buffer exists; it is of the requested length with live data exactly when the map succeeded or an equal live buffer was already there; an existing buffer keeps its identity and a new one gets the fresh identity; nothing else changes |
| NodeBuffers.BatchInit | source/blender/gpu/intern/gpu_buffers.c:404-434 | the full batches always exist afterwards; a fast batch exists iff it existed or its fast index buffer exists; existing batches are kept; new batches refer to the current vertex and index buffers, so a node whose batches all drew from its buffers still does; a node that already has every batch is returned unchanged |
| NodeBuffers.BatchGet | source/blender/gpu/intern/gpu_buffers.c:2098-2105 | wire requests get line batches and the rest triangle batches; the fast variant is returned iff asked for and present |
| NodeBuffers.BatchGetAfterInit | source/blender/gpu/intern/gpu_buffers.c:2098-2105 | after batch creation every draw request finds a batch; without a fast index buffer a fast triangle request falls back to the full batch |
| NodeBuffers.Clear | source/blender/gpu/intern/gpu_buffers.c:2117-2128 | clearing discards every batch, index buffer and the vertex buffer and keeps every setting |
| NodeBuffers.UpdateFlush | source/blender/gpu/intern/gpu_buffers.c:2130-2142 | a clear-marked object is emptied and unmarked and nothing is uploaded; otherwise the object is unchanged, and data is uploaded iff a live vertex buffer exists |
| NodeBuffers.UpdateFlushIdempotent | source/blender/gpu/intern/gpu_buffers.c:2130-2142 | flushing twice leaves the object as flushing once does |
| NodeBuffers.Free | source/blender/gpu/intern/gpu_buffers.c:2144-2150 | freeing a live object first discards everything it owns; freeing null does nothing |
| NodeBuffers.GridUpdateFree | source/blender/gpu/intern/gpu_buffers.c:811-829 | the stored smooth flag follows the first grid's flag; a change drops all four batches and all four index buffers and keeps the vertex buffer; with no change nothing happens |
| NodeBuffers.BmeshUpdateFree | source/blender/gpu/intern/gpu_buffers.c:1149-1162 | the line batch and its index buffer are always dropped; the triangle batch and full index buffer are dropped iff the node is smooth; the fast objects and the vertex buffer are kept |
| NodeBuffers.GridToggleThenInitRebuildsOverCurrentBuffers | source/blender/gpu/intern/gpu_buffers.c:811-829 | after a smoothing change, re-creating the batches binds them to no index buffer, so no batch refers to a discarded one |
| GridIndex.RowsVisible | source/blender/gpu/intern/gpu_buffers.c:699-730 | the grid-visible flag after the rows from `j` on is set iff it was already set or some subface in those rows is shown; once set, a grid has at least one subface row |
| GridIndex.SubfaceInBlock | source/blender/gpu/intern/gpu_buffers.c:704-717 | every corner of a subface, smooth or flat, indexes into the grid's own vertex block |
| GridIndex.RowsIn | source/blender/gpu/intern/gpu_buffers.c:699-730 | every element emitted for a grid's rows lies in that grid's vertex block |
| GridIndex.FastCornersAreSubfaceCorners | source/blender/gpu/intern/gpu_buffers.c:733-747 | the coarse grid uses exactly the four outer corners of the corner subfaces: first corner of the first subface, second of the last in the first row, third of the last subface, fourth of the first in the last row |
| GridIndex.GridInBlock | source/blender/gpu/intern/gpu_buffers.c:679-809 | every full and coarse element emitted for a grid lies in the grid's vertex block |
| GridIndex.GridTriangles | source/blender/gpu/intern/gpu_buffers.c:699-717 | a grid emits exactly two triangles per shown subface, which are that subface's two triangles, and every emitted triangle belongs to a shown subface |
| GridIndex.GridFast | source/blender/gpu/intern/gpu_buffers.c:733-747 | a grid emits coarse elements iff one of its subfaces is shown, and then they are the two triangles and four outline lines of its corner quad; otherwise none |
| GridIndex.GridLinesCapacity | source/blender/gpu/intern/gpu_buffers.c:692 | the lines emitted for a grid never exceed the capacity the builder reserved for it |
| GridBuffers.FillRefCounts | source/blender/gpu/intern/gpu_buffers.c:679-809 | filling over a node's grids emits two triangles per shown subface, and two coarse triangles and four coarse lines per grid with something shown |
| GridBuffers.FillRefLines | source/blender/gpu/intern/gpu_buffers.c:692 | the lines emitted over a node's grids fit in the reserved line capacity |
| GridBuffers.FillRefRange | source/blender/gpu/intern/gpu_buffers.c:679-809 | every element emitted over a node's grids indexes into the node's vertex range |
| GridBuffers.FillIndexBuffers | source/blender/gpu/intern/gpu_buffers.c:679-809 | filling yields the reference fill, with two triangles per shown subface, two coarse triangles and four coarse lines per grid with something shown, lines within the reserved capacity, and every element inside the node's vertex range |
| GridBuffers.GridBuffersUpdate | source/blender/gpu/intern/gpu_buffers.c:831-1008 | the node takes the first grid's smooth flag; a node without index buffers and with no shown subface is otherwise unchanged; existing index buffers are kept; new ones hold the filled full and coarse triangles and lines, two triangles per shown subface; the material comes from the first grid and the overlay flag is the given mask and face-set verdict when the vertex buffer was mapped and false when it was not; a successful map gives a vertex buffer covering every grid and every batch over it; the vertex buffer keeps its identity, or gets the fresh one when it was missing; the mode, the flush request and the counts are untouched and existing batches are kept; when every batch drew from the node's buffers before (and a node without a vertex or index buffer had none), every batch draws from them afterwards |
| GridBuffers.BuildAndUpload | source/blender/gpu/intern/gpu_buffers.c:869-1008 | past the early return, missing index buffers are built from the fill and existing ones kept; the vertex buffer is mapped, batched and keeps its identity; the material is recorded and the overlay flag is the verdict exactly when mapped; existing batches are kept and batches keep drawing from the node's buffers |
| GridBuffers.UploadAndBatch | source/blender/gpu/intern/gpu_buffers.c:881-1008 | after a successful map every batch exists over the vertex buffer; the index buffers, the existing batches and the bookkeeping are untouched; a node already mapped at this length, fully batched and carrying this material and overlay flag is returned unchanged |
| GridBuffers.NodeVertLenIsProduct | source/blender/gpu/intern/gpu_buffers.c:859 | the vertex count reached by adding one grid's vertex block per grid equals the grid count times the per-grid length |
| GridBuffers.GridUpdateIdempotentIndices | source/blender/gpu/intern/gpu_buffers.c:831-1008 | updating a grid node twice with the same grids leaves the same index-buffer contents |
| GridBuffers.GridUpdateIdempotent | source/blender/gpu/intern/gpu_buffers.c:831-1008 | once an update has mapped the vertex buffer, a second update with the same grids and overlay verdict returns the node unchanged, whatever that second map does and whatever fresh identity it is given |
| GridBuffers.FullyHiddenNodeBuildsNothing | source/blender/gpu/intern/gpu_buffers.c:861-868 | a new node whose grids are all hidden ends with no device objects and no batch to draw |
| GridBuffers.NoShownSubfaces | source/blender/gpu/intern/gpu_buffers.c:861-868 | a node whose grids all hide every subface has a visible-quad count of zero |
| MeshBuild.LinesRefShape | source/blender/gpu/intern/gpu_buffers.c:641-657 | the wireframe has one line per real edge of each visible triangle, and every line joins two consecutive corners of one emitted triangle |
| MeshBuild.MeshBuffersBuild | source/blender/gpu/intern/gpu_buffers.c:585-671 | smoothing comes from the first triangle's face; the triangle count is the number of visible triangles, and it is zero iff none is; an all-hidden node owns nothing; otherwise the line index buffer holds exactly the real edges of the visible triangles, in order, over triangle-local corners |
| MeshBuild.CountVisible | source/blender/gpu/intern/gpu_buffers.c:605-618 | the counting loop yields the number of visible triangles and the number of their real edges, and the triangle count is zero iff no triangle is visible |
| MeshBuild.BuildLines | source/blender/gpu/intern/gpu_buffers.c:632-658 | the filling loop emits exactly the reference line list: for each visible triangle in order, its real edges over that triangle's own three corners |
| Dyntopo.VisibleFaceCount | source/blender/gpu/intern/gpu_buffers.c:1134-1147 | the visible-face count never exceeds the face count and is zero iff no face is shown |
| Dyntopo.FaceWireShape | source/blender/gpu/intern/gpu_buffers.c:1540-1542 | the wireframe has three lines per drawn face, and line `i` is the outline edge `i mod 3` of drawn face `i / 3` |
| Dyntopo.FaceWireInBlocks | source/blender/gpu/intern/gpu_buffers.c:1540-1542 | every wireframe line lies within the vertices written for the drawn faces |
| Dyntopo.FaceWireEndValue | source/blender/gpu/intern/gpu_buffers.c:1540-1542 | after the drawn faces the vertex cursor has advanced by three vertices per drawn face |
| Dyntopo.TriWireShape | source/blender/gpu/intern/gpu_buffers.c:1737 | the indexed wireframe has three lines per triangle, namely that triangle's three edges |
| Dyntopo.TriBufInRange | source/blender/gpu/intern/gpu_buffers.c:1729-1737 | the triangles and lines of a well-formed triangle buffer index only its vertices |
| Dyntopo.EmptyUpdate | source/blender/gpu/intern/gpu_buffers.c:1422-1431 | with nothing to draw only the triangle count and the clear mark change; the count becomes zero and the node is marked iff it was marked or has no faces at all |
| Dyntopo.FlatVcolUpdate | source/blender/gpu/intern/gpu_buffers.c:1388-1566 | a node with no shown face is updated as empty; otherwise it gets a vertex buffer of 18 vertices per shown face and, when mapped, 6 triangles per shown face, the material, and a wireframe of 3 lines per face inside the vertex buffer; a failed map changes nothing but the vertex buffer |
| Dyntopo.IndexedUpdate | source/blender/gpu/intern/gpu_buffers.c:1570-1743 | a node with no triangles is updated as empty; otherwise, when mapped, the index buffer holds exactly the triangle buffer's triangles, keeps an existing buffer's identity, and the wireframe holds each triangle's three edges; a failed map changes nothing but the vertex buffer |
| Dyntopo.DefaultUpdate | source/blender/gpu/intern/gpu_buffers.c:1951-2069 | a node with no triangles is updated as empty; otherwise it gets three vertices per triangle and, when mapped, a wireframe of three lines per shown face; a failed map changes nothing but the vertex buffer |
| Dyntopo.DefaultLinesInVertexBuffer | source/blender/gpu/intern/gpu_buffers.c:1966-1998 | when the triangle buffer has one triangle per shown face, every wireframe line lies inside the vertex buffer |
| Dyntopo.ChoosePath | source/blender/gpu/intern/gpu_buffers.c:1752-1815 | the flat-colour path is taken iff flat colours are asked for and a colour layer exists; otherwise the indexed path iff the node is smooth and there is no UV layer; otherwise the default path |
| Dyntopo.BmeshBuffersUpdate | source/blender/gpu/intern/gpu_buffers.c:1752-1815 | shading and BMesh use are kept; the clear mark is set iff it was set or the chosen path has nothing to draw for a node without faces; with nothing to draw the node gets no triangles; otherwise the vertex buffer is live iff mapped or already live, and a live one comes with triangles, the material and both batches, while a failed map changes nothing else |
| Dyntopo.EmptyNodeClearedByFlush | source/blender/gpu/intern/gpu_buffers.c:1955-1962 | a dynamic-topology node without faces is emptied by the next flush and uploads nothing |
| Dyntopo.UpdateKeepsBatchesCurrent | source/blender/gpu/intern/gpu_buffers.c:1752-1815 | invalidating a node whose batches draw from its buffers and then running any of the three update paths leaves every batch drawing from the node's current buffers |
| Dyntopo.SmoothRebuildBatchesCurrent | source/blender/gpu/intern/gpu_buffers.c:1149-1162 | invalidating then rebuilding a smooth node yields an index buffer with the new triangles and batches bound to it and to the new wireframe, never to a stale buffer |
| VcolLayers.CollectContents | source/blender/gpu/intern/gpu_buffers.c:1182-1201 | the collected entries are exactly the non-temporary layers before the first unset layer index, and there are no more of them than layers |
| VcolLayers.Swap | source/blender/gpu/intern/gpu_buffers.c:1206-1215 | swapping exchanges the two positions, leaves every other entry and keeps the multiset of entries |
| VcolLayers.MakeVcolOffs | source/blender/gpu/intern/gpu_buffers.c:1164-1219 | with the active-only flag the result is the active layer, or nothing without layers; otherwise it is a permutation of the collected layers, equal to them when none is the render layer, with the first render entry swapped to the end |
| PaintTiles.TileOf | source/blender/editors/sculpt_paint/paint_image.cc:108-111 | the tile coordinate of a pixel is the floor of its position over the tile size, for negative positions too |
| PaintTiles.ClearPartialRedraw | source/blender/editors/sculpt_paint/paint_image.cc:96-99 | resetting the partial redraw empties only the dirty region; pushed tiles and the image mark stay |
| PaintTiles.DoMinmax | source/blender/editors/sculpt_paint/paint_image.cc:127-129 | the merged region is the smallest region containing both |
| PaintTiles.MinmaxFromCleared | source/blender/editors/sculpt_paint/paint_image.cc:96-99 | merging a rectangle into a reset region gives that rectangle |
| PaintTiles.MinmaxLaws | source/blender/editors/sculpt_paint/paint_image.cc:127-129 | merging dirty regions is commutative, and merging the same rectangle again changes nothing |
| PaintTiles.RegionTilesCover | source/blender/editors/sculpt_paint/paint_image.cc:101-112 | a non-empty region's tile span is non-empty, holds the tile of every pixel in the region, and every tile in it meets the region |
| PaintTiles.RowsProps | source/blender/editors/sculpt_paint/paint_image.cc:135-140 | the enumerated tiles are the span's tiles, each once, in row-major order |
| PaintTiles.PushTiles | source/blender/editors/sculpt_paint/paint_image.cc:135-140 | the pushed tiles are exactly the span's tiles, width times height of them, in row-major order |
| PaintTiles.PushRow | source/blender/editors/sculpt_paint/paint_image.cc:136-138 | the inner loop appends one row's tiles, left to right, to what was pushed before |
| PaintTiles.DirtyRegion | source/blender/editors/sculpt_paint/paint_image.cc:114-145 | an empty rectangle changes nothing; otherwise the dirty region is the merge with the rectangle and contains it, the earlier pushes are kept and followed by the touched tiles, each once in row-major order, exactly those of the tile span, including the tile of every pixel; the image is marked dirty |
| PaintBrush.GaussRowsCells | source/blender/editors/sculpt_paint/paint_image.cc:229-245 | the Gaussian weight array fills the square, and each cell holds the weight of its offset from the centre |
| PaintBrush.NewBlurKernel | source/blender/editors/sculpt_paint/paint_image.cc:192-257 | the side is 2 for projection painting and otherwise twice the radius plus one, with a non-positive radius replaced by 1; the recorded pixel length is one half for projection painting and the (reset) brush radius otherwise; the weights fill the square; box weights are all one, Gaussian weights depend on the offset; an unknown kernel type gives no kernel |
| PaintBrush.GaussianSymmetric | source/blender/editors/sculpt_paint/paint_image.cc:229-245 | a Gaussian kernel's weights are symmetric under both mirrorings and the transpose |
| PaintBrush.BlurKernelStable | source/blender/editors/sculpt_paint/paint_image.cc:192-257 | rebuilding a kernel from the radius written back to the brush gives the same kernel and radius |
| PaintBrush.UseOpacityMasking | source/blender/editors/sculpt_paint/paint_image.cc:348-361 | masking is off for airbrush, dot drag, anchored, gradient, smear, soften and fill brushes, and for a texture not mapped tiled, stencil or 3D; draw, clone and mask brushes without such settings use it |
| PaintBrush.OpacityMaskingMonotone | source/blender/editors/sculpt_paint/paint_image.cc:348-361 | turning the airbrush on disables masking; removing the texture never disables it; the mapping mode does not matter without a texture |
| PanelParent.CaseEqIsFoldedEq | source/blender/editors/io/io_ops.c:51 | the case-insensitive match is an equivalence, and it holds iff the case-folded names are equal |
| PanelParent.FindParent | source/blender/editors/io/io_ops.c:50-55 | the parent found is the first panel whose name matches the parent id case-insensitively, and there is one iff some panel matches |
| PanelParent.InsertPos | source/blender/editors/io/io_ops.c:59-66 | the insertion point follows the last child with order at most the new one, and every later child has a greater order |
| PanelParent.InsertAdds | source/blender/editors/io/io_ops.c:66 | insertion adds exactly the new child: removing it gives back the old list, and the multiset grows by that child |
| PanelParent.InsertKeepsOrder | source/blender/editors/io/io_ops.c:59-66 | inserting into children sorted by order keeps them sorted, and the new child comes after every child of equal order |
| PanelParent.SetParent | source/blender/editors/io/io_ops.c:41-71 | the parent is the first case-insensitive match; it succeeds iff there is one, and then only that parent's children change, by inserting the panel after the last child of order at most its own; otherwise nothing changes |
| PanelParent.FindParentScan | source/blender/editors/io/io_ops.c:50-55 | the scan stops at the first registered panel whose id matches case-insensitively, and finds none iff no panel matches |
| PanelParent.InsertPosScan | source/blender/editors/io/io_ops.c:59-66 | the backward scan from the last child stops after the last child whose order is at most the new panel's, which is the insertion point |
| Attributes.IDFromAnonymousPtr | source/blender/blenkernel/BKE_attribute.hh:831-835 | a null anonymous pointer gives the empty name; a non-null one borrows its name and keeps the id |
| Attributes.IDConstructors | source/blender/blenkernel/BKE_attribute.hh:814-850 | a null anonymous pointer gives the default identifier, which is falsy and not anonymous; a named identifier is truthy iff its name is non-empty; named and anonymous identifiers are equal iff their names are |
| Attributes.IDEqLaws | source/blender/blenkernel/BKE_attribute.hh:54 | identifier equality is an equivalence, and equal identifiers hash equally |
| Attributes.Lookup | source/blender/blenkernel/BKE_attribute.hh:520-530 | a typed lookup finds an attribute iff one of that name is stored with that type on that domain, and then reads its values |
| Attributes.LookupOrDefault | source/blender/blenkernel/BKE_attribute.hh:548-557 | the found attribute when there is one, otherwise the default value repeated over the domain's size |
| Attributes.ForAll | source/blender/blenkernel/BKE_attribute.hh:592-598 | a null owner yields true without callbacks; otherwise, with the visit order listing every stored attribute, the result is true iff the callback accepts every stored attribute, and the visit stops at the first false |
| Attributes.LookupForWrite | source/blender/blenkernel/BKE_attribute.hh:632-642 | the writer is non-empty iff the attribute exists with the requested type, and then gives its values, domain and change callback |
| Attributes.LookupForWriteSpan | source/blender/blenkernel/BKE_attribute.hh:647-655 | a span writer is non-empty exactly when the typed writer is, and its span starts out as the stored values |
| Attributes.WriterFinish | source/blender/blenkernel/BKE_attribute.hh:238-243 | finishing a writer saves nothing and notifies iff a callback is attached |
| Attributes.SpanWriterFinish | source/blender/blenkernel/BKE_attribute.hh:284-292 | finishing a span writer saves the span iff there is an array, notifies iff there is a callback, and saves before notifying |
| Attributes.ApplyFinish | source/blender/blenkernel/BKE_attribute.hh:284-292 | a finished span replaces only the edited attribute's values, and no array means no change |
| Attributes.SpanRoundTrip | source/blender/blenkernel/BKE_attribute.hh:647-655 | finishing an unedited span writer leaves the store as it was |
| Attributes.SpanWriteThenLookup | source/blender/blenkernel/BKE_attribute.hh:284-292 | values written through a span writer are what a later typed lookup reads |
| Uint3.ComponentLaws | intern/cycles/util/types_uint3_impl.h:14-49 | vectors with equal components are equal; writing back a read component changes nothing; packing keeps every component and commutes with writing a component and with construction |

## Left out

- The GPU device layer. Vertex formats, attribute ids, uploads and draw calls are
  outside the model. A buffer records only its length, its data state, its
  contents as index elements, and an identity.
- Floating-point data. The model does not follow positions, normals, mask values,
  face-set colours or vertex colours into the vertex buffer. The overlay flag
  of the dynamic-topology and multires grid updates is computed from mask and
  face-set data, so it is a parameter.
- The regular-mesh update (`GPU_pbvh_mesh_buffers_update`) is not part of this
  model. It fills the vertex buffer and chooses the material index and the
  overlay flag. Only the regular-mesh build is modelled.
- The Gaussian weight `exp(-4 d²/r²)` is kept symbolic as the squared offsets of
  each cell. The model proves where each weight comes from and the symmetry,
  not the floating-point values.
- `DYNTOPO_DYNAMIC_TESS` is not defined, so its branch is not modelled.
  `QUANTIZED_PERF_TEST` is not defined either; only the non-quantised code is
  modelled.
- BMesh traversal, tessellation and the hidden-subface test of multires grids
  are external. A node's faces, its triangle buffer and each grid's hidden
  flags are inputs, and the visible-quad count is the model's own count of
  shown subfaces.
- The image rectangle clip is external. Dirty regions and undo tiles start from
  the already clipped rectangle.
- Pushing an undo tile is recorded as the list of pushed tile coordinates. The
  tile map, image copies and the temporary buffer are left out.
- The space-type and region-type registry lookups of the panel code are left
  out. The panel list of the tool-properties region is an input.
- `strcasecmp` is modelled as ASCII case folding.
- Unsigned 32-bit wrap-around of buffer offsets is not modelled. Counts and offsets are
  unbounded integers.
- `VcolLayers.MakeVcolOffs`: the fixed `MAX_MCOL` capacity of the result array is
  not modelled, so no bound on the number of layers is stated.
- `PaintBrush.NewBlurKernel`: the pixel length is kept in half pixels, as
  assigned. The kernel record's declaration is not part of this model, so any
  truncation of the projection value one half when it is stored is not modelled.
- `Attributes.Lookup`: it does not interpolate between domains or convert data
  types. It finds only attributes stored with the exact domain and type, which
  is fewer than the real accessor finds. It also requires a non-null owner.
- `Attributes.LookupOrDefault`: it inherits the lookup's restriction to exact
  domain and type.
- `Attributes.ForAll`: the visit order is a parameter, because iteration is left
  to the storage's own callback table. The order is required to list exactly the
  stored attributes. The model assumes a storage that stops at
  the first false callback.
- `Attributes.IDEqLaws`: the hash is taken over an arbitrary string hash
  function, not Blender's.
- `Uint3.ComponentLaws`: an out-of-range component index is a precondition
  violation, modelling the debug assertion, and not a memory access.
- The other files of the repository are not part of this model: the asset,
  gizmo, transform, EEVEE, node, compositor, animation, modifier and Freestyle
  sources, and the render test script.

## Notes on the code

- The indexed dynamic-topology path refills an existing index buffer in place
  whenever there is one. It does not compare sizes. The model keeps the
  existing buffer's identity.
- An empty dynamic-topology node only ever sets the clear mark and never resets
  it. The model's mark after an empty update is the old mark or "no faces".
- In the grid fill, the grid-visible flag is set by the first shown subface and
  never reset for later rows. From then on, every row ends with one closing line
  over the right edge of the last shown subface so far. A later row with no shown
  subface therefore repeats the previous row's closing line. The model emits the
  same lines, and the capacity lemma shows they still fit.
