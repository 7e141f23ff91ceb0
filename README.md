# Render queues, debug text, LOD groups and the frame counter — a Dafny model

This project models four pieces of the Cocos engine. It proves what each of
them promises.

- **Native render queues** (`NativeRenderQueue.cpp`).
  - A draw queue records draw instances with a packed 32-bit sort key.
  - It sorts them with one of two comparators and replays them, five commands per instance.
  - An instancing queue collects instanced buffers in a set and copies the set into a replay sequence.
  - It uploads the buffers that have pending models.
  - When it replays them, it binds a pipeline state only when the state differs from the last one bound in that buffer.
  - `NativeRenderQueue::sort` sorts all four queues of a phase.
  - A small interpreter of the recorded commands (`Gfx.Run`, `Gfx.Draws`) gives the traces their meaning. Each draw is issued with exactly the state that belongs to it.
- **Debug text renderer** (`DebugRenderer.cpp`).
  - Glyph quads go into per-(bold, italic, texture) batches.
  - The batches are uploaded into one vertex buffer, clamped to its capacity.
  - They are drawn as consecutive vertex ranges, then cleared.
- **LOD group component** (`lodgroup-component.ts`).
  - A LOD level's renderers and the render scene's model list stay index-aligned under JavaScript `splice`.
  - So do a group's levels and the scene's level list, except after `setLOD`.
  - The visible level is the first whose threshold the relative height reaches.
  - The renderers offered for new levels are collected by a walk over the node tree.
- **Performance counter** (`perf-counter.ts`).
  - It is a time-mark/value/frame-count state machine.
  - It measures intervals and turns a window of frames into frames per 1000 time units.

Files:

- **Shared groundwork:**
  - `wrappers.dfy`: Option.
  - `bits.dfy`: uint32 arithmetic on naturals.
  - `scene.dfy`: the scene objects the queues read.
  - `gfx.dfy`: commands, the command buffer, the pipeline-state key and the interpreter.
- **Native render queues:** `draw_queue.dfy`, `instancing_queue.dfy`, `render_queue.dfy`.
- **Debug text renderer:** `debug_renderer.dfy`.
- **LOD group component:**
  - `js_array.dfy`: `splice` and element reads, following ECMAScript section 23.1.3.31.
  - `lod_group.dfy`.
- **Performance counter:** `perf_counter.dfy`.

The source files cited below are:

- `native/cocos/renderer/pipeline/custom/NativeRenderQueue.cpp`
- `native/cocos/profiler/DebugRenderer.cpp`
- `cocos/core/components/lodgroup-component.ts`
- `cocos/profiler/perf-counter.ts`

Two behaviours of the code are worth stating outright:

- **Zero-count buffers.** A buffer with pending models whose items all have count 0 still binds its material set (NativeRenderQueue.cpp:83-93); see `InstancingQueue.ZeroCountBatch`.
- **Upload order.** `uploadBuffers` walks the set `batches`, not the replay sequence `sortedBatches` (NativeRenderQueue.cpp:70-76).

## Model

| member | source | states |
|---|---|---|
| DrawQueue.ShaderId | native/cocos/renderer/pipeline/custom/NativeRenderQueue.cpp:19 | The shader id is below 2^32, equals the pointer value when that fits, and otherwise differs from it by a multiple of 2^32 (the uint32 cast). |
| DrawQueue.SortHash | native/cocos/renderer/pipeline/custom/NativeRenderQueue.cpp:17-20 | From uint32 operands, the or-ed shifts form a uint32 key: the result is below 2^32. |
| DrawQueue.SortHashPacked | native/cocos/renderer/pipeline/custom/NativeRenderQueue.cpp:17-20 | With pass priority < 2^16, model priority < 2^8 and pass index < 2^8, the or-ed shifts are their weighted sum (fields occupy disjoint bits). |
| DrawQueue.SortHashFields | native/cocos/renderer/pipeline/custom/NativeRenderQueue.cpp:17-20 | Within those ranges each of the three fields reads back from the key. |
| DrawQueue.SortHashOrder | native/cocos/renderer/pipeline/custom/NativeRenderQueue.cpp:17-20 | Within those ranges, key order is lexicographic order on (pass priority, model priority, pass index). |
| DrawQueue.RenderDrawQueue.Add | native/cocos/renderer/pipeline/custom/NativeRenderQueue.cpp:13-24 | Exactly one instance is appended, and the queue before it is unchanged. The new instance holds the sub-model, the model priority, the depth, the pass index, the 32-bit shader id and the packed key of the uint32-cast priorities. |
| DrawQueue.LexTransitive | native/cocos/renderer/pipeline/custom/NativeRenderQueue.cpp:27-29 | Tuple `operator<` is transitive. |
| DrawQueue.LexTotal | native/cocos/renderer/pipeline/custom/NativeRenderQueue.cpp:27-29 | On tuples of equal length, `operator<` is total: one tuple is less than the other, or they are equal. |
| DrawQueue.LexIrreflexive | native/cocos/renderer/pipeline/custom/NativeRenderQueue.cpp:27-29 | No tuple is less than itself, so the comparator is a strict weak order, as std::sort needs. |
| DrawQueue.LexLess3 | native/cocos/renderer/pipeline/custom/NativeRenderQueue.cpp:27-29 | `operator<` on 3-tuples is the spelled-out lexicographic comparison. |
| DrawQueue.LexLess4 | native/cocos/renderer/pipeline/custom/NativeRenderQueue.cpp:34-36 | `operator<` on 4-tuples is the spelled-out lexicographic comparison. |
| DrawQueue.InsertionSort | native/cocos/renderer/pipeline/custom/NativeRenderQueue.cpp:26-38 | The reference sort: its result is sorted under the comparator and is a permutation of the input. |
| DrawQueue.RenderDrawQueue.SortOpaqueOrCutout | native/cocos/renderer/pipeline/custom/NativeRenderQueue.cpp:26-31 | The queue becomes a permutation of itself, sorted by (hash, depth, shaderID). |
| DrawQueue.RenderDrawQueue.SortTransparent | native/cocos/renderer/pipeline/custom/NativeRenderQueue.cpp:33-38 | The queue becomes a permutation of itself, sorted by (priority, hash, -depth, shaderID). |
| DrawQueue.SortedAll | native/cocos/renderer/pipeline/custom/NativeRenderQueue.cpp:26-38 | In a sorted queue, no instance is less than any instance before it (not only its neighbour). |
| DrawQueue.OpaqueOrder | native/cocos/renderer/pipeline/custom/NativeRenderQueue.cpp:26-31 | After the opaque sort, hashes ascend. Within equal hashes, depths ascend (front to back). Within equal depths, shader ids ascend. |
| DrawQueue.TransparentOrder | native/cocos/renderer/pipeline/custom/NativeRenderQueue.cpp:33-36 | After the transparent sort, priorities ascend. Within equal priorities, hashes ascend. Then depths descend (back to front). Then shader ids ascend. |
| DrawQueue.SortedKeysDetermined | native/cocos/renderer/pipeline/custom/NativeRenderQueue.cpp:26-38 | Any two sorted permutations of the same instances have the same sequence of comparator tuples, so an unstable sort only reorders instances with equal tuples. |
| DrawQueue.SortedTuplesUnique | native/cocos/renderer/pipeline/custom/NativeRenderQueue.cpp:26-38 | Two sorted sequences of equal-length tuples with the same multiset are equal. |
| DrawQueue.SortedUnique | native/cocos/renderer/pipeline/custom/NativeRenderQueue.cpp:26-38 | When no two instances share a tuple, the sorted order is unique. |
| DrawQueue.OpaqueSortExample | native/cocos/renderer/pipeline/custom/NativeRenderQueue.cpp:26-31 | Three instances with (hash, depth) (10, 5), (10, 2) and (5, 9) always sort to (5, 9), (10, 2), (10, 5). |
| DrawQueue.TransparentSortExample | native/cocos/renderer/pipeline/custom/NativeRenderQueue.cpp:33-38 | For equal priority and key, the instance at depth 7 is drawn before the one at depth 3. |
| DrawQueue.InstanceCommands | native/cocos/renderer/pipeline/custom/NativeRenderQueue.cpp:44-58 | One instance records five commands, the last being the draw of its input assembler. |
| DrawQueue.InstanceDraws | native/cocos/renderer/pipeline/custom/NativeRenderQueue.cpp:44-58 | Replaying one instance's commands issues exactly one draw. At that draw its PSO, material set, local set and input assembler are bound. The global set is untouched. |
| DrawQueue.DrawTraceLength | native/cocos/renderer/pipeline/custom/NativeRenderQueue.cpp:40-59 | The replay records exactly five commands per instance. |
| DrawQueue.DrawTraceMeaning | native/cocos/renderer/pipeline/custom/NativeRenderQueue.cpp:40-59 | Replaying the queue issues one draw per instance, in queue order, each with that instance's own bound state. |
| DrawQueue.DrawTracePsoBinds | native/cocos/renderer/pipeline/custom/NativeRenderQueue.cpp:44-53 | The queue binds one pipeline state per instance, in order: the cached PSO for (pass, shader, input assembler, render pass, subpass). |
| DrawQueue.RenderDrawQueue.RecordCommandBuffer | native/cocos/renderer/pipeline/custom/NativeRenderQueue.cpp:40-59 | The command buffer gains exactly the queue's trace, and the queue is unchanged. |
| InstancingQueue.EnumerateSet | native/cocos/renderer/pipeline/custom/NativeRenderQueue.cpp:67 | Walking a set visits every element exactly once. |
| InstancingQueue.RenderInstancingQueue.Add | native/cocos/renderer/pipeline/custom/NativeRenderQueue.cpp:61-63 | The set gains the buffer. Adding a buffer already present changes nothing, and the replay sequence is untouched. |
| InstancingQueue.RenderInstancingQueue.Sort | native/cocos/renderer/pipeline/custom/NativeRenderQueue.cpp:65-68 | The set is unchanged. The replay sequence keeps its old contents and gains one enumeration of the set; it is not cleared first. |
| InstancingQueue.DedupExample | native/cocos/renderer/pipeline/custom/NativeRenderQueue.cpp:61-68 | Adding one buffer twice and another once, then sorting, lists each of the two buffers once. |
| InstancingQueue.RenderInstancingQueue.UploadBuffers | native/cocos/renderer/pipeline/custom/NativeRenderQueue.cpp:70-76 | The command buffer gains one upload per buffer with pending models, in the order the set is walked. |
| InstancingQueue.UploadTraceExact | native/cocos/renderer/pipeline/custom/NativeRenderQueue.cpp:70-76 | The upload trace holds only uploads. A buffer is uploaded iff it is in the set and has pending models, and none is uploaded twice. |
| InstancingQueue.RenderInstancingQueue.RecordCommandBuffer | native/cocos/renderer/pipeline/custom/NativeRenderQueue.cpp:78-112 | The command buffer gains exactly the queue trace of the replay sequence. |
| InstancingQueue.RecordBatch | native/cocos/renderer/pipeline/custom/NativeRenderQueue.cpp:83-110 | A buffer with pending models records its material set, then its items' commands. |
| InstancingQueue.RecordItems | native/cocos/renderer/pipeline/custom/NativeRenderQueue.cpp:89-110 | The item loop, with `lastPSO` starting empty, records the items' trace. |
| InstancingQueue.RecordItem | native/cocos/renderer/pipeline/custom/NativeRenderQueue.cpp:94-109 | A non-zero item records its commands and returns its own PSO as the new `lastPSO`. |
| InstancingQueue.ItemDraws | native/cocos/renderer/pipeline/custom/NativeRenderQueue.cpp:94-109 | One non-zero item issues one draw, with its own PSO, global set, local set and offsets, and input assembler bound. |
| InstancingQueue.ItemsMeaning | native/cocos/renderer/pipeline/custom/NativeRenderQueue.cpp:89-110 | A buffer's items issue one draw per non-zero item, in order, each in its own state. The material set stays bound, and the last PSO bound is the last non-zero item's. |
| InstancingQueue.QueueMeaning | native/cocos/renderer/pipeline/custom/NativeRenderQueue.cpp:78-112 | The replay issues one draw per non-zero item of each buffer with pending models, in order, each with that item's state and its buffer's material set. |
| InstancingQueue.Collapse | native/cocos/renderer/pipeline/custom/NativeRenderQueue.cpp:96-99 | Collapsing runs of equal neighbours is no longer than its input, empty iff the input is, and ends with the input's last element. |
| InstancingQueue.CollapseNoRepeats | native/cocos/renderer/pipeline/custom/NativeRenderQueue.cpp:96-99 | No two neighbours of a collapsed sequence are equal. |
| InstancingQueue.CollapseSameValues | native/cocos/renderer/pipeline/custom/NativeRenderQueue.cpp:96-99 | Collapsing keeps exactly the values that occur. |
| InstancingQueue.ItemsPsoBinds | native/cocos/renderer/pipeline/custom/NativeRenderQueue.cpp:89-99 | The PSO binds of a buffer are exactly the collapsed PSOs of its non-zero items: a PSO is bound only when it differs from the one before. |
| InstancingQueue.BatchPsoBinds | native/cocos/renderer/pipeline/custom/NativeRenderQueue.cpp:83-99 | Each buffer with pending models starts with `lastPSO` empty, so its first non-zero item always binds. |
| InstancingQueue.LastPsoIsLastActive | native/cocos/renderer/pipeline/custom/NativeRenderQueue.cpp:96-99 | `lastPSO` after the items is the last collapsed PSO. |
| InstancingQueue.ActiveEmpty | native/cocos/renderer/pipeline/custom/NativeRenderQueue.cpp:91-93 | No item is drawn iff every item has count 0. |
| InstancingQueue.ZeroItemsTrace | native/cocos/renderer/pipeline/custom/NativeRenderQueue.cpp:91-93 | Zero-count items record nothing. |
| InstancingQueue.ZeroCountBatch | native/cocos/renderer/pipeline/custom/NativeRenderQueue.cpp:83-93 | A buffer with pending models but only zero-count items records its material bind and nothing else. |
| RenderQueue.NativeRenderQueue.Sort | native/cocos/renderer/pipeline/custom/NativeRenderQueue.cpp:114-119 | Both draw queues are sorted permutations under their own comparators. Both instancing queues gain one enumeration of their sets. |
| DebugText.FontIndex | native/cocos/profiler/DebugRenderer.cpp:51-63 | Or-ing bit 0 for bold and bit 1 for italic into 0 gives the sum of the two flags: 0 regular, 1 bold, 2 italic, 3 bold italic. |
| DebugText.FontIndexBits | native/cocos/profiler/DebugRenderer.cpp:51-63 | The font index is one of the four slots. Bit 0 is set iff bold, and bit 1 iff italic. |
| DebugText.FontIndexInjective | native/cocos/profiler/DebugRenderer.cpp:51-63 | The four styles get four different slots. |
| DebugText.QuadVertices | native/cocos/profiler/DebugRenderer.cpp:366-380 | A quad is six vertices. |
| DebugText.QuadWinding | native/cocos/profiler/DebugRenderer.cpp:372-380 | The two triangles share the edge between corners 1 and 2. Both have twice-signed-area width × height: the same winding, covering the rectangle. |
| DebugText.QuadCorners | native/cocos/profiler/DebugRenderer.cpp:366-380 | The six vertices touch exactly the four corners of the rectangle. |
| DebugText.QuadTexturing | native/cocos/profiler/DebugRenderer.cpp:366-370 | Every vertex has the quad's colour. Its texture coordinates sit at the same relative place in the uv rectangle as its position in the screen rectangle. |
| DebugText.DebugRenderer.AddQuad | native/cocos/profiler/DebugRenderer.cpp:365-381 | The batch gains exactly the quad's six vertices, and no other state changes. |
| DebugText.RowShape | native/cocos/profiler/DebugRenderer.cpp:334-337 | Shadow row x holds n quads: quad (x, y) is the glyph quad shifted by (x, y), at offset 6(y-1). |
| DebugText.ShadowLength | native/cocos/profiler/DebugRenderer.cpp:332-339 | A shadow of thickness t holds t·t quads of six vertices. |
| DebugText.ShadowLoopAsWritten | native/cocos/profiler/DebugRenderer.cpp:332-333 | With the uint32 counter of the code, a thickness below 2^32 − 1 ends the loop after exactly that many rows, while 2^32 − 1 keeps the guard true after every number of rows. |
| DebugText.ShadowRowsAsWritten | native/cocos/profiler/DebugRenderer.cpp:333 | The outer loop as written, with its uint32 counter, run for at most `fuel` rows: it never runs more rows than the fuel allows. |
| DebugText.ShadowRowsAsWrittenEnd | native/cocos/profiler/DebugRenderer.cpp:333 | Below 2^32 − 1, the loop from counter x stops by itself after rows x to thickness, whatever fuel covers them. |
| DebugText.ShadowRowsAsWrittenForever | native/cocos/profiler/DebugRenderer.cpp:333 | At thickness 2^32 − 1 the loop uses up any fuel it is given, so it never stops by itself. |
| DebugText.DebugRenderer.ShadowQuads | native/cocos/profiler/DebugRenderer.cpp:332-339 | The shadow loops append exactly the shadow rows, row by row. Their counter is unbounded, so they end for every thickness. |
| DebugText.DebugRenderer.ShadowRowQuads | native/cocos/profiler/DebugRenderer.cpp:334-337 | The inner loop appends exactly row x: quads (x, 1) to (x, thickness). |
| DebugText.DebugBatch.constructor | native/cocos/profiler/DebugRenderer.cpp:90-102 | A new batch has no vertices and keeps the style, texture and descriptor set it is created with. |
| DebugText.DebugBatch.Match | native/cocos/profiler/DebugRenderer.cpp:109-111 | `match` holds iff style and texture are equal. |
| DebugText.FirstMatch | native/cocos/profiler/DebugRenderer.cpp:162-173 | The search finds the first batch matching the key, by comparing keys. It finds none iff no batch matches. |
| DebugText.FirstKey | native/cocos/profiler/DebugRenderer.cpp:163-167 | On a list of keys: the index of the first key equal to the given one, or none iff no key is equal. |
| DebugText.FirstMatchIs | native/cocos/profiler/DebugRenderer.cpp:163-167 | The first match is at i iff batch i matches and none before it does. |
| DebugText.UniqueKeysDistinct | native/cocos/profiler/DebugRenderer.cpp:162-173 | With unique keys, the batches are distinct objects. |
| DebugText.DebugVertexBuffer.constructor | native/cocos/profiler/DebugRenderer.cpp:123-135 | A buffer after `init` keeps its capacity and input assembler, has no batches and an empty upload, and is valid. |
| DebugText.DebugVertexBuffer.FindBatch | native/cocos/profiler/DebugRenderer.cpp:163-167 | The search loop returns the index of the first batch matching the key, or none when no batch matches. |
| DebugText.DebugVertexBuffer.AddBatch | native/cocos/profiler/DebugRenderer.cpp:169-172 | For a key no batch has, exactly one fresh empty batch with that key and the given descriptor set is appended and returned. Keys stay unique, the vertex total is unchanged, and the batch values gain exactly that empty batch at the end. |
| DebugText.DebugVertexBuffer.GetOrCreateBatch | native/cocos/profiler/DebugRenderer.cpp:162-173 | Either the list is unchanged and the first match is returned, or one fresh empty batch for the key, with the set created for the texture, is appended and returned. The returned index is the batch's place in the list. Keys stay unique, and the vertex total is unchanged. |
| DebugText.DebugVertexBuffer.Empty | native/cocos/profiler/DebugRenderer.cpp:175-183 | The result is true iff no batch holds a vertex, and nothing changes. |
| DebugText.AllEmptyConcat | native/cocos/profiler/DebugRenderer.cpp:175-183 | All batches are empty iff their concatenation is empty. |
| DebugText.DebugVertexBuffer.Reset | native/cocos/profiler/DebugRenderer.cpp:184-188 | Every batch is cleared. The list and every key are unchanged. |
| DebugText.UploadClamp | native/cocos/profiler/DebugRenderer.cpp:142-149 | The upload is a prefix of all vertices in batch order, no longer than the capacity. When the count fits in 32 bits, its length is min(count, capacity). |
| DebugText.DebugVertexBuffer.Update | native/cocos/profiler/DebugRenderer.cpp:137-150 | With every batch empty nothing is uploaded. Otherwise the upload is the concatenation cut to min(uint32 count, capacity). |
| DebugText.Ranges | native/cocos/profiler/DebugRenderer.cpp:258-273 | There are at most as many ranges as batches. |
| DebugText.RangesStep | native/cocos/profiler/DebugRenderer.cpp:259-273 | One loop step either stops on a zero count, or draws min(size, capacity − offset) and advances the offset. |
| DebugText.RangeAt | native/cocos/profiler/DebugRenderer.cpp:258-273 | Range k belongs to batch k and starts at or below the capacity. It draws a positive count without passing the capacity, and the next range starts where it ends. |
| DebugText.RangesStop | native/cocos/profiler/DebugRenderer.cpp:260-263 | When the walk ends early, the next batch would get zero vertices. |
| DebugText.EmptyBatchStopsRanges | native/cocos/profiler/DebugRenderer.cpp:260-263 | An empty batch stops the walk even when later batches hold vertices. |
| DebugText.RangesStartAtPrefixSums | native/cocos/profiler/DebugRenderer.cpp:258-273 | When sizes fit in 32 bits, range k starts at the sum of the sizes before batch k. |
| DebugText.RangesMatchUpload | native/cocos/profiler/DebugRenderer.cpp:137-150 | Each range draws, from the uploaded vertices, the first vertices of its own batch: the draws and the upload agree. |
| DebugText.DebugRenderer.DrawRanges | native/cocos/profiler/DebugRenderer.cpp:258-273 | The loop records exactly one material bind and one ranged draw per range. |
| DebugText.DebugRenderer.Render | native/cocos/profiler/DebugRenderer.cpp:242-277 | With no buffer, or every batch empty, nothing is recorded or changed. Otherwise the upload is made, then the debug PSO (subpass 0) and input assembler are bound. Each range then records its commands, and every batch ends empty. |
| DebugText.DebugRenderer.DrawBuffer | native/cocos/profiler/DebugRenderer.cpp:244-276 | The same, once the buffer exists. |
| DebugText.DebugRenderer.DrawNonEmpty | native/cocos/profiler/DebugRenderer.cpp:248-276 | With some batch non-empty, the upload covers every batch. The PSO and input assembler are bound, then one material bind and one ranged draw follow per range, and every batch ends empty. |
| DebugText.DebugRenderer.Activate | native/cocos/profiler/DebugRenderer.cpp:219-240 | The buffer's capacity is the uint32 product maxCharacters × 6, it starts with no batches, and the four font slots are installed. |
| DebugText.LineBreaksAddNothing | native/cocos/profiler/DebugRenderer.cpp:311-319 | A text made of only '\r' and '\n' adds no vertex. |
| DebugText.TextVertexCountAppend | native/cocos/profiler/DebugRenderer.cpp:308-351 | The vertex count of concatenated texts is the sum of their counts. |
| DebugText.DebugRenderer.AddCodePoint | native/cocos/profiler/DebugRenderer.cpp:309-344 | Earlier batches stay in place. The batches and the pen become CodePointStep of the old ones. '\r' leaves the pen in place, '\n' moves it to the left edge one line down, and a code point with a glyph moves it right by advance × scale on the same line. |
| DebugText.DebugRenderer.AddGlyph | native/cocos/profiler/DebugRenderer.cpp:326-342 | Earlier batches stay in place as a prefix of the list. The batch values become AddGlyphTo of the old ones: the first batch with the key (bold, italic, texture), or a new one, gains the glyph's vertices, and no other batch changes. |
| DebugText.DebugRenderer.AddGlyphInto | native/cocos/profiler/DebugRenderer.cpp:326-341 | After the find-or-create step has left batch k for the key, adding the glyph's shadow and quad vertices to batch k gives exactly the batch values AddGlyphTo describes. |
| DebugText.DebugRenderer.AddGlyphQuads | native/cocos/profiler/DebugRenderer.cpp:332-341 | Batch k gains the shadow vertices (with the shadow style), then the glyph's quad; every other batch keeps its values. |
| DebugText.DebugVertexBuffer.ViewAgrees | native/cocos/profiler/DebugRenderer.cpp:162-188 | The batch values carry the keys and the vertices of the batches. |
| DebugText.GlyphVertices | native/cocos/profiler/DebugRenderer.cpp:332-341 | A glyph adds six vertices per quad: its own quad plus thickness² shadow quads with the shadow style. |
| DebugText.AddGlyphToTarget | native/cocos/profiler/DebugRenderer.cpp:326-341 | After one glyph the first batch with its key is the one that existed before it, or else a new last batch with the created set. That batch ends with the glyph's vertices after the ones it had, and every other batch is unchanged. |
| DebugText.AddGlyphToSplit | native/cocos/profiler/DebugRenderer.cpp:326-341 | Adding a glyph is the find-or-create step followed by appending the glyph's vertices to the found batch. |
| DebugText.AddGlyphToGrows | native/cocos/profiler/DebugRenderer.cpp:326-341 | Adding a glyph keeps every earlier batch in place with its vertices as a prefix, and grows the total by the glyph's vertex count. |
| DebugText.CodePointGrows | native/cocos/profiler/DebugRenderer.cpp:309-344 | One code point keeps every earlier batch in place with its vertices as a prefix, and grows the total by its GlyphVertexCount. |
| DebugText.LayOutStep | native/cocos/profiler/DebugRenderer.cpp:308-351 | Laying out one more code point is one more CodePointStep. |
| DebugText.LayOutGrows | native/cocos/profiler/DebugRenderer.cpp:308-351 | Laying out a text keeps every earlier batch in place with its vertices as a prefix, and grows the total by TextVertexCount. |
| DebugText.LayOutAppend | native/cocos/profiler/DebugRenderer.cpp:308-351 | Laying out a + b is laying out a, then b from the batches and pen a left. |
| DebugText.LayOutPen | native/cocos/profiler/DebugRenderer.cpp:302-344 | The pen of a layout moves as PenAfter says, independently of the batches. |
| DebugText.PenLines | native/cocos/profiler/DebugRenderer.cpp:316-319 | Each '\n' moves the pen down one line height; nothing else moves it vertically. |
| DebugText.PenAdvance | native/cocos/profiler/DebugRenderer.cpp:322-344 | On a text without '\n' the pen stays on its line and moves right by the sum of the scaled advances of the code points that have glyphs. |
| DebugText.DebugRenderer.AddText | native/cocos/profiler/DebugRenderer.cpp:287-352 | Without a buffer or a face nothing changes. Otherwise earlier batches stay in place, the batch values become LayOut of the old ones from screenPos, and the buffer gains exactly TextVertexCount vertices. Keys stay unique. |
| DebugText.DebugRenderer.LayOutText | native/cocos/profiler/DebugRenderer.cpp:302-351 | Earlier batches stay in place, and the batch values become LayOut of the old ones from screenPos, with the left edge at screenPos.x. |
| JsArray.RelativeStart | cocos/core/components/lodgroup-component.ts:69-70 | Splice starts at the index clamped into [0, len], counting back from the end when the index is negative. |
| JsArray.Splice | cocos/core/components/lodgroup-component.ts:69-70 | The array left by a splice is as long as the old array, less the removed elements, plus the inserted ones. |
| JsArray.At | cocos/core/components/lodgroup-component.ts:87-89 | `s[index]` has a value iff index is a position of the array, and then it is the element there. |
| JsArray.SpliceMap | cocos/core/components/lodgroup-component.ts:68-85 | A splice commutes with deriving a parallel array, so two arrays edited by the same splice stay parallel. |
| JsArray.InsertAt | cocos/core/components/lodgroup-component.ts:68-72 | For 0 ≤ index ≤ length, the element lands at index. Earlier elements stay put, and later ones shift up by one. |
| JsArray.RemoveAt | cocos/core/components/lodgroup-component.ts:80-85 | For a position of the array, exactly that element is removed, and later ones shift down. |
| JsArray.InsertRemoveRoundTrip | cocos/core/components/lodgroup-component.ts:68-85 | For 0 ≤ index ≤ length, deleting at the index where an element was just inserted restores the array. |
| JsArray.InsertMinusOne | cocos/core/components/lodgroup-component.ts:61-72 | Index −1 on a non-empty array inserts before the last element, so the result differs from appending. |
| JsArray.DeleteMinusOne | cocos/core/components/lodgroup-component.ts:74-85 | Index −1 deletes the last element, but reading index −1 yields undefined. |
| JsArray.InsertIntended | cocos/core/components/lodgroup-component.ts:61-64 | The documented insert: −1 appends at the tail, and any other index splices. |
| JsArray.InsertIntendedAppends | cocos/core/components/lodgroup-component.ts:61-64 | Under the documented insert, −1 puts the element last and keeps the rest in order. |
| JsArray.DeletedElement | cocos/core/components/lodgroup-component.ts:74-79 | The element a one-element splice removes: present iff the splice removes one. |
| JsArray.DeletedElementMinusOne | cocos/core/components/lodgroup-component.ts:74-79 | The intended result of deleting at −1 is the last element, which is exactly the one removed. |
| JsArray.DeletedElementAt | cocos/core/components/lodgroup-component.ts:80-85 | At a position of the array, the intended result agrees with the element read there. |
| LodGroup.LOD.constructor | cocos/core/components/lodgroup-component.ts:38-49 | A new level has no renderers and height 1, copied into its fresh scene block. |
| LodGroup.LOD.SetScreenRelativeTransitionHeight | cocos/core/components/lodgroup-component.ts:56-59 | Both copies of the height become the new value, and the renderers are unchanged. |
| LodGroup.LOD.InsertRenderer | cocos/core/components/lodgroup-component.ts:68-72 | The renderers and the scene models get the same splice. Pairing is kept, and the renderer is returned. |
| LodGroup.LOD.DeleteRenderer | cocos/core/components/lodgroup-component.ts:80-85 | It returns the element read at index (undefined off the array). Both lists get the same one-element splice, and pairing is kept. |
| LodGroup.LOD.GetRenderer | cocos/core/components/lodgroup-component.ts:87-89 | It returns the renderer at a position, and undefined for any other index. |
| LodGroup.LOD.SetRenderer | cocos/core/components/lodgroup-component.ts:91-94 | Only that position changes, in both lists. The count, the height and the pairing are kept. |
| LodGroup.LOD.RendererCount | cocos/core/components/lodgroup-component.ts:96 | It is the number of renderers. |
| LodGroup.RendererCountPaired | cocos/core/components/lodgroup-component.ts:91-96 | Under the pairing, the count equals the scene model count, and model i is renderer i's model. |
| LodGroup.LODGroup.constructor | cocos/core/components/lodgroup-component.ts:120-127 | A new group has no levels and size 1, copied into its fresh scene group. |
| LodGroup.LODGroup.InsertLOD | cocos/core/components/lodgroup-component.ts:145-149 | The levels and the scene levels get the same splice, pairing is kept, and the level is returned. |
| LodGroup.LODGroup.DeleteLOD | cocos/core/components/lodgroup-component.ts:151-156 | It returns the element read at index. Both lists get the same one-element splice, and pairing is kept. |
| LodGroup.LODGroup.GetLOD | cocos/core/components/lodgroup-component.ts:158-160 | It returns the level at a position, and undefined for any other index. |
| LodGroup.LODGroup.SetLOD | cocos/core/components/lodgroup-component.ts:162-164 | Only the component's list changes, and the scene group keeps its old block. Pairing survives iff the new level shares the old one's scene block. |
| LodGroup.SetLODBreaksPairing | cocos/core/components/lodgroup-component.ts:162-164 | Replacing a level by one with another scene block breaks the pairing. |
| LodGroup.LODGroup.LodCount | cocos/core/components/lodgroup-component.ts:136 | It is the number of levels. |
| LodGroup.VisibleIndex | cocos/core/components/lodgroup-component.ts:267-279 | The result lies in [−1, count). It is −1 iff the height reaches no threshold. Otherwise it is the first level whose threshold the height reaches. |
| LodGroup.GetVisibleLOD | cocos/core/components/lodgroup-component.ts:267-279 | The search loop returns the first-match index over the levels' heights, with a missing relative height read as 0. |
| LodGroup.Collected | cocos/core/components/lodgroup-component.ts:379-388 | The reference collection in pre-order: when the first child has a renderer, that renderer is collected first. |
| LodGroup.CollectedLast | cocos/core/components/lodgroup-component.ts:380-387 | Collecting from a child list means collecting from all but its last child, then from that child. |
| LodGroup.CollectedIsExposed | cocos/core/components/lodgroup-component.ts:378-394 | Every collected renderer sits at the end of a path through renderer-less nodes. |
| LodGroup.ExposedIsCollected | cocos/core/components/lodgroup-component.ts:378-394 | Every renderer at the end of such a path is collected. |
| LodGroup.CollectSubRenderers | cocos/core/components/lodgroup-component.ts:379-388 | The accumulator gains exactly what the node's children collect, in pre-order. |
| LodGroup.GetAvailableRenderers | cocos/core/components/lodgroup-component.ts:378-394 | It returns the collected renderers. A renderer is among them iff a path through renderer-less nodes reaches it. |
| LodGroup.CreatedOrderRotates | cocos/core/components/lodgroup-component.ts:228-240 | Inserting each new level with −1 leaves the first level created last, with the others in creation order. |
| LodGroup.IntendedOrderKeeps | cocos/core/components/lodgroup-component.ts:228-240 | With the documented "−1 appends", the levels stay in creation order. |
| LodGroup.CreatedHeights | cocos/core/components/lodgroup-component.ts:228-232 | The thresholds 1 − k/(n+1) given to created levels strictly decrease. |
| LodGroup.FirstCreatedLevelNeverVisible | cocos/core/components/lodgroup-component.ts:228-240 | With two or more created levels in the as-written order, the first created level is never the visible one. |
| LodGroup.EveryIntendedLevelVisible | cocos/core/components/lodgroup-component.ts:228-240 | In the intended order, every level is visible at its own threshold. |
| Perf.Window | cocos/profiler/perf-counter.ts:62 | The period is the configured average, or 1000 when it is missing or zero. It is positive iff the average is missing or not negative, which is what Frames and WindowCloses need. |
| Perf.StartEndMeasures | cocos/profiler/perf-counter.ts:36-51 | `start(t0)` then `end(t1)` records t1 − t0, and keeps the mark at t0 and the count. |
| Perf.TickTwice | cocos/profiler/perf-counter.ts:53-56 | `tick` records minus the old mark and moves the mark to 0, so a second tick records 0. |
| Perf.WindowStaysOpen | cocos/profiler/perf-counter.ts:58-64 | Frames within the window only add to the count: the mark and the value stay. |
| Perf.FramesAppend | cocos/profiler/perf-counter.ts:58-70 | Framing over ts + [t] is framing over ts, then once at t. |
| Perf.WindowCloses | cocos/profiler/perf-counter.ts:58-70 | The first frame past the window sets the value to (frames since the mark) × 1000 / elapsed, which is positive. The count restarts and the mark moves to that frame. |
| Perf.PerfCounter.constructor | cocos/profiler/perf-counter.ts:32-35 | The mark is `now`, nothing has been averaged, and the period option is kept. |
| Perf.PerfCounter.Start | cocos/profiler/perf-counter.ts:36-41 | Only the mark changes, to `now`. |
| Perf.PerfCounter.End | cocos/profiler/perf-counter.ts:43-51 | The value becomes now − mark and is passed to averaging; the mark is unchanged. |
| Perf.PerfCounter.Tick | cocos/profiler/perf-counter.ts:53-56 | The value becomes −old mark, which is passed to averaging, and the mark becomes 0. |
| Perf.PerfCounter.Frame | cocos/profiler/perf-counter.ts:58-70 | The state follows the frame transition. Averaging gets the new value exactly when the window closes. |

## Left out

- **Pipeline-state cache:** `PipelineStateManager` is the parameter `cache`, a deterministic function of its key. It returns a nat and so is never null. The source starts each buffer with `lastPSO == nullptr` and binds only when `lastPSO != pso`, so a null state from `getOrCreatePipelineState` would skip the bind (NativeRenderQueue.cpp:89-99); the model does not cover that case. The instancing replay looks it up with subpass 0, the default argument of `getOrCreatePipelineState`. `PipelineStateManager.h` is not part of this model.
- **Command recording and GPU objects:**
  - GFX command recording is a trace of commands.
  - Device, camera, descriptor-set and buffer objects are opaque numbers.
  - `InstancedBuffer::uploadBuffers` is a single upload command.
  - A buffer's `hasPendingModels`, items and offsets are fixed for the frame.
- **Shader identity:** the pointer-derived `shaderID` is the 32-bit truncation of an opaque shader handle.
- **Depth:** `depth` is an integer. Float NaN, −0 and rounding are not modelled.
- DrawQueue.RenderDrawQueue.SortOpaqueOrCutout: promises what std::sort does: sorted and a permutation. It says nothing about the order of instances with equal tuples, because std::sort is not stable.
- DrawQueue.RenderDrawQueue.SortTransparent: the same as SortOpaqueOrCutout.
- **Set iteration order:** the order of `std::set` of pointers is address-based. The model admits any enumeration of the set. `Sort` and `UploadBuffers` each enumerate the set afresh, so the model does not tie together the two walks, which in the source follow the same order.
- DebugText.ShadowRowsAsWritten: the as-written loop is bounded by a `fuel` count of rows, because a loop that never ends is not a total function. Non-termination is stated as "uses up any fuel".
- **Concurrency:** concurrent `add` calls are not modelled.
- **Debug renderer platform and assets:** FreeType font loading, builtin asset lookup and `getFontPath` are not modelled. Nor are the singleton, `destroy`, `getLineHeight`, the window-size font-size clamp in `activate`, and the creation of descriptor sets, buffers and input assemblers. A new batch's descriptor set comes from the parameter `createSet`.
- **Debug renderer arithmetic:** positions, texture coordinates, scales and colours are reals, so float rounding is not modelled. Kerning (`USE_KERNING`) is left out.
- **Debug text decoding:** UTF-8 decoding is left out. `AddText` takes the decoded code points, so the early return on invalid UTF-8 is not modelled.
- DebugText.DebugVertexBuffer.Update: does not model the uint32 byte size `count * sizeof(DebugVertex)`, which can wrap for huge capacities. The upload is recorded as the vertex sequence handed to the buffer.
- **Component and editor code:**
  - LOD component lifecycle hooks, scene attach and detach, and editor-only model add and remove are left out.
  - `recalculateBounds`, `resetObjectSize`, and the camera maths (`getRelativeHeight` and the distance/height conversions) are left out.
  - The relative height is an input of `GetVisibleLOD`.
  - The `localReferencePoint` and `size` setters are left out.
- LodGroup.LOD.SetRenderer: restricted to `0 <= index < rendererCount`. A JavaScript write past the end creates holes, and a negative index writes a non-element property.
- LodGroup.LODGroup.SetLOD: restricted to `0 <= index < lodCount`, for the same reason.
- **JavaScript index values:** non-integer indices are not modelled.
- LodGroup.LOD.InsertRenderer: a renderer's model is fixed when it is created. In the engine, `renderer.model` can change later, which the paired lists would not follow. The LOD methods assume nothing outside the LOD edits its scene block.
- LodGroup.LOD.DeleteRenderer: the same assumption as for InsertRenderer.
- LodGroup.CollectSubRenderers: the shared accumulator array is threaded through the recursion as a value. It is local to `getAvailableRenderers`, so nothing else can see it.
- **Node tree:** the scene graph is a finite tree value, with at most one mesh renderer per node (what `getComponent` returns).
- **Float thresholds:** the thresholds `_createLODGroup` computes are exact reals. Only the order in which it inserts levels is modelled.
- **Base `Counter` class:** it is not part of this model.
  - Perf.PerfCounter.constructor: assumes the base constructor starts with value 0 and frame count 0.
  - `_average` is recorded in the ghost history `averaged`.
- **Counter timing:** the commented-out `window.performance` calls are not modelled. Time stamps are reals.
- Perf.PerfCounter.Frame: requires that a closing window has non-zero elapsed time. That can only fail with a negative configured period, where JavaScript would compute Infinity.

## Findings

| source | as written | input that shows it | evidently intended | confidence | as-written member | corrected member |
|---|---|---|---|---|---|---|
| cocos/core/components/lodgroup-component.ts:61-72 | `insertRenderer(-1, r)` and `insertLOD(-1, l)` call `splice(-1, 0, x)`, which inserts before the last element. `_createLODGroup` inserts every new level this way. | `insertRenderer(-1, b)` on `[a]` gives `[b, a]`. With renderers r1, r2, r3, the levels end up ordered l2, l3, l1, so l1 (highest threshold) is never visible. | As documented: −1 appends at the tail, so levels keep creation order and each can become visible. | not executed; high for the splice semantics, medium for the impact | JsArray.InsertMinusOne, LodGroup.CreatedOrderRotates, LodGroup.FirstCreatedLevelNeverVisible | JsArray.InsertIntended, JsArray.InsertIntendedAppends, LodGroup.IntendedOrderKeeps, LodGroup.EveryIntendedLevelVisible |
| cocos/core/components/lodgroup-component.ts:74-85 | `deleteRenderer(-1)` (and `deleteLOD(-1)`) reads `this._renderers[-1]`, which is undefined, then deletes the last element with `splice(-1, 1)`. | On `[a, b]`, `deleteRenderer(-1)` leaves `[a]` and returns undefined, not `b`. | As documented: "−1: the last element will be deleted" and "returns the renderer deleted", so the result should be `b`. | not executed; high | JsArray.DeleteMinusOne, LodGroup.LOD.DeleteRenderer | JsArray.DeletedElement, JsArray.DeletedElementMinusOne |
| native/cocos/profiler/DebugRenderer.cpp:332-339 | The shadow loops `for (auto x = 1U; x <= info.shadowThickness; x++)` and the same for `y` use a uint32 counter and the guard `<=`. | With `shadowThickness == UINT32_MAX` the counter wraps from 2^32 − 1 to 0, so the guard never fails and `addText` never returns. | The loops draw thickness × thickness shadow quads for every thickness and then end. | not executed; high | DebugText.ShadowLoopAsWritten, DebugText.ShadowRowsAsWrittenForever | DebugText.DebugRenderer.ShadowQuads, DebugText.ShadowLength |
