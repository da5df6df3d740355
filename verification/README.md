# cocos2d-x-lite renderer core in Dafny

This project models the single-threaded bookkeeping that sits between the
cocos2d-x-lite scene and the GPU, and proves properties of that model. Every
module is a value model made of datatypes and pure functions. GPU objects are
opaque handles. Geometry tests and `FormatSize` are function parameters. The
process-wide registries (`InstancedBuffer::_buffers`, `BatchedBuffer::_buffers`,
`PipelineStateManager::_PSOHashMap`) are maps threaded through the calls. The
pooled command records of the GL backends live in an explicit heap of
reference-counted records.

| file | module | models |
|---|---|---|
| `common.dfy` | `Common` | 32-bit unsigned wrap-around, `Option`, next power of two, `vector::resize` |
| `gfx_types.dfy` | `GfxTypes` | handles and object ids shared by the modules |
| `cached_array.dfy` | `CachedArray` | `CachedArray<T>`: a growable array with exact capacity arithmetic |
| `command_package.dfy` | `CommandPackage` | a command package: the tag list, the per-type record arrays, the record heap |
| `command_buffer.dfy` | `DeferredCommandBuffer` | the deferred GLES2 and GLES3 command buffers, one model with a backend parameter |
| `primary_command_buffer.dfy` | `PrimaryCommandBuffer` | the immediate (primary) GLES2 and GLES3 command buffers, whose GL calls become a call log |
| `staging_buffer_pool.dfy` | `StagingBufferPool` | the staging-buffer bump allocator |
| `gpu_uniform.dfy` | `GpuUniform` | uniform copy and assignment |
| `gpu_state_cache.dfy` | `GpuStateCache` | the GL state cache |
| `registry.dfy` | `Registry` | the two-level (pass, extra key) singleton registry of the aggregators |
| `instanced_buffer.dfy` | `InstancedBuffer` | instance buckets: matching, growth, new buckets, upload, clear |
| `batched_buffer.dfy` | `BatchedBuffer` | vertex-merged batches: compatibility, stream growth, batch ids, clear |
| `pso_manager.dfy` | `PipelineStateManager` | the pipeline-state memo keyed by an exclusive or of four hashes |
| `render_queue.dfy` | `RenderQueue` | filtered insertion, the packed sort key, sorting, recording |
| `light_queue.dfy` | `AdditiveLightQueue` | the forward-add light queue: stride, UBO slots, culling, dispatch, recording |
| `scene_culling.dfy` | `SceneCulling` | scene culling, light collection, shadow-caster collection, the sphere-light shadow update |
| `gles3_texture.dfy` | `GLES3Texture` | texture initialize, resize and destroy, with the device's memory accounting |
| `vk_context.dfy` | `VKContext` | the selection rules of Vulkan context initialization |

Constants that come from headers outside this model are fixed to the engine's
values:
- `BATCHING_COUNT` is 10 and `MAT_WORLDS_OFFSET` is 0.
- `UBOForwardLight` is 64 bytes, with position, colour, size/range/angle and direction at float offsets 0, 4, 8 and 12.
- `MATERIAL_SET` is 1 and `LOCAL_SET` is 2.
- The staging chunk size is 16 MiB.
- The Vulkan formats and flags are the enumerants of the Vulkan specification.

`Define.h`, `BatchedBuffer.h`, `GLES2Commands.h` and the GL command functions
are not part of this model.

## Model

| member | source | states |
|---|---|---|
| CachedArray.New | cocos/base/CachedArray.h:9-13 | a new array is empty, has capacity max(n, 1), and so satisfies size <= capacity with capacity >= 1 |
| CachedArray.MovedFrom | cocos/base/CachedArray.h:36-54 | a moved-from array is empty with capacity 0, so it fails the precondition of Push |
| CachedArray.Push | cocos/base/CachedArray.h:79-88 | the item lands at the old size and earlier items are kept; capacity doubles exactly when the array was full and is unchanged otherwise |
| CachedArray.Pop | cocos/base/CachedArray.h:67 | returns the former last element; size drops by one; capacity and the other elements are unchanged |
| CachedArray.Reserve | cocos/base/CachedArray.h:69-77 | capacity becomes max(capacity, n); the elements are untouched |
| CachedArray.ConcatRaw | cocos/base/CachedArray.h:103-114 | appends the incoming elements in order; when they do not fit, capacity becomes max(2·capacity, size + count), otherwise it is unchanged |
| CachedArray.Concat | cocos/base/CachedArray.h:90-101 | concatenating an array appends its elements in order, keeps the capacity when they fit, and otherwise grows it to max(2·capacity, size + count), as the raw overload does |
| CachedArray.FastRemove | cocos/base/CachedArray.h:116-121 | an index at or past the size is a no-op; otherwise size drops by one, slot i takes the former last element, and every other slot keeps its value |
| CachedArray.FastRemoveMultiset | cocos/base/CachedArray.h:116-121 | removal loses exactly the removed element: the remaining multiset plus that element is the original multiset |
| CachedArray.Clear | cocos/base/CachedArray.h:65 | the array is empty and keeps its capacity |
| CachedArray.IndexOf | cocos/base/CachedArray.h:123-130 | the result is the smallest index holding the item, or UINT_MAX when the item is absent |
| CachedArray.PushAllSpec | cocos/base/CachedArray.h:79-88 | repeated pushes append the items in order, and the capacity is the starting capacity doubled until it holds them all |
| CommandPackage.Alloc | cocos/renderer/gfx-gles2/GLES2CommandBuffer.cpp:247-249 | a pooled record gets a handle that was never used, with reference count 0; all other records are unchanged |
| CommandPackage.BumpAll | cocos/renderer/gfx-gles2/GLES2CommandBuffer.cpp:320-344 | each record's reference count rises by the number of times its handle occurs in the list |
| CommandPackage.BumpAllAppend | cocos/renderer/gfx-gles2/GLES2CommandBuffer.cpp:320-344 | bumping the references of one list of handles and then another is bumping those of the two lists joined |
| CommandPackage.EmptyPackage | cocos/renderer/gfx-gles2/GLES2CommandBuffer.cpp:46-58 | a fresh package has no tags and no records |
| CommandPackage.ClearPackage | cocos/renderer/gfx-gles2/GLES2CommandBuffer.cpp:82-85 | clearing empties the tag list and every record array and keeps the tag array's capacity |
| CommandPackage.RecordArray | cocos/renderer/gfx-gles2/GLES2CommandBuffer.cpp:108-123 | each record-carrying tag type has its own record array, which holds exactly that type's records |
| CommandPackage.WithRecordArray | cocos/renderer/gfx-gles2/GLES2CommandBuffer.cpp:108-123 | replacing one type's record array changes no other type's records and not the tag list |
| CommandPackage.PushCmd | cocos/renderer/gfx-gles2/GLES2CommandBuffer.cpp:108-123 | a tag is pushed together with exactly one record on its own array, and the package stays consistent (each tag type occurs as often as it has records) |
| CommandPackage.PushEnd | cocos/renderer/gfx-gles2/GLES2CommandBuffer.cpp:125-128 | END_RENDER_PASS pushes a tag and no record |
| CommandPackage.Splice | cocos/renderer/gfx-gles2/GLES2CommandBuffer.cpp:320-345 | splicing appends the second package's tags and, type by type, its records after the first package's |
| CommandPackage.ReplayOf | cocos/renderer/gfx-gles2/GLES2CommandBuffer.cpp:315-354 | replaying a tag list yields one step per tag |
| CommandPackage.ReplayAppend | cocos/renderer/gfx-gles2/GLES2CommandBuffer.cpp:345 | replaying concatenated tag lists over concatenated record arrays is the concatenation of the two replays |
| CommandPackage.ReplayPrefixStable | cocos/renderer/gfx-gles2/GLES2CommandBuffer.cpp:108-123 | records appended after those a tag list uses do not change its replay |
| CommandPackage.PushCmdReplay | cocos/renderer/gfx-gles2/GLES2CommandBuffer.cpp:108-123 | after a push, the package replays as before followed by the new tag bound to the new record |
| CommandPackage.PushEndReplay | cocos/renderer/gfx-gles2/GLES2CommandBuffer.cpp:125-128 | after END_RENDER_PASS, the package replays as before followed by a step without a record |
| CommandPackage.SpliceReplay | cocos/renderer/gfx-gles2/GLES2CommandBuffer.cpp:320-345 | a spliced package replays as the first package's commands followed by the second's, each tag still bound to its own record |
| DeferredCommandBuffer.CountDraw | cocos/renderer/gfx-gles2/GLES2CommandBuffer.cpp:252-253 | a draw adds one draw call, its instance count and its triangles, each counter wrapping at 2^32 |
| DeferredCommandBuffer.AddStats | cocos/renderer/gfx-gles2/GLES2CommandBuffer.cpp:347-349 | execute adds a secondary's three counters to the primary's, wrapping at 2^32 |
| DeferredCommandBuffer.New | cocos/renderer/gfx-gles2/GLES2CommandBuffer.h:68-85 | a new buffer is outside a render pass, not dirty, has line width 1.0, one empty descriptor-set and offset slot per set, empty package queues and zero counters |
| DeferredCommandBuffer.Begin | cocos/renderer/gfx-gles2/GLES2CommandBuffer.cpp:82-91 | begin empties the current package and resets the pipeline, input assembler, descriptor sets and counters, but keeps the dirty flag, render-pass flag, fixed-function caches, dynamic offsets and package queues |
| DeferredCommandBuffer.FlattenFromSpec | cocos/renderer/gfx-gles2/GLES2CommandBuffer.cpp:363-372 | for every set from i on, the first min(range, supplied) offsets land at that set's start in the flat array; every other slot keeps its value |
| DeferredCommandBuffer.FlattenSpec | cocos/renderer/gfx-gles2/GLES2CommandBuffer.cpp:363-372 | the flat dynamic-offset array delivers each set's clamped offsets at the set's start and keeps every slot no set writes |
| DeferredCommandBuffer.Record | cocos/renderer/gfx-gles2/GLES2CommandBuffer.cpp:108-123 | recording a command appends its tag, allocates its record under a fresh handle and replays as before plus that step; nothing else in the buffer changes |
| DeferredCommandBuffer.BindStates | cocos/renderer/gfx-gles2/GLES2CommandBuffer.cpp:356-389 | BindStates appends exactly one BIND_STATES tag whose record snapshots the bound state and the flattened offsets, and clears the dirty flag |
| DeferredCommandBuffer.Flush | cocos/renderer/gfx-gles2/GLES2CommandBuffer.cpp:94-96 | clean state is left alone; dirty state is bound once, after which it is clean |
| DeferredCommandBuffer.Rotate | cocos/renderer/gfx-gles2/GLES2CommandBuffer.cpp:97-105 | the current package joins the back of the pending queue, and the next one comes from the front of the free queue, or is a new empty one |
| DeferredCommandBuffer.End | cocos/renderer/gfx-gles2/GLES2CommandBuffer.cpp:93-106 | end flushes dirty state into the current package, leaves the render pass, enqueues that package as the newest pending one, and takes the next from the free queue |
| DeferredCommandBuffer.BeginRenderPass | cocos/renderer/gfx-gles2/GLES2CommandBuffer.cpp:108-123 | the buffer enters the pass and records one BEGIN_RENDER_PASS with the clear colours of the pass's colour attachments |
| DeferredCommandBuffer.EndRenderPass | cocos/renderer/gfx-gles2/GLES2CommandBuffer.cpp:125-128 | the buffer leaves the pass and records a tag without a record |
| DeferredCommandBuffer.BindPipelineState | cocos/renderer/gfx-gles2/GLES2CommandBuffer.cpp:130-136 | the state becomes dirty iff it was dirty or the pipeline changes; nothing else changes |
| DeferredCommandBuffer.BindDescriptorSet | cocos/renderer/gfx-gles2/GLES2CommandBuffer.cpp:138-150 | the set is cached in its slot, offsets are cached only when some are supplied, and the state becomes dirty iff it was dirty, the set changes or offsets are supplied |
| DeferredCommandBuffer.BindInputAssembler | cocos/renderer/gfx-gles2/GLES2CommandBuffer.cpp:152-155 | binding an input assembler always dirties the state |
| DeferredCommandBuffer.SetViewport | cocos/renderer/gfx-gles2/GLES2CommandBuffer.cpp:157-168 | the viewport is cached and dirties the state only when some field differs |
| DeferredCommandBuffer.SetScissor | cocos/renderer/gfx-gles2/GLES2CommandBuffer.cpp:170-178 | the scissor is cached and dirties the state only when it differs |
| DeferredCommandBuffer.SetLineWidth | cocos/renderer/gfx-gles2/GLES2CommandBuffer.cpp:180-185 | the width dirties the state only when it differs by more than the float tolerance, so 1.0 on a new buffer leaves it clean |
| DeferredCommandBuffer.SetDepthBias | cocos/renderer/gfx-gles2/GLES2CommandBuffer.cpp:187-196 | the depth bias dirties the state only when one of its three floats differs |
| DeferredCommandBuffer.SetBlendConstants | cocos/renderer/gfx-gles2/GLES2CommandBuffer.cpp:198-209 | the blend constants dirty the state only when a channel differs |
| DeferredCommandBuffer.SetDepthBound | cocos/renderer/gfx-gles2/GLES2CommandBuffer.cpp:211-218 | the depth bounds dirty the state only when a bound differs |
| DeferredCommandBuffer.SetStencilWriteMask | cocos/renderer/gfx-gles2/GLES2CommandBuffer.cpp:220-227 | the face and mask dirty the state only when one differs |
| DeferredCommandBuffer.SetStencilCompareMask | cocos/renderer/gfx-gles2/GLES2CommandBuffer.cpp:229-238 | the face, reference and mask dirty the state only when one differs |
| DeferredCommandBuffer.TrianglesOf | cocos/renderer/gfx-gles2/GLES2CommandBuffer.cpp:254-271 | a list adds (counted elements / 3)·max(instances, 1) and a strip or fan (counted elements − 2)·max(instances, 1), both modulo 2^32; the counted elements are the vertex count on deferred GLES2 (for a list only without an index buffer) and the index count otherwise; no pipeline or another topology adds none |
| DeferredCommandBuffer.AppendDraw | cocos/renderer/gfx-gles2/GLES2CommandBuffer.cpp:247-271 | a draw appends one DRAW tag and record and counts one draw call, its instances and its triangles |
| DeferredCommandBuffer.FlushAndDraw | cocos/renderer/gfx-gles2/GLES2CommandBuffer.cpp:243-271 | a draw on dirty state records BIND_STATES immediately before DRAW, binds the current state, and leaves the state clean |
| DeferredCommandBuffer.RecordDraw | cocos/renderer/gfx-gles2/GLES2CommandBuffer.cpp:243-271 | an accepted draw adds BIND_STATES then DRAW when dirty and only DRAW when clean, and always leaves the state clean |
| DeferredCommandBuffer.Draw | cocos/renderer/gfx-gles2/GLES2CommandBuffer.cpp:240-276 | a draw is accepted iff the buffer is secondary or a primary inside a render pass; a rejected draw changes nothing |
| DeferredCommandBuffer.UpdateBuffer | cocos/renderer/gfx-gles2/GLES2CommandBuffer.cpp:278-294 | accepted iff secondary or a primary outside a render pass; a rejected call, or a buffer without GPU storage, records nothing |
| DeferredCommandBuffer.CopyBuffersToTexture | cocos/renderer/gfx-gles2/GLES2CommandBuffer.cpp:296-313 | accepted iff secondary or a primary outside a render pass; a rejected call, or a texture without GPU storage, records nothing |
| DeferredCommandBuffer.SpliceFront | cocos/renderer/gfx-gles2/GLES2CommandBuffer.cpp:320-349 | a secondary's oldest pending package is replayed after the primary's commands, each of its records gains one reference per use, and its counters are added |
| DeferredCommandBuffer.Recycle | cocos/renderer/gfx-gles2/GLES2CommandBuffer.cpp:351-352 | the oldest pending package leaves the front of the pending queue and joins the back of the free queue |
| DeferredCommandBuffer.SumStatsAppend | cocos/renderer/gfx-gles2/GLES2CommandBuffer.cpp:347-349 | summing counters over two lists of secondaries is summing over the first, then the second |
| DeferredCommandBuffer.SpliceAll | cocos/renderer/gfx-gles2/GLES2CommandBuffer.cpp:318-350 | the primary replays its own commands followed by each secondary's front package in argument order, and its counters are the sum; no record is created, and the pool is the old one with the front packages' records bumped in argument order |
| DeferredCommandBuffer.SpliceAllBumps | cocos/renderer/gfx-gles2/GLES2CommandBuffer.cpp:318-347 | splicing the secondaries adds one reference to every pooled record per occurrence in their front packages |
| DeferredCommandBuffer.RecycleAll | cocos/renderer/gfx-gles2/GLES2CommandBuffer.cpp:351-352 | every secondary has its front pending package recycled |
| DeferredCommandBuffer.Execute | cocos/renderer/gfx-gles2/GLES2CommandBuffer.cpp:315-354 | execute replays every secondary's front package after the primary's commands, sums their counters, adds one reference to every pooled record per occurrence in those packages, creates no record, and shortens each secondary's pending queue by one |
| DeferredCommandBuffer.TwoDrawsOneBind | cocos/renderer/gfx-gles2/GLES2CommandBuffer.cpp:243-250 | two accepted draws on dirty state with no change between them record one BIND_STATES and two DRAWs |
| DeferredCommandBuffer.RenderPassGates | cocos/renderer/gfx-gles2/GLES2CommandBuffer.cpp:241-242 | inside a render pass a primary accepts draws and refuses transfers; after the pass it refuses draws and accepts transfers |
| DeferredCommandBuffer.TriangleRulesAgreeWithIndexBuffer | cocos/renderer/gfx-gles3/GLES3CommandBuffer.cpp:263-266 | with an index buffer, a triangle list counts the same triangles on GLES2 and GLES3 |
| DeferredCommandBuffer.TriangleListCount | cocos/renderer/gfx-gles2/GLES2CommandBuffer.cpp:256-262 | without overflow, a triangle list counts indexCount / 3 · max(instances, 1) triangles with an index buffer or under GLES3, and vertexCount / 3 · max(instances, 1) without one under deferred GLES2 |
| DeferredCommandBuffer.StripFanCount | cocos/renderer/gfx-gles2/GLES2CommandBuffer.cpp:264-268 | a strip or fan of c >= 2 counted elements adds (c − 2)·max(instances, 1) without overflow; with c < 2 the count lands (2 − c)·max(instances, 1) below 2^32 |
| DeferredCommandBuffer.StripUnderflowWraps | cocos/renderer/gfx-gles3/GLES3CommandBuffer.cpp:268-271 | under the index-count rule a single-instance strip whose index count is below 2 wraps: index count 1 counts 2^32 - 1 triangles and index count 0 counts 2^32 - 2 |
| PrimaryCommandBuffer.BeginRenderPass | cocos/renderer/gfx-gles2/GLES2PrimaryCommandBuffer.cpp:46-53 | the buffer enters the pass and the GL pass begins at once with the attachments' clear colours |
| PrimaryCommandBuffer.EndRenderPass | cocos/renderer/gfx-gles2/GLES2PrimaryCommandBuffer.cpp:55-58 | the buffer leaves the pass and the GL pass ends at once |
| PrimaryCommandBuffer.FlushImmediately | cocos/renderer/gfx-gles2/GLES2PrimaryCommandBuffer.cpp:64-77 | a dirty draw rewrites only the bound layout's offset array, logs one bind of the whole bound state with those offsets, changes nothing else, and leaves the state clean |
| PrimaryCommandBuffer.IssueDraw | cocos/renderer/gfx-gles2/GLES2PrimaryCommandBuffer.cpp:78-98 | the draw runs at once and the counters grow, with triangles counted from the index count |
| PrimaryCommandBuffer.Draw | cocos/renderer/gfx-gles2/GLES2PrimaryCommandBuffer.cpp:60-103 | a rejected draw changes nothing; an accepted one binds only when dirty, draws last, and leaves the state clean |
| PrimaryCommandBuffer.UpdateBuffer | cocos/renderer/gfx-gles2/GLES2PrimaryCommandBuffer.cpp:105-116 | the update runs only when accepted and the buffer has GPU storage |
| PrimaryCommandBuffer.CopyBuffersToTexture | cocos/renderer/gfx-gles2/GLES2PrimaryCommandBuffer.cpp:118-129 | the copy runs only when accepted and the texture has GPU storage |
| PrimaryCommandBuffer.ExecuteCalls | cocos/renderer/gfx-gles2/GLES2PrimaryCommandBuffer.cpp:133-138 | one package execution per secondary, its oldest pending package, in argument order |
| PrimaryCommandBuffer.Execute | cocos/renderer/gfx-gles2/GLES2PrimaryCommandBuffer.cpp:131-146 | execute runs every secondary's front package, adds their counters, and recycles each front package to its free queue |
| PrimaryCommandBuffer.DrawBindsOnlyWhenDirty | cocos/renderer/gfx-gles2/GLES2PrimaryCommandBuffer.cpp:64-77 | an accepted draw issues exactly one bind before the draw when dirty and none when clean, keeping the earlier log |
| PrimaryCommandBuffer.ImmediateOffsetsAgreeWithDeferred | cocos/renderer/gfx-gles2/GLES2PrimaryCommandBuffer.cpp:64-75 | the immediate flush delivers the same clamped dynamic offsets as the deferred BindStates |
| StagingBufferPool.Alloc | cocos/renderer/gfx-gles2/GLES2GPUObjects.h:374-392 | the first chunk with room is used, or a new chunk at offset 0 is added; the region starts at the chunk's old offset, which grows by exactly the size |
| StagingBufferPool.Reset | cocos/renderer/gfx-gles2/GLES2GPUObjects.h:394-398 | every chunk is kept and its offset is zero |
| StagingBufferPool.ResetServesFromFirstChunk | cocos/renderer/gfx-gles2/GLES2GPUObjects.h:374-398 | after a reset the next allocation comes from the start of the first chunk |
| StagingBufferPool.AllocKeepsDisjoint | cocos/renderer/gfx-gles2/GLES2GPUObjects.h:389-391 | a new region overlaps no region handed out since the last reset, and all stay below their chunk's offset |
| StagingBufferPool.AllocAll | cocos/renderer/gfx-gles2/GLES2GPUObjects.h:374-392 | a run of allocations yields regions of the requested sizes that are pairwise disjoint |
| GpuUniform.DefaultUniform | cocos/renderer/gfx-gles2/GLES2GPUObjects.h:111-120 | a default uniform has no buffer, size 0, binding UINT_MAX and location -1 |
| GpuUniform.Assign | cocos/renderer/gfx-gles2/GLES2GPUObjects.h:127-146 | self-assignment is a no-op; otherwise the metadata is copied, the buffer is reallocated only when the size differs, and the bytes are copied when both sides have a buffer |
| GpuUniform.Copy | cocos/renderer/gfx-gles2/GLES2GPUObjects.h:123-125 | a copy has the source's metadata and a buffer iff the size is non-zero, holding the source's bytes when it has any |
| GpuUniform.AssignIdempotent | cocos/renderer/gfx-gles2/GLES2GPUObjects.h:127-146 | assigning the same uniform twice is assigning it once, and a buffered result equals the source |
| GpuStateCache.Initialize | cocos/renderer/gfx-gles2/GLES2GPUObjects.h:327-331 | the texture and both attribute tables get the requested lengths, the slots that survive keep their values, new slots are 0 or false, and nothing else changes |
| GpuStateCache.Reset | cocos/renderer/gfx-gles2/GLES2GPUObjects.h:333-361 | every GL name is 0, the slot tables are zeroed at their current lengths, cull face is on, stencil test is off, the fixed-function structs are at their defaults and the object cache is empty; the texture-unit map is kept |
| GpuStateCache.ResetIdempotent | cocos/renderer/gfx-gles2/GLES2GPUObjects.h:333-361 | resetting twice is resetting once |
| Registry.Get | cocos/renderer/pipeline/InstancedBuffer.cpp:35-44 | the aggregator for a (pass, key) pair is made on first use and returned thereafter; other pairs are untouched |
| Registry.GetDefault | cocos/renderer/pipeline/InstancedBuffer.cpp:34 | get(pass) is get(pass, 0) |
| Registry.GetIsSingleton | cocos/renderer/pipeline/InstancedBuffer.cpp:35-44 | a second get for the same pair returns the first one's aggregator and leaves the registry alone |
| Registry.GetOtherKeyUnchanged | cocos/renderer/pipeline/InstancedBuffer.cpp:35-44 | a get for one key does not disturb another key of the same pass |
| InstancedBuffer.New | cocos/renderer/pipeline/InstancedBuffer.h:79-83 | a new aggregator has no buckets, no pending models and no dynamic offsets |
| InstancedBuffer.Get | cocos/renderer/pipeline/InstancedBuffer.cpp:35-44 | the registry yields the stored aggregator, or a new one for the pass on first use |
| InstancedBuffer.Candidate | cocos/renderer/pipeline/InstancedBuffer.cpp:72-81 | the candidate is the first bucket with the same index buffer and lightmap and fewer than MAX_CAPACITY instances; none when every bucket is skipped |
| InstancedBuffer.FindCandidate | cocos/renderer/pipeline/InstancedBuffer.cpp:72-81 | the bucket scan as a loop: it finds the first bucket not skipped, or reports that all are skipped |
| InstancedBuffer.Grow | cocos/renderer/pipeline/InstancedBuffer.cpp:86-94 | a full bucket doubles its capacity and keeps its bytes and vertex buffer |
| InstancedBuffer.WriteSlot | cocos/renderer/pipeline/InstancedBuffer.cpp:101-102 | the instance bytes land at stride·count, earlier instances keep their bytes, and count grows by one |
| InstancedBuffer.Room | cocos/renderer/pipeline/InstancedBuffer.cpp:86-94 | before a write the bucket has room: capacity doubles iff count >= capacity, and the old bytes are kept |
| InstancedBuffer.Added | cocos/renderer/pipeline/InstancedBuffer.cpp:86-104 | adding an instance grows the bucket when full, writes the bytes after the earlier instances, and takes the new shader and set |
| InstancedBuffer.InstancedAttributes | cocos/renderer/pipeline/InstancedBuffer.cpp:119-125 | each instanced attribute keeps its name, format, normalisation and location, is marked instanced, and reads from the new stream |
| InstancedBuffer.NewItem | cocos/renderer/pipeline/InstancedBuffer.cpp:106-134 | a new bucket holds one instance with capacity 32, and its input assembler is the source's with the instance stream and its attributes appended |
| InstancedBuffer.Merge | cocos/renderer/pipeline/InstancedBuffer.cpp:63-135 | stride 0 is a no-op; a candidate with another stride aborts the merge; otherwise the instance joins the candidate or a new bucket, pending models are set, and no bucket passes 1024 instances |
| InstancedBuffer.SecondInstanceJoinsFirst | cocos/renderer/pipeline/InstancedBuffer.cpp:63-135 | merging the same instance twice into a new aggregator yields one bucket of two instances |
| InstancedBuffer.Clear | cocos/renderer/pipeline/InstancedBuffer.cpp:146-151 | every bucket is emptied with its capacity kept, and pending models are cleared |
| InstancedBuffer.ClearReopensBuckets | cocos/renderer/pipeline/InstancedBuffer.cpp:72-81 | after clear, a bucket matching the index buffer and lightmap is again a candidate, or an earlier one is |
| InstancedBuffer.Uploads | cocos/renderer/pipeline/InstancedBuffer.cpp:137-144 | exactly the non-empty buckets are uploaded, one upload per non-empty bucket |
| InstancedBuffer.UploadsOne | cocos/renderer/pipeline/InstancedBuffer.cpp:138-141 | a single bucket is uploaded, with its buffer, data and size, exactly when it holds an instance |
| InstancedBuffer.UploadsAppend | cocos/renderer/pipeline/InstancedBuffer.cpp:137-144 | the uploads of two runs of buckets are those of the first run followed by those of the second, so uploads follow bucket order |
| InstancedBuffer.UploadBuffers | cocos/renderer/pipeline/InstancedBuffer.cpp:137-144 | uploading skips empty buckets and sets each other bucket's instance count to its count |
| InstancedBuffer.SetDynamicOffset | cocos/renderer/pipeline/InstancedBuffer.cpp:153-156 | the list grows to idx + 1 with zeros when too short, slot idx takes the value, and the other slots are unchanged |
| BatchedBuffer.New | cocos/renderer/pipeline/BatchedBuffer.cpp:33-42 | a new aggregator has no batches and the given dynamic offsets |
| BatchedBuffer.Get | cocos/renderer/pipeline/BatchedBuffer.cpp:33-42 | the registry yields the stored aggregator, or a new one for the pass on first use |
| BatchedBuffer.ScanFrom | cocos/renderer/pipeline/BatchedBuffer.cpp:88-99 | the first batch with as many streams, room for one more merge and equal strides is used; none when no batch is compatible |
| BatchedBuffer.StreamAbsorb | cocos/renderer/pipeline/BatchedBuffer.cpp:101-120 | a stream grows to exactly (vbCount + new vertices)·stride when that exceeds its size, keeps its other bytes, and has the new bytes at vbCount·stride |
| BatchedBuffer.IdsRoom | cocos/renderer/pipeline/BatchedBuffer.cpp:122-132 | the batch-id array grows to the needed length and keeps its values |
| BatchedBuffer.Fill | cocos/renderer/pipeline/BatchedBuffer.cpp:134-141 | a fill writes the value on the range and nowhere else |
| BatchedBuffer.FillIdsAsWritten | cocos/renderer/pipeline/BatchedBuffer.cpp:134-141 | the source's fill: the range gets id mergeCount + 0.1 unless both ends already equal mergeCount, in which case nothing is written |
| BatchedBuffer.FillIdsAsWrittenKeepsStaleIds | cocos/renderer/pipeline/BatchedBuffer.cpp:134-141 | with both ends equal to the merge index, a stale id inside the range survives |
| BatchedBuffer.FillIds | cocos/renderer/pipeline/BatchedBuffer.cpp:134-141 | every vertex of the merged range gets an id denoting this merge, and nothing outside the range changes |
| BatchedBuffer.FillIdsAgree | cocos/renderer/pipeline/BatchedBuffer.cpp:134-141 | where the source writes, or where the range already holds the merge index, the corrected fill and the source's agree on the range |
| BatchedBuffer.AbsorbStreams | cocos/renderer/pipeline/BatchedBuffer.cpp:101-120 | every stream absorbs its own flat buffer |
| BatchedBuffer.AbsorbIntended | cocos/renderer/pipeline/BatchedBuffer.cpp:101-159 | merging into a batch as intended adds one merge and the new vertices, tags every new vertex with this merge's id, writes the world matrix at slot mergeCount, and binds the UBO and takes the pass only on the first merge |
| BatchedBuffer.Absorb | cocos/renderer/pipeline/BatchedBuffer.cpp:101-159 | merging into a batch as written gives the intended batch and binding except for the ids: ids outside the new range are kept, the new range denotes this merge whenever either end differs from the merge index, and it is left untouched otherwise |
| BatchedBuffer.NewBatch | cocos/renderer/pipeline/BatchedBuffer.cpp:165-238 | a new batch has one merge, zero-filled streams of the exact sizes, zero batch ids, the extra batch-id attribute on the last stream, and the world matrix in slot 0 |
| BatchedBuffer.MergeIntended | cocos/renderer/pipeline/BatchedBuffer.cpp:71-239 | no flat buffers is a no-op; otherwise the first compatible batch absorbs the sub-mesh as intended or a new batch is appended with the UBO bound, and no batch passes BATCHING_COUNT merges |
| BatchedBuffer.Merge | cocos/renderer/pipeline/BatchedBuffer.cpp:71-239 | merging as written yields the intended binding and the intended batches up to their ids, the first compatible batch being replaced by its as-written absorb, and no batch passes BATCHING_COUNT merges |
| BatchedBuffer.MergeKeepsStaleIds | cocos/renderer/pipeline/BatchedBuffer.cpp:71-247 | a batch opened by a 6-vertex sub-mesh, refilled with two 2-vertex merges, then cleared and given a 6-vertex merge keeps id 1.1 on vertex 2, where the intended merge tags it with merge 0 |
| BatchedBuffer.Clear | cocos/renderer/pipeline/BatchedBuffer.cpp:241-247 | every batch has zero vertices and merges and keeps its storage |
| BatchedBuffer.ClearReopensBatches | cocos/renderer/pipeline/BatchedBuffer.cpp:88-99 | after clear, a batch with matching strides is compatible again, or an earlier one is |
| BatchedBuffer.SetDynamicOffset | cocos/renderer/pipeline/BatchedBuffer.cpp:249-251 | an in-range slot takes the value and the list neither grows nor changes elsewhere |
| PipelineStateManager.GetOrCreate | cocos/renderer/pipeline/PipelineStateManager.cpp:34-63 | a hit returns the stored state and creates nothing; a miss creates exactly one state from the request and stores it under the key; other keys are untouched |
| PipelineStateManager.SecondCallHits | cocos/renderer/pipeline/PipelineStateManager.cpp:44-62 | a second identical request returns the first one's state and creates nothing |
| PipelineStateManager.KeyIgnoresOrder | cocos/renderer/pipeline/PipelineStateManager.cpp:42 | swapping the pass hash and the shader id leaves the key unchanged |
| PipelineStateManager.EqualKeysShareState | cocos/renderer/pipeline/PipelineStateManager.cpp:42-62 | any two requests with equal keys share one state |
| PipelineStateManager.SwappedHashesShareState | cocos/renderer/pipeline/PipelineStateManager.cpp:42-62 | a request with the pass hash and shader id swapped gets the first request's state, even though its shader differs |
| PipelineStateManager.GetOrCreateByJS | cocos/renderer/pipeline/PipelineStateManager.cpp:65-72 | the pass handle is resolved and the request delegated, so a state is created iff its key was missing |
| RenderQueue.SortKeyFields | cocos/renderer/pipeline/RenderQueue.cpp:51 | with 8-bit fields, the key packs pass priority from bit 16, sub-model priority in bits 8-15 and pass index in bits 0-7 |
| RenderQueue.SortKeyByPassPriority | cocos/renderer/pipeline/RenderQueue.cpp:51 | a lower pass priority gives a lower key whatever the other fields |
| RenderQueue.SortKeyBySubModelPriority | cocos/renderer/pipeline/RenderQueue.cpp:51 | for equal pass priority, a lower sub-model priority gives a lower key |
| RenderQueue.SortKeyByPassIndex | cocos/renderer/pipeline/RenderQueue.cpp:51 | for equal priorities, a lower pass index gives a lower key |
| RenderQueue.SortKeyFieldsOverlap | cocos/renderer/pipeline/RenderQueue.cpp:51 | a pass index of 256 collides with sub-model priority 1, because the fields are OR-ed unmasked |
| RenderQueue.InsertRenderPass | cocos/renderer/pipeline/RenderQueue.cpp:41-56 | a pass is refused, with the queue unchanged, iff its transparency differs or its phase misses the queue's phases; otherwise one entry is appended with the packed key, the depth, the shader id and the pass index |
| RenderQueue.Clear | cocos/renderer/pipeline/RenderQueue.cpp:37-39 | the queue is empty |
| RenderQueue.AdjacentIsSorted | cocos/renderer/pipeline/RenderQueue.cpp:58-60 | for a comparator whose "not less" is transitive, neighbours in order means the whole queue is in order |
| RenderQueue.InOrder | cocos/renderer/pipeline/RenderQueue.cpp:58-60 | in such a queue, no later entry is less than an earlier one |
| RenderQueue.Insert | cocos/renderer/pipeline/RenderQueue.cpp:58-60 | insertion adds exactly the one entry |
| RenderQueue.InsertSorted | cocos/renderer/pipeline/RenderQueue.cpp:58-60 | inserting into a queue whose neighbours are in order keeps them in order |
| RenderQueue.Sort | cocos/renderer/pipeline/RenderQueue.cpp:58-60 | sorting is a permutation of the queue |
| RenderQueue.SortSorts | cocos/renderer/pipeline/RenderQueue.cpp:58-60 | under a strict weak order, sorting yields a permutation in which no later entry is less than an earlier one |
| RenderQueue.SortSortsAdjacent | cocos/renderer/pipeline/RenderQueue.cpp:58-60 | under an asymmetric comparator, sorted neighbours are in order |
| RenderQueue.SortQueue | cocos/renderer/pipeline/RenderQueue.cpp:58-60 | the queue is permuted into the order of its own sort function |
| RenderQueue.Record | cocos/renderer/pipeline/RenderQueue.cpp:62-78 | recording issues five commands per entry, and each entry's pipeline state is the one memoised under its key |
| RenderQueue.RecordUnfold | cocos/renderer/pipeline/RenderQueue.cpp:63-77 | recording a queue is recording its head, then its tail against the updated memo |
| RenderQueue.RecordAtHead | cocos/renderer/pipeline/RenderQueue.cpp:71-76 | the head entry's commands open the recording |
| RenderQueue.RecordAt | cocos/renderer/pipeline/RenderQueue.cpp:62-78 | entry i's commands sit at 5·i in queue order: pipeline, material set, local set, input assembler, draw |
| RenderQueue.DrawCountAppend | cocos/renderer/pipeline/RenderQueue.cpp:62-78 | draws in concatenated command lists add up |
| RenderQueue.RecordDrawsOncePerEntry | cocos/renderer/pipeline/RenderQueue.cpp:62-78 | recording draws exactly once per entry |
| RenderQueue.DrawCountOfEntry | cocos/renderer/pipeline/RenderQueue.cpp:71-76 | an entry's commands hold exactly one draw |
| AdditiveLightQueue.LightBufferStride | cocos/renderer/pipeline/RenderAdditiveLightQueue.cpp:68 | the stride is the smallest multiple of the alignment that holds the 64-byte light UBO |
| AdditiveLightQueue.New | cocos/renderer/pipeline/RenderAdditiveLightQueue.cpp:67-78 | a new queue has an aligned stride, stride / 4 floats per slot, a zeroed light buffer, nothing gathered and dynamic offsets [0] |
| AdditiveLightQueue.GrowCount | cocos/renderer/pipeline/RenderAdditiveLightQueue.cpp:275-282 | the light-buffer count never shrinks and, when too small, becomes a power of two below twice the number of lights |
| AdditiveLightQueue.NewSlotHolds | cocos/renderer/pipeline/RenderAdditiveLightQueue.cpp:284-331 | a rewritten slot holds the light's position, colour, luminance, size and range; pos.w and angle are 0 for a sphere light, and 1 and the spot angle plus the direction for a spot light |
| AdditiveLightQueue.WriteSlotKeepsOutside | cocos/renderer/pipeline/RenderAdditiveLightQueue.cpp:284-331 | writing one light's slot changes nothing outside it |
| AdditiveLightQueue.WriteSlotWindow | cocos/renderer/pipeline/RenderAdditiveLightQueue.cpp:284-331 | writing a light's slot rewrites exactly that slot's window |
| AdditiveLightQueue.WindowStable | cocos/renderer/pipeline/RenderAdditiveLightQueue.cpp:284-331 | once light l is written, later lights do not disturb its slot |
| AdditiveLightQueue.LastWriteWindow | cocos/renderer/pipeline/RenderAdditiveLightQueue.cpp:284-331 | the write of light l turns its slot into that light's slot |
| AdditiveLightQueue.WriteSlotsWindow | cocos/renderer/pipeline/RenderAdditiveLightQueue.cpp:284-331 | after all lights are written, light l's slot is its own rewrite of what it held before |
| AdditiveLightQueue.WriteSlotsHold | cocos/renderer/pipeline/RenderAdditiveLightQueue.cpp:284-331 | after all lights are written, every light's slot holds that light's data |
| AdditiveLightQueue.WriteSlotsTail | cocos/renderer/pipeline/RenderAdditiveLightQueue.cpp:284-331 | the buffer past the last light's slot is untouched |
| AdditiveLightQueue.GrownBuffer | cocos/renderer/pipeline/RenderAdditiveLightQueue.cpp:275-282 | the mirror has elementCount times the new light count floats, enough for every valid light |
| AdditiveLightQueue.UpdateUBOs | cocos/renderer/pipeline/RenderAdditiveLightQueue.cpp:272-334 | only the light-buffer count and mirror change, the count follows the growth rule, and the whole mirror is uploaded |
| AdditiveLightQueue.UpdateUBOsFillsSlot | cocos/renderer/pipeline/RenderAdditiveLightQueue.cpp:284-333 | light l's data occupies the floats from l·elementCount in the uploaded buffer |
| AdditiveLightQueue.CullingOrder | cocos/renderer/pipeline/RenderAdditiveLightQueue.cpp:229-237 | a model without bounds is never culled, a directional light never culls, and whatever a sphere light culls the same light as a spot culls too |
| AdditiveLightQueue.LightIndices | cocos/renderer/pipeline/RenderAdditiveLightQueue.cpp:148-155 | the light indices are exactly the lights that do not cull the model, in increasing order |
| AdditiveLightQueue.VisibleLights | cocos/renderer/pipeline/RenderAdditiveLightQueue.cpp:202-227 | a light is gathered iff its range sphere meets the camera frustum |
| AdditiveLightQueue.LightPassIndex | cocos/renderer/pipeline/RenderAdditiveLightQueue.cpp:520-541 | the index is the first pass in the forward-add phase, or UINT_MAX iff there is none |
| AdditiveLightQueue.LightPassIndices | cocos/renderer/pipeline/RenderAdditiveLightQueue.cpp:520-541 | one index per sub-model, and the result is true iff some sub-model has a forward-add pass |
| AdditiveLightQueue.OffsetAddressesSlot | cocos/renderer/pipeline/RenderAdditiveLightQueue.cpp:255-269 | the dynamic offset stride·i addresses exactly light i's slot in the light buffer |
| AdditiveLightQueue.StandardPass | cocos/renderer/pipeline/RenderAdditiveLightQueue.cpp:255-269 | a standard light pass holds the reaching lights in index order, the k-th with dynamic offset stride·index |
| AdditiveLightQueue.AddRenderQueue | cocos/renderer/pipeline/RenderAdditiveLightQueue.cpp:239-270 | the standard scheme appends one light pass; instancing and vertex merging queue their aggregator merges instead |
| AdditiveLightQueue.AggregatorMerges | cocos/renderer/pipeline/RenderAdditiveLightQueue.cpp:240-255 | an instanced or vertex-merged sub-model queues one merge per reaching light, into the aggregator keyed by the pass and that light's index, with that light's slot offset |
| AdditiveLightQueue.AddSubModel | cocos/renderer/pipeline/RenderAdditiveLightQueue.cpp:160-169 | a sub-model without a forward-add pass adds nothing; otherwise a non-batched pass appends its standard light pass and a batched one its per-light aggregator merges; nothing else changes |
| AdditiveLightQueue.AddSubModels | cocos/renderer/pipeline/RenderAdditiveLightQueue.cpp:158-170 | a model's sub-models append exactly their contributions in sub-model order: a standard light pass for each sub-model whose forward-add pass is not batched, one aggregator merge per light for each batched one, none for a sub-model without such a pass; nothing else changes and every light pass draws valid lights, one offset each |
| AdditiveLightQueue.Clear | cocos/renderer/pipeline/RenderAdditiveLightQueue.cpp:190-200 | clearing drops the valid lights, light passes and queued merges, and keeps the light buffer, its count and the descriptor sets |
| AdditiveLightQueue.AddModel | cocos/renderer/pipeline/RenderAdditiveLightQueue.cpp:144-170 | a render object without a forward-add pass or reached by no light adds nothing; otherwise its sub-models' contributions are appended, lit by the lights that reach it |
| AdditiveLightQueue.AddModels | cocos/renderer/pipeline/RenderAdditiveLightQueue.cpp:143-171 | dispatching the render objects appends exactly their contributions in object order, changes nothing else, and keeps every light pass drawing valid lights with one offset each |
| AdditiveLightQueue.GetOrCreateDescriptorSet | cocos/renderer/pipeline/RenderAdditiveLightQueue.cpp:543-590 | a light's global set is made on first use and returned unchanged thereafter |
| AdditiveLightQueue.CreateDescriptorSets | cocos/renderer/pipeline/RenderAdditiveLightQueue.cpp:207-226 | every gathered light has a set, and existing sets are kept |
| AdditiveLightQueue.Gather | cocos/renderer/pipeline/RenderAdditiveLightQueue.cpp:131-174 | the valid lights are the visible sphere lights then the visible spot lights, each with a set; with none, nothing is written, queued or uploaded; otherwise the mirror is uploaded, the count never shrinks, the light passes and merges are exactly the render objects' contributions, and the passes can be recorded |
| AdditiveLightQueue.LightDraws | cocos/renderer/pipeline/RenderAdditiveLightQueue.cpp:120-127 | three commands per remaining light |
| AdditiveLightQueue.LightDrawsAt | cocos/renderer/pipeline/RenderAdditiveLightQueue.cpp:120-127 | the t-th light's global set, local set with its offset, and draw come in offset order |
| AdditiveLightQueue.PassCommands | cocos/renderer/pipeline/RenderAdditiveLightQueue.cpp:106-128 | a light pass issues its pipeline, material set and input assembler binds first, then three commands per light |
| AdditiveLightQueue.PassCommandsAt | cocos/renderer/pipeline/RenderAdditiveLightQueue.cpp:120-127 | after the three binds, light t's global set, local set at its offset and draw sit at positions 3 + 3t onwards |
| AdditiveLightQueue.DrawCountAppend | cocos/renderer/pipeline/RenderAdditiveLightQueue.cpp:102-129 | draws in concatenated command lists add up |
| AdditiveLightQueue.LightDrawsCount | cocos/renderer/pipeline/RenderAdditiveLightQueue.cpp:120-127 | the per-light loop draws once per remaining light |
| AdditiveLightQueue.Record | cocos/renderer/pipeline/RenderAdditiveLightQueue.cpp:102-129 | the aggregator queues' commands come first and are kept |
| AdditiveLightQueue.RecordDrawsOncePerLight | cocos/renderer/pipeline/RenderAdditiveLightQueue.cpp:102-129 | recording adds exactly one draw per (light pass, light) |
| SceneCulling.GenRenderObject | cocos/renderer/pipeline/forward/SceneCulling.cpp:41-51 | a model without a node gets depth 0 |
| SceneCulling.DepthAlongForward | cocos/renderer/pipeline/forward/SceneCulling.cpp:41-51 | a model at camera position + t·forward, with a unit forward, gets depth t |
| SceneCulling.CullModels | cocos/renderer/pipeline/forward/SceneCulling.cpp:210-230 | every kept model is enabled, visible and, when it has bounds, inside the frustum, and is drawn from the scene |
| SceneCulling.CullModelsAppend | cocos/renderer/pipeline/forward/SceneCulling.cpp:210-230 | culling follows scene order: culling two lists is culling each |
| SceneCulling.CullOne | cocos/renderer/pipeline/forward/SceneCulling.cpp:216-227 | a single model is kept iff it passes the visibility and frustum tests |
| SceneCulling.CullModelsCount | cocos/renderer/pipeline/forward/SceneCulling.cpp:210-230 | a model appears in the output as often as in the scene when kept, and never otherwise |
| SceneCulling.Cull | cocos/renderer/pipeline/forward/SceneCulling.cpp:197-233 | the skybox comes first iff it is enabled, has a model and the clear flags include the skybox flag; the rest are exactly the culled models |
| SceneCulling.CollectLights | cocos/renderer/pipeline/forward/SceneCulling.cpp:139-159 | the main light, possibly none, is at index 0, followed only by spot lights whose range sphere meets the frustum |
| SceneCulling.VisibleSpots | cocos/renderer/pipeline/forward/SceneCulling.cpp:147-156 | only spot lights whose range sphere meets the frustum are collected |
| SceneCulling.VisibleSpotsComplete | cocos/renderer/pipeline/forward/SceneCulling.cpp:147-156 | every spot light whose range sphere meets the frustum is collected |
| SceneCulling.VisibleSpotsAppend | cocos/renderer/pipeline/forward/SceneCulling.cpp:147-156 | collection follows scene order |
| SceneCulling.FoldCasters | cocos/renderer/pipeline/forward/SceneCulling.cpp:164-190 | the cast bounds become initialized iff some model is a caster |
| SceneCulling.ShadowObjects | cocos/renderer/pipeline/forward/SceneCulling.cpp:166-190 | only enabled, visible, shadow-casting models with bounds become shadow objects |
| SceneCulling.ShadowObjectsAppend | cocos/renderer/pipeline/forward/SceneCulling.cpp:166-190 | shadow collection of two runs of models is the first run's followed by the second's, so shadow objects keep scene order |
| SceneCulling.ShadowOne | cocos/renderer/pipeline/forward/SceneCulling.cpp:172-188 | a single model becomes one shadow object exactly when it is enabled, visible, casts shadows and has world bounds |
| SceneCulling.ShadowObjectsCount | cocos/renderer/pipeline/forward/SceneCulling.cpp:166-190 | a caster becomes a shadow object as often as it occurs in the scene, and any other model never |
| SceneCulling.CollectShadows | cocos/renderer/pipeline/forward/SceneCulling.cpp:161-195 | the cast bounds are initialized iff there is a shadow object, and keep the previous bounds otherwise |
| SceneCulling.NoCastersKeepBounds | cocos/renderer/pipeline/forward/SceneCulling.cpp:161-195 | with no caster, the cast bounds are the previous frame's |
| SceneCulling.ShadowObjectsEmptyIff | cocos/renderer/pipeline/forward/SceneCulling.cpp:161-195 | there are shadow objects iff some model is a caster |
| SceneCulling.CastBoundsEncloseCasters | cocos/renderer/pipeline/forward/SceneCulling.cpp:180-186 | when the merge encloses its operands, the cast bounds enclose every caster's bounds |
| SceneCulling.PlanarMatrixFlattens | cocos/renderer/pipeline/forward/SceneCulling.cpp:74-97 | the planar-shadow matrix maps every point onto the shadow plane |
| SceneCulling.PlanarImage | cocos/renderer/pipeline/forward/SceneCulling.cpp:74-97 | the image of a point is its projection from the light onto the plane, in homogeneous coordinates |
| SceneCulling.PlanarMatrixLightAtInfinity | cocos/renderer/pipeline/forward/SceneCulling.cpp:74-97 | the light position itself maps to a point at infinity |
| SceneCulling.UpdateSphereLight | cocos/renderer/pipeline/forward/SceneCulling.cpp:64-100 | with no flag change and clean shadows it is a no-op; otherwise it clears the dirty flag and copies the new matrix into its UBO slot, leaving the rest of the UBO untouched |
| SceneCulling.UpdateSphereLightSettles | cocos/renderer/pipeline/forward/SceneCulling.cpp:64-70 | once updated, a second update with unchanged flags does nothing |
| SceneCulling.UpdatedMatrixFlattens | cocos/renderer/pipeline/forward/SceneCulling.cpp:70-97 | the updated matrix projects onto the plane at distance + 0.001 |
| GLES3Texture.PowerOfTwoAccepted | cocos/renderer/gfx-gles3/GLES3Texture.cpp:113 | every power of two is accepted |
| GLES3Texture.PowerOfTwoExponent | cocos/renderer/gfx-gles3/GLES3Texture.cpp:113 | only powers of two are accepted |
| GLES3Texture.RequiredFeature | cocos/renderer/gfx-gles3/GLES3Texture.cpp:53-86 | exactly the seven gated formats need a device feature |
| GLES3Texture.RequiredFeatureInjective | cocos/renderer/gfx-gles3/GLES3Texture.cpp:53-86 | each gated format has its own feature |
| GLES3Texture.Initialize | cocos/renderer/gfx-gles3/GLES3Texture.cpp:39-119 | success iff the format passes the debug gate and a requested backup buffer is allocated; a failure leaves the accounting alone; success books the GPU texture and sets isPowerOf2 from both sides |
| GLES3Texture.GateRefuses | cocos/renderer/gfx-gles3/GLES3Texture.cpp:53-86 | in a debug build, a gated format without its feature fails |
| GLES3Texture.InitializeView | cocos/renderer/gfx-gles3/GLES3Texture.cpp:121-126 | a texture-view initialize always fails and only marks the texture as a view |
| GLES3Texture.Destroy | cocos/renderer/gfx-gles3/GLES3Texture.cpp:128-141 | destroy releases the GPU texture and the backup buffer, and a destroyed texture is left alone |
| GLES3Texture.DestroyIdempotent | cocos/renderer/gfx-gles3/GLES3Texture.cpp:128-141 | destroying twice is destroying once |
| GLES3Texture.InitDestroyBalanced | cocos/renderer/gfx-gles3/GLES3Texture.cpp:88-141 | initialize followed by destroy restores the memory status, whatever the outcome |
| GLES3Texture.ResizedBuffer | cocos/renderer/gfx-gles3/GLES3Texture.cpp:159-170 | the new backup buffer has the new size and keeps the first min(old, new) bytes |
| GLES3Texture.ResizeAsWritten | cocos/renderer/gfx-gles3/GLES3Texture.cpp:143-173 | the source's resize never touches textureSize |
| GLES3Texture.Resize | cocos/renderer/gfx-gles3/GLES3Texture.cpp:143-173 | equal dimensions are a no-op; otherwise width, height and size follow the new dimensions, the backup buffer keeps its prefix, and a failed allocation keeps the old buffer |
| GLES3Texture.ResizeAgreesOnTexture | cocos/renderer/gfx-gles3/GLES3Texture.cpp:143-173 | the corrected resize changes the texture exactly as the source does, and differs only in the accounting |
| GLES3Texture.InitializeAccounted | cocos/renderer/gfx-gles3/GLES3Texture.cpp:88-119 | after initialize, textureSize is the base plus size for the GPU texture and once more for a backup buffer |
| GLES3Texture.ResizeAccounted | cocos/renderer/gfx-gles3/GLES3Texture.cpp:143-173 | the corrected resize keeps that accounting invariant |
| GLES3Texture.DestroyAccounted | cocos/renderer/gfx-gles3/GLES3Texture.cpp:128-141 | destroy brings textureSize back to the base |
| GLES3Texture.InitResizeDestroyBalanced | cocos/renderer/gfx-gles3/GLES3Texture.cpp:39-173 | with the corrected resize, initialize, resize and destroy restore textureSize |
| GLES3Texture.ResizeAsWrittenUnbalances | cocos/renderer/gfx-gles3/GLES3Texture.cpp:143-173 | with the source's resize, an 8×8 texture grown to 16×16 leaves textureSize 192 too low and bufferSize 192 too high after destroy |
| VKContext.FilterSupported | cocos/renderer/gfx-vulkan/VKContext.cpp:205-215 | only requested names that are supported are kept |
| VKContext.FilterSupportedComplete | cocos/renderer/gfx-vulkan/VKContext.cpp:205-215 | every requested name that is supported is kept |
| VKContext.FilterSupportedAppend | cocos/renderer/gfx-vulkan/VKContext.cpp:205-215 | filtering keeps the request order |
| VKContext.SelectValidationLayers | cocos/renderer/gfx-vulkan/VKContext.cpp:162-193 | the chosen layers are empty or a whole group of the priority list that is fully supported, and some group is chosen whenever one is supported |
| VKContext.ValidationLayersFirstFit | cocos/renderer/gfx-vulkan/VKContext.cpp:181-193 | the first fully supported group wins |
| VKContext.RequestedExtensions | cocos/renderer/gfx-vulkan/VKContext.cpp:125-202 | the surface, properties-2 and platform-surface extensions are requested, plus debug utils when supported or else debug report, with validation |
| VKContext.InstanceLayersAndExtensions | cocos/renderer/gfx-vulkan/VKContext.cpp:121-215 | every enabled layer and extension is one the driver supports, and without validation no layer is enabled |
| VKContext.SurfaceExtensionEnabled | cocos/renderer/gfx-vulkan/VKContext.cpp:205-215 | a supported surface extension is always enabled |
| VKContext.FirstDiscrete | cocos/renderer/gfx-vulkan/VKContext.cpp:367-372 | the scan stops at the first discrete GPU, or at the end |
| VKContext.SelectDevice | cocos/renderer/gfx-vulkan/VKContext.cpp:349-376 | initialization fails iff enumeration fails or finds no device; otherwise the first discrete GPU is chosen, or device 0 when there is none |
| VKContext.DiscreteGpuPreferred | cocos/renderer/gfx-vulkan/VKContext.cpp:367-376 | whenever a discrete GPU exists, one is chosen |
| VKContext.FindBgra | cocos/renderer/gfx-vulkan/VKContext.cpp:433-440 | the scan stops at the first B8G8R8A8_UNORM entry, or at the end |
| VKContext.SelectColor | cocos/renderer/gfx-vulkan/VKContext.cpp:422-454 | a lone UNDEFINED entry gives B8G8R8A8_UNORM; otherwise B8G8R8A8_UNORM when listed, else the first entry |
| VKContext.ColorFirstBgraWins | cocos/renderer/gfx-vulkan/VKContext.cpp:433-440 | the colour space comes from the first B8G8R8A8_UNORM entry |
| VKContext.FirstUsableDepth | cocos/renderer/gfx-vulkan/VKContext.cpp:463-473 | the first format whose optimal tiling supports both depth-stencil attachment and sampling is chosen, or the fallback when none does |
| VKContext.SelectDepth | cocos/renderer/gfx-vulkan/VKContext.cpp:456-473 | the first usable of D24S8, D32F_S8, D16S8, D32F, D16, and D24S8 when none is usable |
| VKContext.DepthPrefersD24S8 | cocos/renderer/gfx-vulkan/VKContext.cpp:456-473 | a usable D24S8 is always chosen |
| VKContext.DepthFallsThroughToD16 | cocos/renderer/gfx-vulkan/VKContext.cpp:456-473 | D16 is chosen when only it is usable |
| VKContext.PresentPriority | cocos/renderer/gfx-vulkan/VKContext.cpp:477-485 | every vsync mode's priority list ends with FIFO |
| VKContext.LastSupported | cocos/renderer/gfx-vulkan/VKContext.cpp:487-493 | the loop without a break keeps the last supported entry of the list, and FIFO when no entry is supported |
| VKContext.SelectPresentAsWritten | cocos/renderer/gfx-vulkan/VKContext.cpp:477-493 | the source's choice is FIFO or a supported mode |
| VKContext.AsWrittenAlwaysFifo | cocos/renderer/gfx-vulkan/VKContext.cpp:477-493 | whenever FIFO is supported, as the Vulkan specification requires, the source picks FIFO for every vsync mode |
| VKContext.AsWrittenIgnoresImmediate | cocos/renderer/gfx-vulkan/VKContext.cpp:480 | vsync off on a surface supporting immediate and FIFO still gets FIFO |
| VKContext.FirstSupported | cocos/renderer/gfx-vulkan/VKContext.cpp:487-493 | the corrected loop takes the first supported entry, and FIFO when none is |
| VKContext.SelectPresent | cocos/renderer/gfx-vulkan/VKContext.cpp:477-493 | the corrected choice is a mode of the vsync list, and the preferred one whenever it is supported |
| VKContext.FirstSupportedInList | cocos/renderer/gfx-vulkan/VKContext.cpp:477-493 | when the list ends with FIFO, the choice is always one of its entries |
| VKContext.FirstSupportedSkipsOnlyUnsupported | cocos/renderer/gfx-vulkan/VKContext.cpp:489-493 | the corrected choice is the first supported entry of the list |
| VKContext.PresentHonoursPreference | cocos/renderer/gfx-vulkan/VKContext.cpp:480-483 | vsync off gets immediate and mailbox gets mailbox whenever the surface supports them |
| VKContext.ImageCount | cocos/renderer/gfx-vulkan/VKContext.cpp:496-500 | the count is max(3, minImageCount + 1), with the addition wrapping at 2^32, and is capped at maxImageCount only when that is non-zero |
| VKContext.ImageCountWithinCaps | cocos/renderer/gfx-vulkan/VKContext.cpp:496-500 | the count is at least the surface minimum, and above it when the maximum allows |
| VKContext.ImageCountWraps | cocos/renderer/gfx-vulkan/VKContext.cpp:496 | minImageCount + 1 wraps at 2^32, so a minimum of UINT_MAX yields 3 images |
| VKContext.SelectCompositeAlpha | cocos/renderer/gfx-vulkan/VKContext.cpp:505-519 | the choice is a supported flag, or OPAQUE when none is |
| VKContext.CompositeAlphaOrder | cocos/renderer/gfx-vulkan/VKContext.cpp:508-519 | flags are tried in the order OPAQUE, PRE_MULTIPLIED, POST_MULTIPLIED, INHERIT |

## Left out

- I/O and the GPU are not modelled. GL and Vulkan calls, buffer uploads, `memcpy` into GPU memory, and descriptor-set updates are opaque. Handles returned by the device are function parameters.
- Recorded packages are never executed on GL. Execution appears only as the call log of the immediate buffers.
- Floats are modelled as `real`, without rounding. `IsNotEqualF` is a tolerance comparison with a fixed epsilon.
- UBO contents are not modelled: global, camera and shadow data, `updateLightDescriptorSet` (`RenderAdditiveLightQueue.cpp` 336-518), `updateDirLight`, and the luminance scaling beyond its place in the light slot.
- The pool recycling of command records is not modelled: each allocation gets a fresh handle.
- `CC_NEW` failure is not modelled. `CCASSERT` is not modelled, so an unknown default surface format keeps the release-build colour default.
- The planar-shadow sphere (`getShadowWorldMatrix`, `define`) and `ShadowFlow.cpp` are not modelled. The same holds for `RenderPipeline.cpp`, the JS binding layer, and the Vulkan instance, surface and fence plumbing.
- The instanced and batched queues' own upload and record calls at the end of `gatherLightPasses` and at the start of `recordCommandBuffer` are modelled only as the list of merges and the commands they emitted. `InstancedBuffer.UploadBuffers` models the per-aggregator upload.
- `SKYBOX_FLAG`, the UBOShadow matrix offset and `FormatSize` are parameters, because their definitions are not part of this model.
- `FORCE_DISABLE_VALIDATION` and `CC_DEBUG` become boolean parameters.
- The sub-model id indirection of the scene (`getSubModelID`, `getSubModelView`) is flattened into a sequence of sub-models.
- CachedArray.Push: requires capacity >= 1. On a moved-from array with capacity 0 the source computes a new capacity of 0 and writes past the end.
- CachedArray.Pop: requires a non-empty array. The source underflows the size.
- StagingBufferPool.Alloc: requires size <= 16 MiB. Larger requests overrun the new chunk in the source.
- BatchedBuffer.SetDynamicOffset: requires an index in range. The source indexes the vector without growing it.
- PrimaryCommandBuffer.Draw: requires a bound pipeline when a dirty draw is accepted. The source dereferences it unchecked.
- DeferredCommandBuffer.Execute: requires every secondary to have a pending package. The source reads the front of the queue unchecked.
- DeferredCommandBuffer.SpliceAll: secondaries are values, so a buffer listed twice is two copies and both entries splice the same front package; the engine pops between iterations, so its second entry splices the next package.
- DeferredCommandBuffer.RecycleAll: a buffer listed twice is recycled once in each of its two copies, not twice in one buffer.
- DeferredCommandBuffer.Execute: a buffer listed twice in one call is modelled as two independent copies, with the same consequence as for SpliceAll and RecycleAll.
- PrimaryCommandBuffer.Execute: a buffer listed twice in one call is modelled as two independent copies, so both entries run the same front package.
- GLES3Texture.ResizeAccounted: covers only a successful backup allocation. A failed one returns with the texture's size already changed, as in the source.
- GLES3Texture.ResizeAsWritten: states only that textureSize is untouched; the unbalanced bufferSize is exhibited by ResizeAsWrittenUnbalances.
- AdditiveLightQueue.VisibleLights: states membership, not order. Order is kept by construction.
- CommandPackage.ReplayOf: states only the length. Its meaning is given by PushCmdReplay, PushEndReplay and SpliceReplay.
- PrimaryCommandBuffer.FlushImmediately: the pipeline layout's flat dynamic-offset list is one object shared by every command buffer that binds that layout; the model rewrites the copy held in this buffer's bound pipeline, so the write is not seen through other buffers or through later binds of the same layout.
- `math::IsPowerOfTwo(0)` is taken to be false.

## Findings

| source | as written | input that shows it | evidently intended | confidence | as-written member | corrected member |
|---|---|---|---|---|---|---|
| cocos/renderer/pipeline/BatchedBuffer.cpp:134-141 | the batch-id range is filled only when its first or last id differs from the merge index | a batch opened by a 6-vertex sub-mesh (ids all 0); next frame two 2-vertex merges (ids [0, 0, 1.1, 1.1, 0, 0]); next frame one 6-vertex merge as index 0: the ends match, so vertices 2 and 3 keep id 1.1 | every vertex of the merged range carries this merge's id | not executed | BatchedBuffer.MergeKeepsStaleIds | BatchedBuffer.AbsorbIntended |
| cocos/renderer/gfx-gles3/GLES3Texture.cpp:156-157 | resize moves bufferSize by new − old size, and does it again for a backup buffer, while initialize and destroy book textureSize | an 8×8 texture (64 bytes) grown to 16×16 (256 bytes) and destroyed: textureSize ends 192 below where it started and bufferSize 192 above | resize re-books textureSize, so initialize, resize and destroy balance | not executed | GLES3Texture.ResizeAsWrittenUnbalances | GLES3Texture.InitResizeDestroyBalanced |
| cocos/renderer/gfx-vulkan/VKContext.cpp:489-493 | the present-mode loop has no break, so the last supported mode wins; FIFO is last in every list and is always supported | vsync off on a surface supporting immediate and FIFO picks FIFO | the first supported mode in the priority list wins | not executed | VKContext.AsWrittenIgnoresImmediate | VKContext.PresentHonoursPreference |
