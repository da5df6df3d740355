/** The deferred GLES command buffer (GLES2CommandBuffer and
    GLES3CommandBuffer, which share every line but the triangle counting of
    `draw`). Recording appends tags and pooled records to the current
    package; state binds are cached and flushed lazily as one BIND_STATES
    record before the next draw or at `end`. */
module DeferredCommandBuffer {
  import opened Common
  import CA = CachedArray
  import opened CommandPackage

  datatype Backend = GLES2 | GLES3
  datatype CommandBufferType = PRIMARY | SECONDARY

  datatype Primitive = TRIANGLES | TRIANGLE_STRIP | TRIANGLE_FAN | OTHER_PRIMITIVE

  /** The GPU pipeline layout as the command buffers see it: where each
      set's dynamic offsets start in the flat list, its length, and the
      layout's own flat list (written in place by the immediate draw). */
  datatype PipelineLayout = PipelineLayout(dynamicOffsetOffsets: seq<nat>,
                                           dynamicOffsetCount: nat,
                                           dynamicOffsets: seq<u32>)

  /** A GPU pipeline state; `id` is its identity (its address). */
  datatype PipelineState = PipelineState(id: Handle, primitive: Primitive, layout: PipelineLayout)

  /** What `draw` reads of an input assembler. */
  datatype DrawInput = DrawInput(ia: Handle, vertexCount: u32, indexCount: u32,
                                 instanceCount: u32, hasIndexBuffer: bool)

  datatype Rect = Rect(x: int, y: int, width: u32, height: u32)
  datatype Viewport = Viewport(left: int, top: int, width: u32, height: u32, minDepth: real, maxDepth: real)
  datatype Color = Color(x: real, y: real, z: real, w: real)
  datatype DepthBias = DepthBias(constant: real, clamp: real, slope: real)
  datatype DepthBounds = DepthBounds(minBounds: real, maxBounds: real)
  datatype StencilFace = FRONT | BACK | ALL
  datatype StencilWriteMask = StencilWriteMask(face: StencilFace, writeMask: u32)
  datatype StencilCompareMask = StencilCompareMask(face: StencilFace, reference: int, compareMask: u32)

  /** The fixed-function values cached between binds. */
  datatype FixedState = FixedState(viewport: Viewport, scissor: Rect, lineWidth: real,
                                   depthBias: DepthBias, blendConstants: Color,
                                   depthBounds: DepthBounds, stencilWriteMask: StencilWriteMask,
                                   stencilCompareMask: StencilCompareMask)

  /** The pooled command records. */
  datatype CmdRecord =
    | BeginRenderPassRecord(renderPass: Handle, fbo: Handle, renderArea: Rect,
                            clearColors: seq<Color>, clearDepth: real, clearStencil: int)
    | BindStatesRecord(pipeline: Option<PipelineState>, ia: Option<Handle>,
                       descriptorSets: seq<Option<Handle>>, dynamicOffsets: seq<u32>, fixed: FixedState)
    | DrawRecord(draw: DrawInput)
    | UpdateBufferRecord(buffer: Handle, data: Handle, size: u32)
    | CopyBufferToTextureRecord(buffers: Handle, texture: Handle, regions: Handle, count: u32)

  type CmdHeap = Heap<CmdRecord>

  /** The objects and values bound since the last flush. */
  datatype BoundState = BoundState(
    pipeline: Option<PipelineState>,
    ia: Option<Handle>,
    descriptorSets: seq<Option<Handle>>,
    dynamicOffsets: seq<seq<u32>>,
    fixed: FixedState)

  /** The statistics `numDrawCalls`, `numInstances`, `numTriangles`. */
  datatype Stats = Stats(drawCalls: u32, instances: u32, triangles: u32)

  datatype CommandBuffer = CommandBuffer(
    backend: Backend,
    cbType: CommandBufferType,
    cur: Package,
    pending: seq<Package>,
    free: seq<Package>,
    inRenderPass: bool,
    bound: BoundState,
    stateInvalid: bool,
    stats: Stats)

  /** One draw counted: a call, its instances and its triangles, each a
      wrapping `uint` sum. */
  function CountDraw(s: Stats, instances: u32, triangles: u32): (r: Stats)
    ensures r.drawCalls == AddU32(s.drawCalls, 1)
    ensures r.instances == AddU32(s.instances, instances)
    ensures r.triangles == AddU32(s.triangles, triangles)
  {
    Stats(AddU32(s.drawCalls, 1), AddU32(s.instances, instances), AddU32(s.triangles, triangles))
  }

  /** The statistics of `b` added to those of `a` (what `execute` does). */
  function AddStats(a: Stats, b: Stats): (r: Stats)
    ensures r.drawCalls == AddU32(a.drawCalls, b.drawCalls)
    ensures r.instances == AddU32(a.instances, b.instances)
    ensures r.triangles == AddU32(a.triangles, b.triangles)
  {
    Stats(AddU32(a.drawCalls, b.drawCalls), AddU32(a.instances, b.instances), AddU32(a.triangles, b.triangles))
  }

  /** Invariant of a command buffer: every package it owns is consistent,
      and there is one dynamic-offset list per descriptor-set slot. */
  ghost predicate Valid(cb: CommandBuffer) {
    && cb.cur.Valid()
    && AllValid(cb.pending)
    && AllValid(cb.free)
    && |cb.bound.descriptorSets| == |cb.bound.dynamicOffsets|
  }

  ghost predicate AllValid(ps: seq<Package>) {
    forall i :: 0 <= i < |ps| ==> ps[i].Valid()
  }

  /** Tolerance of `math::IsNotEqualF`; the properties below hold for any
      positive value. */
  const FLOAT_TOLERANCE: real := 0.000001

  predicate NotEqualF(a: real, b: real) {
    a - b > FLOAT_TOLERANCE || b - a > FLOAT_TOLERANCE
  }

  /** `initialize`: one descriptor-set slot and one dynamic-offset list per
      set of the device's binding mapping; line width 1; nothing recorded.
      `defaults` are the value-initialised Viewport, Rect, … structs. */
  function New(backend: Backend, cbType: CommandBufferType, setCount: nat, defaults: FixedState): (cb: CommandBuffer)
    ensures Valid(cb)
    ensures |cb.bound.descriptorSets| == setCount && forall i :: 0 <= i < setCount ==> cb.bound.descriptorSets[i].None?
    ensures forall i :: 0 <= i < setCount ==> cb.bound.dynamicOffsets[i] == []
    ensures cb.bound.fixed.lineWidth == 1.0 && !cb.inRenderPass && !cb.stateInvalid
    ensures Replay(cb.cur) == [] && cb.pending == [] && cb.free == []
    ensures cb.bound.pipeline.None? && cb.bound.ia.None?
    ensures cb.stats.drawCalls == 0 && cb.stats.instances == 0 && cb.stats.triangles == 0
  {
    CommandBuffer(backend, cbType, EmptyPackage(), [], [], false,
      BoundState(None, None, seq(setCount, _ => None), seq(setCount, _ => []), defaults.(lineWidth := 1.0)),
      false, Stats(0, 0, 0))
  }

  /** `begin`: forget recorded commands and bound objects, zero the
      statistics. The dirty flag, the render-pass flag, the fixed-function
      caches and the dynamic offsets survive. */
  function Begin(cb: CommandBuffer, heap: CmdHeap): (r: CommandBuffer)
    requires Valid(cb)
    ensures Valid(r)
    ensures Replay(r.cur) == []
    ensures r.bound.pipeline.None? && r.bound.ia.None?
    ensures |r.bound.descriptorSets| == |cb.bound.descriptorSets| && forall i :: 0 <= i < |r.bound.descriptorSets| ==> r.bound.descriptorSets[i].None?
    ensures r.stats.drawCalls == 0 && r.stats.instances == 0 && r.stats.triangles == 0
    ensures r.stateInvalid == cb.stateInvalid && r.inRenderPass == cb.inRenderPass
    ensures r.bound.fixed == cb.bound.fixed && r.bound.dynamicOffsets == cb.bound.dynamicOffsets
    ensures r.pending == cb.pending && r.free == cb.free
  {
    cb.(cur := ClearPackage(cb.cur),
        bound := cb.bound.(pipeline := None, ia := None,
                           descriptorSets := seq(|cb.bound.descriptorSets|, _ => None)),
        stats := Stats(0, 0, 0))
  }

  /** The bound pipeline's layout can receive the cached dynamic offsets:
      one start per set plus an end, non-decreasing, within the layout's
      offset count. */
  ghost predicate OffsetsFit(offs: seq<nat>, setCount: nat, size: nat) {
    && |offs| > setCount
    && (forall a, b :: 0 <= a <= b <= setCount ==> offs[a] <= offs[b])
    && offs[setCount] <= size
  }

  /** What BindStates needs to flush: a bound pipeline's layout must fit the
      cached offsets (an unbound pipeline needs nothing). */
  ghost predicate CanFlush(cb: CommandBuffer) {
    cb.bound.pipeline.Some? ==>
      OffsetsFit(cb.bound.pipeline.value.layout.dynamicOffsetOffsets, |cb.bound.dynamicOffsets|,
                 cb.bound.pipeline.value.layout.dynamicOffsetCount)
  }

  /** How many offsets of set `j` are copied: the set's range in the layout,
      but never more than were bound. */
  function CopyCount(offs: seq<nat>, cur: seq<seq<u32>>, j: nat): nat
    requires j < |cur| && j + 1 < |offs| && offs[j] <= offs[j + 1]
  {
    Min(offs[j + 1] - offs[j], |cur[j]|)
  }

  /** Position `p` is written by set `j`: `[offs[j], offs[j] + CopyCount(j))`. */
  predicate InCopy(offs: seq<nat>, cur: seq<seq<u32>>, j: nat, p: nat)
    requires j < |cur| && j + 1 < |offs| && offs[j] <= offs[j + 1]
  {
    offs[j] <= p < offs[j] + CopyCount(offs, cur, j)
  }

  /** Flatten the per-set dynamic offsets of sets `i..` into `dst`, one
      `memcpy` per set. */
  function FlattenFrom(dst: seq<u32>, offs: seq<nat>, cur: seq<seq<u32>>, i: nat): (r: seq<u32>)
    requires OffsetsFit(offs, |cur|, |dst|) && i <= |cur|
    ensures |r| == |dst|
    decreases |cur| - i
  {
    if i == |cur| then dst
    else
      var c := CopyCount(offs, cur, i);
      assert offs[i + 1] <= offs[|cur|];
      FlattenFrom(Overwrite(dst, offs[i], cur[i][..c]), offs, cur, i + 1)
  }

  /** Set `j` lands at `offs[j]`, clamped to its range; positions no set
      covers keep their old value. Later sets never overwrite earlier ones
      because the ranges are ordered. */
  lemma {:induction false} FlattenFromSpec(dst: seq<u32>, offs: seq<nat>, cur: seq<seq<u32>>, i: nat)
    requires OffsetsFit(offs, |cur|, |dst|) && i <= |cur|
    ensures var r := FlattenFrom(dst, offs, cur, i);
      && (forall j, k :: i <= j < |cur| && 0 <= k < CopyCount(offs, cur, j) ==> r[offs[j] + k] == cur[j][k])
      && (forall p :: 0 <= p < |dst| && (forall j :: i <= j < |cur| ==> !InCopy(offs, cur, j, p)) ==> r[p] == dst[p])
    decreases |cur| - i
  {
    if i < |cur| {
      var c := CopyCount(offs, cur, i);
      assert offs[i + 1] <= offs[|cur|];
      var d := Overwrite(dst, offs[i], cur[i][..c]);
      FlattenFromSpec(d, offs, cur, i + 1);
      var r := FlattenFrom(d, offs, cur, i + 1);
      assert r == FlattenFrom(dst, offs, cur, i);
      forall p | offs[i] <= p < offs[i] + c ensures r[p] == cur[i][p - offs[i]] {
        forall j | i + 1 <= j < |cur| ensures !InCopy(offs, cur, j, p) {
          assert offs[i + 1] <= offs[j];
        }
        assert d[p] == cur[i][..c][p - offs[i]];
      }
      forall p | 0 <= p < |dst| && (forall j :: i <= j < |cur| ==> !InCopy(offs, cur, j, p)) ensures r[p] == dst[p] {
        assert !InCopy(offs, cur, i, p);
      }
    }
  }

  /** The flattened dynamic offsets of a BIND_STATES record. */
  function Flatten(dst: seq<u32>, offs: seq<nat>, cur: seq<seq<u32>>): (r: seq<u32>)
    requires OffsetsFit(offs, |cur|, |dst|)
    ensures |r| == |dst|
  {
    FlattenFrom(dst, offs, cur, 0)
  }

  /** Every bound offset that fits its set's range sits at its place in
      the flat list `r`. */
  ghost predicate Delivers(r: seq<u32>, offs: seq<nat>, cur: seq<seq<u32>>)
    requires OffsetsFit(offs, |cur|, |r|)
  {
    forall j, k :: 0 <= j < |cur| && 0 <= k < CopyCount(offs, cur, j) ==>
      assert offs[j + 1] <= offs[|cur|]; r[offs[j] + k] == cur[j][k]
  }

  /** Flattening delivers every bound offset, and every position no set
      covers keeps its previous value. */
  lemma FlattenSpec(dst: seq<u32>, offs: seq<nat>, cur: seq<seq<u32>>)
    requires OffsetsFit(offs, |cur|, |dst|)
    ensures var r := Flatten(dst, offs, cur);
      && Delivers(r, offs, cur)
      && (forall p :: 0 <= p < |dst| && (forall j :: 0 <= j < |cur| ==> !InCopy(offs, cur, j, p)) ==> r[p] == dst[p])
  {
    FlattenFromSpec(dst, offs, cur, 0);
  }

  /** The dynamic offsets BindStates stores: empty without a pipeline,
      otherwise a fresh list of the layout's length with every set's
      offsets at its start. */
  function RecordedOffsets(cb: CommandBuffer): seq<u32>
    requires CanFlush(cb)
  {
    if cb.bound.pipeline.None? then []
    else
      var layout := cb.bound.pipeline.value.layout;
      Flatten(seq(layout.dynamicOffsetCount, _ => 0), layout.dynamicOffsetOffsets, cb.bound.dynamicOffsets)
  }

  /** Allocate `rec` from the pool and record it under tag `t`. */
  function Record(cb: CommandBuffer, heap: CmdHeap, t: GFXCmdType, rec: CmdRecord): (r: (CommandBuffer, CmdHeap))
    requires heap.Valid()
    requires Valid(cb) && t != END_RENDER_PASS
    ensures r.1.Valid()
    ensures Valid(r.0)
    ensures r.0 == cb.(cur := r.0.cur) && r.0.cur.cmds.elems == cb.cur.cmds.elems + [t]
    ensures heap.next in r.1.cmds && r.1.cmds[heap.next].rec == rec
    ensures r.1.cmds.Keys == heap.cmds.Keys + {heap.next} && r.1.next == heap.next + 1
    ensures forall h :: h in heap.cmds ==> r.1.cmds[h] == heap.cmds[h]
    ensures Replay(r.0.cur) == Replay(cb.cur) + [Step(t, Some(heap.next))]
  {
    var (heap', h) := Alloc(heap, rec);
    PushCmdReplay(cb.cur, t, h);
    (cb.(cur := PushCmd(cb.cur, t, h)), heap')
  }

  /** `BindStates`: snapshot the bound objects and cached state into one
      BIND_STATES record and clear the dirty flag. */
  function BindStates(cb: CommandBuffer, heap: CmdHeap): (r: (CommandBuffer, CmdHeap))
    requires heap.Valid()
    requires Valid(cb) && CanFlush(cb)
    ensures r.1.Valid()
    ensures Valid(r.0) && !r.0.stateInvalid
    ensures heap.next in r.1.cmds && r.1.cmds.Keys == heap.cmds.Keys + {heap.next} && r.1.next == heap.next + 1
    ensures r.1.cmds[heap.next].rec == BindStatesRecord(cb.bound.pipeline, cb.bound.ia, cb.bound.descriptorSets, RecordedOffsets(cb), cb.bound.fixed)
    ensures forall h :: h in heap.cmds ==> r.1.cmds[h] == heap.cmds[h]
    ensures Replay(r.0.cur) == Replay(cb.cur) + [Step(BIND_STATES, Some(heap.next))]
    ensures r.0 == cb.(cur := r.0.cur, stateInvalid := false) && r.0.cur.cmds.elems == cb.cur.cmds.elems + [BIND_STATES]
  {
    var rec := BindStatesRecord(cb.bound.pipeline, cb.bound.ia, cb.bound.descriptorSets, RecordedOffsets(cb), cb.bound.fixed);
    var r := Record(cb, heap, BIND_STATES, rec);
    (r.0.(stateInvalid := false), r.1)
  }

  /** Flush the cached state when it is dirty. */
  function Flush(cb: CommandBuffer, heap: CmdHeap): (r: (CommandBuffer, CmdHeap))
    requires heap.Valid()
    requires Valid(cb) && (cb.stateInvalid ==> CanFlush(cb))
    ensures r.1.Valid()
    ensures Valid(r.0) && !r.0.stateInvalid
    ensures heap.cmds.Keys <= r.1.cmds.Keys && r.1.next >= heap.next
    ensures !cb.stateInvalid ==> r == (cb, heap)
    ensures cb.stateInvalid ==> r == BindStates(cb, heap)
  {
    if cb.stateInvalid then BindStates(cb, heap) else (cb, heap)
  }

  /** Queue the current package as pending and continue on the oldest
      free package (or a new one), outside any render pass. */
  function Rotate(c: CommandBuffer): (r: CommandBuffer)
    requires Valid(c)
    ensures Valid(r) && !r.inRenderPass && r.stateInvalid == c.stateInvalid
    ensures r.pending == c.pending + [c.cur]
    ensures |c.free| > 0 ==> r.cur == c.free[0] && r.free == c.free[1..]
    ensures |c.free| == 0 ==> r.cur == EmptyPackage() && r.free == []
  {
    var pending := c.pending + [c.cur];
    assert AllValid(pending) by {
      forall i | 0 <= i < |pending| ensures pending[i].Valid() {
        if i < |c.pending| { assert pending[i] == c.pending[i]; }
      }
    }
    if |c.free| > 0 then
      c.(inRenderPass := false, pending := pending, cur := c.free[0], free := c.free[1..])
    else
      c.(inRenderPass := false, pending := pending, cur := EmptyPackage())
  }

  /** `end`: flush dirty state, leave the render pass, queue the current
      package as pending and continue on the oldest free package (or a new
      one). A recycled package is not cleared until the next `begin`. */
  function End(cb: CommandBuffer, heap: CmdHeap): (r: (CommandBuffer, CmdHeap))
    requires heap.Valid()
    requires Valid(cb) && (cb.stateInvalid ==> CanFlush(cb))
    ensures r.1.Valid()
    ensures Valid(r.0) && !r.0.inRenderPass && !r.0.stateInvalid
    ensures |r.0.pending| == |cb.pending| + 1 && r.0.pending == cb.pending + [r.0.pending[|cb.pending|]]
    ensures cb.stateInvalid ==> Replay(r.0.pending[|cb.pending|]) == Replay(cb.cur) + [Step(BIND_STATES, Some(heap.next))]
    ensures !cb.stateInvalid ==> r.0.pending[|cb.pending|] == cb.cur && r.1 == heap
    ensures |cb.free| > 0 ==> r.0.cur == cb.free[0] && r.0.free == cb.free[1..]
    ensures |cb.free| == 0 ==> r.0.cur == EmptyPackage() && r.0.free == []
  {
    var f := Flush(cb, heap);
    (Rotate(f.0), f.1)
  }

  /** `beginRenderPass`: enter the pass and record the clear values of
      every colour attachment of the pass. */
  function BeginRenderPass(cb: CommandBuffer, heap: CmdHeap, renderPass: Handle, colorAttachmentCount: nat,
                           fbo: Handle, area: Rect, colors: seq<Color>, depth: real, stencil: int)
    : (r: (CommandBuffer, CmdHeap))
    requires heap.Valid()
    requires Valid(cb) && colorAttachmentCount <= |colors|
    ensures r.1.Valid()
    ensures Valid(r.0) && r.0.inRenderPass
    ensures r.0 == cb.(cur := r.0.cur, inRenderPass := true)
    ensures Replay(r.0.cur) == Replay(cb.cur) + [Step(BEGIN_RENDER_PASS, Some(heap.next))]
    ensures heap.next in r.1.cmds && r.1.cmds[heap.next].rec.BeginRenderPassRecord?
    ensures r.1.cmds[heap.next].rec.clearColors == colors[..colorAttachmentCount]
  {
    var rec := BeginRenderPassRecord(renderPass, fbo, area, colors[..colorAttachmentCount], depth, stencil);
    var r := Record(cb, heap, BEGIN_RENDER_PASS, rec);
    (r.0.(inRenderPass := true), r.1)
  }

  /** `endRenderPass`: leave the pass; the tag carries no record. */
  function EndRenderPass(cb: CommandBuffer, heap: CmdHeap): (r: CommandBuffer)
    requires Valid(cb)
    ensures Valid(r) && !r.inRenderPass
    ensures r == cb.(cur := r.cur, inRenderPass := false)
    ensures Replay(r.cur) == Replay(cb.cur) + [Step(END_RENDER_PASS, None)]
  {
    PushEndReplay(cb.cur);
    cb.(inRenderPass := false, cur := PushEnd(cb.cur))
  }

  /** `bindPipelineState`: dirty only when a different pipeline is bound. */
  function BindPipelineState(cb: CommandBuffer, pso: PipelineState): (r: CommandBuffer)
    ensures r.bound.pipeline == Some(pso) || r == cb
    ensures r.stateInvalid <==> cb.stateInvalid || cb.bound.pipeline.None? || cb.bound.pipeline.value.id != pso.id
    ensures r == cb.(bound := cb.bound.(pipeline := r.bound.pipeline), stateInvalid := r.stateInvalid)
  {
    if cb.bound.pipeline.None? || cb.bound.pipeline.value.id != pso.id then
      cb.(bound := cb.bound.(pipeline := Some(pso)), stateInvalid := true)
    else cb
  }

  /** `bindDescriptorSet`: a different set dirties; any non-empty list of
      dynamic offsets replaces the set's list and always dirties. */
  function BindDescriptorSet(cb: CommandBuffer, setIndex: nat, ds: Handle, offsets: seq<u32>): (r: CommandBuffer)
    requires setIndex < |cb.bound.descriptorSets| == |cb.bound.dynamicOffsets|
    ensures r.bound.descriptorSets == cb.bound.descriptorSets[setIndex := Some(ds)]
    ensures r.bound.dynamicOffsets == if |offsets| > 0 then cb.bound.dynamicOffsets[setIndex := offsets] else cb.bound.dynamicOffsets
    ensures r.stateInvalid <==> cb.stateInvalid || cb.bound.descriptorSets[setIndex] != Some(ds) || |offsets| > 0
    ensures r == cb.(bound := cb.bound.(descriptorSets := r.bound.descriptorSets, dynamicOffsets := r.bound.dynamicOffsets),
                     stateInvalid := r.stateInvalid)
  {
    var c := if cb.bound.descriptorSets[setIndex] != Some(ds) then
      cb.(bound := cb.bound.(descriptorSets := cb.bound.descriptorSets[setIndex := Some(ds)]), stateInvalid := true) else cb;
    if |offsets| > 0 then c.(bound := c.bound.(dynamicOffsets := c.bound.dynamicOffsets[setIndex := offsets]), stateInvalid := true) else c
  }

  /** `bindInputAssembler`: always dirties. */
  function BindInputAssembler(cb: CommandBuffer, ia: Handle): (r: CommandBuffer)
    ensures r.bound.ia == Some(ia) && r.stateInvalid
    ensures r == cb.(bound := cb.bound.(ia := Some(ia)), stateInvalid := true)
  {
    cb.(bound := cb.bound.(ia := Some(ia)), stateInvalid := true)
  }

  /** `setViewport`: integral fields compared exactly, depths with the
      float tolerance. */
  predicate ViewportDiffers(a: Viewport, b: Viewport) {
    a.left != b.left || a.top != b.top || a.width != b.width || a.height != b.height
    || NotEqualF(a.minDepth, b.minDepth) || NotEqualF(a.maxDepth, b.maxDepth)
  }

  function SetViewport(cb: CommandBuffer, vp: Viewport): (r: CommandBuffer)
    ensures !ViewportDiffers(r.bound.fixed.viewport, vp)
    ensures r.stateInvalid <==> cb.stateInvalid || ViewportDiffers(cb.bound.fixed.viewport, vp)
    ensures ViewportDiffers(cb.bound.fixed.viewport, vp) ==> r.bound.fixed.viewport == vp
    ensures r == cb.(bound := cb.bound.(fixed := cb.bound.fixed.(viewport := r.bound.fixed.viewport)), stateInvalid := r.stateInvalid)
  {
    if ViewportDiffers(cb.bound.fixed.viewport, vp) then
      cb.(bound := cb.bound.(fixed := cb.bound.fixed.(viewport := vp)), stateInvalid := true)
    else cb
  }

  function SetScissor(cb: CommandBuffer, rect: Rect): (r: CommandBuffer)
    ensures r.bound.fixed.scissor == rect
    ensures r.stateInvalid <==> cb.stateInvalid || cb.bound.fixed.scissor != rect
    ensures r == cb.(bound := cb.bound.(fixed := cb.bound.fixed.(scissor := rect)), stateInvalid := r.stateInvalid)
  {
    if cb.bound.fixed.scissor != rect then cb.(bound := cb.bound.(fixed := cb.bound.fixed.(scissor := rect)), stateInvalid := true) else cb
  }

  function SetLineWidth(cb: CommandBuffer, width: real): (r: CommandBuffer)
    ensures !NotEqualF(r.bound.fixed.lineWidth, width)
    ensures r.stateInvalid <==> cb.stateInvalid || NotEqualF(cb.bound.fixed.lineWidth, width)
    ensures r == cb.(bound := cb.bound.(fixed := cb.bound.fixed.(lineWidth := r.bound.fixed.lineWidth)), stateInvalid := r.stateInvalid)
  {
    if NotEqualF(cb.bound.fixed.lineWidth, width) then
      cb.(bound := cb.bound.(fixed := cb.bound.fixed.(lineWidth := width)), stateInvalid := true)
    else cb
  }

  predicate DepthBiasDiffers(a: DepthBias, b: DepthBias) {
    NotEqualF(a.constant, b.constant) || NotEqualF(a.clamp, b.clamp) || NotEqualF(a.slope, b.slope)
  }

  function SetDepthBias(cb: CommandBuffer, constant: real, clamp: real, slope: real): (r: CommandBuffer)
    ensures !DepthBiasDiffers(r.bound.fixed.depthBias, DepthBias(constant, clamp, slope))
    ensures r.stateInvalid <==> cb.stateInvalid || DepthBiasDiffers(cb.bound.fixed.depthBias, DepthBias(constant, clamp, slope))
    ensures r == cb.(bound := cb.bound.(fixed := cb.bound.fixed.(depthBias := r.bound.fixed.depthBias)), stateInvalid := r.stateInvalid)
  {
    var b := DepthBias(constant, clamp, slope);
    if DepthBiasDiffers(cb.bound.fixed.depthBias, b) then cb.(bound := cb.bound.(fixed := cb.bound.fixed.(depthBias := b)), stateInvalid := true) else cb
  }

  predicate ColorDiffers(a: Color, b: Color) {
    NotEqualF(a.x, b.x) || NotEqualF(a.y, b.y) || NotEqualF(a.z, b.z) || NotEqualF(a.w, b.w)
  }

  function SetBlendConstants(cb: CommandBuffer, c: Color): (r: CommandBuffer)
    ensures !ColorDiffers(r.bound.fixed.blendConstants, c)
    ensures r.stateInvalid <==> cb.stateInvalid || ColorDiffers(cb.bound.fixed.blendConstants, c)
    ensures r == cb.(bound := cb.bound.(fixed := cb.bound.fixed.(blendConstants := r.bound.fixed.blendConstants)), stateInvalid := r.stateInvalid)
  {
    if ColorDiffers(cb.bound.fixed.blendConstants, c) then cb.(bound := cb.bound.(fixed := cb.bound.fixed.(blendConstants := c)), stateInvalid := true) else cb
  }

  predicate DepthBoundsDiffer(a: DepthBounds, b: DepthBounds) {
    NotEqualF(a.minBounds, b.minBounds) || NotEqualF(a.maxBounds, b.maxBounds)
  }

  function SetDepthBound(cb: CommandBuffer, minBounds: real, maxBounds: real): (r: CommandBuffer)
    ensures !DepthBoundsDiffer(r.bound.fixed.depthBounds, DepthBounds(minBounds, maxBounds))
    ensures r.stateInvalid <==> cb.stateInvalid || DepthBoundsDiffer(cb.bound.fixed.depthBounds, DepthBounds(minBounds, maxBounds))
    ensures r == cb.(bound := cb.bound.(fixed := cb.bound.fixed.(depthBounds := r.bound.fixed.depthBounds)), stateInvalid := r.stateInvalid)
  {
    var b := DepthBounds(minBounds, maxBounds);
    if DepthBoundsDiffer(cb.bound.fixed.depthBounds, b) then cb.(bound := cb.bound.(fixed := cb.bound.fixed.(depthBounds := b)), stateInvalid := true) else cb
  }

  function SetStencilWriteMask(cb: CommandBuffer, face: StencilFace, mask: u32): (r: CommandBuffer)
    ensures r.bound.fixed.stencilWriteMask == StencilWriteMask(face, mask)
    ensures r.stateInvalid <==> cb.stateInvalid || cb.bound.fixed.stencilWriteMask != StencilWriteMask(face, mask)
    ensures r == cb.(bound := cb.bound.(fixed := cb.bound.fixed.(stencilWriteMask := StencilWriteMask(face, mask))), stateInvalid := r.stateInvalid)
  {
    var m := StencilWriteMask(face, mask);
    if cb.bound.fixed.stencilWriteMask != m then cb.(bound := cb.bound.(fixed := cb.bound.fixed.(stencilWriteMask := m)), stateInvalid := true) else cb
  }

  function SetStencilCompareMask(cb: CommandBuffer, face: StencilFace, reference: int, mask: u32): (r: CommandBuffer)
    ensures r.bound.fixed.stencilCompareMask == StencilCompareMask(face, reference, mask)
    ensures r.stateInvalid <==> cb.stateInvalid || cb.bound.fixed.stencilCompareMask != StencilCompareMask(face, reference, mask)
    ensures r == cb.(bound := cb.bound.(fixed := cb.bound.fixed.(stencilCompareMask := StencilCompareMask(face, reference, mask))), stateInvalid := r.stateInvalid)
  {
    var m := StencilCompareMask(face, reference, mask);
    if cb.bound.fixed.stencilCompareMask != m then cb.(bound := cb.bound.(fixed := cb.bound.fixed.(stencilCompareMask := m)), stateInvalid := true) else cb
  }

  /** Draws are recorded inside a render pass of a primary buffer, or
      anywhere in a secondary one. */
  predicate DrawAccepted(cb: CommandBuffer) {
    (cb.cbType == PRIMARY && cb.inRenderPass) || cb.cbType == SECONDARY
  }

  /** Transfers are recorded outside a render pass of a primary buffer, or
      anywhere in a secondary one. */
  predicate TransferAccepted(cb: CommandBuffer) {
    (cb.cbType == PRIMARY && !cb.inRenderPass) || cb.cbType == SECONDARY
  }

  /** Which count the triangle statistics divide. */
  datatype TriangleRule = VertexOrIndexCount | IndexCountOnly

  /** The deferred GLES2 buffer counts vertices when there is no index
      buffer; GLES3 and both immediate buffers always read the index count. */
  function DeferredRule(b: Backend): TriangleRule {
    if b == GLES2 then VertexOrIndexCount else IndexCountOnly
  }

  /** Triangles a draw adds: the exact count of the draw's topology,
      reduced modulo 2^32 as the `uint` arithmetic does. A list adds a
      third of its counted elements per instance (at least one instance);
      a strip or fan adds two fewer than its counted elements, wrapping
      below two. */
  function TrianglesOf(rule: TriangleRule, pipeline: Option<PipelineState>, d: DrawInput): (r: u32)
    ensures pipeline.None? ==> r == 0
    ensures pipeline.Some? && pipeline.value.primitive == OTHER_PRIMITIVE ==> r == 0
    ensures pipeline.Some? && pipeline.value.primitive == TRIANGLES && (rule == IndexCountOnly || d.hasIndexBuffer) ==>
      r == d.indexCount / 3 * Max(d.instanceCount, 1) % U32_LIMIT
    ensures pipeline.Some? && pipeline.value.primitive == TRIANGLES && rule == VertexOrIndexCount && !d.hasIndexBuffer ==>
      r == d.vertexCount / 3 * Max(d.instanceCount, 1) % U32_LIMIT
    ensures pipeline.Some? && pipeline.value.primitive in {TRIANGLE_STRIP, TRIANGLE_FAN} && rule == VertexOrIndexCount ==>
      r == (d.vertexCount - 2) * Max(d.instanceCount, 1) % U32_LIMIT
    ensures pipeline.Some? && pipeline.value.primitive in {TRIANGLE_STRIP, TRIANGLE_FAN} && rule == IndexCountOnly ==>
      r == (d.indexCount - 2) * Max(d.instanceCount, 1) % U32_LIMIT
  {
    var instances: u32 := if d.instanceCount >= 1 then d.instanceCount else 1;
    var count: u32 := if rule == VertexOrIndexCount && !d.hasIndexBuffer then d.vertexCount else d.indexCount;
    var stripCount: u32 := if rule == VertexOrIndexCount then d.vertexCount else d.indexCount;
    if pipeline.None? then 0
    else match pipeline.value.primitive
      case TRIANGLES => MulU32(count / 3, instances)
      case TRIANGLE_STRIP => WrapThenMultiply(stripCount - 2, instances); MulU32(SubU32(stripCount, 2), instances)
      case TRIANGLE_FAN => WrapThenMultiply(stripCount - 2, instances); MulU32(SubU32(stripCount, 2), instances)
      case OTHER_PRIMITIVE => 0
  }

  /** Wrapping a factor before a wrapping multiplication changes nothing. */
  lemma WrapThenMultiply(a: int, b: nat)
    ensures (a % U32_LIMIT) * b % U32_LIMIT == a * b % U32_LIMIT
  {
    var q := a / U32_LIMIT;
    assert a * b == (a % U32_LIMIT) * b + U32_LIMIT * (q * b) by {
      assert a == U32_LIMIT * q + a % U32_LIMIT;
    }
  }

  /** Record one DRAW and count it in the statistics. */
  function AppendDraw(cb: CommandBuffer, heap: CmdHeap, d: DrawInput): (r: (CommandBuffer, CmdHeap))
    requires heap.Valid() && Valid(cb)
    ensures r.1.Valid() && Valid(r.0)
    ensures Replay(r.0.cur) == Replay(cb.cur) + [Step(DRAW, Some(heap.next))]
    ensures r.0.cur.cmds.elems == cb.cur.cmds.elems + [DRAW]
    ensures heap.next in r.1.cmds && r.1.cmds[heap.next].rec == DrawRecord(d) && r.1.next == heap.next + 1
    ensures forall h :: h in heap.cmds ==> h in r.1.cmds && r.1.cmds[h] == heap.cmds[h]
    ensures r.0.stats == CountDraw(cb.stats, d.instanceCount, TrianglesOf(DeferredRule(cb.backend), cb.bound.pipeline, d))
    ensures r.0 == cb.(cur := r.0.cur, stats := r.0.stats)
  {
    var t := Record(cb, heap, DRAW, DrawRecord(d));
    var c := t.0;
    (c.(stats := CountDraw(c.stats, d.instanceCount, TrianglesOf(DeferredRule(c.backend), c.bound.pipeline, d))), t.1)
  }

  /** A draw with dirty state: one BIND_STATES snapshot, then the draw. */
  function FlushAndDraw(cb: CommandBuffer, heap: CmdHeap, d: DrawInput): (r: (CommandBuffer, CmdHeap))
    requires heap.Valid() && Valid(cb) && cb.stateInvalid && CanFlush(cb)
    ensures r.1.Valid() && Valid(r.0) && !r.0.stateInvalid
    ensures r.0.cur.cmds.elems == cb.cur.cmds.elems + [BIND_STATES] + [DRAW]
    ensures Replay(r.0.cur) == Replay(cb.cur) + [Step(BIND_STATES, Some(heap.next))] + [Step(DRAW, Some(heap.next + 1))]
    ensures heap.next in r.1.cmds &&
      r.1.cmds[heap.next].rec == BindStatesRecord(cb.bound.pipeline, cb.bound.ia, cb.bound.descriptorSets, RecordedOffsets(cb), cb.bound.fixed)
    ensures r.0.stats == CountDraw(cb.stats, d.instanceCount, TrianglesOf(DeferredRule(cb.backend), cb.bound.pipeline, d))
    ensures r.0 == cb.(cur := r.0.cur, stateInvalid := false, stats := r.0.stats)
  {
    var f := BindStates(cb, heap);
    var r := AppendDraw(f.0, f.1, d);
    r
  }

  /** The part of `draw` past the context check: flush dirty state, then
      record the draw and update the statistics. */
  function RecordDraw(cb: CommandBuffer, heap: CmdHeap, d: DrawInput): (r: (CommandBuffer, CmdHeap))
    requires heap.Valid() && Valid(cb) && (cb.stateInvalid ==> CanFlush(cb))
    ensures r.1.Valid() && Valid(r.0) && !r.0.stateInvalid
    ensures r.0.cur.cmds.elems == if cb.stateInvalid then cb.cur.cmds.elems + [BIND_STATES] + [DRAW] else cb.cur.cmds.elems + [DRAW]
    ensures r.0.stats == CountDraw(cb.stats, d.instanceCount, TrianglesOf(DeferredRule(cb.backend), cb.bound.pipeline, d))
    ensures r.0 == cb.(cur := r.0.cur, stateInvalid := false, stats := r.0.stats)
  {
    if cb.stateInvalid then FlushAndDraw(cb, heap, d) else AppendDraw(cb, heap, d)
  }

  /** `draw`: rejected outside its recording context (only logged). */
  function Draw(cb: CommandBuffer, heap: CmdHeap, d: DrawInput): (r: (CommandBuffer, CmdHeap))
    requires heap.Valid()
    requires Valid(cb) && (DrawAccepted(cb) && cb.stateInvalid ==> CanFlush(cb))
    ensures r.1.Valid()
    ensures Valid(r.0)
    ensures !DrawAccepted(cb) ==> r == (cb, heap)
    ensures DrawAccepted(cb) ==> r == RecordDraw(cb, heap, d)
    ensures DrawAccepted(cb) ==>
      && DrawAccepted(r.0) && !r.0.stateInvalid
      && r.0.cur.cmds.elems == if cb.stateInvalid then cb.cur.cmds.elems + [BIND_STATES] + [DRAW] else cb.cur.cmds.elems + [DRAW]
  {
    if !DrawAccepted(cb) then (cb, heap) else RecordDraw(cb, heap, d)
  }

  /** `updateBuffer`: a buffer without GPU storage (`None`) is skipped. */
  function UpdateBuffer(cb: CommandBuffer, heap: CmdHeap, buffer: Option<Handle>, data: Handle, size: u32)
    : (r: (CommandBuffer, CmdHeap))
    requires heap.Valid()
    requires Valid(cb)
    ensures r.1.Valid()
    ensures Valid(r.0)
    ensures !TransferAccepted(cb) || buffer.None? ==> r == (cb, heap)
    ensures TransferAccepted(cb) && buffer.Some? ==>
      && r.0 == cb.(cur := r.0.cur)
      && Replay(r.0.cur) == Replay(cb.cur) + [Step(UPDATE_BUFFER, Some(heap.next))]
      && heap.next in r.1.cmds && r.1.cmds[heap.next].rec == UpdateBufferRecord(buffer.value, data, size)
  {
    if !TransferAccepted(cb) || buffer.None? then (cb, heap)
    else Record(cb, heap, UPDATE_BUFFER, UpdateBufferRecord(buffer.value, data, size))
  }

  /** `copyBuffersToTexture`: a texture without GPU storage is skipped. */
  function CopyBuffersToTexture(cb: CommandBuffer, heap: CmdHeap, buffers: Handle, texture: Option<Handle>,
                                regions: Handle, count: u32): (r: (CommandBuffer, CmdHeap))
    requires heap.Valid()
    requires Valid(cb)
    ensures r.1.Valid()
    ensures Valid(r.0)
    ensures !TransferAccepted(cb) || texture.None? ==> r == (cb, heap)
    ensures TransferAccepted(cb) && texture.Some? ==>
      && r.0 == cb.(cur := r.0.cur)
      && Replay(r.0.cur) == Replay(cb.cur) + [Step(COPY_BUFFER_TO_TEXTURE, Some(heap.next))]
      && heap.next in r.1.cmds
      && r.1.cmds[heap.next].rec == CopyBufferToTextureRecord(buffers, texture.value, regions, count)
  {
    if !TransferAccepted(cb) || texture.None? then (cb, heap)
    else Record(cb, heap, COPY_BUFFER_TO_TEXTURE, CopyBufferToTextureRecord(buffers, texture.value, regions, count))
  }

  /** What `execute` does to the primary buffer for one secondary buffer:
      splice the secondary's oldest pending package into the current
      package, sharing (and reference-counting) its records, and add the
      secondary's statistics. */
  function SpliceFront(p: CommandBuffer, s: CommandBuffer, heap: CmdHeap): (r: (CommandBuffer, CmdHeap))
    requires heap.Valid() && Valid(p) && Valid(s) && |s.pending| > 0
    ensures r.1.Valid() && Valid(r.0)
    ensures r.1.cmds.Keys == heap.cmds.Keys && r.1.next == heap.next
    ensures Replay(r.0.cur) == Replay(p.cur) + Replay(s.pending[0])
    ensures forall h :: h in heap.cmds ==>
      r.1.cmds[h] == heap.cmds[h].(refCount := heap.cmds[h].refCount + multiset(s.pending[0].AllRecords())[h])
    ensures r.0 == p.(cur := r.0.cur, stats := AddStats(p.stats, s.stats))
  {
    var pkg := s.pending[0];
    SpliceReplay(p.cur, pkg);
    (p.(cur := Splice(p.cur, pkg),
        stats := AddStats(p.stats, s.stats)),
     BumpAll(heap, pkg.AllRecords()))
  }

  /** What `execute` does to a secondary buffer: its oldest pending package
      moves to the back of its free list. */
  function Recycle(s: CommandBuffer): (r: CommandBuffer)
    requires Valid(s) && |s.pending| > 0
    ensures Valid(r)
    ensures |r.pending| == |s.pending| - 1 && forall i :: 0 <= i < |r.pending| ==> r.pending[i] == s.pending[i + 1]
    ensures r.free == s.free + [s.pending[0]]
    ensures r == s.(pending := r.pending, free := r.free)
  {
    s.(pending := s.pending[1..], free := s.free + [s.pending[0]])
  }

  /** Replay of the packages `execute` splices, in argument order. */
  function FrontReplay(ss: seq<CommandBuffer>): seq<Step>
    requires forall i :: 0 <= i < |ss| ==> |ss[i].pending| > 0
    decreases |ss|
  {
    if |ss| == 0 then [] else FrontReplay(ss[..|ss| - 1]) + Replay(ss[|ss| - 1].pending[0])
  }

  /** The pooled records of the packages `execute` splices, in argument
      order: each gains one reference per occurrence. */
  function FrontRecords(ss: seq<CommandBuffer>): seq<Handle>
    requires forall i :: 0 <= i < |ss| ==> |ss[i].pending| > 0
    decreases |ss|
  {
    if |ss| == 0 then [] else FrontRecords(ss[..|ss| - 1]) + ss[|ss| - 1].pending[0].AllRecords()
  }

  /** The statistics of `ss` summed onto `s`, in argument order. */
  function SumStats(s: Stats, ss: seq<CommandBuffer>): (r: Stats)
    decreases |ss|
  {
    if |ss| == 0 then s else AddStats(SumStats(s, ss[..|ss| - 1]), ss[|ss| - 1].stats)
  }

  /** The statistics `execute` adds are those of the secondaries, summed
      with 32-bit wrap-around: executing `a` then `b` equals executing
      `a + b`. */
  lemma {:induction false} SumStatsAppend(s: Stats, a: seq<CommandBuffer>, b: seq<CommandBuffer>)
    ensures SumStats(s, a + b) == SumStats(SumStats(s, a), b)
    decreases |b|
  {
    if |b| == 0 {
      assert a + b == a;
    } else {
      var n := |b| - 1;
      assert (a + b)[..|a + b| - 1] == a + b[..n];
      SumStatsAppend(s, a, b[..n]);
    }
  }

  /** The primary side of `execute(cmdBuffs, count)`: each secondary buffer
      in turn. */
  function SpliceAll(p: CommandBuffer, ss: seq<CommandBuffer>, heap: CmdHeap): (r: (CommandBuffer, CmdHeap))
    requires heap.Valid() && Valid(p)
    requires forall i :: 0 <= i < |ss| ==> Valid(ss[i]) && |ss[i].pending| > 0
    ensures r.1.Valid() && Valid(r.0)
    ensures r.1.cmds.Keys == heap.cmds.Keys && r.1.next == heap.next
    ensures Replay(r.0.cur) == Replay(p.cur) + FrontReplay(ss)
    ensures r.0 == p.(cur := r.0.cur, stats := SumStats(p.stats, ss))
    ensures r.1 == BumpAll(heap, FrontRecords(ss))
    decreases |ss|
  {
    if |ss| == 0 then (p, heap)
    else
      var n := |ss| - 1;
      var front := ss[..n];
      assert forall i :: 0 <= i < |front| ==> front[i] == ss[i];
      var e := SpliceAll(p, front, heap);
      var o := SpliceFront(e.0, ss[n], e.1);
      assert FrontReplay(ss) == FrontReplay(front) + Replay(ss[n].pending[0]);
      assert SumStats(p.stats, ss) == AddStats(SumStats(p.stats, front), ss[n].stats);
      AppendAssoc(Replay(p.cur), FrontReplay(front), Replay(ss[n].pending[0]));
      assert FrontRecords(ss) == FrontRecords(front) + ss[n].pending[0].AllRecords();
      BumpAllAppend(heap, FrontRecords(front), ss[n].pending[0].AllRecords());
      o
  }

  /** Splicing the secondaries adds one reference to every pooled record
      per occurrence in the spliced packages. */
  lemma SpliceAllBumps(p: CommandBuffer, ss: seq<CommandBuffer>, heap: CmdHeap)
    requires heap.Valid() && Valid(p)
    requires forall i :: 0 <= i < |ss| ==> Valid(ss[i]) && |ss[i].pending| > 0
    ensures var after := SpliceAll(p, ss, heap).1;
      forall h :: h in heap.cmds ==>
        after.cmds[h] == heap.cmds[h].(refCount := heap.cmds[h].refCount + multiset(FrontRecords(ss))[h])
  {
  }

  /** The secondary side of `execute(cmdBuffs, count)`. The buffers are
      distinct objects. */
  function RecycleAll(ss: seq<CommandBuffer>): (r: seq<CommandBuffer>)
    requires forall i :: 0 <= i < |ss| ==> Valid(ss[i]) && |ss[i].pending| > 0
    ensures |r| == |ss| && forall i :: 0 <= i < |ss| ==> r[i] == Recycle(ss[i])
  {
    seq(|ss|, i requires 0 <= i < |ss| && Valid(ss[i]) && |ss[i].pending| > 0 => Recycle(ss[i]))
  }

  /** `execute(cmdBuffs, count)`: the updated primary, secondaries and pool. */
  function Execute(p: CommandBuffer, ss: seq<CommandBuffer>, heap: CmdHeap): (r: (CommandBuffer, seq<CommandBuffer>, CmdHeap))
    requires heap.Valid() && Valid(p)
    requires forall i :: 0 <= i < |ss| ==> Valid(ss[i]) && |ss[i].pending| > 0
    ensures r.2.Valid() && Valid(r.0) && r.2.cmds.Keys == heap.cmds.Keys
    ensures r.0.stats == SumStats(p.stats, ss)
    ensures Replay(r.0.cur) == Replay(p.cur) + FrontReplay(ss)
    ensures forall h :: h in heap.cmds ==>
      r.2.cmds[h] == heap.cmds[h].(refCount := heap.cmds[h].refCount + multiset(FrontRecords(ss))[h])
    ensures |r.1| == |ss| && forall i :: 0 <= i < |ss| ==> Valid(r.1[i]) && |r.1[i].pending| == |ss[i].pending| - 1
  {
    var e := SpliceAll(p, ss, heap);
    SpliceAllBumps(p, ss, heap);
    (e.0, RecycleAll(ss), e.1)
  }

  /** Two draws with no state change in between record one BIND_STATES
      and two DRAWs; the second draw binds nothing. */
  lemma TwoDrawsOneBind(cb: CommandBuffer, heap: CmdHeap, d1: DrawInput, d2: DrawInput)
    requires Valid(cb) && heap.Valid() && DrawAccepted(cb) && cb.stateInvalid && CanFlush(cb)
    ensures var r1 := Draw(cb, heap, d1);
      var r2 := Draw(r1.0, r1.1, d2);
      && r2.0.cur.cmds.elems == cb.cur.cmds.elems + [BIND_STATES] + [DRAW] + [DRAW]
      && !r2.0.stateInvalid
  {
  }

  /** A primary buffer accepts draws exactly inside a render pass and
      transfers exactly outside one; a secondary buffer accepts both. */
  lemma RenderPassGates(cb: CommandBuffer, heap: CmdHeap, renderPass: Handle, n: nat, fbo: Handle,
                        area: Rect, colors: seq<Color>, depth: real, stencil: int)
    requires Valid(cb) && heap.Valid() && cb.cbType == PRIMARY && n <= |colors|
    ensures var inside := BeginRenderPass(cb, heap, renderPass, n, fbo, area, colors, depth, stencil).0;
      DrawAccepted(inside) && !TransferAccepted(inside)
      && !DrawAccepted(EndRenderPass(inside, BeginRenderPass(cb, heap, renderPass, n, fbo, area, colors, depth, stencil).1))
      && TransferAccepted(EndRenderPass(inside, BeginRenderPass(cb, heap, renderPass, n, fbo, area, colors, depth, stencil).1))
  {
  }

  /** With an index buffer and a triangle list the two backends agree;
      without one, GLES2 counts vertices and GLES3 indices. */
  lemma TriangleRulesAgreeWithIndexBuffer(pso: PipelineState, d: DrawInput)
    requires pso.primitive == TRIANGLES && d.hasIndexBuffer
    ensures TrianglesOf(DeferredRule(GLES2), Some(pso), d) == TrianglesOf(DeferredRule(GLES3), Some(pso), d)
  {
  }

  /** A list adds a third of its counted elements per instance while no
      32-bit overflow occurs: the index count with an index buffer or under
      GLES3, the vertex count without one under deferred GLES2. */
  lemma TriangleListCount(rule: TriangleRule, pso: PipelineState, d: DrawInput)
    requires pso.primitive == TRIANGLES
    ensures var k := Max(d.instanceCount, 1);
      (rule == IndexCountOnly || d.hasIndexBuffer) && d.indexCount / 3 * k < U32_LIMIT ==>
        TrianglesOf(rule, Some(pso), d) == d.indexCount / 3 * k
    ensures var k := Max(d.instanceCount, 1);
      rule == VertexOrIndexCount && !d.hasIndexBuffer && d.vertexCount / 3 * k < U32_LIMIT ==>
        TrianglesOf(rule, Some(pso), d) == d.vertexCount / 3 * k
  {
  }

  /** A strip or fan of c >= 2 counted elements adds c - 2 triangles per
      instance while no overflow occurs; with fewer than two the
      subtraction wraps, so the statistics jump to just below 2^32. */
  lemma StripFanCount(rule: TriangleRule, pso: PipelineState, d: DrawInput)
    requires pso.primitive == TRIANGLE_STRIP || pso.primitive == TRIANGLE_FAN
    ensures var c := if rule == VertexOrIndexCount then d.vertexCount else d.indexCount;
      var k := Max(d.instanceCount, 1);
      && (c >= 2 && (c - 2) * k < U32_LIMIT ==> TrianglesOf(rule, Some(pso), d) == (c - 2) * k)
      && (c < 2 && (2 - c) * k <= U32_LIMIT ==> TrianglesOf(rule, Some(pso), d) == U32_LIMIT - (2 - c) * k)
  {
  }

  /** Under the index-count rule a single-instance strip with fewer than two
      indices wraps: one index counts 2^32 - 1 triangles and none 2^32 - 2. */
  lemma StripUnderflowWraps(pso: PipelineState, d: DrawInput)
    requires pso.primitive == TRIANGLE_STRIP && d.indexCount <= 1 && d.instanceCount <= 1
    ensures d.indexCount == 1 ==> TrianglesOf(IndexCountOnly, Some(pso), d) == UINT_MAX
    ensures d.indexCount == 0 ==> TrianglesOf(IndexCountOnly, Some(pso), d) == UINT_MAX - 1
  {
  }
}
