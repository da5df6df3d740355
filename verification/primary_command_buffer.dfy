/** The immediate GLES command buffer (GLES2PrimaryCommandBuffer and
    GLES3PrimaryCommandBuffer, identical but for the backend name). It keeps
    the state machine of the deferred buffer (begin, end, bind*, set* are
    inherited) but issues render-pass, draw and transfer work straight to the
    device. The device is modelled as the log of calls it receives. */
module PrimaryCommandBuffer {
  import opened Common
  import opened CommandPackage
  import opened DeferredCommandBuffer

  /** The `GLES2CmdFunc*` / `GLES3CmdFunc*` calls, with the arguments the
      command buffer chooses. */
  datatype DeviceCall =
    | BeginRenderPassCall(renderPass: Handle, fbo: Handle, renderArea: Rect, clearColors: seq<Color>,
                          clearDepth: real, clearStencil: int)
    | EndRenderPassCall
    | BindStateCall(pipeline: PipelineState, ia: Option<Handle>, descriptorSets: seq<Option<Handle>>,
                    dynamicOffsets: seq<u32>, fixed: FixedState)
    | DrawCall(draw: DrawInput)
    | UpdateBufferCall(buffer: Handle, data: Handle, offset: u32, size: u32)
    | CopyBuffersToTextureCall(buffers: Handle, texture: Handle, regions: Handle, count: u32)
    | ExecuteCmdsCall(package: Package)

  /** An immediate command buffer and everything it has sent to the device. */
  datatype Immediate = Immediate(cb: CommandBuffer, log: seq<DeviceCall>)

  /** `beginRenderPass`: no context check; enter the pass and clear every
      colour attachment of the pass. */
  function BeginRenderPass(p: Immediate, renderPass: Handle, colorAttachmentCount: nat, fbo: Handle,
                           area: Rect, colors: seq<Color>, depth: real, stencil: int): (r: Immediate)
    requires colorAttachmentCount <= |colors|
    ensures r.cb == p.cb.(inRenderPass := true)
    ensures r.log == p.log + [BeginRenderPassCall(renderPass, fbo, area, colors[..colorAttachmentCount], depth, stencil)]
  {
    Immediate(p.cb.(inRenderPass := true),
              p.log + [BeginRenderPassCall(renderPass, fbo, area, colors[..colorAttachmentCount], depth, stencil)])
  }

  /** `endRenderPass`: end the pass on the device, then leave it. */
  function EndRenderPass(p: Immediate): (r: Immediate)
    ensures r.cb == p.cb.(inRenderPass := false)
    ensures r.log == p.log + [EndRenderPassCall]
  {
    Immediate(p.cb.(inRenderPass := false), p.log + [EndRenderPassCall])
  }

  /** What an immediate dirty draw needs: the bound pipeline is dereferenced
      without a check, and its layout must hold the cached offsets. */
  ghost predicate CanBindImmediately(cb: CommandBuffer) {
    && cb.bound.pipeline.Some?
    && OffsetsFit(cb.bound.pipeline.value.layout.dynamicOffsetOffsets, |cb.bound.dynamicOffsets|,
                  |cb.bound.pipeline.value.layout.dynamicOffsets|)
  }

  /** The inline flush of a dirty draw: the cached offsets are copied into
      the layout's own (shared) flat list, which is then bound together with
      every cached object and value; the dirty flag is cleared. Positions no
      set covers keep whatever the list held before. */
  function FlushImmediately(p: Immediate): (r: Immediate)
    requires CanBindImmediately(p.cb)
    ensures !r.cb.stateInvalid && r.cb.bound.pipeline.Some?
    ensures var pso := p.cb.bound.pipeline.value;
      && r.cb.bound.pipeline.value == pso.(layout := pso.layout.(dynamicOffsets := r.cb.bound.pipeline.value.layout.dynamicOffsets))
      && r.cb == p.cb.(bound := p.cb.bound.(pipeline := r.cb.bound.pipeline), stateInvalid := false)
      && r.log == p.log + [BindStateCall(r.cb.bound.pipeline.value, p.cb.bound.ia, p.cb.bound.descriptorSets,
                                        r.cb.bound.pipeline.value.layout.dynamicOffsets, p.cb.bound.fixed)]
  {
    var pso := p.cb.bound.pipeline.value;
    var flat := Flatten(pso.layout.dynamicOffsets, pso.layout.dynamicOffsetOffsets, p.cb.bound.dynamicOffsets);
    var pso' := pso.(layout := pso.layout.(dynamicOffsets := flat));
    Immediate(p.cb.(bound := p.cb.bound.(pipeline := Some(pso')), stateInvalid := false),
              p.log + [BindStateCall(pso', p.cb.bound.ia, p.cb.bound.descriptorSets, flat, p.cb.bound.fixed)])
  }

  /** Issue the draw and count it; the immediate buffers always count with
      the index count. */
  function IssueDraw(p: Immediate, d: DrawInput): (r: Immediate)
    ensures r.log == p.log + [DrawCall(d)]
    ensures r.cb == p.cb.(stats := CountDraw(p.cb.stats, d.instanceCount, TrianglesOf(IndexCountOnly, p.cb.bound.pipeline, d)))
  {
    Immediate(p.cb.(stats := CountDraw(p.cb.stats, d.instanceCount, TrianglesOf(IndexCountOnly, p.cb.bound.pipeline, d))),
              p.log + [DrawCall(d)])
  }

  /** `draw`: rejected outside its context; otherwise flush dirty state
      inline, then draw. */
  function Draw(p: Immediate, d: DrawInput): (r: Immediate)
    requires DrawAccepted(p.cb) && p.cb.stateInvalid ==> CanBindImmediately(p.cb)
    ensures !DrawAccepted(p.cb) ==> r == p
    ensures DrawAccepted(p.cb) ==> !r.cb.stateInvalid && |r.log| > 0 && r.log[|r.log| - 1] == DrawCall(d)
    ensures DrawAccepted(p.cb) && !p.cb.stateInvalid ==> r == IssueDraw(p, d)
    ensures DrawAccepted(p.cb) && p.cb.stateInvalid ==> r == IssueDraw(FlushImmediately(p), d)
  {
    if !DrawAccepted(p.cb) then p
    else if p.cb.stateInvalid then IssueDraw(FlushImmediately(p), d)
    else IssueDraw(p, d)
  }

  /** `updateBuffer`: issued at offset 0 when accepted and the buffer has
      GPU storage. */
  function UpdateBuffer(p: Immediate, buffer: Option<Handle>, data: Handle, size: u32): (r: Immediate)
    ensures r.cb == p.cb
    ensures TransferAccepted(p.cb) && buffer.Some? ==> r.log == p.log + [UpdateBufferCall(buffer.value, data, 0, size)]
    ensures !(TransferAccepted(p.cb) && buffer.Some?) ==> r.log == p.log
  {
    if TransferAccepted(p.cb) && buffer.Some? then p.(log := p.log + [UpdateBufferCall(buffer.value, data, 0, size)])
    else p
  }

  /** `copyBuffersToTexture`: issued when accepted and the texture has GPU
      storage. */
  function CopyBuffersToTexture(p: Immediate, buffers: Handle, texture: Option<Handle>, regions: Handle, count: u32)
    : (r: Immediate)
    ensures r.cb == p.cb
    ensures TransferAccepted(p.cb) && texture.Some? ==>
      r.log == p.log + [CopyBuffersToTextureCall(buffers, texture.value, regions, count)]
    ensures !(TransferAccepted(p.cb) && texture.Some?) ==> r.log == p.log
  {
    if TransferAccepted(p.cb) && texture.Some? then
      p.(log := p.log + [CopyBuffersToTextureCall(buffers, texture.value, regions, count)])
    else p
  }

  /** The device calls of `execute`: one package execution per secondary
      buffer, its oldest pending package, in argument order. */
  function ExecuteCalls(ss: seq<CommandBuffer>): (r: seq<DeviceCall>)
    requires forall i :: 0 <= i < |ss| ==> |ss[i].pending| > 0
    ensures |r| == |ss|
    ensures forall i :: 0 <= i < |ss| ==> r[i] == ExecuteCmdsCall(ss[i].pending[0])
  {
    seq(|ss|, i requires 0 <= i < |ss| && |ss[i].pending| > 0 => ExecuteCmdsCall(ss[i].pending[0]))
  }

  /** `execute(cmdBuffs, count)`: run each secondary's oldest package on the
      device, add its statistics, and recycle the package. Every secondary
      must have a pending package (`execute` reads the front of the queue
      unchecked). */
  function Execute(p: Immediate, ss: seq<CommandBuffer>): (r: (Immediate, seq<CommandBuffer>))
    requires forall i :: 0 <= i < |ss| ==> Valid(ss[i]) && |ss[i].pending| > 0
    ensures r.0.log == p.log + ExecuteCalls(ss)
    ensures r.0.cb == p.cb.(stats := SumStats(p.cb.stats, ss))
    ensures |r.1| == |ss|
    ensures forall i :: 0 <= i < |ss| ==> r.1[i] == Recycle(ss[i])
  {
    (Immediate(p.cb.(stats := SumStats(p.cb.stats, ss)), p.log + ExecuteCalls(ss)), RecycleAll(ss))
  }

  /** A dirty draw binds exactly once, immediately before drawing; a clean
      one only draws. */
  lemma DrawBindsOnlyWhenDirty(p: Immediate, d: DrawInput)
    requires DrawAccepted(p.cb) && (p.cb.stateInvalid ==> CanBindImmediately(p.cb))
    ensures var r := Draw(p, d);
      && (p.cb.stateInvalid ==> |r.log| == |p.log| + 2 && r.log[|p.log|].BindStateCall?)
      && (!p.cb.stateInvalid ==> r.log == p.log + [DrawCall(d)])
      && r.log[..|p.log|] == p.log && r.log[|r.log| - 1] == DrawCall(d)
  {
  }

  /** The offsets the inline flush binds agree with the list a deferred
      BIND_STATES record would carry on every position some set covers;
      only uncovered positions can differ (stale layout contents against
      zeros). */
  lemma ImmediateOffsetsAgreeWithDeferred(p: Immediate)
    requires CanBindImmediately(p.cb)
    requires |p.cb.bound.pipeline.value.layout.dynamicOffsets| == p.cb.bound.pipeline.value.layout.dynamicOffsetCount
    ensures var layout := p.cb.bound.pipeline.value.layout;
      var imm := FlushImmediately(p).cb.bound.pipeline.value.layout.dynamicOffsets;
      var def := RecordedOffsets(p.cb);
      && |imm| == |def| == layout.dynamicOffsetCount
      && Delivers(imm, layout.dynamicOffsetOffsets, p.cb.bound.dynamicOffsets)
      && Delivers(def, layout.dynamicOffsetOffsets, p.cb.bound.dynamicOffsets)
  {
    var layout := p.cb.bound.pipeline.value.layout;
    FlattenSpec(layout.dynamicOffsets, layout.dynamicOffsetOffsets, p.cb.bound.dynamicOffsets);
    FlattenSpec(seq(layout.dynamicOffsetCount, _ => 0), layout.dynamicOffsetOffsets, p.cb.bound.dynamicOffsets);
  }
}
