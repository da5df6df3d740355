/** `GLES2GPUStateCache` (cocos/renderer/gfx-gles2/GLES2GPUObjects.h): the
    GL state cache of the GLES2 backend, holding the GL state the device
    last set. */
module GpuStateCache {
  import opened Common

  /** The fixed-function state structs (value-initialised on reset). */
  datatype FixedDefaults<V, R, RS, DSS, BS> = FixedDefaults(viewport: V, scissor: R, rs: RS, dss: DSS, bs: BS)

  /** `GLES2ObjectCache`, without the attachment scratch array. */
  datatype ObjectCache = ObjectCache(numClearColors: nat, renderPass: Option<nat>, framebuffer: Option<nat>,
                                     pipelineState: Option<nat>, inputAssembler: Option<nat>,
                                     reverseCW: bool, glPrimitive: nat)

  /** `GLES2GPUStateCache`. GL object names are `nat` (0 is "none"). */
  datatype StateCache<V, R, RS, DSS, BS> = StateCache(
    glArrayBuffer: nat, glElementArrayBuffer: nat, glUniformBuffer: nat, glVAO: nat,
    texUnit: nat, glTextures: seq<nat>, glProgram: nat,
    glEnabledAttribLocs: seq<bool>, glCurrentAttribLocs: seq<bool>,
    glFramebuffer: nat, glReadFBO: nat,
    fixed: FixedDefaults<V, R, RS, DSS, BS>,
    isCullFaceEnabled: bool, isStencilTestEnabled: bool,
    texUnitCacheMap: map<string, nat>,
    objects: ObjectCache)

  /** `initialize(texUnits, vertexAttributes)`: size the slot tables,
      keeping the slots that survive and padding new ones with 0 / false. */
  function Initialize<V, R, RS, DSS, BS>(s: StateCache<V, R, RS, DSS, BS>, texUnits: nat, vertexAttributes: nat)
    : (r: StateCache<V, R, RS, DSS, BS>)
    ensures |r.glTextures| == texUnits && |r.glEnabledAttribLocs| == vertexAttributes
    ensures |r.glCurrentAttribLocs| == vertexAttributes
    ensures forall i :: |s.glTextures| <= i < texUnits ==> r.glTextures[i] == 0
    ensures forall i :: |s.glEnabledAttribLocs| <= i < vertexAttributes ==> !r.glEnabledAttribLocs[i]
    ensures forall i :: |s.glCurrentAttribLocs| <= i < vertexAttributes ==> !r.glCurrentAttribLocs[i]
    ensures forall i :: 0 <= i < Min(|s.glTextures|, texUnits) ==> r.glTextures[i] == s.glTextures[i]
    ensures forall i :: 0 <= i < Min(|s.glEnabledAttribLocs|, vertexAttributes) ==>
      r.glEnabledAttribLocs[i] == s.glEnabledAttribLocs[i]
    ensures forall i :: 0 <= i < Min(|s.glCurrentAttribLocs|, vertexAttributes) ==>
      r.glCurrentAttribLocs[i] == s.glCurrentAttribLocs[i]
    ensures r == s.(glTextures := r.glTextures, glEnabledAttribLocs := r.glEnabledAttribLocs,
                    glCurrentAttribLocs := r.glCurrentAttribLocs)
  {
    s.(glTextures := Resize(s.glTextures, texUnits, 0),
       glEnabledAttribLocs := Resize(s.glEnabledAttribLocs, vertexAttributes, false),
       glCurrentAttribLocs := Resize(s.glCurrentAttribLocs, vertexAttributes, false))
  }

  /** The cache as `reset` leaves it: every name zero, the slot tables
      zeroed at their current lengths, cull face on, stencil test off, the
      fixed-function structs at their defaults and the object cache empty.
      The texture-unit map is not touched. */
  ghost predicate IsReset<V, R, RS, DSS, BS>(r: StateCache<V, R, RS, DSS, BS>, d: FixedDefaults<V, R, RS, DSS, BS>) {
    && r.glArrayBuffer == 0 && r.glElementArrayBuffer == 0 && r.glUniformBuffer == 0 && r.glVAO == 0
    && r.texUnit == 0 && r.glProgram == 0 && r.glFramebuffer == 0 && r.glReadFBO == 0
    && (forall i :: 0 <= i < |r.glTextures| ==> r.glTextures[i] == 0)
    && (forall i :: 0 <= i < |r.glEnabledAttribLocs| ==> !r.glEnabledAttribLocs[i])
    && (forall i :: 0 <= i < |r.glCurrentAttribLocs| ==> !r.glCurrentAttribLocs[i])
    && r.isCullFaceEnabled && !r.isStencilTestEnabled
    && r.fixed == d
    && r.objects == ObjectCache(0, None, None, None, None, false, 0)
  }

  function Reset<V, R, RS, DSS, BS>(s: StateCache<V, R, RS, DSS, BS>, d: FixedDefaults<V, R, RS, DSS, BS>)
    : (r: StateCache<V, R, RS, DSS, BS>)
    ensures IsReset(r, d)
    ensures |r.glTextures| == |s.glTextures| && |r.glEnabledAttribLocs| == |s.glEnabledAttribLocs|
    ensures |r.glCurrentAttribLocs| == |s.glCurrentAttribLocs|
    ensures r.texUnitCacheMap == s.texUnitCacheMap
  {
    StateCache(0, 0, 0, 0, 0, seq(|s.glTextures|, _ => 0), 0,
      seq(|s.glEnabledAttribLocs|, _ => false), seq(|s.glCurrentAttribLocs|, _ => false),
      0, 0, d, true, false, s.texUnitCacheMap,
      ObjectCache(0, None, None, None, None, false, 0))
  }

  /** Resetting twice is resetting once. */
  lemma ResetIdempotent<V, R, RS, DSS, BS>(s: StateCache<V, R, RS, DSS, BS>, d: FixedDefaults<V, R, RS, DSS, BS>)
    ensures Reset(Reset(s, d), d) == Reset(s, d)
  {
  }
}
