/** `PipelineStateManager`: a process-wide memo of pipeline-state objects
    keyed by a 32-bit hash of the pass, render pass, input-assembler
    attributes and shader. The static `_PSOHashMap` is threaded through
    the calls as an explicit map. */
module PipelineStateManager {
  import opened Common

  /** A 32-bit `uint` hash, as a bit vector so that `^` is native. */
  type Hash = bv32

  /** The parts of a pass the pipeline state is built from. */
  datatype Pass = Pass(hash: Hash, pipelineLayout: nat, rasterizerState: nat, depthStencilState: nat,
                       blendState: nat, primitive: nat, dynamicStates: nat)

  /** A render pass and an input assembler, as far as the manager sees
      them: their hashes and the IA's attribute list. */
  datatype RenderPass = RenderPass(id: nat, hash: Hash)
  datatype InputAssembler = InputAssembler(attributesHash: Hash, attributes: seq<nat>)
  datatype Shader = Shader(id: Hash)

  /** The creation info handed to the device on a miss. */
  datatype PipelineStateInfo = PipelineStateInfo(shader: Shader, pipelineLayout: nat, renderPass: RenderPass,
                                                 attributes: seq<nat>, rasterizerState: nat,
                                                 depthStencilState: nat, blendState: nat, primitive: nat,
                                                 dynamicStates: nat)

  /** A created pipeline state: the device's handle and what it was made
      from. */
  datatype Pso = Pso(handle: nat, info: PipelineStateInfo)

  /** The memo, keyed by the numeric value of the hash. */
  type Cache = map<nat, Pso>

  /** The result of a lookup: the cache afterwards, the pipeline state
      returned, and the creation info passed to the device, if any. */
  datatype Lookup = Lookup(cache: Cache, pso: Pso, created: Option<PipelineStateInfo>)

  /** The cache key: the four hashes combined by exclusive or. */
  function Key(pass: Pass, shader: Shader, ia: InputAssembler, renderPass: RenderPass): Hash {
    pass.hash ^ renderPass.hash ^ ia.attributesHash ^ shader.id
  }

  /** The key as the memo's index. */
  function Slot(pass: Pass, shader: Shader, ia: InputAssembler, renderPass: RenderPass): nat {
    Key(pass, shader, ia, renderPass) as nat
  }

  /** The creation info a miss builds from its arguments. */
  function InfoFor(pass: Pass, shader: Shader, ia: InputAssembler, renderPass: RenderPass): PipelineStateInfo {
    PipelineStateInfo(shader, pass.pipelineLayout, renderPass, ia.attributes, pass.rasterizerState,
                      pass.depthStencilState, pass.blendState, pass.primitive, pass.dynamicStates)
  }

  /** `getOrCreatePipelineState`: the cached state under the key, or a new
      one (`handle` is what the device would return) stored under it. */
  function GetOrCreate(cache: Cache, pass: Pass, shader: Shader, ia: InputAssembler, renderPass: RenderPass,
                       handle: nat): (r: Lookup)
    ensures Slot(pass, shader, ia, renderPass) in r.cache
    ensures r.cache[Slot(pass, shader, ia, renderPass)] == r.pso
    ensures Slot(pass, shader, ia, renderPass) in cache ==>
      r == Lookup(cache, cache[Slot(pass, shader, ia, renderPass)], None)
    ensures Slot(pass, shader, ia, renderPass) !in cache ==>
      && r.created == Some(InfoFor(pass, shader, ia, renderPass))
      && r.pso == Pso(handle, r.created.value)
      && r.cache == cache[Slot(pass, shader, ia, renderPass) := r.pso]
    ensures forall k :: k in cache ==> k in r.cache && r.cache[k] == cache[k]
  {
    var key := Slot(pass, shader, ia, renderPass);
    if key in cache then Lookup(cache, cache[key], None)
    else
      var info := InfoFor(pass, shader, ia, renderPass);
      var pso := Pso(handle, info);
      Lookup(cache[key := pso], pso, Some(info))
  }

  /** A second identical request returns the first one's pipeline state and
      creates nothing, whatever handle the device would have produced. */
  lemma SecondCallHits(cache: Cache, pass: Pass, shader: Shader, ia: InputAssembler, renderPass: RenderPass,
                       h1: nat, h2: nat)
    ensures var first := GetOrCreate(cache, pass, shader, ia, renderPass, h1);
      GetOrCreate(first.cache, pass, shader, ia, renderPass, h2) == Lookup(first.cache, first.pso, None)
  {
  }

  /** Swapping the pass hash and the shader id leaves the key alone. */
  lemma KeyIgnoresOrder(pass: Pass, shader: Shader, ia: InputAssembler, renderPass: RenderPass)
    ensures Key(pass, shader, ia, renderPass) == Key(pass.(hash := shader.id), Shader(pass.hash), ia, renderPass)
  {
    XorSwap(pass.hash, renderPass.hash, ia.attributesHash, shader.id);
  }

  /** Any two requests whose keys agree share a pipeline state: the
      second gets the first one's state and creates nothing. */
  lemma EqualKeysShareState(cache: Cache, pass: Pass, shader: Shader, ia: InputAssembler, renderPass: RenderPass,
                            pass': Pass, shader': Shader, ia': InputAssembler, renderPass': RenderPass,
                            h1: nat, h2: nat)
    requires Key(pass, shader, ia, renderPass) == Key(pass', shader', ia', renderPass')
    ensures var first := GetOrCreate(cache, pass, shader, ia, renderPass, h1);
      GetOrCreate(first.cache, pass', shader', ia', renderPass', h2) == Lookup(first.cache, first.pso, None)
  {
  }

  /** Exclusive or of four words is invariant under swapping any two. */
  lemma XorSwap(a: Hash, b: Hash, c: Hash, d: Hash)
    ensures a ^ b ^ c ^ d == d ^ b ^ c ^ a
    ensures a ^ b ^ c ^ d == c ^ b ^ a ^ d
    ensures a ^ b ^ c ^ d == a ^ d ^ c ^ b
  {
  }

  /** Requests whose pass hash and shader id are swapped share a key, and
      hence a pipeline state: the second request gets the first one's
      state even though its shader differs. */
  lemma SwappedHashesShareState(cache: Cache, pass: Pass, shader: Shader, ia: InputAssembler,
                                renderPass: RenderPass, h1: nat, h2: nat)
    ensures var swappedPass := pass.(hash := shader.id);
      var swappedShader := Shader(pass.hash);
      var first := GetOrCreate(cache, pass, shader, ia, renderPass, h1);
      GetOrCreate(first.cache, swappedPass, swappedShader, ia, renderPass, h2).pso == first.pso
  {
    KeyIgnoresOrder(pass, shader, ia, renderPass);
    EqualKeysShareState(cache, pass, shader, ia, renderPass, pass.(hash := shader.id), Shader(pass.hash), ia,
                        renderPass, h1, h2);
  }

  /** `getOrCreatePipelineStateByJS`: the pass is looked up by its handle,
      which must resolve, and the request delegated. */
  function GetOrCreateByJS(cache: Cache, passes: map<nat, Pass>, passHandle: nat, shader: Shader,
                           ia: InputAssembler, renderPass: RenderPass, handle: nat): (r: Lookup)
    requires passHandle in passes
    ensures Slot(passes[passHandle], shader, ia, renderPass) in r.cache
    ensures r.cache[Slot(passes[passHandle], shader, ia, renderPass)] == r.pso
    ensures r.created.Some? <==> Slot(passes[passHandle], shader, ia, renderPass) !in cache
  {
    GetOrCreate(cache, passes[passHandle], shader, ia, renderPass, handle)
  }
}
