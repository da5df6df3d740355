/** `GLES2GPUUniform` (cocos/renderer/gfx-gles2/GLES2GPUObjects.h): a
    uniform's metadata and its owned CPU buffer, with their copy
    semantics. */
module GpuUniform {
  import opened Common

  /** `GLES2GPUUniform`; `buff` is the owned CPU copy (`None` for null). */
  datatype Uniform = Uniform(binding: u32, name: string, uType: nat, stride: u32, count: u32, size: u32,
                             offset: u32, glType: nat, glLoc: int, buff: Option<seq<Byte>>)
  {
    /** An owned buffer always has `size` bytes. */
    ghost predicate Valid() {
      buff.Some? ==> |buff.value| == size
    }
  }

  /** A default-constructed uniform: invalid binding, no buffer. */
  function DefaultUniform(): (u: Uniform)
    ensures u.Valid() && u.buff.None? && u.size == 0 && u.binding == UINT_MAX && u.glLoc == -1
  {
    Uniform(UINT_MAX, "", 0, 0, 0, 0, 0, 0, -1, None)
  }

  /** `operator=`. `aliased` says whether `rhs` is the very object assigned
      to (`operator=` compares addresses). The buffer is reallocated only
      when the size changes; `mallocBytes` stands for the uninitialised bytes
      `malloc` returns. Bytes are copied only when both buffers exist. */
  function Assign(lhs: Uniform, rhs: Uniform, aliased: bool, mallocBytes: seq<Byte>): (r: Uniform)
    requires lhs.Valid() && rhs.Valid() && |mallocBytes| == rhs.size
    requires aliased ==> lhs == rhs
    ensures r.Valid()
    ensures aliased ==> r == lhs
    ensures !aliased ==> r.(buff := None) == rhs.(buff := None)
    ensures !aliased && rhs.buff.Some? && (lhs.buff.Some? || lhs.size != rhs.size) ==> r.buff == rhs.buff
    ensures !aliased && lhs.size == rhs.size ==> r.buff.Some? == lhs.buff.Some?
    ensures !aliased && lhs.size != rhs.size ==> r.buff.Some?
  {
    if aliased then lhs
    else
      var buff := if lhs.size != rhs.size then Some(mallocBytes) else lhs.buff;
      var buff' := if buff.Some? && rhs.buff.Some? then rhs.buff else buff;
      rhs.(buff := buff')
  }

  /** The copy constructor assigns into a default-constructed uniform: a
      zero-size uniform copies without a buffer, any other gets its own
      buffer holding a copy of `rhs`'s bytes when it has some. */
  function Copy(rhs: Uniform, mallocBytes: seq<Byte>): (r: Uniform)
    requires rhs.Valid() && |mallocBytes| == rhs.size
    ensures r.Valid() && r.(buff := None) == rhs.(buff := None)
    ensures rhs.size == 0 ==> r.buff.None?
    ensures rhs.size != 0 ==> r.buff.Some? && (rhs.buff.Some? ==> r.buff == rhs.buff)
  {
    Assign(DefaultUniform(), rhs, false, mallocBytes)
  }

  /** Assigning twice from the same uniform changes nothing the second time,
      when it has a buffer. */
  lemma AssignIdempotent(lhs: Uniform, rhs: Uniform, mallocBytes: seq<Byte>)
    requires lhs.Valid() && rhs.Valid() && |mallocBytes| == rhs.size && rhs.buff.Some?
    ensures var once := Assign(lhs, rhs, false, mallocBytes);
      Assign(once, rhs, false, mallocBytes) == once && (once.buff.Some? ==> once == rhs)
  {
  }

}
