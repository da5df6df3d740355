/** `GLES2GPUStagingBufferPool` (cocos/renderer/gfx-gles2/GLES2GPUObjects.h):
    the staging-buffer pool of the GLES2 backend, a bump allocator over
    16 MiB chunks. */
module StagingBufferPool {
  import opened Common

  /** `chunkSize`: 16 MiB per chunk. */
  const CHUNK_SIZE: nat := 16 * 1024 * 1024

  /** The pool: the `curOffset` of each chunk, in pool order. Chunk storage
      is `CHUNK_SIZE` bytes, so a region is named by its chunk and start. */
  datatype Pool = Pool(offsets: seq<nat>) {
    ghost predicate Valid() {
      forall c :: 0 <= c < |offsets| ==> offsets[c] <= CHUNK_SIZE
    }
  }

  /** A region handed out by `alloc`: `size` bytes at `start` in chunk `chunk`. */
  datatype Region = Region(chunk: nat, start: nat, size: nat)

  /** The chunk has room for `size` more bytes. */
  predicate Fits(p: Pool, c: nat, size: nat)
    requires c < |p.offsets|
  {
    p.offsets[c] + size <= CHUNK_SIZE
  }

  /** Reference meaning of the chunk scan: `c` is the first chunk with room,
      or `c == |offsets|` when none has room. */
  ghost predicate IsFirstFit(p: Pool, size: nat, c: nat) {
    && c <= |p.offsets|
    && (forall i :: 0 <= i < c ==> !Fits(p, i, size))
    && (c < |p.offsets| ==> Fits(p, c, size))
  }

  /** `alloc(size)`: the first chunk (in pool order) whose remaining space
      holds `size` bytes, or a new chunk appended at the end; the region
      starts at the chunk's offset, which then grows by `size`. A request
      larger than a chunk is not guarded by `alloc` and would overrun the
      new chunk, so it is excluded. */
  method Alloc(p: Pool, size: nat) returns (q: Pool, reg: Region)
    requires p.Valid() && size <= CHUNK_SIZE
    ensures q.Valid()
    ensures IsFirstFit(p, size, reg.chunk)
    ensures reg.size == size
    ensures reg.chunk < |p.offsets| ==> reg.start == p.offsets[reg.chunk] && q.offsets == p.offsets[reg.chunk := reg.start + size]
    ensures reg.chunk == |p.offsets| ==> reg.start == 0 && q.offsets == p.offsets + [size]
  {
    var idx := 0;
    while idx < |p.offsets|
      invariant 0 <= idx <= |p.offsets|
      invariant forall i :: 0 <= i < idx ==> !Fits(p, i, size)
    {
      if CHUNK_SIZE - p.offsets[idx] >= size {
        reg := Region(idx, p.offsets[idx], size);
        q := Pool(p.offsets[idx := p.offsets[idx] + size]);
        return;
      }
      idx := idx + 1;
    }
    reg := Region(|p.offsets|, 0, size);
    q := Pool(p.offsets + [size]);
  }

  /** `reset`: every chunk's offset back to zero; all chunks are kept. */
  function Reset(p: Pool): (q: Pool)
    ensures q.Valid() && |q.offsets| == |p.offsets|
    ensures forall c :: 0 <= c < |q.offsets| ==> q.offsets[c] == 0
  {
    Pool(seq(|p.offsets|, _ => 0))
  }

  /** After a reset the scan starts over: any request that fits a chunk is
      served from the start of the first chunk. */
  lemma ResetServesFromFirstChunk(p: Pool, size: nat)
    requires |p.offsets| > 0 && size <= CHUNK_SIZE
    ensures IsFirstFit(Reset(p), size, 0) && Reset(p).offsets[0] == 0
  {
  }

  /** Two regions overlap when they share a chunk and a byte. */
  predicate Overlap(a: Region, b: Region) {
    a.chunk == b.chunk && a.start < b.start + b.size && b.start < a.start + a.size
  }

  /** Every region lies in an existing chunk, below that chunk's offset. */
  ghost predicate Below(p: Pool, regs: seq<Region>) {
    forall i :: 0 <= i < |regs| ==> regs[i].chunk < |p.offsets| && regs[i].start + regs[i].size <= p.offsets[regs[i].chunk]
  }

  ghost predicate PairwiseDisjoint(regs: seq<Region>) {
    forall i, j :: 0 <= i < j < |regs| ==> !Overlap(regs[i], regs[j])
  }

  /** One allocation keeps the pool's bookkeeping sound: the new region is
      disjoint from every region handed out before it, and all of them stay
      below their chunk's offset. */
  lemma AllocKeepsDisjoint(p: Pool, regs: seq<Region>, size: nat, q: Pool, reg: Region)
    requires p.Valid() && size <= CHUNK_SIZE && Below(p, regs) && PairwiseDisjoint(regs)
    requires IsFirstFit(p, size, reg.chunk) && reg.size == size
    requires reg.chunk < |p.offsets| ==> reg.start == p.offsets[reg.chunk] && q.offsets == p.offsets[reg.chunk := reg.start + size]
    requires reg.chunk == |p.offsets| ==> reg.start == 0 && q.offsets == p.offsets + [size]
    ensures Below(q, regs + [reg]) && PairwiseDisjoint(regs + [reg])
  {
    var all := regs + [reg];
    forall i | 0 <= i < |regs| ensures !Overlap(regs[i], reg) && all[i] == regs[i] {
      assert regs[i].start + regs[i].size <= p.offsets[regs[i].chunk];
    }
  }

  /** Allocate each of `sizes` in turn. */
  method AllocAll(p: Pool, sizes: seq<nat>) returns (q: Pool, regs: seq<Region>)
    requires p.Valid() && forall i :: 0 <= i < |sizes| ==> sizes[i] <= CHUNK_SIZE
    ensures q.Valid() && |regs| == |sizes|
    ensures forall i :: 0 <= i < |regs| ==> regs[i].size == sizes[i]
    ensures PairwiseDisjoint(regs) && Below(q, regs)
  {
    q := p;
    regs := [];
    var k := 0;
    while k < |sizes|
      invariant 0 <= k <= |sizes| && |regs| == k
      invariant q.Valid()
      invariant forall i :: 0 <= i < k ==> regs[i].size == sizes[i]
      invariant PairwiseDisjoint(regs) && Below(q, regs)
    {
      var q', reg := Alloc(q, sizes[k]);
      AllocKeepsDisjoint(q, regs, sizes[k], q', reg);
      q, regs := q', regs + [reg];
      k := k + 1;
    }
  }

}
