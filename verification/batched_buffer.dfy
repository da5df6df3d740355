/** The vertex-merging aggregator of the render pipeline (BatchedBuffer):
    per pass, a list of batches. Sub-meshes with the same stream layout are
    copied one after another into a batch's vertex streams, each tagged
    with its merge index through an extra `a_dyn_batch_id` stream, so that
    up to BATCHING_COUNT models are drawn with one draw call. */
module BatchedBuffer {
  import opened Common
  import opened GfxTypes
  import Registry

  /** Merges one batch takes (`UBOLocalBatched::BATCHING_COUNT`). */
  const BATCHING_COUNT: nat := 10
  /** Float offset of the world matrices in the batch UBO. */
  const MAT_WORLDS_OFFSET: nat := 0
  /** Floats in the batch UBO: one 4x4 world matrix per merge. */
  const UBO_COUNT: nat := 16 * BATCHING_COUNT
  /** `sizeof(float)`, the byte size of one batch id. */
  const FLOAT_SIZE: nat := 4
  /** Name of the batch-id attribute. */
  const BATCH_ID_ATTRIBUTE: string := "a_dyn_batch_id"

  /** One vertex stream of a batch: the GPU buffer and its CPU mirror. */
  datatype Stream = Stream(vb: VertexBuffer, data: seq<Byte>)

  /** `BatchedItem`. `ids` is the CPU mirror of the batch-id buffer, one
      float per vertex. */
  datatype Batch = Batch(streams: seq<Stream>, indexBuffer: VertexBuffer, ids: seq<real>, vbCount: nat,
                         mergeCount: nat, ia: InputAssembler, ubo: ObjectId, uboData: seq<real>,
                         descriptorSet: ObjectId, pass: ObjectId, shader: ObjectId)

  /** The aggregator of one pass. */
  datatype Buffer = Buffer(pass: ObjectId, batches: seq<Batch>, dynamicOffsets: seq<u32>)

  /** One flat vertex stream of a sub-mesh: `count` vertices of `stride`
      bytes. */
  datatype FlatBuffer = FlatBuffer(stride: nat, count: nat, data: seq<Byte>)

  /** What `merge` reads from the sub-model and model. */
  datatype MergeInput = MergeInput(flats: seq<FlatBuffer>, pass: ObjectId, shader: ObjectId,
                                   descriptorSet: ObjectId, attributes: seq<Attribute>, world: seq<real>)

  /** The GPU objects the device hands out when `merge` opens a batch. */
  datatype Created = Created(vbIds: seq<ObjectId>, indexId: ObjectId, iaId: ObjectId, uboId: ObjectId)

  /** The batch UBO bound into a sub-model's descriptor set (followed by
      `update()`), a side effect of `merge`. */
  datatype Binding = Binding(descriptorSet: ObjectId, ubo: ObjectId)

  /** What `merge` needs of a sub-mesh: all its streams hold the same
      vertices, each stream's bytes match its layout, and the world matrix
      has 16 floats. */
  predicate InputOk(m: MergeInput) {
    && |m.world| == 16
    && forall j :: 0 <= j < |m.flats| ==>
         m.flats[j].count == m.flats[0].count && |m.flats[j].data| == m.flats[j].count * m.flats[j].stride
  }

  predicate StreamValid(st: Stream, vbCount: nat) {
    |st.data| == st.vb.size && vbCount * st.vb.stride <= st.vb.size
  }

  /** What every batch produced by `merge` and `clear` satisfies. */
  predicate BatchValid(b: Batch) {
    && |b.streams| >= 1
    && (forall j :: 0 <= j < |b.streams| ==> StreamValid(b.streams[j], b.vbCount))
    && b.indexBuffer.size == FLOAT_SIZE * |b.ids| && b.vbCount <= |b.ids|
    && b.mergeCount <= BATCHING_COUNT
    && |b.uboData| == UBO_COUNT
    && b.ia.vertexCount == b.vbCount
  }

  predicate Valid(buf: Buffer) {
    forall i :: 0 <= i < |buf.batches| ==> BatchValid(buf.batches[i])
  }

  /** A new aggregator: no batches. The dynamic-offset list is whatever
      the class declaration initialises it to. */
  function New(pass: ObjectId, dynamicOffsets: seq<u32>): (r: Buffer)
    ensures Valid(r) && r.batches == [] && r.dynamicOffsets == dynamicOffsets
  {
    Buffer(pass, [], dynamicOffsets)
  }

  /** `get(pass, extraKey)`: the aggregator registered for the pair, made on
      first use. */
  function Get(reg: Registry.Registry<Buffer>, pass: nat, key: nat, initialOffsets: seq<u32>)
    : (r: (Registry.Registry<Buffer>, Buffer))
    ensures Registry.Lookup(r.0, pass, key) == Some(r.1)
    ensures Registry.Lookup(reg, pass, key).Some? ==> r == (reg, Registry.Lookup(reg, pass, key).value)
    ensures Registry.Lookup(reg, pass, key).None? ==> r.1 == New(pass, initialOffsets)
  {
    Registry.Get(reg, pass, key, New(pass, initialOffsets))
  }

  /** A batch takes a sub-mesh iff it has as many streams, room for one
      more merge, and the same stride stream by stream. */
  predicate Compatible(b: Batch, flats: seq<FlatBuffer>) {
    && |b.streams| == |flats|
    && b.mergeCount < BATCHING_COUNT
    && forall j :: 0 <= j < |flats| ==> b.streams[j].vb.stride == flats[j].stride
  }

  /** The first batch at or after `from` compatible with the sub-mesh. */
  function ScanFrom(batches: seq<Batch>, flats: seq<FlatBuffer>, from: nat): (r: Option<nat>)
    requires from <= |batches|
    ensures r.Some? ==> from <= r.value < |batches| && Compatible(batches[r.value], flats)
    ensures r.Some? ==> forall j :: from <= j < r.value ==> !Compatible(batches[j], flats)
    ensures r.None? ==> forall j :: from <= j < |batches| ==> !Compatible(batches[j], flats)
    decreases |batches| - from
  {
    if from == |batches| then None
    else if Compatible(batches[from], flats) then Some(from)
    else ScanFrom(batches, flats, from + 1)
  }

  /** `(a + b) * s` distributes. */
  lemma Distribute(a: nat, b: nat, s: nat)
    ensures (a + b) * s == a * s + b * s
  {
  }

  /** One stream of a compatible batch taking `flat`'s vertices after its
      `vbCount` valid ones: reallocated to exactly the bytes needed when
      they exceed its size (old bytes kept), then the vertices copied in. */
  function StreamAbsorb(st: Stream, vbCount: nat, flat: FlatBuffer): (r: Stream)
    requires StreamValid(st, vbCount) && st.vb.stride == flat.stride
    requires |flat.data| == flat.count * flat.stride
    ensures vbCount * flat.stride + |flat.data| == (vbCount + flat.count) * flat.stride
    ensures StreamValid(r, vbCount + flat.count)
    ensures r.vb == st.vb.(size := Max(st.vb.size, (vbCount + flat.count) * flat.stride))
    ensures forall k :: 0 <= k < |st.data| && !(vbCount * flat.stride <= k < vbCount * flat.stride + |flat.data|) ==>
      r.data[k] == st.data[k]
    ensures forall k :: 0 <= k < |flat.data| ==> r.data[vbCount * flat.stride + k] == flat.data[k]
  {
    var need := (vbCount + flat.count) * flat.stride;
    Distribute(vbCount, flat.count, flat.stride);
    var grown := if need > st.vb.size then Stream(st.vb.(size := need), Resize(st.data, need, 0)) else st;
    grown.(data := Overwrite(grown.data, vbCount * flat.stride, flat.data))
  }

  /** The id buffer made long enough for vertices `[start, end)`: when it
      grows, the CPU mirror is reallocated keeping the old ids, and the new
      tail holds whatever the fresh allocation held, here `uninit`. */
  function IdsRoom(ids: seq<real>, end: nat, uninit: real): (r: seq<real>)
    ensures |r| == Max(|ids|, end)
    ensures forall k :: 0 <= k < |ids| ==> r[k] == ids[k]
    ensures forall k :: |ids| <= k < |r| ==> r[k] == uninit
  {
    if end > |ids| then Resize(ids, end, uninit) else ids
  }

  /** An id denotes merge `m` when the shader's truncation of it gives `m`;
      `m + 0.1` is written to survive rounding down. */
  predicate Denotes(id: real, m: nat) {
    m as real <= id < m as real + 1.0
  }

  /** `[start, end)` set to `value`, the rest of `ids` kept. */
  function Fill(ids: seq<real>, start: nat, end: nat, value: real): (r: seq<real>)
    requires start <= end <= |ids|
    ensures |r| == |ids|
    ensures forall k :: start <= k < end ==> r[k] == value
    ensures forall k :: 0 <= k < |ids| && !(start <= k < end) ==> r[k] == ids[k]
  {
    seq(|ids|, k requires 0 <= k < |ids| => if start <= k < end then value else ids[k])
  }

  /** The id refresh of `merge` as written: the range is rewritten with
      `m + 0.1` unless its first and last ids already equal `m`. */
  function FillIdsAsWritten(ids: seq<real>, start: nat, end: nat, m: nat): (r: seq<real>)
    requires start < end <= |ids|
    ensures |r| == |ids|
    ensures (ids[start] != m as real || ids[end - 1] != m as real) ==>
      forall k :: start <= k < end ==> Denotes(r[k], m)
    ensures (ids[start] == m as real && ids[end - 1] == m as real) ==> r == ids
  {
    if ids[start] != m as real || ids[end - 1] != m as real then Fill(ids, start, end, m as real + 0.1) else ids
  }

  /** The check only looks at the two ends: an id left from another merge
      in the middle of the range survives. `MergeKeepsStaleIds` reaches
      this layout through `merge` and `clear`. */
  lemma FillIdsAsWrittenKeepsStaleIds()
    ensures var ids := [0.0, 0.0, 1.1, 1.1, 0.0, 0.0];
      var r := FillIdsAsWritten(ids, 0, 6, 0);
      r == ids && !Denotes(r[2], 0)
  {
  }

  /** The id refresh as intended: afterwards every id of the range denotes
      merge `m`. The range is left alone only when it already holds exactly
      `m` throughout. */
  function FillIds(ids: seq<real>, start: nat, end: nat, m: nat): (r: seq<real>)
    requires start <= end <= |ids|
    ensures |r| == |ids|
    ensures forall k :: start <= k < end ==> Denotes(r[k], m)
    ensures forall k :: 0 <= k < |ids| && !(start <= k < end) ==> r[k] == ids[k]
  {
    if forall k :: start <= k < end ==> ids[k] == m as real then ids else Fill(ids, start, end, m as real + 0.1)
  }

  /** The two agree whenever the as-written check rewrites the range, and
      whenever the range is uniform. */
  lemma {:induction false} FillIdsAgree(ids: seq<real>, start: nat, end: nat, m: nat)
    requires start < end <= |ids|
    requires (ids[start] != m as real || ids[end - 1] != m as real) ||
             (forall k :: start <= k < end ==> ids[k] == m as real)
    ensures forall k :: start <= k < end ==> Denotes(FillIdsAsWritten(ids, start, end, m)[k], m)
    ensures forall k :: start <= k < end ==> FillIds(ids, start, end, m)[k] == FillIdsAsWritten(ids, start, end, m)[k]
  {
    if ids[start] != m as real || ids[end - 1] != m as real {
      assert !(forall k :: start <= k < end ==> ids[k] == m as real) by {
        if ids[start] != m as real { assert ids[start] != m as real; } else { assert ids[end - 1] != m as real; }
      }
    } else {
      assert forall k :: start <= k < end ==> ids[k] == m as real;
    }
  }

  /** The streams of a compatible batch after taking the sub-mesh. */
  function AbsorbStreams(streams: seq<Stream>, vbCount: nat, flats: seq<FlatBuffer>): (r: seq<Stream>)
    requires |streams| == |flats|
    requires forall j :: 0 <= j < |flats| ==> StreamValid(streams[j], vbCount) && streams[j].vb.stride == flats[j].stride
    requires forall j :: 0 <= j < |flats| ==> |flats[j].data| == flats[j].count * flats[j].stride
    ensures |r| == |streams|
    ensures forall j :: 0 <= j < |r| ==> r[j] == StreamAbsorb(streams[j], vbCount, flats[j])
  {
    seq(|streams|, j requires 0 <= j < |streams| => StreamAbsorb(streams[j], vbCount, flats[j]))
  }

  /** A compatible batch taking the sub-mesh as intended: streams
      extended, every id of the new vertices denoting the merge index, the
      world matrix written to the merge's UBO slot; the first merge since
      `clear` also binds the UBO into the sub-model's set and adopts its
      pass, shader and set. */
  function AbsorbIntended(b: Batch, m: MergeInput, uninit: real): (r: (Batch, Option<Binding>))
    requires BatchValid(b) && InputOk(m) && Compatible(b, m.flats)
    ensures BatchValid(r.0)
    ensures var n := m.flats[0].count;
      && r.0.mergeCount == b.mergeCount + 1
      && r.0.vbCount == b.vbCount + n && r.0.ia == b.ia.(vertexCount := b.ia.vertexCount + n)
      && r.0.streams == AbsorbStreams(b.streams, b.vbCount, m.flats)
      && |r.0.ids| == Max(|b.ids|, b.vbCount + n)
      && (forall k :: b.vbCount <= k < b.vbCount + n ==> Denotes(r.0.ids[k], b.mergeCount))
      && (forall k :: 0 <= k < b.vbCount ==> r.0.ids[k] == b.ids[k])
      && r.0.uboData == Overwrite(b.uboData, MAT_WORLDS_OFFSET + 16 * b.mergeCount, m.world)
    ensures b.mergeCount == 0 ==>
      r.1 == Some(Binding(m.descriptorSet, b.ubo)) && r.0.pass == m.pass && r.0.shader == m.shader &&
      r.0.descriptorSet == m.descriptorSet
    ensures b.mergeCount != 0 ==>
      r.1 == None && r.0.pass == b.pass && r.0.shader == b.shader && r.0.descriptorSet == b.descriptorSet
  {
    var end := b.vbCount + m.flats[0].count;
    AbsorbWithIds(b, m, FillIds(IdsRoom(b.ids, end, uninit), b.vbCount, end, b.mergeCount))
  }

  /** The batch after taking the sub-mesh, given its new id array. */
  function AbsorbWithIds(b: Batch, m: MergeInput, ids: seq<real>): (Batch, Option<Binding>)
    requires BatchValid(b) && InputOk(m) && Compatible(b, m.flats)
  {
    var n := m.flats[0].count;
    var streams := AbsorbStreams(b.streams, b.vbCount, m.flats);
    var ubo := Overwrite(b.uboData, MAT_WORLDS_OFFSET + 16 * b.mergeCount, m.world);
    var r := b.(streams := streams, ids := ids, indexBuffer := b.indexBuffer.(size := FLOAT_SIZE * |ids|),
                vbCount := b.vbCount + n, mergeCount := b.mergeCount + 1,
                ia := b.ia.(vertexCount := b.ia.vertexCount + n), uboData := ubo);
    if b.mergeCount == 0 then
      (r.(pass := m.pass, shader := m.shader, descriptorSet := m.descriptorSet), Some(Binding(m.descriptorSet, b.ubo)))
    else (r, None)
  }

  /** A compatible batch taking the sub-mesh as `merge` does it: the same
      batch as the intended one except for the ids, which are refreshed by
      the end-point check of `FillIdsAsWritten`. With no new vertex the
      refresh loop is empty. */
  function Absorb(b: Batch, m: MergeInput, uninit: real): (r: (Batch, Option<Binding>))
    requires BatchValid(b) && InputOk(m) && Compatible(b, m.flats)
    ensures var intended := AbsorbIntended(b, m, uninit);
      r.1 == intended.1 && r.0 == intended.0.(ids := r.0.ids) && |r.0.ids| == |intended.0.ids|
    ensures var n := m.flats[0].count; var end := b.vbCount + n;
      var room := IdsRoom(b.ids, end, uninit);
      && (forall k :: 0 <= k < |room| && !(b.vbCount <= k < end) ==> r.0.ids[k] == room[k])
      && (n > 0 && (room[b.vbCount] != b.mergeCount as real || room[end - 1] != b.mergeCount as real) ==>
            forall k :: b.vbCount <= k < end ==> Denotes(r.0.ids[k], b.mergeCount))
      && (n == 0 || (room[b.vbCount] == b.mergeCount as real && room[end - 1] == b.mergeCount as real) ==>
            r.0.ids == room)
  {
    var end := b.vbCount + m.flats[0].count;
    var room := IdsRoom(b.ids, end, uninit);
    AbsorbWithIds(b, m, if end == b.vbCount then room else FillIdsAsWritten(room, b.vbCount, end, b.mergeCount))
  }

  /** The extra attribute of a new batch: the R32F batch id, not
      normalised, read from the stream after the sub-mesh's own. */
  function BatchIdAttribute(stream: nat): Attribute {
    Attribute(BATCH_ID_ATTRIBUTE, R32F, false, stream, false, 0)
  }

  /** A new batch for the sub-mesh: one merge; CPU mirrors and ids are
      zero-filled (the GPU buffers get the vertices); the world matrix
      lands in the first UBO slot. */
  function NewBatch(m: MergeInput, made: Created): (r: Batch)
    requires InputOk(m) && |m.flats| >= 1 && |made.vbIds| == |m.flats|
    ensures BatchValid(r)
    ensures r.mergeCount == 1 && r.vbCount == m.flats[0].count
    ensures |r.streams| == |m.flats|
    ensures forall j :: 0 <= j < |m.flats| ==>
      var size := m.flats[j].count * m.flats[j].stride;
      r.streams[j] == Stream(VertexBuffer(made.vbIds[j], size, m.flats[j].stride), Zeros(size))
    ensures r.ids == seq(m.flats[0].count, _ => 0.0)
    ensures r.indexBuffer == VertexBuffer(made.indexId, FLOAT_SIZE * m.flats[0].count, FLOAT_SIZE)
    ensures r.ia.attributes == m.attributes + [BatchIdAttribute(|m.flats|)]
    ensures r.ia.vertexBuffers == made.vbIds + [made.indexId]
    ensures r.uboData[MAT_WORLDS_OFFSET..MAT_WORLDS_OFFSET + 16] == m.world
    ensures r.ubo == made.uboId && r.pass == m.pass && r.shader == m.shader && r.descriptorSet == m.descriptorSet
  {
    var n := m.flats[0].count;
    var streams := seq(|m.flats|, j requires 0 <= j < |m.flats| =>
      var size := m.flats[j].count * m.flats[j].stride;
      Stream(VertexBuffer(made.vbIds[j], size, m.flats[j].stride), Zeros(size)));
    var ia := InputAssembler(made.iaId, m.attributes + [BatchIdAttribute(|m.flats|)], made.vbIds + [made.indexId],
                             None, n, 0);
    var ubo := Overwrite(seq(UBO_COUNT, _ => 0.0), MAT_WORLDS_OFFSET, m.world);
    assert ubo[MAT_WORLDS_OFFSET..MAT_WORLDS_OFFSET + 16] == m.world;
    Batch(streams, VertexBuffer(made.indexId, FLOAT_SIZE * n, FLOAT_SIZE), seq(n, _ => 0.0), n, 1, ia, made.uboId,
          ubo, m.descriptorSet, m.pass, m.shader)
  }

  /** `merge(subModel, passIdx, model)` as intended: nothing for a
      sub-mesh without flat buffers; otherwise the first compatible batch
      takes it, or a new batch is opened. No batch ever takes more than
      BATCHING_COUNT merges. */
  function MergeIntended(buf: Buffer, m: MergeInput, made: Created, uninit: real): (r: (Buffer, Option<Binding>))
    requires Valid(buf) && InputOk(m) && |made.vbIds| == |m.flats|
    ensures Valid(r.0)
    ensures forall i :: 0 <= i < |r.0.batches| ==> r.0.batches[i].mergeCount <= BATCHING_COUNT
    ensures r.0.pass == buf.pass && r.0.dynamicOffsets == buf.dynamicOffsets
    ensures |m.flats| == 0 ==> r == (buf, None)
    ensures var c := ScanFrom(buf.batches, m.flats, 0);
      && (|m.flats| > 0 && c.Some? ==>
            var a := AbsorbIntended(buf.batches[c.value], m, uninit);
            r.0.batches == buf.batches[c.value := a.0] && r.1 == a.1)
      && (|m.flats| > 0 && c.None? ==>
            r.0.batches == buf.batches + [NewBatch(m, made)] && r.1 == Some(Binding(m.descriptorSet, made.uboId)))
  {
    if |m.flats| == 0 then (buf, None)
    else
      match ScanFrom(buf.batches, m.flats, 0)
      case Some(i) =>
        var a := AbsorbIntended(buf.batches[i], m, uninit);
        (buf.(batches := buf.batches[i := a.0]), a.1)
      case None =>
        (buf.(batches := buf.batches + [NewBatch(m, made)]), Some(Binding(m.descriptorSet, made.uboId)))
  }

  /** `merge(subModel, passIdx, model)` as written: the same batches and
      binding as the intended merge, except that the absorbing batch's ids
      come from the end-point check. */
  function Merge(buf: Buffer, m: MergeInput, made: Created, uninit: real): (r: (Buffer, Option<Binding>))
    requires Valid(buf) && InputOk(m) && |made.vbIds| == |m.flats|
    ensures Valid(r.0)
    ensures forall i :: 0 <= i < |r.0.batches| ==> r.0.batches[i].mergeCount <= BATCHING_COUNT
    ensures var intended := MergeIntended(buf, m, made, uninit);
      && r.1 == intended.1 && r.0.pass == buf.pass && r.0.dynamicOffsets == buf.dynamicOffsets
      && |r.0.batches| == |intended.0.batches|
      && forall i :: 0 <= i < |r.0.batches| ==> r.0.batches[i] == intended.0.batches[i].(ids := r.0.batches[i].ids)
    ensures var c := ScanFrom(buf.batches, m.flats, 0);
      && (|m.flats| > 0 && c.Some? ==>
            r.0.batches == buf.batches[c.value := Absorb(buf.batches[c.value], m, uninit).0])
      && (|m.flats| == 0 || c.None? ==> r == MergeIntended(buf, m, made, uninit))
  {
    if |m.flats| == 0 then (buf, None)
    else
      match ScanFrom(buf.batches, m.flats, 0)
      case Some(i) =>
        var a := Absorb(buf.batches[i], m, uninit);
        (buf.(batches := buf.batches[i := a.0]), a.1)
      case None =>
        (buf.(batches := buf.batches + [NewBatch(m, made)]), Some(Binding(m.descriptorSet, made.uboId)))
  }

  /** `clear`: every batch forgets its vertices and merges but keeps its
      storage, so the next frame refills it from the start. */
  function Clear(buf: Buffer): (r: Buffer)
    requires Valid(buf)
    ensures Valid(r)
    ensures |r.batches| == |buf.batches|
    ensures forall i :: 0 <= i < |buf.batches| ==>
      var b := buf.batches[i];
      r.batches[i] == b.(vbCount := 0, mergeCount := 0, ia := b.ia.(vertexCount := 0))
    ensures r.pass == buf.pass && r.dynamicOffsets == buf.dynamicOffsets
  {
    var bs := seq(|buf.batches|, i requires 0 <= i < |buf.batches| =>
      var b := buf.batches[i];
      b.(vbCount := 0, mergeCount := 0, ia := b.ia.(vertexCount := 0)));
    buf.(batches := bs)
  }

  /** A frame sequence reaching the stale id through `merge` itself. A
      6-vertex sub-mesh opens a batch whose ids are all 0. The next frame
      merges two 2-vertex sub-meshes into it: merge 0 finds both ends
      already 0 and writes nothing, merge 1 writes 1.1 over ids 2 and 3.
      The frame after merges a 6-vertex sub-mesh as merge 0: both ends are
      0, so id 2 keeps 1.1 and that vertex is drawn with world matrix 1.
      The intended merge tags all six vertices with merge 0. */
  lemma {:induction false} MergeKeepsStaleIds(pass: ObjectId, dset: ObjectId, shader: ObjectId, world: seq<real>,
                                              made: Created, uninit: real)
    requires |world| == 16 && |made.vbIds| == 1
    ensures var m6 := MergeInput([FlatBuffer(1, 6, Zeros(6))], pass, shader, dset, [], world);
      var m2 := MergeInput([FlatBuffer(1, 2, Zeros(2))], pass, shader, dset, [], world);
      var f1 := Merge(New(pass, []), m6, made, uninit).0;
      var f2 := Merge(Merge(Clear(f1), m2, made, uninit).0, m2, made, uninit).0;
      var f3 := Merge(Clear(f2), m6, made, uninit).0;
      var intended := MergeIntended(Clear(f2), m6, made, uninit).0;
      && |f3.batches| == 1 && f3.batches[0].vbCount == 6
      && f3.batches[0].ids[2] == 1.1 && !Denotes(f3.batches[0].ids[2], 0)
      && |intended.batches| == 1 && Denotes(intended.batches[0].ids[2], 0)
  {
    var m6 := MergeInput([FlatBuffer(1, 6, Zeros(6))], pass, shader, dset, [], world);
    var m2 := MergeInput([FlatBuffer(1, 2, Zeros(2))], pass, shader, dset, [], world);
    var zeros := [0.0, 0.0, 0.0, 0.0, 0.0, 0.0];
    var f1 := Merge(New(pass, []), m6, made, uninit).0;
    assert ScanFrom(New(pass, []).batches, m6.flats, 0) == None;
    assert f1.batches == [NewBatch(m6, made)];
    assert f1.batches[0].ids == zeros;
    var c1 := Clear(f1);
    assert Compatible(c1.batches[0], m2.flats);
    assert ScanFrom(c1.batches, m2.flats, 0) == Some(0);
    var g := Merge(c1, m2, made, uninit).0;
    assert IdsRoom(c1.batches[0].ids, 2, uninit) == zeros;
    assert g.batches[0].ids == zeros;
    assert g.batches[0].mergeCount == 1 && g.batches[0].vbCount == 2;
    assert Compatible(g.batches[0], m2.flats);
    assert ScanFrom(g.batches, m2.flats, 0) == Some(0);
    var f2 := Merge(g, m2, made, uninit).0;
    assert IdsRoom(g.batches[0].ids, 4, uninit) == zeros;
    assert f2.batches[0].ids == [0.0, 0.0, 1.1, 1.1, 0.0, 0.0];
    var c2 := Clear(f2);
    assert Compatible(c2.batches[0], m6.flats);
    assert ScanFrom(c2.batches, m6.flats, 0) == Some(0);
    var f3 := Merge(c2, m6, made, uninit).0;
    assert IdsRoom(c2.batches[0].ids, 6, uninit) == c2.batches[0].ids;
    assert f3.batches[0].ids == [0.0, 0.0, 1.1, 1.1, 0.0, 0.0];
  }

  /** After `clear`, a sub-mesh of a batch's layout is taken by that batch
      or an earlier one: a cleared batch always has room. */
  lemma ClearReopensBatches(buf: Buffer, flats: seq<FlatBuffer>, i: nat)
    requires Valid(buf) && i < |buf.batches|
    requires |buf.batches[i].streams| == |flats|
    requires forall j :: 0 <= j < |flats| ==> buf.batches[i].streams[j].vb.stride == flats[j].stride
    ensures var c := ScanFrom(Clear(buf).batches, flats, 0);
      c.Some? && c.value <= i
  {
    assert Compatible(Clear(buf).batches[i], flats);
  }

  /** `setDynamicOffset(idx, value)`: a plain write; the list is not grown,
      so the index must already be in range. */
  function SetDynamicOffset(offsets: seq<u32>, idx: nat, value: u32): (r: seq<u32>)
    requires idx < |offsets|
    ensures |r| == |offsets| && r[idx] == value
    ensures forall i :: 0 <= i < |offsets| && i != idx ==> r[i] == offsets[i]
  {
    offsets[idx := value]
  }
}
