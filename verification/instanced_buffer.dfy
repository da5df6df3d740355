/** The instancing aggregator of the render pipeline (InstancedBuffer): per
    pass, a list of buckets, each an input assembler whose last vertex
    stream is a CPU-mirrored per-instance buffer. Models that share an index
    buffer and a lightmap are appended to the same bucket, so that the
    bucket is drawn with one instanced draw call. */
module InstancedBuffer {
  import opened Common
  import opened GfxTypes
  import Registry

  /** Instance capacity of a new bucket. */
  const INITIAL_CAPACITY: nat := 32
  /** Largest number of instances one bucket takes. */
  const MAX_CAPACITY: nat := 1024

  /** A per-instance attribute of a model (`getInstancedAttribute`). */
  datatype InstancedAttribute = InstancedAttribute(name: string, format: Format, isNormalized: bool, location: nat)

  /** `InstancedItem`: one bucket. `data` is the CPU mirror of `vb`. */
  datatype Item = Item(count: nat, capacity: nat, vb: Option<VertexBuffer>, data: seq<Byte>,
                       ia: Option<InputAssembler>, stride: nat, shader: Option<ObjectId>,
                       descriptorSet: Option<ObjectId>, lightingMap: Option<ObjectId>)

  /** A default-initialised `InstancedItem`: no instances, no storage, null
      handles. */
  const DEFAULT_ITEM: Item := Item(0, 0, None, [], None, 0, None, None, None)

  /** The aggregator of one pass. */
  datatype Buffer = Buffer(pass: ObjectId, instances: seq<Item>, hasPendingModels: bool, dynamicOffsets: seq<u32>)

  /** What `merge` reads from the model and sub-model. */
  datatype MergeInput = MergeInput(
    stride: nat,                              // per-instance byte stride of the model
    instance: seq<Byte>,                      // the model's instanced-attribute block
    sourceIA: InputAssembler,                 // the sub-model's input assembler
    lightingMap: Option<ObjectId>,            // the lightmap bound in the sub-model's set
    shader: Option<ObjectId>,                 // the sub-model's shader for the pass
    descriptorSet: Option<ObjectId>,          // the sub-model's descriptor set
    instancedAttributes: seq<InstancedAttribute>)

  /** The GPU objects the device hands out when `merge` opens a bucket. */
  datatype Created = Created(vbId: ObjectId, iaId: ObjectId)

  /** Bucket capacities: 32 doubled a number of times, at most 1024. */
  predicate IsCapacity(c: nat) {
    c in {32, 64, 128, 256, 512, 1024}
  }

  /** What every bucket produced by `merge` satisfies. */
  predicate ItemValid(it: Item) {
    && it.vb.Some? && it.ia.Some?
    && it.stride > 0
    && IsCapacity(it.capacity)
    && it.count <= it.capacity
    && |it.data| == it.stride * it.capacity
    && it.vb.value.size == it.stride * it.capacity
  }

  predicate Valid(b: Buffer) {
    forall i :: 0 <= i < |b.instances| ==> ItemValid(b.instances[i])
  }

  /** A new aggregator: no buckets, no pending models. */
  function New(pass: ObjectId): (r: Buffer)
    ensures Valid(r) && r.instances == [] && !r.hasPendingModels && r.dynamicOffsets == []
  {
    Buffer(pass, [], false, [])
  }

  /** `get(pass, extraKey)`: the aggregator registered for the pair, made on
      first use. */
  function Get(reg: Registry.Registry<Buffer>, pass: nat, key: nat): (r: (Registry.Registry<Buffer>, Buffer))
    ensures Registry.Lookup(r.0, pass, key) == Some(r.1)
    ensures Registry.Lookup(reg, pass, key).Some? ==> r == (reg, Registry.Lookup(reg, pass, key).value)
    ensures Registry.Lookup(reg, pass, key).None? ==> r.1 == New(pass)
  {
    Registry.Get(reg, pass, key, New(pass))
  }

  /** The bucket scan's skip rule: another index buffer, a full bucket, or
      another lightmap. */
  predicate Skipped(it: Item, indexBuffer: Option<ObjectId>, lightingMap: Option<ObjectId>)
    requires it.ia.Some?
  {
    it.ia.value.indexBuffer != indexBuffer || it.count >= MAX_CAPACITY || it.lightingMap != lightingMap
  }

  predicate AllHaveIA(items: seq<Item>) {
    forall i :: 0 <= i < |items| ==> items[i].ia.Some?
  }

  /** The first bucket at or after `from` that the scan does not skip. */
  function ScanFrom(items: seq<Item>, indexBuffer: Option<ObjectId>, lightingMap: Option<ObjectId>, from: nat)
    : (r: Option<nat>)
    requires AllHaveIA(items) && from <= |items|
    ensures r.Some? ==> from <= r.value < |items| && !Skipped(items[r.value], indexBuffer, lightingMap)
    ensures r.Some? ==> forall j :: from <= j < r.value ==> Skipped(items[j], indexBuffer, lightingMap)
    ensures r.None? ==> forall j :: from <= j < |items| ==> Skipped(items[j], indexBuffer, lightingMap)
    decreases |items| - from
  {
    if from == |items| then None
    else if !Skipped(items[from], indexBuffer, lightingMap) then Some(from)
    else ScanFrom(items, indexBuffer, lightingMap, from + 1)
  }

  /** The candidate bucket of `merge`: the first one not skipped. */
  function Candidate(items: seq<Item>, indexBuffer: Option<ObjectId>, lightingMap: Option<ObjectId>): (r: Option<nat>)
    requires AllHaveIA(items)
    ensures r.Some? ==> r.value < |items| && !Skipped(items[r.value], indexBuffer, lightingMap)
    ensures r.Some? ==> forall j :: 0 <= j < r.value ==> Skipped(items[j], indexBuffer, lightingMap)
    ensures r.None? ==> forall j :: 0 <= j < |items| ==> Skipped(items[j], indexBuffer, lightingMap)
  {
    ScanFrom(items, indexBuffer, lightingMap, 0)
  }

  /** The same scan as a loop, the way `merge` runs it. */
  method FindCandidate(items: seq<Item>, indexBuffer: Option<ObjectId>, lightingMap: Option<ObjectId>)
    returns (found: bool, index: nat)
    requires AllHaveIA(items)
    ensures found ==> index < |items| && !Skipped(items[index], indexBuffer, lightingMap)
    ensures found ==> forall j :: 0 <= j < index ==> Skipped(items[j], indexBuffer, lightingMap)
    ensures !found ==> forall j :: 0 <= j < |items| ==> Skipped(items[j], indexBuffer, lightingMap)
  {
    index := 0;
    while index < |items|
      invariant index <= |items|
      invariant forall j :: 0 <= j < index ==> Skipped(items[j], indexBuffer, lightingMap)
    {
      if !Skipped(items[index], indexBuffer, lightingMap) {
        return true, index;
      }
      index := index + 1;
    }
    return false, 0;
  }

  /** `a * b` grows with `b`. */
  lemma MulMonotone(a: nat, b: nat, c: nat)
    requires b <= c
    ensures a * b <= a * c
  {
  }

  /** A full bucket's storage doubled: the mirror keeps its valid bytes
      (the first `vb->getSize()` of them) and the GPU buffer is resized. */
  function Grow(it: Item): (r: Item)
    requires ItemValid(it) && it.capacity < MAX_CAPACITY
    ensures ItemValid(r)
    ensures r.capacity == 2 * it.capacity
    ensures |r.data| >= |it.data|
    ensures forall k :: 0 <= k < |it.data| ==> r.data[k] == it.data[k]
    ensures r == it.(capacity := r.capacity, data := r.data, vb := r.vb)
    ensures r.vb.value.id == it.vb.value.id
  {
    var newSize := it.stride * (2 * it.capacity);
    MulMonotone(it.stride, it.capacity, 2 * it.capacity);
    Item(it.count, 2 * it.capacity, Some(it.vb.value.(size := newSize)), Resize(it.data, newSize, 0),
         it.ia, it.stride, it.shader, it.descriptorSet, it.lightingMap)
  }

  /** The bytes of one instance copied into the next free slot of a bucket
      with room, which then counts one more instance. */
  function WriteSlot(g: Item, bytes: seq<Byte>): (r: Item)
    requires ItemValid(g) && g.count < g.capacity && |bytes| == g.stride
    ensures ItemValid(r)
    ensures r == g.(count := g.count + 1, data := r.data)
    ensures g.stride * g.count + g.stride <= |r.data|
    ensures forall k :: 0 <= k < g.stride * g.count ==> r.data[k] == g.data[k]
    ensures forall k :: 0 <= k < g.stride ==> r.data[g.stride * g.count + k] == bytes[k]
  {
    var off := g.stride * g.count;
    MulMonotone(g.stride, g.count + 1, g.capacity);
    assert off + g.stride == g.stride * (g.count + 1);
    g.(count := g.count + 1, data := Overwrite(g.data, off, bytes))
  }

  /** A bucket under the instance limit made ready for one more instance:
      grown when full, untouched otherwise. */
  function Room(it: Item): (g: Item)
    requires ItemValid(it) && it.count < MAX_CAPACITY
    ensures ItemValid(g) && g.count < g.capacity
    ensures g.capacity == (if it.count >= it.capacity then 2 * it.capacity else it.capacity)
    ensures |g.data| >= |it.data|
    ensures forall k :: 0 <= k < |it.data| ==> g.data[k] == it.data[k]
    ensures g == it.(capacity := g.capacity, data := g.data, vb := g.vb) && g.vb.value.id == it.vb.value.id
  {
    if it.count >= it.capacity then Grow(it) else it
  }

  /** The instance written into a bucket that accepts it: grow if full,
      adopt the shader and set, copy the bytes at `stride * count`, count
      one more. */
  function Added(it: Item, m: MergeInput): (r: Item)
    requires ItemValid(it) && it.count < MAX_CAPACITY && it.stride == m.stride && |m.instance| >= m.stride
    ensures ItemValid(r)
    ensures r.count == it.count + 1
    ensures r.capacity == (if it.count >= it.capacity then 2 * it.capacity else it.capacity)
    ensures it.stride * it.count <= |it.data| && it.stride * it.count + it.stride <= |r.data|
    ensures forall k :: 0 <= k < it.stride * it.count ==> r.data[k] == it.data[k]
    ensures forall k :: 0 <= k < it.stride ==> r.data[it.stride * it.count + k] == m.instance[k]
    ensures r.shader == m.shader && r.descriptorSet == m.descriptorSet
    ensures r.ia == it.ia && r.lightingMap == it.lightingMap && r.stride == it.stride && r.vb.value.id == it.vb.value.id
  {
    var g := Room(it);
    MulMonotone(it.stride, it.count, it.capacity);
    var w := WriteSlot(g, m.instance[..m.stride]);
    w.(shader := m.shader, descriptorSet := m.descriptorSet)
  }

  /** The attributes of a new bucket's input assembler: the sub-mesh's own, then
      the model's per-instance attributes, bound to stream `stream` (the new
      last vertex buffer) and marked instanced. */
  function InstancedAttributes(attrs: seq<InstancedAttribute>, stream: nat): (r: seq<Attribute>)
    ensures |r| == |attrs|
    ensures forall i :: 0 <= i < |attrs| ==>
      r[i] == Attribute(attrs[i].name, attrs[i].format, attrs[i].isNormalized, stream, true, attrs[i].location)
  {
    seq(|attrs|, i requires 0 <= i < |attrs| =>
      Attribute(attrs[i].name, attrs[i].format, attrs[i].isNormalized, stream, true, attrs[i].location))
  }

  /** A new bucket holding only this instance. */
  function NewItem(m: MergeInput, made: Created): (r: Item)
    requires m.stride > 0 && |m.instance| >= m.stride
    ensures ItemValid(r)
    ensures r.count == 1 && r.capacity == INITIAL_CAPACITY && r.stride == m.stride
    ensures r.data[..m.stride] == m.instance[..m.stride]
    ensures r.vb == Some(VertexBuffer(made.vbId, m.stride * INITIAL_CAPACITY, m.stride))
    ensures r.ia.value.vertexBuffers == m.sourceIA.vertexBuffers + [made.vbId]
    ensures r.ia.value.indexBuffer == m.sourceIA.indexBuffer
    ensures r.ia.value.attributes ==
      m.sourceIA.attributes + InstancedAttributes(m.instancedAttributes, |m.sourceIA.vertexBuffers|)
    ensures r.shader == m.shader && r.descriptorSet == m.descriptorSet && r.lightingMap == m.lightingMap
  {
    var newSize := m.stride * INITIAL_CAPACITY;
    var attrs := m.sourceIA.attributes + InstancedAttributes(m.instancedAttributes, |m.sourceIA.vertexBuffers|);
    var ia := InputAssembler(made.iaId, attrs, m.sourceIA.vertexBuffers + [made.vbId], m.sourceIA.indexBuffer, 0, 0);
    var data := Overwrite(Zeros(newSize), 0, m.instance[..m.stride]);
    assert data[..m.stride] == m.instance[..m.stride];
    Item(1, INITIAL_CAPACITY, Some(VertexBuffer(made.vbId, newSize, m.stride)), data, Some(ia), m.stride,
         m.shader, m.descriptorSet, m.lightingMap)
  }

  /** `merge(model, subModel, passIdx)`. It has four outcomes: nothing for
      a model without per-instance data; nothing when the candidate bucket
      has another stride (no later bucket is tried and none is opened);
      otherwise the instance lands in the candidate, or in a new bucket when
      every bucket is skipped. Either way no bucket exceeds MAX_CAPACITY. */
  function Merge(b: Buffer, m: MergeInput, made: Created): (r: Buffer)
    requires Valid(b) && |m.instance| >= m.stride
    ensures Valid(r)
    ensures forall i :: 0 <= i < |r.instances| ==> r.instances[i].count <= MAX_CAPACITY
    ensures r.pass == b.pass && r.dynamicOffsets == b.dynamicOffsets
    ensures m.stride == 0 ==> r == b
    ensures var c := Candidate(b.instances, m.sourceIA.indexBuffer, m.lightingMap);
      && (m.stride > 0 && c.Some? && b.instances[c.value].stride != m.stride ==> r == b)
      && (m.stride > 0 && c.Some? && b.instances[c.value].stride == m.stride ==>
            && r.hasPendingModels
            && r.instances == b.instances[c.value := Added(b.instances[c.value], m)])
      && (m.stride > 0 && c.None? ==>
            && r.hasPendingModels
            && r.instances == b.instances + [NewItem(m, made)])
  {
    if m.stride == 0 then b
    else
      match Candidate(b.instances, m.sourceIA.indexBuffer, m.lightingMap)
      case Some(i) =>
        if b.instances[i].stride != m.stride then b
        else b.(instances := b.instances[i := Added(b.instances[i], m)], hasPendingModels := true)
      case None =>
        b.(instances := b.instances + [NewItem(m, made)], hasPendingModels := true)
  }

  /** Instancing at work: a second sub-model with the same index buffer,
      lightmap and stride joins the bucket the first one opened instead of
      opening another. */
  lemma SecondInstanceJoinsFirst(pass: ObjectId, m: MergeInput, made1: Created, made2: Created)
    requires m.stride > 0 && |m.instance| >= m.stride
    ensures var r := Merge(Merge(New(pass), m, made1), m, made2);
      && |r.instances| == 1 && r.instances[0].count == 2 && r.hasPendingModels
  {
    var b1 := Merge(New(pass), m, made1);
    assert b1.instances == [NewItem(m, made1)];
    assert !Skipped(b1.instances[0], m.sourceIA.indexBuffer, m.lightingMap);
  }

  /** `clear`: every bucket is emptied but keeps its storage; no pending
      models remain. */
  function Clear(b: Buffer): (r: Buffer)
    requires Valid(b)
    ensures Valid(r) && !r.hasPendingModels
    ensures |r.instances| == |b.instances|
    ensures forall i :: 0 <= i < |b.instances| ==> r.instances[i] == b.instances[i].(count := 0)
    ensures r.pass == b.pass && r.dynamicOffsets == b.dynamicOffsets
  {
    var items := seq(|b.instances|, i requires 0 <= i < |b.instances| => b.instances[i].(count := 0));
    b.(instances := items, hasPendingModels := false)
  }

  /** A cleared aggregator takes a model back into the same bucket it came
      from: the bucket is still there, now empty, and under the limit. */
  lemma ClearReopensBuckets(b: Buffer, indexBuffer: Option<ObjectId>, lightingMap: Option<ObjectId>, i: nat)
    requires Valid(b) && i < |b.instances|
    requires b.instances[i].ia.value.indexBuffer == indexBuffer && b.instances[i].lightingMap == lightingMap
    ensures var c := Candidate(Clear(b).instances, indexBuffer, lightingMap);
      c.Some? && c.value <= i
  {
    assert !Skipped(Clear(b).instances[i], indexBuffer, lightingMap);
  }

  /** One `updateBuffer` of `uploadBuffers`: the whole mirror at the
      buffer's size. */
  datatype Upload = Upload(vb: ObjectId, data: seq<Byte>, size: nat)

  /** The uploads of `uploadBuffers`, in bucket order, skipping empty
      buckets. */
  function Uploads(items: seq<Item>): (r: seq<Upload>)
    requires forall i :: 0 <= i < |items| ==> items[i].vb.Some?
    ensures |r| <= |items|
    ensures |r| == NonEmptyBuckets(items)
    ensures forall k :: 0 <= k < |r| ==>
      exists i :: 0 <= i < |items| && items[i].count > 0 &&
        r[k] == Upload(items[i].vb.value.id, items[i].data, items[i].vb.value.size)
    ensures forall i :: 0 <= i < |items| && items[i].count > 0 ==>
      Upload(items[i].vb.value.id, items[i].data, items[i].vb.value.size) in r
  {
    if |items| == 0 then []
    else
      var rest := Uploads(items[1..]);
      assert forall i :: 1 <= i < |items| ==> items[i] == items[1..][i - 1];
      if items[0].count == 0 then rest
      else [Upload(items[0].vb.value.id, items[0].data, items[0].vb.value.size)] + rest
  }

  /** The number of buckets holding at least one instance. */
  function NonEmptyBuckets(items: seq<Item>): nat
  {
    if |items| == 0 then 0
    else (if items[0].count > 0 then 1 else 0) + NonEmptyBuckets(items[1..])
  }

  /** A single bucket is uploaded exactly when it is non-empty. */
  lemma UploadsOne(item: Item)
    requires item.vb.Some?
    ensures Uploads([item]) == if item.count > 0 then [Upload(item.vb.value.id, item.data, item.vb.value.size)] else []
  {
  }

  /** Uploading commutes with concatenation: the uploads follow bucket
      order. */
  lemma {:induction false} UploadsAppend(a: seq<Item>, b: seq<Item>)
    requires forall i :: 0 <= i < |a| ==> a[i].vb.Some?
    requires forall i :: 0 <= i < |b| ==> b[i].vb.Some?
    ensures forall i :: 0 <= i < |a + b| ==> (a + b)[i].vb.Some?
    ensures Uploads(a + b) == Uploads(a) + Uploads(b)
    decreases |a|
  {
    if |a| == 0 {
      assert a + b == b;
      assert Uploads(a) == [];
      assert Uploads(a) + Uploads(b) == Uploads(b);
    } else {
      var ab := a + b;
      assert ab[1..] == a[1..] + b;
      UploadsAppend(a[1..], b);
      var head := if a[0].count == 0 then [] else [Upload(a[0].vb.value.id, a[0].data, a[0].vb.value.size)];
      assert Uploads(ab) == head + Uploads(ab[1..]);
      assert Uploads(a) == head + Uploads(a[1..]);
      AppendAssoc(head, Uploads(a[1..]), Uploads(b));
    }
  }

  /** `uploadBuffers(cmdBuff)`: the uploads, and each non-empty bucket's
      input assembler told its instance count. */
  function UploadBuffers(b: Buffer): (r: (Buffer, seq<Upload>))
    requires Valid(b)
    ensures Valid(r.0) && r.1 == Uploads(b.instances)
    ensures |r.0.instances| == |b.instances|
    ensures forall i :: 0 <= i < |b.instances| && b.instances[i].count == 0 ==> r.0.instances[i] == b.instances[i]
    ensures forall i :: 0 <= i < |b.instances| && b.instances[i].count > 0 ==>
      r.0.instances[i] == b.instances[i].(ia := Some(b.instances[i].ia.value.(instanceCount := b.instances[i].count)))
    ensures r.0 == b.(instances := r.0.instances)
  {
    var items := seq(|b.instances|, i requires 0 <= i < |b.instances| && ItemValid(b.instances[i]) =>
      var it := b.instances[i];
      if it.count == 0 then it else it.(ia := Some(it.ia.value.(instanceCount := it.count))));
    (b.(instances := items), Uploads(b.instances))
  }

  /** `setDynamicOffset(idx, value)`: the list grows (with zeros) to hold
      index `idx`, which is then written. */
  function SetDynamicOffset(offsets: seq<u32>, idx: nat, value: u32): (r: seq<u32>)
    ensures |r| == Max(|offsets|, idx + 1)
    ensures r[idx] == value
    ensures forall i :: 0 <= i < |offsets| && i != idx ==> r[i] == offsets[i]
    ensures forall i :: |offsets| <= i < |r| && i != idx ==> r[i] == 0
  {
    (if |offsets| <= idx then Resize(offsets, idx + 1, 0) else offsets)[idx := value]
  }
}
