/** The forward-add light queue of the render pipeline
    (RenderAdditiveLightQueue): every frame it collects the lights the
    camera sees, writes one UBO slot per light into a shared light buffer,
    pairs each lit sub-model with the lights that reach it, and records one
    draw per (sub-model, light) with the light's slot selected through a
    dynamic offset. Geometry tests are parameters; float content beyond the
    per-light slot is not modelled. */
module AdditiveLightQueue {
  import opened Common
  import opened GfxTypes

  /** `UBOForwardLight`: 16 floats (64 bytes) per light, in four vec4s. */
  const LIGHT_UBO_COUNT: nat := 16
  const LIGHT_UBO_SIZE: nat := 64
  const LIGHT_POS_OFFSET: nat := 0
  const LIGHT_COLOR_OFFSET: nat := 4
  const LIGHT_SIZE_RANGE_ANGLE_OFFSET: nat := 8
  const LIGHT_DIR_OFFSET: nat := 12
  /** `sizeof(float)`. */
  const FLOAT_SIZE: nat := 4

  datatype Vec3 = Vec3(x: real, y: real, z: real)

  datatype LightType = Sphere | Spot | Directional

  /** A scene light, with its bounds as opaque geometry objects. */
  datatype Light = Light(id: ObjectId, kind: LightType, position: Vec3, size: real, range: real, color: Vec3,
                         useColorTemperature: bool, colorTemperatureRGB: Vec3, luminance: real,
                         spotAngle: real, direction: Vec3, aabb: ObjectId, frustum: ObjectId)

  /** The geometry tests, left uninterpreted. */
  datatype Geometry = Geometry(aabbAabb: (ObjectId, ObjectId) -> bool,
                               aabbFrustum: (ObjectId, ObjectId) -> bool,
                               sphereFrustum: (Vec3, real, ObjectId) -> bool)

  datatype BatchingScheme = NoBatching | Instancing | VbMerging

  /** A pass of a sub-model: its phase, batching scheme and material set. */
  datatype PassView = PassView(phase: nat, batchingScheme: BatchingScheme, descriptorSet: ObjectId)

  /** A sub-model: one pass, registry id and shader per pass index. */
  datatype SubModel = SubModel(passes: seq<PassView>, passIds: seq<nat>, shaders: seq<ObjectId>,
                               descriptorSet: ObjectId, ia: ObjectId)

  predicate SubModelOk(sm: SubModel) {
    |sm.passIds| == |sm.passes| && |sm.shaders| == |sm.passes| && |sm.passes| < UINT_MAX
  }

  /** A render object's model: its world bounds, if it has any. */
  datatype Model = Model(worldBounds: Option<ObjectId>, subModels: seq<SubModel>)

  /** The frame settings the slot contents depend on. */
  datatype Settings = Settings(isHDR: bool, fpScale: real, exposure: real, lightMeterScale: real)

  /** One standard-scheme light pass: a sub-model's forward-add pass drawn
      once per light, the k-th time with dynamic offset `dynamicOffsets[k]`. */
  datatype LightPass = LightPass(subModel: SubModel, pass: PassView, shader: ObjectId, lights: seq<Light>,
                                 dynamicOffsets: seq<u32>)

  /** A merge into the aggregator registered under `(passId, lightIdx)`,
      with the light's slot as its dynamic offset 0. */
  datatype AggregatorMerge = AggregatorMerge(scheme: BatchingScheme, passId: nat, lightIdx: nat, subModel: SubModel,
                                             passIdx: nat, offset: u32)

  /** The queue's state. */
  datatype Queue = Queue(stride: nat, elementCount: nat, lightBufferCount: nat, lightBufferData: seq<real>,
                         validLights: seq<Light>, lightPasses: seq<LightPass>, merges: seq<AggregatorMerge>,
                         descriptorSets: map<ObjectId, ObjectId>, dynamicOffsets: seq<u32>, phaseId: nat)

  predicate Valid(q: Queue) {
    && q.elementCount >= LIGHT_UBO_COUNT
    && |q.lightBufferData| == q.elementCount * q.lightBufferCount
    && |q.dynamicOffsets| == 1
  }

  // ---------------------------------------------------------------- sizing

  /** `(a + b) * s` distributes. */
  lemma Distribute(a: nat, b: nat, s: nat)
    ensures (a + b) * s == a * s + b * s
  {
  }

  /** `n` is a whole number of `a`s. */
  predicate MultipleOf(n: nat, a: nat)
    requires a > 0
    decreases n
  {
    n == 0 || (n >= a && MultipleOf(n - a, a))
  }

  /** `k * a` is a whole number of `a`s. */
  lemma {:induction false} MultipleOfProduct(k: nat, a: nat)
    requires a > 0
    ensures MultipleOf(k * a, a)
    decreases k
  {
    if k > 0 {
      MultipleOfProduct(k - 1, a);
      Distribute(k - 1, 1, a);
    }
  }

  /** `n` rounded down to a multiple of `a` lies within `a` of `n`. */
  lemma RoundDown(n: nat, a: nat)
    requires a > 0
    ensures n - a < (n / a) * a <= n
  {
    assert n == (n / a) * a + n % a;
  }

  /** The light-buffer stride: the UBO size rounded up to the device's
      UBO offset alignment. */
  function LightBufferStride(alignment: nat): (r: nat)
    requires alignment > 0
    ensures MultipleOf(r, alignment)
    ensures LIGHT_UBO_SIZE <= r < LIGHT_UBO_SIZE + alignment
  {
    var k := (LIGHT_UBO_SIZE + alignment - 1) / alignment;
    RoundDown(LIGHT_UBO_SIZE + alignment - 1, alignment);
    MultipleOfProduct(k, alignment);
    k * alignment
  }

  /** The constructor's sizing: stride, floats per slot, a mirror of
      `initialCount` zeroed slots, one dynamic offset. */
  function New(alignment: nat, initialCount: nat, phaseId: nat): (r: Queue)
    requires alignment > 0
    ensures Valid(r)
    ensures MultipleOf(r.stride, alignment) && LIGHT_UBO_SIZE <= r.stride < LIGHT_UBO_SIZE + alignment
    ensures r.elementCount * FLOAT_SIZE <= r.stride < (r.elementCount + 1) * FLOAT_SIZE
    ensures r.lightBufferCount == initialCount
    ensures forall k :: 0 <= k < |r.lightBufferData| ==> r.lightBufferData[k] == 0.0
    ensures r.validLights == [] && r.lightPasses == [] && r.merges == [] && r.descriptorSets == map[]
    ensures r.dynamicOffsets == [0]
  {
    var stride := LightBufferStride(alignment);
    var ec := stride / FLOAT_SIZE;
    Queue(stride, ec, initialCount, seq(ec * initialCount, _ => 0.0), [], [], [], map[], [0], phaseId)
  }

  /** The light-buffer capacity for `valid` lights: grown to the next power
      of two when too small, never shrunk. */
  function GrowCount(count: nat, valid: nat): (r: nat)
    ensures r >= count && r >= valid
    ensures valid <= count ==> r == count
    ensures valid > count ==> IsPow2(r) && r < 2 * valid
  {
    if valid > count then NextPow2(valid) else count
  }

  // ------------------------------------------------------------ slot layout

  /** The colour written for a light: tinted by its colour temperature when
      it uses one. */
  function ColorOf(l: Light): Vec3 {
    if l.useColorTemperature then
      Vec3(l.color.x * l.colorTemperatureRGB.x, l.color.y * l.colorTemperatureRGB.y, l.color.z * l.colorTemperatureRGB.z)
    else l.color
  }

  /** The luminance written for a light: scaled by the HDR scale or the
      camera exposure, then by the light-meter scale. */
  function LuminanceOf(l: Light, s: Settings): real {
    if s.isHDR then l.luminance * s.fpScale * s.lightMeterScale else l.luminance * s.exposure * s.lightMeterScale
  }

  /** What a slot holds for light `l`: position, size and range, colour
      and luminance; a sphere light has `pos.w` and angle 0, a spot light
      has `pos.w` 1, its angle and its direction. */
  ghost predicate SlotHolds(slot: seq<real>, l: Light, s: Settings) {
    var c := ColorOf(l);
    && |slot| == LIGHT_UBO_COUNT
    && slot[LIGHT_POS_OFFSET] == l.position.x && slot[LIGHT_POS_OFFSET + 1] == l.position.y
    && slot[LIGHT_POS_OFFSET + 2] == l.position.z
    && slot[LIGHT_SIZE_RANGE_ANGLE_OFFSET] == l.size && slot[LIGHT_SIZE_RANGE_ANGLE_OFFSET + 1] == l.range
    && slot[LIGHT_COLOR_OFFSET] == c.x && slot[LIGHT_COLOR_OFFSET + 1] == c.y
    && slot[LIGHT_COLOR_OFFSET + 2] == c.z && slot[LIGHT_COLOR_OFFSET + 3] == LuminanceOf(l, s)
    && (l.kind == Sphere ==>
          slot[LIGHT_POS_OFFSET + 3] == 0.0 && slot[LIGHT_SIZE_RANGE_ANGLE_OFFSET + 2] == 0.0)
    && (l.kind == Spot ==>
          && slot[LIGHT_POS_OFFSET + 3] == 1.0 && slot[LIGHT_SIZE_RANGE_ANGLE_OFFSET + 2] == l.spotAngle
          && slot[LIGHT_DIR_OFFSET] == l.direction.x && slot[LIGHT_DIR_OFFSET + 1] == l.direction.y
          && slot[LIGHT_DIR_OFFSET + 2] == l.direction.z)
  }

  /** A slot rewritten for light `l`. Floats the light type does not use
      (the direction of a sphere light, `pos.w` and angle of other lights)
      keep what the slot held. */
  function NewSlot(slot: seq<real>, l: Light, s: Settings): (r: seq<real>)
    requires |slot| == LIGHT_UBO_COUNT
    ensures |r| == LIGHT_UBO_COUNT
  {
    var c := ColorOf(l);
    var d1 := slot[LIGHT_POS_OFFSET := l.position.x][LIGHT_POS_OFFSET + 1 := l.position.y]
                  [LIGHT_POS_OFFSET + 2 := l.position.z];
    var d2 := d1[LIGHT_SIZE_RANGE_ANGLE_OFFSET := l.size][LIGHT_SIZE_RANGE_ANGLE_OFFSET + 1 := l.range];
    var d3 := d2[LIGHT_COLOR_OFFSET := c.x][LIGHT_COLOR_OFFSET + 1 := c.y][LIGHT_COLOR_OFFSET + 2 := c.z]
               [LIGHT_COLOR_OFFSET + 3 := LuminanceOf(l, s)];
    match l.kind
    case Sphere => d3[LIGHT_POS_OFFSET + 3 := 0.0][LIGHT_SIZE_RANGE_ANGLE_OFFSET + 2 := 0.0]
    case Spot =>
      d3[LIGHT_POS_OFFSET + 3 := 1.0][LIGHT_SIZE_RANGE_ANGLE_OFFSET + 2 := l.spotAngle]
        [LIGHT_DIR_OFFSET := l.direction.x][LIGHT_DIR_OFFSET + 1 := l.direction.y]
        [LIGHT_DIR_OFFSET + 2 := l.direction.z]
    case Directional => d3
  }

  /** A rewritten slot holds its light; a sphere light leaves the
      direction floats as they were. */
  lemma NewSlotHolds(slot: seq<real>, l: Light, s: Settings)
    requires |slot| == LIGHT_UBO_COUNT
    ensures SlotHolds(NewSlot(slot, l, s), l, s)
    ensures l.kind == Sphere ==> forall k :: LIGHT_DIR_OFFSET <= k < LIGHT_UBO_COUNT ==> NewSlot(slot, l, s)[k] == slot[k]
  {
  }

  /** The slot at float offset `o` rewritten for light `l`; nothing outside
      it changes. */
  function WriteSlot(d: seq<real>, o: nat, l: Light, s: Settings): (r: seq<real>)
    requires o + LIGHT_UBO_COUNT <= |d|
    ensures |r| == |d|
  {
    d[..o] + NewSlot(d[o..o + LIGHT_UBO_COUNT], l, s) + d[o + LIGHT_UBO_COUNT..]
  }

  /** WriteSlot changes nothing before or after the slot it rewrites. */
  lemma WriteSlotKeepsOutside(d: seq<real>, o: nat, l: Light, s: Settings)
    requires o + LIGHT_UBO_COUNT <= |d|
    ensures WriteSlot(d, o, l, s)[..o] == d[..o]
    ensures WriteSlot(d, o, l, s)[o + LIGHT_UBO_COUNT..] == d[o + LIGHT_UBO_COUNT..]
  {
    var r := WriteSlot(d, o, l, s);
    assert r[..o] == d[..o];
  }

  /** The slot WriteSlot rewrites is the light's rewrite of the old one. */
  lemma WriteSlotWindow(d: seq<real>, o: nat, l: Light, s: Settings)
    requires o + LIGHT_UBO_COUNT <= |d|
    ensures WriteSlot(d, o, l, s)[o..o + LIGHT_UBO_COUNT] == NewSlot(d[o..o + LIGHT_UBO_COUNT], l, s)
  {
    var r := WriteSlot(d, o, l, s);
    assert r == d[..o] + NewSlot(d[o..o + LIGHT_UBO_COUNT], l, s) + d[o + LIGHT_UBO_COUNT..];
    assert r[o..o + LIGHT_UBO_COUNT] == NewSlot(d[o..o + LIGHT_UBO_COUNT], l, s);
  }

  /** Float offset of slot `l` when slots are `ec` floats apart, counted
      up slot by slot as `updateUBOs` does. */
  function SlotStart(l: nat, ec: nat): nat
    decreases l
  {
    if l == 0 then 0 else SlotStart(l - 1, ec) + ec
  }

  /** Slot `l` starts at `l * ec`. */
  lemma {:induction false} SlotStartIsProduct(l: nat, ec: nat)
    ensures SlotStart(l, ec) == l * ec
    decreases l
  {
    if l > 0 {
      SlotStartIsProduct(l - 1, ec);
      Distribute(l - 1, 1, ec);
    }
  }

  /** Slot `l` ends before slot `n` starts. */
  lemma {:induction false} SlotBefore(l: nat, n: nat, ec: nat)
    requires l < n
    ensures SlotStart(l, ec) + ec <= SlotStart(n, ec)
    decreases n
  {
    if l < n - 1 {
      SlotBefore(l, n - 1, ec);
    }
  }

  /** A window of a prefix is the same window of the whole. */
  lemma WindowOfPrefix(a: seq<real>, b: seq<real>, i: nat, j: nat, k: nat)
    requires i <= j <= k <= |a| && k <= |b| && a[..k] == b[..k]
    ensures a[i..j] == b[i..j]
  {
    forall t | 0 <= t < j - i
      ensures a[i..j][t] == b[i..j][t]
    {
      assert a[..k][i + t] == b[..k][i + t];
    }
  }

  /** A slot equal to a rewrite for light `l` holds `l`. */
  lemma RewrittenHolds(w: seq<real>, prev: seq<real>, l: Light, s: Settings)
    requires |prev| == LIGHT_UBO_COUNT && w == NewSlot(prev, l, s)
    ensures SlotHolds(w, l, s)
  {
    NewSlotHolds(prev, l, s);
  }

  /** The first `n` lights of `lights` written into their slots, in
      order. */
  function WriteSlots(d: seq<real>, lights: seq<Light>, n: nat, ec: nat, s: Settings): (r: seq<real>)
    requires n <= |lights| && ec >= LIGHT_UBO_COUNT && SlotStart(n, ec) <= |d|
    ensures |r| == |d|
    decreases n
  {
    if n == 0 then d
    else WriteSlot(WriteSlots(d, lights, n - 1, ec, s), SlotStart(n - 1, ec), lights[n - 1], s)
  }

  /** Slot `l` is last written by light `l`: the later lights write past
      its end. */
  lemma {:induction false} WindowStable(d: seq<real>, lights: seq<Light>, n: nat, ec: nat, s: Settings, l: nat)
    requires n <= |lights| && ec >= LIGHT_UBO_COUNT && SlotStart(n, ec) <= |d| && l < n
    requires SlotStart(l + 1, ec) <= |d|
    ensures WriteSlots(d, lights, n, ec, s)[SlotStart(l, ec)..SlotStart(l, ec) + LIGHT_UBO_COUNT]
         == WriteSlots(d, lights, l + 1, ec, s)[SlotStart(l, ec)..SlotStart(l, ec) + LIGHT_UBO_COUNT]
    decreases n
  {
    if l + 1 < n {
      SlotBefore(n - 1, n, ec);
      SlotBefore(l, n - 1, ec);
      WindowStable(d, lights, n - 1, ec, s, l);
      WindowKeptByLast(d, lights, n, ec, s, l);
    }
  }

  /** Writing light `n - 1`'s slot keeps the window of an earlier one. */
  lemma WindowKeptByLast(d: seq<real>, lights: seq<Light>, n: nat, ec: nat, s: Settings, l: nat)
    requires n <= |lights| && ec >= LIGHT_UBO_COUNT && SlotStart(n, ec) <= |d| && l + 1 < n
    requires SlotStart(l, ec) + ec <= SlotStart(n - 1, ec)
    ensures WriteSlots(d, lights, n, ec, s)[SlotStart(l, ec)..SlotStart(l, ec) + LIGHT_UBO_COUNT]
         == WriteSlots(d, lights, n - 1, ec, s)[SlotStart(l, ec)..SlotStart(l, ec) + LIGHT_UBO_COUNT]
  {
    var lo := SlotStart(l, ec);
    var o := SlotStart(n - 1, ec);
    var prev := WriteSlots(d, lights, n - 1, ec, s);
    WriteSlotKeepsOutside(prev, o, lights[n - 1], s);
    WindowOfPrefix(WriteSlots(d, lights, n, ec, s), prev, lo, lo + LIGHT_UBO_COUNT, o);
  }

  /** Light `l`'s own write leaves its slot holding the rewrite of what
      the earlier lights left there. */
  lemma LastWriteWindow(d: seq<real>, lights: seq<Light>, ec: nat, s: Settings, l: nat)
    requires l < |lights| && ec >= LIGHT_UBO_COUNT && SlotStart(l + 1, ec) <= |d|
    ensures SlotStart(l, ec) + LIGHT_UBO_COUNT <= |d|
    ensures WriteSlots(d, lights, l + 1, ec, s)[SlotStart(l, ec)..SlotStart(l, ec) + LIGHT_UBO_COUNT]
         == NewSlot(WriteSlots(d, lights, l, ec, s)[SlotStart(l, ec)..SlotStart(l, ec) + LIGHT_UBO_COUNT], lights[l], s)
  {
    var lo := SlotStart(l, ec);
    var before := WriteSlots(d, lights, l, ec, s);
    assert WriteSlots(d, lights, l + 1, ec, s) == WriteSlot(before, lo, lights[l], s);
    WriteSlotWindow(before, lo, lights[l], s);
  }

  /** After WriteSlots, slot `l` is light `l`'s rewrite of what the
      earlier lights left there. */
  lemma WriteSlotsWindow(d: seq<real>, lights: seq<Light>, n: nat, ec: nat, s: Settings, l: nat)
    requires n <= |lights| && ec >= LIGHT_UBO_COUNT && SlotStart(n, ec) <= |d| && l < n
    ensures SlotStart(l, ec) + LIGHT_UBO_COUNT <= |d| && SlotStart(l, ec) <= |d|
    ensures WriteSlots(d, lights, n, ec, s)[SlotStart(l, ec)..SlotStart(l, ec) + LIGHT_UBO_COUNT]
         == NewSlot(WriteSlots(d, lights, l, ec, s)[SlotStart(l, ec)..SlotStart(l, ec) + LIGHT_UBO_COUNT], lights[l], s)
  {
    if l + 1 < n {
      SlotBefore(l + 1, n, ec);
    }
    WindowStable(d, lights, n, ec, s, l);
    LastWriteWindow(d, lights, ec, s, l);
  }

  /** After WriteSlots, slot `l` holds light `l`. */
  lemma WriteSlotsHold(d: seq<real>, lights: seq<Light>, n: nat, ec: nat, s: Settings, l: nat)
    requires n <= |lights| && ec >= LIGHT_UBO_COUNT && SlotStart(n, ec) <= |d| && l < n
    ensures SlotStart(l, ec) + LIGHT_UBO_COUNT <= |d|
    ensures SlotHolds(WriteSlots(d, lights, n, ec, s)[SlotStart(l, ec)..SlotStart(l, ec) + LIGHT_UBO_COUNT], lights[l], s)
  {
    WriteSlotsWindow(d, lights, n, ec, s, l);
    var lo := SlotStart(l, ec);
    assert l <= |lights| && lo <= lo + LIGHT_UBO_COUNT <= |d|;
    var before := WriteSlots(d, lights, l, ec, s);
    var prev := before[lo..lo + LIGHT_UBO_COUNT];
    var w := WriteSlots(d, lights, n, ec, s)[lo..lo + LIGHT_UBO_COUNT];
    RewrittenHolds(w, prev, lights[l], s);
  }

  /** WriteSlots leaves the floats past the last slot alone. */
  lemma {:induction false} WriteSlotsTail(d: seq<real>, lights: seq<Light>, n: nat, ec: nat, s: Settings)
    requires n <= |lights| && ec >= LIGHT_UBO_COUNT && SlotStart(n, ec) <= |d|
    ensures WriteSlots(d, lights, n, ec, s)[SlotStart(n, ec)..] == d[SlotStart(n, ec)..]
    decreases n
  {
    if n > 0 {
      var o := SlotStart(n - 1, ec);
      var prev := WriteSlots(d, lights, n - 1, ec, s);
      var r := WriteSlot(prev, o, lights[n - 1], s);
      WriteSlotsTail(d, lights, n - 1, ec, s);
      WriteSlotKeepsOutside(prev, o, lights[n - 1], s);
      assert r[o + ec..] == r[o + LIGHT_UBO_COUNT..][ec - LIGHT_UBO_COUNT..];
      assert prev[o + ec..] == prev[o..][ec..];
    }
  }

  /** The mirror before the slots are written: resized, zero-filled at
      the end, when the capacity grows, and as it was otherwise. */
  function GrownBuffer(q: Queue): (r: seq<real>)
    requires Valid(q)
    ensures |r| == q.elementCount * GrowCount(q.lightBufferCount, |q.validLights|)
    ensures SlotStart(|q.validLights|, q.elementCount) <= |r|
  {
    var count := GrowCount(q.lightBufferCount, |q.validLights|);
    MulMonotone(q.elementCount, |q.validLights|, count);
    SlotStartIsProduct(|q.validLights|, q.elementCount);
    if count != q.lightBufferCount then Resize(q.lightBufferData, q.elementCount * count, 0.0)
    else q.lightBufferData
  }

  /** `updateUBOs`: grow the buffer if the lights outnumber its slots,
      write every valid light's slot, and upload the whole mirror. */
  function UpdateUBOs(q: Queue, s: Settings): (r: (Queue, seq<real>))
    requires Valid(q)
    ensures Valid(r.0) && r.1 == r.0.lightBufferData
    ensures r.0 == q.(lightBufferCount := r.0.lightBufferCount, lightBufferData := r.0.lightBufferData)
    ensures r.0.lightBufferCount == GrowCount(q.lightBufferCount, |q.validLights|)
    ensures SlotStart(|q.validLights|, q.elementCount) <= |r.1|
  {
    var written := WriteSlots(GrownBuffer(q), q.validLights, |q.validLights|, q.elementCount, s);
    (q.(lightBufferCount := GrowCount(q.lightBufferCount, |q.validLights|), lightBufferData := written), written)
  }

  /** After `updateUBOs`, valid light `l` is in slot `l`, which starts at
      float `l * elementCount`. */
  lemma UpdateUBOsFillsSlot(q: Queue, s: Settings, l: nat)
    requires Valid(q) && l < |q.validLights|
    ensures SlotStart(l, q.elementCount) == l * q.elementCount
    ensures SlotStart(l, q.elementCount) + LIGHT_UBO_COUNT <= |UpdateUBOs(q, s).1|
    ensures SlotHolds(UpdateUBOs(q, s).1[SlotStart(l, q.elementCount)..SlotStart(l, q.elementCount) + LIGHT_UBO_COUNT],
                      q.validLights[l], s)
  {
    SlotStartIsProduct(l, q.elementCount);
    WriteSlotsHold(GrownBuffer(q), q.validLights, |q.validLights|, q.elementCount, s, l);
  }

  /** `a * b` grows with `b`. */
  lemma MulMonotone(a: nat, b: nat, c: nat)
    requires b <= c
    ensures b * a <= a * c
  {
  }

  // --------------------------------------------------------- culling rules

  /** `cullingLight`: whether a light cannot reach a model. A sphere light
      misses a model whose bounds miss its box; a spot light also misses
      one outside its frustum; other lights reach everything, and so does
      every light a model without bounds. */
  predicate Culled(l: Light, m: Model, g: Geometry) {
    match l.kind
    case Sphere => m.worldBounds.Some? && !g.aabbAabb(m.worldBounds.value, l.aabb)
    case Spot => m.worldBounds.Some? &&
      (!g.aabbAabb(m.worldBounds.value, l.aabb) || !g.aabbFrustum(m.worldBounds.value, l.frustum))
    case Directional => false
  }

  /** A spot light culls at least what a sphere light with the same box
      culls; a model without bounds is never culled; a directional light
      never culls. */
  lemma CullingOrder(l: Light, m: Model, g: Geometry)
    ensures m.worldBounds.None? ==> !Culled(l, m, g)
    ensures l.kind == Directional ==> !Culled(l, m, g)
    ensures Culled(l.(kind := Sphere), m, g) ==> Culled(l.(kind := Spot), m, g)
  {
  }

  /** The indices of the lights that reach the model, in light order. */
  function LightIndices(lights: seq<Light>, m: Model, g: Geometry): (r: seq<nat>)
    ensures forall k :: 0 <= k < |r| ==> r[k] < |lights| && !Culled(lights[r[k]], m, g)
    ensures forall k, k' :: 0 <= k < k' < |r| ==> r[k] < r[k']
    ensures forall i :: 0 <= i < |lights| && !Culled(lights[i], m, g) ==> i in r
    decreases |lights|
  {
    if |lights| == 0 then []
    else
      var n := |lights| - 1;
      var prev := LightIndices(lights[..n], m, g);
      assert forall k :: 0 <= k < |prev| ==> lights[..n][prev[k]] == lights[prev[k]];
      if Culled(lights[n], m, g) then prev else prev + [n]
  }

  /** The lights the camera sees: the sphere lights, then the spot lights,
      each kept iff its bounding sphere meets the camera frustum. */
  function VisibleLights(lights: seq<Light>, frustum: ObjectId, g: Geometry): (r: seq<Light>)
    ensures |r| <= |lights|
    ensures forall l :: l in r <==> l in lights && g.sphereFrustum(l.position, l.range, frustum)
    decreases |lights|
  {
    if |lights| == 0 then []
    else
      var rest := VisibleLights(lights[1..], frustum, g);
      if g.sphereFrustum(lights[0].position, lights[0].range, frustum) then [lights[0]] + rest else rest
  }

  // ------------------------------------------------------- pass selection

  /** The index of the first pass in the given phase, or UINT_MAX. */
  function LightPassIndex(passes: seq<PassView>, phase: nat): (r: nat)
    requires |passes| < UINT_MAX
    ensures r != UINT_MAX ==>
      && r < |passes| && passes[r].phase == phase
      && forall j :: 0 <= j < r ==> passes[j].phase != phase
    ensures r == UINT_MAX <==> forall j :: 0 <= j < |passes| ==> passes[j].phase != phase
    decreases |passes|
  {
    if |passes| == 0 then UINT_MAX
    else if passes[0].phase == phase then 0
    else
      var rest := LightPassIndex(passes[1..], phase);
      if rest == UINT_MAX then UINT_MAX else rest + 1
  }

  /** `getLightPassIndex`: each sub-model's forward-add pass index, and
      whether any sub-model has one. */
  function LightPassIndices(subModels: seq<SubModel>, phase: nat): (r: (seq<nat>, bool))
    requires forall i :: 0 <= i < |subModels| ==> |subModels[i].passes| < UINT_MAX
    ensures |r.0| == |subModels|
    ensures forall i :: 0 <= i < |subModels| ==> r.0[i] == LightPassIndex(subModels[i].passes, phase)
    ensures r.1 <==> exists i :: 0 <= i < |subModels| && r.0[i] != UINT_MAX
  {
    var idx := seq(|subModels|, i requires 0 <= i < |subModels| =>
      LightPassIndex(subModels[i].passes, phase));
    (idx, exists i :: 0 <= i < |subModels| && idx[i] != UINT_MAX)
  }

  // ------------------------------------------------------------- dispatch

  /** The dynamic offset selecting a light's slot: stride times its index,
      in 32-bit arithmetic. */
  function SlotOffset(stride: nat, lightIdx: nat): u32 {
    ((stride * lightIdx) % U32_LIMIT) as u32
  }

  /** With a float-aligned UBO alignment, light `idx`'s dynamic offset is
      the byte address of the slot `updateUBOs` wrote it to. */
  lemma OffsetAddressesSlot(alignment: nat, words: nat, idx: nat)
    requires words > 0 && alignment == FLOAT_SIZE * words
    requires LightBufferStride(alignment) * idx < U32_LIMIT
    ensures var q := New(alignment, 0, 0);
      SlotOffset(q.stride, idx) as int == FLOAT_SIZE * SlotStart(idx, q.elementCount)
  {
    var stride := LightBufferStride(alignment);
    var k := (LIGHT_UBO_SIZE + alignment - 1) / alignment;
    assert stride == k * alignment;
    assert stride == FLOAT_SIZE * (k * words);
    assert stride / FLOAT_SIZE == k * words;
    SlotStartIsProduct(idx, k * words);
    assert stride * idx == FLOAT_SIZE * (idx * (k * words));
  }

  /** The standard-scheme light pass of a sub-model: the lights in index
      order, each with its slot offset. */
  function StandardPass(q: Queue, sm: SubModel, passIdx: nat, indices: seq<nat>): (r: LightPass)
    requires SubModelOk(sm) && passIdx < |sm.passes|
    requires forall k :: 0 <= k < |indices| ==> indices[k] < |q.validLights|
    ensures |r.lights| == |r.dynamicOffsets| == |indices|
    ensures forall k :: 0 <= k < |indices| ==>
      r.lights[k] == q.validLights[indices[k]] && r.dynamicOffsets[k] == SlotOffset(q.stride, indices[k])
    ensures r.subModel == sm && r.pass == sm.passes[passIdx] && r.shader == sm.shaders[passIdx]
  {
    LightPass(sm, sm.passes[passIdx], sm.shaders[passIdx],
              seq(|indices|, k requires 0 <= k < |indices| => q.validLights[indices[k]]),
              seq(|indices|, k requires 0 <= k < |indices| => SlotOffset(q.stride, indices[k])))
  }

  /** The aggregator merges of an instanced or vertex-merged sub-model: one
      per light, keyed by the pass's registry id and the light index. */
  function AggregatorMerges(q: Queue, scheme: BatchingScheme, sm: SubModel, passIdx: nat, indices: seq<nat>)
    : (r: seq<AggregatorMerge>)
    requires SubModelOk(sm) && passIdx < |sm.passes|
    ensures |r| == |indices|
    ensures forall k :: 0 <= k < |indices| ==>
      r[k] == AggregatorMerge(scheme, sm.passIds[passIdx], indices[k], sm, passIdx, SlotOffset(q.stride, indices[k]))
  {
    seq(|indices|, k requires 0 <= k < |indices| =>
      AggregatorMerge(scheme, sm.passIds[passIdx], indices[k], sm, passIdx, SlotOffset(q.stride, indices[k])))
  }

  /** `addRenderQueue`: dispatch by the pass's batching scheme. */
  function AddRenderQueue(q: Queue, sm: SubModel, passIdx: nat, indices: seq<nat>): (r: Queue)
    requires SubModelOk(sm) && passIdx < |sm.passes|
    requires forall k :: 0 <= k < |indices| ==> indices[k] < |q.validLights|
    ensures sm.passes[passIdx].batchingScheme == NoBatching ==>
      r == q.(lightPasses := q.lightPasses + [StandardPass(q, sm, passIdx, indices)])
    ensures sm.passes[passIdx].batchingScheme != NoBatching ==>
      r == q.(merges := q.merges + AggregatorMerges(q, sm.passes[passIdx].batchingScheme, sm, passIdx, indices))
  {
    var scheme := sm.passes[passIdx].batchingScheme;
    if scheme == NoBatching then q.(lightPasses := q.lightPasses + [StandardPass(q, sm, passIdx, indices)])
    else q.(merges := q.merges + AggregatorMerges(q, scheme, sm, passIdx, indices))
  }

  /** Every light pass draws each of its lights with that light's slot. */
  ghost predicate PassesWellFormed(q: Queue) {
    forall i :: 0 <= i < |q.lightPasses| ==>
      |q.lightPasses[i].lights| == |q.lightPasses[i].dynamicOffsets| > 0
  }

  /** Every light a light pass draws is one of the frame's valid lights. */
  ghost predicate PassLightsValid(q: Queue) {
    forall i :: 0 <= i < |q.lightPasses| ==>
      forall j :: 0 <= j < |q.lightPasses[i].lights| ==> q.lightPasses[i].lights[j] in q.validLights
  }

  /** The light pass a sub-model contributes: its standard pass when it has
      a forward-add pass without batching, and none otherwise. */
  function SubModelPasses(q: Queue, sm: SubModel, passIdx: nat, indices: seq<nat>): seq<LightPass>
    requires SubModelOk(sm) && (passIdx == UINT_MAX || passIdx < |sm.passes|)
    requires forall k :: 0 <= k < |indices| ==> indices[k] < |q.validLights|
  {
    if passIdx == UINT_MAX || sm.passes[passIdx].batchingScheme != NoBatching then []
    else [StandardPass(q, sm, passIdx, indices)]
  }

  /** The aggregator merges a sub-model contributes: one per light when its
      forward-add pass is instanced or vertex-merged, and none otherwise. */
  function SubModelMerges(q: Queue, sm: SubModel, passIdx: nat, indices: seq<nat>): seq<AggregatorMerge>
    requires SubModelOk(sm) && (passIdx == UINT_MAX || passIdx < |sm.passes|)
  {
    if passIdx == UINT_MAX || sm.passes[passIdx].batchingScheme == NoBatching then []
    else AggregatorMerges(q, sm.passes[passIdx].batchingScheme, sm, passIdx, indices)
  }

  /** What the sub-models from index `j` on may be dispatched with. */
  predicate SubModelsOk(q: Queue, sms: seq<SubModel>, passIndices: seq<nat>, indices: seq<nat>, j: nat) {
    && |passIndices| == |sms| && j <= |sms|
    && (forall i :: 0 <= i < |sms| ==> SubModelOk(sms[i]))
    && (forall i :: 0 <= i < |sms| ==> passIndices[i] == UINT_MAX || passIndices[i] < |sms[i].passes|)
    && (forall k :: 0 <= k < |indices| ==> indices[k] < |q.validLights|)
  }

  /** The light passes of the sub-models from index `j` on, in order. */
  function SubModelsPasses(q: Queue, sms: seq<SubModel>, passIndices: seq<nat>, indices: seq<nat>, j: nat)
    : seq<LightPass>
    requires SubModelsOk(q, sms, passIndices, indices, j)
  {
    Join(seq(|sms| - j, k requires 0 <= k < |sms| - j => SubModelPasses(q, sms[j + k], passIndices[j + k], indices)))
  }

  /** The aggregator merges of the sub-models from index `j` on, in order. */
  function SubModelsMerges(q: Queue, sms: seq<SubModel>, passIndices: seq<nat>, indices: seq<nat>, j: nat)
    : seq<AggregatorMerge>
    requires SubModelsOk(q, sms, passIndices, indices, j)
  {
    Join(seq(|sms| - j, k requires 0 <= k < |sms| - j => SubModelMerges(q, sms[j + k], passIndices[j + k], indices)))
  }

  /** Peeling the first sub-model off the joined light passes. */
  lemma SubModelsPassesStep(q: Queue, sms: seq<SubModel>, passIndices: seq<nat>, indices: seq<nat>, j: nat)
    requires SubModelsOk(q, sms, passIndices, indices, j) && j < |sms|
    ensures SubModelsPasses(q, sms, passIndices, indices, j) ==
      SubModelPasses(q, sms[j], passIndices[j], indices) + SubModelsPasses(q, sms, passIndices, indices, j + 1)
  {
    var ps := seq(|sms| - j, k requires 0 <= k < |sms| - j => SubModelPasses(q, sms[j + k], passIndices[j + k], indices));
    var ps' := seq(|sms| - (j + 1), k requires 0 <= k < |sms| - (j + 1) =>
      SubModelPasses(q, sms[j + 1 + k], passIndices[j + 1 + k], indices));
    forall k | 0 <= k < |ps'| ensures ps[1..][k] == ps'[k] {
      assert ps[k + 1] == SubModelPasses(q, sms[j + 1 + k], passIndices[j + 1 + k], indices);
    }
    assert ps[1..] == ps';
    assert Join(ps) == ps[0] + Join(ps[1..]);
  }

  /** Peeling the first sub-model off the joined merges. */
  lemma SubModelsMergesStep(q: Queue, sms: seq<SubModel>, passIndices: seq<nat>, indices: seq<nat>, j: nat)
    requires SubModelsOk(q, sms, passIndices, indices, j) && j < |sms|
    ensures SubModelsMerges(q, sms, passIndices, indices, j) ==
      SubModelMerges(q, sms[j], passIndices[j], indices) + SubModelsMerges(q, sms, passIndices, indices, j + 1)
  {
    var ms := seq(|sms| - j, k requires 0 <= k < |sms| - j => SubModelMerges(q, sms[j + k], passIndices[j + k], indices));
    var ms' := seq(|sms| - (j + 1), k requires 0 <= k < |sms| - (j + 1) =>
      SubModelMerges(q, sms[j + 1 + k], passIndices[j + 1 + k], indices));
    forall k | 0 <= k < |ms'| ensures ms[1..][k] == ms'[k] {
      assert ms[k + 1] == SubModelMerges(q, sms[j + 1 + k], passIndices[j + 1 + k], indices);
    }
    assert ms[1..] == ms';
    assert Join(ms) == ms[0] + Join(ms[1..]);
  }

  /** The sub-models' contributions depend on the queue only through its
      valid lights and light-buffer stride. */
  lemma SubModelsFrame(q: Queue, q': Queue, sms: seq<SubModel>, passIndices: seq<nat>, indices: seq<nat>, j: nat)
    requires SubModelsOk(q, sms, passIndices, indices, j)
    requires q'.validLights == q.validLights && q'.stride == q.stride
    ensures SubModelsPasses(q', sms, passIndices, indices, j) == SubModelsPasses(q, sms, passIndices, indices, j)
    ensures SubModelsMerges(q', sms, passIndices, indices, j) == SubModelsMerges(q, sms, passIndices, indices, j)
  {
    var ps := seq(|sms| - j, k requires 0 <= k < |sms| - j => SubModelPasses(q, sms[j + k], passIndices[j + k], indices));
    var ps' := seq(|sms| - j, k requires 0 <= k < |sms| - j => SubModelPasses(q', sms[j + k], passIndices[j + k], indices));
    var ms := seq(|sms| - j, k requires 0 <= k < |sms| - j => SubModelMerges(q, sms[j + k], passIndices[j + k], indices));
    var ms' := seq(|sms| - j, k requires 0 <= k < |sms| - j => SubModelMerges(q', sms[j + k], passIndices[j + k], indices));
    forall k | 0 <= k < |sms| - j
      ensures ps[k] == ps'[k] && ms[k] == ms'[k]
    {
      var sm, pi := sms[j + k], passIndices[j + k];
      assert ps[k] == SubModelPasses(q, sm, pi, indices) && ps'[k] == SubModelPasses(q', sm, pi, indices);
      assert ms[k] == SubModelMerges(q, sm, pi, indices) && ms'[k] == SubModelMerges(q', sm, pi, indices);
      if pi != UINT_MAX {
        var a := StandardPass(q', sm, pi, indices);
        var b := StandardPass(q, sm, pi, indices);
        assert a.lights == b.lights && a.dynamicOffsets == b.dynamicOffsets;
        var scheme := sm.passes[pi].batchingScheme;
        assert AggregatorMerges(q', scheme, sm, pi, indices) == AggregatorMerges(q, scheme, sm, pi, indices);
      }
    }
    assert ps == ps';
    assert ms == ms';
  }

  /** One sub-model of a lit model: skipped without a forward-add pass,
      otherwise handed to `addRenderQueue`. */
  function AddSubModel(q: Queue, sm: SubModel, passIdx: nat, indices: seq<nat>): (r: Queue)
    requires SubModelOk(sm) && (passIdx == UINT_MAX || passIdx < |sm.passes|) && |indices| > 0
    requires forall k :: 0 <= k < |indices| ==> indices[k] < |q.validLights|
    requires PassesWellFormed(q) && PassLightsValid(q)
    ensures PassesWellFormed(r) && PassLightsValid(r)
    ensures r == q.(lightPasses := q.lightPasses + SubModelPasses(q, sm, passIdx, indices),
                    merges := q.merges + SubModelMerges(q, sm, passIdx, indices))
  {
    if passIdx == UINT_MAX then q else AddRenderQueue(q, sm, passIdx, indices)
  }

  /** Taking sub-model `j`'s contributions into the queue leaves the rest
      to be contributed by the sub-models after it. */
  lemma SubModelsCompose(q: Queue, q': Queue, sms: seq<SubModel>, passIndices: seq<nat>, indices: seq<nat>, j: nat)
    requires SubModelsOk(q, sms, passIndices, indices, j) && j < |sms|
    requires q'.validLights == q.validLights && q'.stride == q.stride
    requires q'.lightPasses == q.lightPasses + SubModelPasses(q, sms[j], passIndices[j], indices)
    requires q'.merges == q.merges + SubModelMerges(q, sms[j], passIndices[j], indices)
    ensures q'.lightPasses + SubModelsPasses(q', sms, passIndices, indices, j + 1) ==
      q.lightPasses + SubModelsPasses(q, sms, passIndices, indices, j)
    ensures q'.merges + SubModelsMerges(q', sms, passIndices, indices, j + 1) ==
      q.merges + SubModelsMerges(q, sms, passIndices, indices, j)
  {
    SubModelsFrame(q, q', sms, passIndices, indices, j + 1);
    SubModelsPassesStep(q, sms, passIndices, indices, j);
    SubModelsMergesStep(q, sms, passIndices, indices, j);
    AppendAssoc(q.lightPasses, SubModelPasses(q, sms[j], passIndices[j], indices),
                SubModelsPasses(q, sms, passIndices, indices, j + 1));
    AppendAssoc(q.merges, SubModelMerges(q, sms[j], passIndices[j], indices),
                SubModelsMerges(q, sms, passIndices, indices, j + 1));
  }

  /** The sub-models of one lit model, from index `j` on, dispatched: the
      light passes and merges grow by exactly what those sub-models
      contribute, in sub-model order. */
  function AddSubModels(q: Queue, sms: seq<SubModel>, passIndices: seq<nat>, indices: seq<nat>, j: nat)
    : (r: Queue)
    requires SubModelsOk(q, sms, passIndices, indices, j) && |indices| > 0
    requires PassesWellFormed(q) && PassLightsValid(q)
    ensures PassesWellFormed(r) && PassLightsValid(r)
    ensures r == q.(lightPasses := r.lightPasses, merges := r.merges)
    ensures r.lightPasses == q.lightPasses + SubModelsPasses(q, sms, passIndices, indices, j)
    ensures r.merges == q.merges + SubModelsMerges(q, sms, passIndices, indices, j)
    decreases |sms| - j
  {
    if j == |sms| then q
    else
      var q' := AddSubModel(q, sms[j], passIndices[j], indices);
      SubModelsCompose(q, q', sms, passIndices, indices, j);
      AddSubModels(q', sms, passIndices, indices, j + 1)
  }

  /** What the render objects may be dispatched with. */
  predicate ModelsOk(models: seq<Model>) {
    forall k :: 0 <= k < |models| ==> forall j :: 0 <= j < |models[k].subModels| ==>
      SubModelOk(models[k].subModels[j])
  }

  /** The light passes a render object contributes: none when it has no
      forward-add pass or no light reaches it; otherwise those of its
      sub-models, lit by the lights that reach it. */
  function ModelPasses(q: Queue, m: Model, g: Geometry): seq<LightPass>
    requires forall j :: 0 <= j < |m.subModels| ==> SubModelOk(m.subModels[j])
  {
    forall j | 0 <= j < |m.subModels| ensures |m.subModels[j].passes| < UINT_MAX {
      assert SubModelOk(m.subModels[j]);
    }
    var lp := LightPassIndices(m.subModels, q.phaseId);
    var indices := LightIndices(q.validLights, m, g);
    if !lp.1 || |indices| == 0 then [] else SubModelsPasses(q, m.subModels, lp.0, indices, 0)
  }

  /** The aggregator merges a render object contributes, likewise. */
  function ModelMerges(q: Queue, m: Model, g: Geometry): seq<AggregatorMerge>
    requires forall j :: 0 <= j < |m.subModels| ==> SubModelOk(m.subModels[j])
  {
    forall j | 0 <= j < |m.subModels| ensures |m.subModels[j].passes| < UINT_MAX {
      assert SubModelOk(m.subModels[j]);
    }
    var lp := LightPassIndices(m.subModels, q.phaseId);
    var indices := LightIndices(q.validLights, m, g);
    if !lp.1 || |indices| == 0 then [] else SubModelsMerges(q, m.subModels, lp.0, indices, 0)
  }

  /** The light passes of the render objects from index `i` on, in order. */
  function ModelsPasses(q: Queue, models: seq<Model>, g: Geometry, i: nat): seq<LightPass>
    requires ModelsOk(models) && i <= |models|
  {
    Join(seq(|models| - i, k requires 0 <= k < |models| - i => ModelPasses(q, models[i + k], g)))
  }

  /** The aggregator merges of the render objects from index `i` on. */
  function ModelsMerges(q: Queue, models: seq<Model>, g: Geometry, i: nat): seq<AggregatorMerge>
    requires ModelsOk(models) && i <= |models|
  {
    Join(seq(|models| - i, k requires 0 <= k < |models| - i => ModelMerges(q, models[i + k], g)))
  }

  /** Peeling the first render object off the joined light passes. */
  lemma ModelsPassesStep(q: Queue, models: seq<Model>, g: Geometry, i: nat)
    requires ModelsOk(models) && i < |models|
    ensures ModelsPasses(q, models, g, i) == ModelPasses(q, models[i], g) + ModelsPasses(q, models, g, i + 1)
  {
    var ps := seq(|models| - i, k requires 0 <= k < |models| - i => ModelPasses(q, models[i + k], g));
    var ps' := seq(|models| - (i + 1), k requires 0 <= k < |models| - (i + 1) => ModelPasses(q, models[i + 1 + k], g));
    forall k | 0 <= k < |ps'| ensures ps[1..][k] == ps'[k] {
      assert ps[k + 1] == ModelPasses(q, models[i + 1 + k], g);
    }
    assert ps[1..] == ps';
    assert Join(ps) == ps[0] + Join(ps[1..]);
  }

  /** Peeling the first render object off the joined merges. */
  lemma ModelsMergesStep(q: Queue, models: seq<Model>, g: Geometry, i: nat)
    requires ModelsOk(models) && i < |models|
    ensures ModelsMerges(q, models, g, i) == ModelMerges(q, models[i], g) + ModelsMerges(q, models, g, i + 1)
  {
    var ms := seq(|models| - i, k requires 0 <= k < |models| - i => ModelMerges(q, models[i + k], g));
    var ms' := seq(|models| - (i + 1), k requires 0 <= k < |models| - (i + 1) => ModelMerges(q, models[i + 1 + k], g));
    forall k | 0 <= k < |ms'| ensures ms[1..][k] == ms'[k] {
      assert ms[k + 1] == ModelMerges(q, models[i + 1 + k], g);
    }
    assert ms[1..] == ms';
    assert Join(ms) == ms[0] + Join(ms[1..]);
  }

  /** The render objects' contributions depend on the queue only through
      its valid lights, light-buffer stride and phase. */
  lemma ModelsFrame(q: Queue, q': Queue, models: seq<Model>, g: Geometry, i: nat)
    requires ModelsOk(models) && i <= |models|
    requires q'.validLights == q.validLights && q'.stride == q.stride && q'.phaseId == q.phaseId
    ensures ModelsPasses(q', models, g, i) == ModelsPasses(q, models, g, i)
    ensures ModelsMerges(q', models, g, i) == ModelsMerges(q, models, g, i)
  {
    forall k | i <= k < |models|
      ensures ModelPasses(q', models[k], g) == ModelPasses(q, models[k], g)
      ensures ModelMerges(q', models[k], g) == ModelMerges(q, models[k], g)
    {
      var m := models[k];
      forall j | 0 <= j < |m.subModels| ensures |m.subModels[j].passes| < UINT_MAX {
      assert SubModelOk(m.subModels[j]);
    }
      var lp := LightPassIndices(m.subModels, q.phaseId);
      var indices := LightIndices(q.validLights, m, g);
      if lp.1 && |indices| > 0 {
        SubModelsFrame(q, q', m.subModels, lp.0, indices, 0);
      }
    }
    var ps := seq(|models| - i, k requires 0 <= k < |models| - i => ModelPasses(q, models[i + k], g));
    var ps' := seq(|models| - i, k requires 0 <= k < |models| - i => ModelPasses(q', models[i + k], g));
    assert ps == ps';
    var ms := seq(|models| - i, k requires 0 <= k < |models| - i => ModelMerges(q, models[i + k], g));
    var ms' := seq(|models| - i, k requires 0 <= k < |models| - i => ModelMerges(q', models[i + k], g));
    assert ms == ms';
  }

  /** Taking render object `i`'s contributions into the queue leaves the
      rest to be contributed by the objects after it. */
  lemma ModelsCompose(q: Queue, q': Queue, models: seq<Model>, g: Geometry, i: nat)
    requires ModelsOk(models) && i < |models|
    requires q'.validLights == q.validLights && q'.stride == q.stride && q'.phaseId == q.phaseId
    requires q'.lightPasses == q.lightPasses + ModelPasses(q, models[i], g)
    requires q'.merges == q.merges + ModelMerges(q, models[i], g)
    ensures q'.lightPasses + ModelsPasses(q', models, g, i + 1) == q.lightPasses + ModelsPasses(q, models, g, i)
    ensures q'.merges + ModelsMerges(q', models, g, i + 1) == q.merges + ModelsMerges(q, models, g, i)
  {
    ModelsFrame(q, q', models, g, i + 1);
    ModelsPassesStep(q, models, g, i);
    ModelsMergesStep(q, models, g, i);
    AppendAssoc(q.lightPasses, ModelPasses(q, models[i], g), ModelsPasses(q, models, g, i + 1));
    AppendAssoc(q.merges, ModelMerges(q, models[i], g), ModelsMerges(q, models, g, i + 1));
  }

  /** One render object: skipped when it has no forward-add pass or no
      light reaches it; otherwise each sub-model with such a pass is
      dispatched with the lights that reach it. The light-buffer view is
      bound into each of those sub-models' sets. */
  function AddModel(q: Queue, m: Model, g: Geometry): (r: Queue)
    requires forall j :: 0 <= j < |m.subModels| ==> SubModelOk(m.subModels[j])
    requires PassesWellFormed(q) && PassLightsValid(q)
    ensures PassesWellFormed(r) && PassLightsValid(r)
    ensures r == q.(lightPasses := q.lightPasses + ModelPasses(q, m, g), merges := q.merges + ModelMerges(q, m, g))
  {
    forall j | 0 <= j < |m.subModels| ensures |m.subModels[j].passes| < UINT_MAX {
      assert SubModelOk(m.subModels[j]);
    }
    var lp := LightPassIndices(m.subModels, q.phaseId);
    var indices := LightIndices(q.validLights, m, g);
    if !lp.1 || |indices| == 0 then q else AddSubModels(q, m.subModels, lp.0, indices, 0)
  }

  /** The render objects from index `i` on, in order: the light passes and
      merges grow by exactly what those objects contribute. */
  function AddModels(q: Queue, models: seq<Model>, g: Geometry, i: nat): (r: Queue)
    requires i <= |models| && ModelsOk(models)
    requires PassesWellFormed(q) && PassLightsValid(q)
    ensures PassesWellFormed(r) && PassLightsValid(r)
    ensures r == q.(lightPasses := r.lightPasses, merges := r.merges)
    ensures r.lightPasses == q.lightPasses + ModelsPasses(q, models, g, i)
    ensures r.merges == q.merges + ModelsMerges(q, models, g, i)
    decreases |models| - i
  {
    if i == |models| then q
    else
      assert forall j :: 0 <= j < |models[i].subModels| ==> SubModelOk(models[i].subModels[j]);
      var q' := AddModel(q, models[i], g);
      ModelsCompose(q, q', models, g, i);
      AddModels(q', models, g, i + 1)
  }

  /** `getOrCreateDescriptorSet`: one global descriptor set per light,
      made on first use (`made` is the set the device would create). */
  function GetOrCreateDescriptorSet(sets: map<ObjectId, ObjectId>, light: ObjectId, made: ObjectId)
    : (r: (map<ObjectId, ObjectId>, ObjectId))
    ensures light in r.0 && r.0[light] == r.1
    ensures light in sets ==> r == (sets, sets[light])
    ensures light !in sets ==> r.1 == made && r.0 == sets[light := made]
  {
    if light in sets then (sets, sets[light]) else (sets[light := made], made)
  }

  /** The sets of a list of lights, each made on first use. */
  function CreateDescriptorSets(sets: map<ObjectId, ObjectId>, lights: seq<Light>, made: ObjectId -> ObjectId)
    : (r: map<ObjectId, ObjectId>)
    ensures forall l :: l in lights ==> l.id in r
    ensures forall k :: k in sets ==> k in r && r[k] == sets[k]
    decreases |lights|
  {
    if |lights| == 0 then sets
    else CreateDescriptorSets(GetOrCreateDescriptorSet(sets, lights[0].id, made(lights[0].id)).0, lights[1..], made)
  }

  /** `clear`: no valid lights, no light passes, no queued merges (the
      instanced and batched queues are emptied with them). */
  function Clear(q: Queue): (r: Queue)
    ensures r == q.(validLights := [], lightPasses := [], merges := [])
  {
    q.(validLights := [], lightPasses := [], merges := [])
  }

  /** What `gatherLightPasses` produces: the new state and the light-buffer
      upload, if any. */
  datatype Gathered = Gathered(queue: Queue, upload: Option<seq<real>>)

  /** `gatherLightPasses`: clear, collect the visible sphere then spot
      lights (making their sets), and stop there when there are none;
      otherwise write and upload the UBOs and dispatch every render
      object. */
  function Gather(q: Queue, sphereLights: seq<Light>, spotLights: seq<Light>, frustum: ObjectId, models: seq<Model>,
                  g: Geometry, s: Settings, made: ObjectId -> ObjectId): (r: Gathered)
    requires Valid(q) && ModelsOk(models)
    ensures Valid(r.queue) && PassesWellFormed(r.queue)
    ensures r.queue.validLights ==
      VisibleLights(sphereLights, frustum, g) + VisibleLights(spotLights, frustum, g)
    ensures forall l :: l in r.queue.validLights ==> l.id in r.queue.descriptorSets
    ensures Recordable(r.queue.lightPasses, r.queue.descriptorSets)
    ensures r.queue.stride == q.stride && r.queue.phaseId == q.phaseId
    ensures r.queue.validLights != [] ==>
      && r.queue.lightPasses == ModelsPasses(r.queue, models, g, 0)
      && r.queue.merges == ModelsMerges(r.queue, models, g, 0)
    ensures r.queue.validLights == [] <==> r.upload.None?
    ensures r.queue.validLights == [] ==>
      && r.queue.lightPasses == [] && r.queue.merges == []
      && r.queue.lightBufferData == q.lightBufferData
    ensures r.upload.Some? ==> r.upload.value == r.queue.lightBufferData
    ensures r.queue.lightBufferCount >= q.lightBufferCount
  {
    var visible := VisibleLights(sphereLights, frustum, g) + VisibleLights(spotLights, frustum, g);
    var c := Clear(q).(validLights := visible, descriptorSets := CreateDescriptorSets(q.descriptorSets, visible, made));
    if |visible| == 0 then Gathered(c, None)
    else
      var u := UpdateUBOs(c, s);
      var added := AddModels(u.0, models, g, 0);
      ModelsFrame(u.0, added, models, g, 0);
      PassLightsRecordable(added);
      Gathered(added, Some(u.1))
  }

  /** Passes drawing only valid lights, each with its slot, can be recorded
      once every valid light has its descriptor set. */
  lemma PassLightsRecordable(q: Queue)
    requires PassesWellFormed(q) && PassLightsValid(q)
    requires forall l :: l in q.validLights ==> l.id in q.descriptorSets
    ensures Recordable(q.lightPasses, q.descriptorSets)
  {
    forall i, j | 0 <= i < |q.lightPasses| && 0 <= j < |q.lightPasses[i].lights|
      ensures q.lightPasses[i].lights[j].id in q.descriptorSets
    {
      assert q.lightPasses[i].lights[j] in q.validLights;
    }
  }

  // ------------------------------------------------------------- recording

  /** The commands `recordCommandBuffer` issues for the light passes. */
  datatype Command =
    | BindPipeline(pass: PassView, shader: ObjectId, ia: ObjectId)
    | BindMaterialSet(descriptorSet: ObjectId)
    | BindInputAssembler(ia: ObjectId)
    | BindGlobalSet(descriptorSet: ObjectId)
    | BindLocalSet(descriptorSet: ObjectId, dynamicOffsets: seq<u32>)
    | Draw(ia: ObjectId)

  /** The commands for light `i` of a pass: the light's global set, the
      sub-model's set at the light's offset, one draw. */
  function LightTriple(p: LightPass, sets: map<ObjectId, ObjectId>, i: nat): seq<Command>
    requires |p.lights| == |p.dynamicOffsets| && i < |p.lights| && p.lights[i].id in sets
  {
    [BindGlobalSet(sets[p.lights[i].id]), BindLocalSet(p.subModel.descriptorSet, [p.dynamicOffsets[i]]),
     Draw(p.subModel.ia)]
  }

  /** The per-light commands of a pass from light `k` on. */
  function LightDraws(p: LightPass, sets: map<ObjectId, ObjectId>, k: nat): (r: seq<Command>)
    requires |p.lights| == |p.dynamicOffsets| && k <= |p.lights|
    requires forall i :: 0 <= i < |p.lights| ==> p.lights[i].id in sets
    ensures |r| == 3 * (|p.lights| - k)
    decreases |p.lights| - k
  {
    if k == |p.lights| then [] else LightTriple(p, sets, k) + LightDraws(p, sets, k + 1)
  }

  /** Light `k + t`'s commands sit at `3 * t`: one triple per light, in
      light order. */
  lemma {:induction false} LightDrawsAt(p: LightPass, sets: map<ObjectId, ObjectId>, k: nat, t: nat)
    requires |p.lights| == |p.dynamicOffsets| && k + t < |p.lights|
    requires forall i :: 0 <= i < |p.lights| ==> p.lights[i].id in sets
    ensures LightDraws(p, sets, k)[3 * t..3 * t + 3] == LightTriple(p, sets, k + t)
    decreases t
  {
    var r := LightDraws(p, sets, k);
    var rest := LightDraws(p, sets, k + 1);
    assert r == LightTriple(p, sets, k) + rest;
    if t == 0 {
      assert r[..3] == LightTriple(p, sets, k);
    } else {
      LightDrawsAt(p, sets, k + 1, t - 1);
      assert r[3 * t..3 * t + 3] == rest[3 * (t - 1)..3 * (t - 1) + 3];
    }
  }

  /** The commands of one light pass: its pipeline, material set and input
      assembler, then its per-light draws. */
  function PassCommands(p: LightPass, sets: map<ObjectId, ObjectId>): (r: seq<Command>)
    requires |p.lights| == |p.dynamicOffsets|
    requires forall i :: 0 <= i < |p.lights| ==> p.lights[i].id in sets
    ensures |r| == 3 + 3 * |p.lights|
    ensures r[0].BindPipeline? && r[1].BindMaterialSet? && r[2].BindInputAssembler?
  {
    [BindPipeline(p.pass, p.shader, p.subModel.ia), BindMaterialSet(p.pass.descriptorSet),
     BindInputAssembler(p.subModel.ia)] + LightDraws(p, sets, 0)
  }

  /** After the three binds, light `t`'s commands sit at `3 + 3 * t`. */
  lemma PassCommandsAt(p: LightPass, sets: map<ObjectId, ObjectId>, t: nat)
    requires |p.lights| == |p.dynamicOffsets| && t < |p.lights|
    requires forall i :: 0 <= i < |p.lights| ==> p.lights[i].id in sets
    ensures PassCommands(p, sets)[3 + 3 * t..3 + 3 * t + 3] == LightTriple(p, sets, t)
  {
    var r := PassCommands(p, sets);
    LightDrawsAt(p, sets, 0, t);
    assert r[3..] == LightDraws(p, sets, 0);
    assert r[3 + 3 * t..3 + 3 * t + 3] == r[3..][3 * t..3 * t + 3];
  }

  /** Number of draws among commands. */
  function DrawCount(cs: seq<Command>): nat
    decreases |cs|
  {
    if |cs| == 0 then 0 else (if cs[0].Draw? then 1 else 0) + DrawCount(cs[1..])
  }

  /** Draws of a concatenation add up. */
  lemma {:induction false} DrawCountAppend(a: seq<Command>, b: seq<Command>)
    ensures DrawCount(a + b) == DrawCount(a) + DrawCount(b)
    decreases |a|
  {
    if |a| == 0 {
      assert a + b == b;
    } else {
      assert (a + b)[1..] == a[1..] + b;
      DrawCountAppend(a[1..], b);
    }
  }

  /** Draws among three commands. */
  lemma DrawCountOfThree(c0: Command, c1: Command, c2: Command)
    ensures DrawCount([c0, c1, c2]) == (if c0.Draw? then 1 else 0) + (if c1.Draw? then 1 else 0) + (if c2.Draw? then 1 else 0)
  {
    assert [c0, c1, c2][1..] == [c1, c2];
    assert [c1, c2][1..] == [c2];
    assert [c2][1..] == [];
    assert DrawCount([c2]) == (if c2.Draw? then 1 else 0) + DrawCount([]);
    assert DrawCount([c1, c2]) == (if c1.Draw? then 1 else 0) + DrawCount([c2]);
  }

  /** A pass draws exactly once per light. */
  lemma {:induction false} LightDrawsCount(p: LightPass, sets: map<ObjectId, ObjectId>, k: nat)
    requires |p.lights| == |p.dynamicOffsets| && k <= |p.lights|
    requires forall i :: 0 <= i < |p.lights| ==> p.lights[i].id in sets
    ensures DrawCount(LightDraws(p, sets, k)) == |p.lights| - k
    decreases |p.lights| - k
  {
    if k < |p.lights| {
      var head := LightTriple(p, sets, k);
      LightDrawsCount(p, sets, k + 1);
      DrawCountAppend(head, LightDraws(p, sets, k + 1));
      DrawCountOfThree(head[0], head[1], head[2]);
    }
  }

  /** Total lights over the light passes. */
  function LightCount(ps: seq<LightPass>): nat
    decreases |ps|
  {
    if |ps| == 0 then 0 else LightCount(ps[..|ps| - 1]) + |ps[|ps| - 1].lights|
  }

  ghost predicate Recordable(ps: seq<LightPass>, sets: map<ObjectId, ObjectId>) {
    forall i :: 0 <= i < |ps| ==>
      |ps[i].lights| == |ps[i].dynamicOffsets| && forall j :: 0 <= j < |ps[i].lights| ==> ps[i].lights[j].id in sets
  }

  /** `recordCommandBuffer`: the instanced and batched queues' commands
      first, then every light pass in order. */
  function Record(queued: seq<Command>, ps: seq<LightPass>, sets: map<ObjectId, ObjectId>): (r: seq<Command>)
    requires Recordable(ps, sets)
    ensures |r| >= |queued| && r[..|queued|] == queued
    decreases |ps|
  {
    if |ps| == 0 then queued
    else Record(queued, ps[..|ps| - 1], sets) + PassCommands(ps[|ps| - 1], sets)
  }

  /** Beyond the queued commands, exactly one draw per (light pass, light). */
  lemma {:induction false} RecordDrawsOncePerLight(queued: seq<Command>, ps: seq<LightPass>, sets: map<ObjectId, ObjectId>)
    requires Recordable(ps, sets)
    ensures DrawCount(Record(queued, ps, sets)) == DrawCount(queued) + LightCount(ps)
    decreases |ps|
  {
    if |ps| > 0 {
      var p := ps[|ps| - 1];
      RecordDrawsOncePerLight(queued, ps[..|ps| - 1], sets);
      var pre := [BindPipeline(p.pass, p.shader, p.subModel.ia), BindMaterialSet(p.pass.descriptorSet),
                  BindInputAssembler(p.subModel.ia)];
      DrawCountAppend(Record(queued, ps[..|ps| - 1], sets), PassCommands(p, sets));
      DrawCountAppend(pre, LightDraws(p, sets, 0));
      LightDrawsCount(p, sets, 0);
      DrawCountOfThree(pre[0], pre[1], pre[2]);
    }
  }
}
