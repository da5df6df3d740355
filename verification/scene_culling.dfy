/** Forward-pipeline scene culling: which models a camera draws (skybox
    first, then the visible models that survive frustum culling, in scene
    order), which lights the additive pass considers, which models cast
    shadows and the bounds they span, and the planar-shadow light matrix.
    Floats are modelled as reals; the AABB-frustum and sphere-frustum tests
    and the AABB merge are parameters. */
module SceneCulling {
  import opened Common

  /** A 32-bit visibility or layer mask. */
  type Mask = bv32

  datatype Vec3 = Vec3(x: real, y: real, z: real)

  function Add(a: Vec3, b: Vec3): Vec3 { Vec3(a.x + b.x, a.y + b.y, a.z + b.z) }
  function Sub(a: Vec3, b: Vec3): Vec3 { Vec3(a.x - b.x, a.y - b.y, a.z - b.z) }
  function Scale(t: real, a: Vec3): Vec3 { Vec3(t * a.x, t * a.y, t * a.z) }
  function Dot(a: Vec3, b: Vec3): real { a.x * b.x + a.y * b.y + a.z * b.z }

  /** An axis-aligned box, as the engine stores it: centre and half
      extents. */
  datatype AABB = AABB(center: Vec3, halfExtents: Vec3)

  /** `big` encloses `small` on every axis. */
  predicate Contains(big: AABB, small: AABB) {
    && Abs(big.center.x - small.center.x) + small.halfExtents.x <= big.halfExtents.x
    && Abs(big.center.y - small.center.y) + small.halfExtents.y <= big.halfExtents.y
    && Abs(big.center.z - small.center.z) + small.halfExtents.z <= big.halfExtents.z
  }

  function Abs(r: real): real { if r < 0.0 then -r else r }

  /** A scene node: its layer, world position and whether its transform
      changed this frame. */
  datatype Node = Node(layer: Mask, worldPosition: Vec3, flagsChanged: bool)

  /** A model view. `node` is `None` when the model's node id is 0, and
      `worldBounds` is `None` when its bounds id is 0. */
  datatype Model = Model(id: nat, enabled: bool, node: Option<Node>, visFlags: Mask,
                         worldBounds: Option<AABB>, castShadow: bool)

  datatype Camera = Camera(position: Vec3, forward: Vec3, visibility: Mask, clearFlag: Mask)

  /** A model queued for drawing, with its view depth. */
  datatype RenderObject = RenderObject(depth: real, model: Model)

  /** The skybox; `model` is `None` when its model id is 0. */
  datatype Skybox = Skybox(enabled: bool, model: Option<Model>)

  // ---------------------------------------------------------------- render objects

  /** `genRenderObject`: the depth of the model's node along the camera's
      forward axis, or 0 for a model without a node. */
  function GenRenderObject(model: Model, camera: Camera): (r: RenderObject)
    ensures r.model == model
    ensures model.node.None? ==> r.depth == 0.0
  {
    if model.node.Some? then
      RenderObject(Dot(Sub(model.node.value.worldPosition, camera.position), camera.forward), model)
    else RenderObject(0.0, model)
  }

  /** With a unit forward axis, a node `t` units straight ahead of the
      camera has depth `t`, and one behind it a negative depth. */
  lemma DepthAlongForward(model: Model, camera: Camera, t: real)
    requires model.node.Some?
    requires model.node.value.worldPosition == Add(camera.position, Scale(t, camera.forward))
    requires Dot(camera.forward, camera.forward) == 1.0
    ensures GenRenderObject(model, camera).depth == t
  {
    var f := camera.forward;
    assert Sub(model.node.value.worldPosition, camera.position) == Scale(t, f);
    assert Dot(Scale(t, f), f) == t * Dot(f, f);
  }

  // ---------------------------------------------------------------- visibility

  /** The view-visibility filter: an enabled model whose node's layer is
      within the camera's visibility mask, or whose visibility flags meet
      the mask. */
  predicate Visible(model: Model, camera: Camera) {
    && model.enabled
    && ((model.node.Some? && camera.visibility & model.node.value.layer == model.node.value.layer)
        || camera.visibility & model.visFlags != 0)
  }

  /** A visible model survives frustum culling when it has no bounds or its
      bounds meet the frustum. */
  predicate Kept(model: Model, camera: Camera, inFrustum: AABB -> bool) {
    Visible(model, camera) && (model.worldBounds.None? || inFrustum(model.worldBounds.value))
  }

  /** The render objects of the models that survive culling, in scene
      order. */
  function CullModels(models: seq<Model>, camera: Camera, inFrustum: AABB -> bool): (r: seq<RenderObject>)
    ensures |r| <= |models|
    ensures forall i :: 0 <= i < |r| ==> Kept(r[i].model, camera, inFrustum) && r[i].model in models
    ensures forall i :: 0 <= i < |r| ==> r[i] == GenRenderObject(r[i].model, camera)
    decreases |models|
  {
    if |models| == 0 then []
    else
      var m := models[|models| - 1];
      var pre := CullModels(models[..|models| - 1], camera, inFrustum);
      assert forall i :: 0 <= i < |pre| ==> pre[i].model in models by {
        assert forall x :: x in models[..|models| - 1] ==> x in models;
      }
      pre + (if Kept(m, camera, inFrustum) then [GenRenderObject(m, camera)] else [])
  }

  /** Culling commutes with concatenation: the result keeps scene order. */
  lemma {:induction false} CullModelsAppend(a: seq<Model>, b: seq<Model>, camera: Camera, inFrustum: AABB -> bool)
    ensures CullModels(a + b, camera, inFrustum) == CullModels(a, camera, inFrustum) + CullModels(b, camera, inFrustum)
    decreases |b|
  {
    if |b| == 0 {
      assert a + b == a;
    } else {
      var b' := b[..|b| - 1];
      assert (a + b)[..|a + b| - 1] == a + b';
      assert (a + b)[|a + b| - 1] == b[|b| - 1];
      CullModelsAppend(a, b', camera, inFrustum);
    }
  }

  /** A single model is drawn exactly when it is kept. */
  lemma CullOne(m: Model, camera: Camera, inFrustum: AABB -> bool)
    ensures CullModels([m], camera, inFrustum) ==
      if Kept(m, camera, inFrustum) then [GenRenderObject(m, camera)] else []
  {
    assert [m][..0] == [];
  }

  /** A kept model is drawn as many times as it occurs in the scene, and
      a culled one never. */
  lemma {:induction false} CullModelsCount(models: seq<Model>, camera: Camera, inFrustum: AABB -> bool, m: Model)
    ensures Count(CullModels(models, camera, inFrustum), GenRenderObject(m, camera)) ==
      if Kept(m, camera, inFrustum) then Count(models, m) else 0
    decreases |models|
  {
    var o := GenRenderObject(m, camera);
    if |models| > 0 {
      var pre := models[..|models| - 1];
      var last := models[|models| - 1];
      CullModelsCount(pre, camera, inFrustum, m);
      var tail := if Kept(last, camera, inFrustum) then [GenRenderObject(last, camera)] else [];
      CountAppend(CullModels(pre, camera, inFrustum), tail, o);
      assert models == pre + [last];
      CountAppend(pre, [last], m);
      assert Count([last], m) == (if last == m then 1 else 0) by { assert [last][..0] == []; }
      assert Count(tail, o) == (if Kept(m, camera, inFrustum) && last == m then 1 else 0) by {
        if |tail| == 1 {
          assert tail[..0] == [];
        }
      }
    }
  }

  /** The skybox is drawn when it is enabled, has a model, and the camera
      clears with the skybox flag. */
  predicate SkyboxDrawn(skybox: Skybox, camera: Camera, skyboxFlag: Mask) {
    skybox.enabled && skybox.model.Some? && camera.clearFlag & skyboxFlag != 0
  }

  /** `sceneCulling`: the skybox's render object first when it is drawn,
      then the culled scene models. */
  function Cull(skybox: Skybox, models: seq<Model>, camera: Camera, skyboxFlag: Mask,
                inFrustum: AABB -> bool): (r: seq<RenderObject>)
    ensures SkyboxDrawn(skybox, camera, skyboxFlag) ==>
      |r| == 1 + |CullModels(models, camera, inFrustum)| && r[0] == GenRenderObject(skybox.model.value, camera)
    ensures SkyboxDrawn(skybox, camera, skyboxFlag) ==> r[1..] == CullModels(models, camera, inFrustum)
    ensures !SkyboxDrawn(skybox, camera, skyboxFlag) ==> r == CullModels(models, camera, inFrustum)
    ensures forall i :: 0 <= i < |r| ==>
      || Kept(r[i].model, camera, inFrustum)
      || (i == 0 && SkyboxDrawn(skybox, camera, skyboxFlag) && Some(r[i].model) == skybox.model)
  {
    (if SkyboxDrawn(skybox, camera, skyboxFlag) then [GenRenderObject(skybox.model.value, camera)] else [])
    + CullModels(models, camera, inFrustum)
  }

  // ---------------------------------------------------------------- lights

  /** A light as the additive pass sees it: the main (directional) light
      or a spot light with a position and range. */
  datatype Light =
    | Directional(id: nat)
    | Spot(id: nat, position: Vec3, range: real)

  /** `lightCollecting`: the main light (`None` when the scene has none)
      at index 0, then the spot lights whose bounding sphere meets the
      camera frustum, in scene order. */
  function CollectLights(mainLight: Option<Light>, spots: seq<Light>,
                         sphereInFrustum: (Vec3, real) -> bool): (r: seq<Option<Light>>)
    requires forall i :: 0 <= i < |spots| ==> spots[i].Spot?
    ensures |r| >= 1 && r[0] == mainLight
    ensures forall i :: 1 <= i < |r| ==>
      r[i].Some? && r[i].value in spots && sphereInFrustum(r[i].value.position, r[i].value.range)
    ensures |r| <= 1 + |spots|
  {
    [mainLight] + VisibleSpots(spots, sphereInFrustum)
  }

  /** The spot lights that meet the frustum, in order. */
  function VisibleSpots(spots: seq<Light>, sphereInFrustum: (Vec3, real) -> bool): (r: seq<Option<Light>>)
    requires forall i :: 0 <= i < |spots| ==> spots[i].Spot?
    ensures |r| <= |spots|
    ensures forall i :: 0 <= i < |r| ==>
      r[i].Some? && r[i].value in spots && sphereInFrustum(r[i].value.position, r[i].value.range)
    decreases |spots|
  {
    if |spots| == 0 then []
    else
      var s := spots[|spots| - 1];
      var pre := VisibleSpots(spots[..|spots| - 1], sphereInFrustum);
      assert forall i :: 0 <= i < |pre| ==> pre[i].value in spots by {
        assert forall x :: x in spots[..|spots| - 1] ==> x in spots;
      }
      pre + (if sphereInFrustum(s.position, s.range) then [Some(s)] else [])
  }

  /** Every spot light that meets the frustum is collected: none is lost. */
  lemma {:induction false} VisibleSpotsComplete(spots: seq<Light>, sphereInFrustum: (Vec3, real) -> bool, j: nat)
    requires forall i :: 0 <= i < |spots| ==> spots[i].Spot?
    requires j < |spots| && sphereInFrustum(spots[j].position, spots[j].range)
    ensures Some(spots[j]) in VisibleSpots(spots, sphereInFrustum)
    decreases |spots|
  {
    if j < |spots| - 1 {
      VisibleSpotsComplete(spots[..|spots| - 1], sphereInFrustum, j);
    }
  }

  /** Collection commutes with concatenation: spot lights keep scene
      order. */
  lemma {:induction false} VisibleSpotsAppend(a: seq<Light>, b: seq<Light>, sphereInFrustum: (Vec3, real) -> bool)
    requires forall i :: 0 <= i < |a| ==> a[i].Spot?
    requires forall i :: 0 <= i < |b| ==> b[i].Spot?
    ensures forall i :: 0 <= i < |a + b| ==> (a + b)[i].Spot?
    ensures VisibleSpots(a + b, sphereInFrustum) == VisibleSpots(a, sphereInFrustum) + VisibleSpots(b, sphereInFrustum)
    decreases |b|
  {
    if |b| == 0 {
      assert a + b == a;
    } else {
      var b' := b[..|b| - 1];
      assert (a + b)[..|a + b| - 1] == a + b';
      VisibleSpotsAppend(a, b', sphereInFrustum);
    }
  }

  // ---------------------------------------------------------------- shadows

  /** A model casts a shadow when it passes the visibility filter, casts
      shadows and has world bounds (no frustum test applies). */
  predicate Caster(model: Model, camera: Camera) {
    Visible(model, camera) && model.castShadow && model.worldBounds.Some?
  }

  /** The file-level `castWorldBounds` and `castBoundsInitialized`. */
  datatype CastBounds = CastBounds(initialized: bool, bounds: AABB)

  /** One caster's effect on the cast bounds: the first caster's bounds
      replace the stale ones and are then merged with themselves; later
      casters are merged in. */
  function MergeCaster(st: CastBounds, b: AABB, merge: (AABB, AABB) -> AABB): CastBounds {
    var start := if st.initialized then st.bounds else b;
    CastBounds(true, merge(start, b))
  }

  /** The cast bounds after the models, starting from `st`. */
  function FoldCasters(models: seq<Model>, camera: Camera, st: CastBounds,
                       merge: (AABB, AABB) -> AABB): (r: CastBounds)
    ensures r.initialized <==> st.initialized || exists i :: 0 <= i < |models| && Caster(models[i], camera)
    decreases |models|
  {
    if |models| == 0 then st
    else
      var m := models[|models| - 1];
      var pre := FoldCasters(models[..|models| - 1], camera, st, merge);
      assert forall i :: 0 <= i < |models| - 1 ==> models[..|models| - 1][i] == models[i];
      if Caster(m, camera) then MergeCaster(pre, m.worldBounds.value, merge) else pre
  }

  /** The shadow objects: the casters' render objects, in scene order. */
  function ShadowObjects(models: seq<Model>, camera: Camera): (r: seq<RenderObject>)
    ensures |r| <= |models|
    ensures forall i :: 0 <= i < |r| ==> Caster(r[i].model, camera) && r[i].model in models
    decreases |models|
  {
    if |models| == 0 then []
    else
      var m := models[|models| - 1];
      var pre := ShadowObjects(models[..|models| - 1], camera);
      assert forall i :: 0 <= i < |pre| ==> pre[i].model in models by {
        assert forall x :: x in models[..|models| - 1] ==> x in models;
      }
      pre + (if Caster(m, camera) then [GenRenderObject(m, camera)] else [])
  }

  /** Shadow collection commutes with concatenation: the shadow objects
      keep scene order. */
  lemma {:induction false} ShadowObjectsAppend(a: seq<Model>, b: seq<Model>, camera: Camera)
    ensures ShadowObjects(a + b, camera) == ShadowObjects(a, camera) + ShadowObjects(b, camera)
    decreases |b|
  {
    if |b| == 0 {
      assert a + b == a;
    } else {
      var b' := b[..|b| - 1];
      assert (a + b)[..|a + b| - 1] == a + b';
      assert (a + b)[|a + b| - 1] == b[|b| - 1];
      ShadowObjectsAppend(a, b', camera);
    }
  }

  /** A single model becomes a shadow object exactly when it is a caster. */
  lemma ShadowOne(m: Model, camera: Camera)
    ensures ShadowObjects([m], camera) == if Caster(m, camera) then [GenRenderObject(m, camera)] else []
  {
    assert [m][..0] == [];
  }

  /** A caster becomes a shadow object as many times as it occurs in the
      scene, and any other model never. */
  lemma {:induction false} ShadowObjectsCount(models: seq<Model>, camera: Camera, m: Model)
    ensures Count(ShadowObjects(models, camera), GenRenderObject(m, camera)) ==
      if Caster(m, camera) then Count(models, m) else 0
    decreases |models|
  {
    var o := GenRenderObject(m, camera);
    if |models| > 0 {
      var pre := models[..|models| - 1];
      var last := models[|models| - 1];
      ShadowObjectsCount(pre, camera, m);
      var tail := if Caster(last, camera) then [GenRenderObject(last, camera)] else [];
      CountAppend(ShadowObjects(pre, camera), tail, o);
      assert models == pre + [last];
      CountAppend(pre, [last], m);
      assert Count([last], m) == (if last == m then 1 else 0) by { assert [last][..0] == []; }
      assert Count(tail, o) == (if Caster(m, camera) && last == m then 1 else 0) by {
        if |tail| == 1 {
          assert tail[..0] == [];
        }
      }
    }
  }

  /** What `shadowCollecting` leaves behind: the shadow objects and the
      cast bounds the shadow sphere is defined from. */
  datatype ShadowState = ShadowState(objects: seq<RenderObject>, cast: CastBounds)

  /** `shadowCollecting`: `castBoundsInitialized` is reset, the casters
      are gathered and their bounds merged into `castWorldBounds`, whose
      previous value (`previous`) survives when there is no caster. */
  function CollectShadows(models: seq<Model>, camera: Camera, previous: AABB,
                          merge: (AABB, AABB) -> AABB): (r: ShadowState)
    ensures forall i :: 0 <= i < |r.objects| ==> Caster(r.objects[i].model, camera)
    ensures r.cast.initialized <==> |r.objects| > 0
    ensures !r.cast.initialized ==> r.cast.bounds == previous
  {
    var objects := ShadowObjects(models, camera);
    var cast := FoldCasters(models, camera, CastBounds(false, previous), merge);
    NoCastersKeepBounds(models, camera, previous, merge);
    ShadowObjectsEmptyIff(models, camera);
    ShadowState(objects, cast)
  }

  /** Without a caster the fold leaves the stale bounds alone. */
  lemma {:induction false} NoCastersKeepBounds(models: seq<Model>, camera: Camera, previous: AABB,
                                              merge: (AABB, AABB) -> AABB)
    ensures !FoldCasters(models, camera, CastBounds(false, previous), merge).initialized ==>
      FoldCasters(models, camera, CastBounds(false, previous), merge) == CastBounds(false, previous)
    decreases |models|
  {
    if |models| > 0 {
      NoCastersKeepBounds(models[..|models| - 1], camera, previous, merge);
    }
  }

  /** There are shadow objects exactly when some model is a caster. */
  lemma {:induction false} ShadowObjectsEmptyIff(models: seq<Model>, camera: Camera)
    ensures |ShadowObjects(models, camera)| > 0 <==> exists i :: 0 <= i < |models| && Caster(models[i], camera)
    decreases |models|
  {
    if |models| > 0 {
      var pre := models[..|models| - 1];
      ShadowObjectsEmptyIff(pre, camera);
      assert forall i :: 0 <= i < |pre| ==> pre[i] == models[i];
      if Caster(models[|models| - 1], camera) {
        assert |ShadowObjects(models, camera)| > 0;
      }
    }
  }

  /** When `merge` yields a box enclosing both arguments, the cast bounds
      enclose every caster's bounds. */
  lemma {:induction false} CastBoundsEncloseCasters(models: seq<Model>, camera: Camera, st: CastBounds,
                                                   merge: (AABB, AABB) -> AABB, j: nat)
    requires forall a, b :: Contains(merge(a, b), a) && Contains(merge(a, b), b)
    requires j < |models| && Caster(models[j], camera)
    ensures Contains(FoldCasters(models, camera, st, merge).bounds, models[j].worldBounds.value)
    decreases |models|
  {
    var pre := models[..|models| - 1];
    var last := models[|models| - 1];
    var before := FoldCasters(pre, camera, st, merge);
    if j == |models| - 1 {
      var start := if before.initialized then before.bounds else last.worldBounds.value;
      assert Contains(merge(start, last.worldBounds.value), last.worldBounds.value);
    } else {
      assert pre[j] == models[j];
      CastBoundsEncloseCasters(pre, camera, st, merge, j);
      if Caster(last, camera) {
        assert before.initialized;
        var grown := merge(before.bounds, last.worldBounds.value);
        assert Contains(grown, before.bounds);
        ContainsTransitive(grown, before.bounds, models[j].worldBounds.value);
      }
    }
  }

  lemma ContainsTransitive(a: AABB, b: AABB, c: AABB)
    requires Contains(a, b) && Contains(b, c)
    ensures Contains(a, c)
  {
  }

  // ---------------------------------------------------------------- sphere light

  /** The planar-shadow state: the dirty flag, the receiving plane
      (normal and distance) and the light matrix, 16 reals, column-major. */
  datatype Shadows = Shadows(dirty: bool, normal: Vec3, distance: real, matLight: seq<real>)

  /** The planar projection matrix for a point light at `l` onto the plane
      `n . x == d`, `d` already offset against z-fighting. */
  function PlanarMatrix(l: Vec3, n: Vec3, d: real): (r: seq<real>)
    ensures |r| == 16
  {
    var ndl := Dot(n, l);
    [ndl - d - l.x * n.x, -l.y * n.x, -l.z * n.x, -n.x,
     -l.x * n.y, ndl - d - l.y * n.y, -l.z * n.y, -n.y,
     -l.x * n.z, -l.y * n.z, ndl - d - l.z * n.z, -n.z,
     l.x * d, l.y * d, l.z * d, ndl]
  }

  /** A column-major 4x4 matrix applied to the point `p` (w = 1): the
      homogeneous image as `(xyz, w)`. */
  function Transform(m: seq<real>, p: Vec3): (Vec3, real)
    requires |m| == 16
  {
    (Vec3(m[0] * p.x + m[4] * p.y + m[8] * p.z + m[12],
          m[1] * p.x + m[5] * p.y + m[9] * p.z + m[13],
          m[2] * p.x + m[6] * p.y + m[10] * p.z + m[14]),
     m[3] * p.x + m[7] * p.y + m[11] * p.z + m[15])
  }

  /** The planar matrix flattens every point onto the plane: the image's
      homogeneous coordinates satisfy `n . xyz == d * w`. */
  lemma PlanarMatrixFlattens(l: Vec3, n: Vec3, d: real, p: Vec3)
    ensures var (q, w) := Transform(PlanarMatrix(l, n, d), p);
      Dot(n, q) == d * w
  {
    var (q, w) := Transform(PlanarMatrix(l, n, d), p);
    PlanarImage(l, n, d, p);
    PlaneIdentity(Dot(n, l), Dot(n, p), d, l, n, p, q);
  }

  /** The image of `p` under the planar matrix, row by row. */
  lemma PlanarImage(l: Vec3, n: Vec3, d: real, p: Vec3)
    ensures var (q, w) := Transform(PlanarMatrix(l, n, d), p);
      && q.x == (Dot(n, l) - d) * p.x - l.x * Dot(n, p) + l.x * d
      && q.y == (Dot(n, l) - d) * p.y - l.y * Dot(n, p) + l.y * d
      && q.z == (Dot(n, l) - d) * p.z - l.z * Dot(n, p) + l.z * d
      && w == Dot(n, l) - Dot(n, p)
  {
    PlanarRowX(l, n, d, p);
    PlanarRowY(l, n, d, p);
    PlanarRowZ(l, n, d, p);
  }

  lemma PlanarRowX(l: Vec3, n: Vec3, d: real, p: Vec3)
    ensures Transform(PlanarMatrix(l, n, d), p).0.x == (Dot(n, l) - d) * p.x - l.x * Dot(n, p) + l.x * d
  {
    var m := PlanarMatrix(l, n, d);
    var a, b, c, e := m[0], m[4], m[8], m[12];
    assert Transform(m, p).0.x == a * p.x + b * p.y + c * p.z + e;
    RowValue(a, b, c, e, Dot(n, l), d, l.x, n.x, n.y, n.z, p.x, p.y, p.z, Dot(n, p));
  }

  lemma PlanarRowY(l: Vec3, n: Vec3, d: real, p: Vec3)
    ensures Transform(PlanarMatrix(l, n, d), p).0.y == (Dot(n, l) - d) * p.y - l.y * Dot(n, p) + l.y * d
  {
    var m := PlanarMatrix(l, n, d);
    var a, b, c, e := m[5], m[1], m[9], m[13];
    assert Transform(m, p).0.y == b * p.x + a * p.y + c * p.z + e;
    RowValue(a, b, c, e, Dot(n, l), d, l.y, n.y, n.x, n.z, p.y, p.x, p.z, Dot(n, p));
  }

  lemma PlanarRowZ(l: Vec3, n: Vec3, d: real, p: Vec3)
    ensures Transform(PlanarMatrix(l, n, d), p).0.z == (Dot(n, l) - d) * p.z - l.z * Dot(n, p) + l.z * d
  {
    var m := PlanarMatrix(l, n, d);
    var a, b, c, e := m[10], m[2], m[6], m[14];
    assert Transform(m, p).0.z == b * p.x + c * p.y + a * p.z + e;
    RowValue(a, b, c, e, Dot(n, l), d, l.z, n.z, n.x, n.y, p.z, p.x, p.y, Dot(n, p));
  }

  /** One row of the planar matrix (diagonal entry `a`) times a point,
      regrouped around `n . p`. */
  lemma RowValue(a: real, b: real, c: real, e: real, ndl: real, d: real, li: real,
                 ni: real, nj: real, nk: real, pi: real, pj: real, pk: real, ndp: real)
    requires a == ndl - d - li * ni && b == -li * nj && c == -li * nk && e == li * d
    requires ndp == ni * pi + nj * pj + nk * pk
    ensures a * pi + b * pj + c * pk + e == (ndl - d) * pi - li * ndp + li * d
  {
    calc {
      a * pi + b * pj + c * pk + e;
      (ndl - d - li * ni) * pi + (-li * nj) * pj + (-li * nk) * pk + li * d;
      (ndl - d) * pi - li * (ni * pi) - li * (nj * pj) - li * (nk * pk) + li * d;
      (ndl - d) * pi - li * (ni * pi + nj * pj + nk * pk) + li * d;
    }
  }

  /** The regrouped rows dotted with the normal give `d * w`. */
  lemma PlaneIdentity(ndl: real, ndp: real, d: real, l: Vec3, n: Vec3, p: Vec3, q: Vec3)
    requires ndl == Dot(n, l) && ndp == Dot(n, p)
    requires q.x == (ndl - d) * p.x - l.x * ndp + l.x * d
    requires q.y == (ndl - d) * p.y - l.y * ndp + l.y * d
    requires q.z == (ndl - d) * p.z - l.z * ndp + l.z * d
    ensures Dot(n, q) == d * (ndl - ndp)
  {
    calc {
      Dot(n, q);
      n.x * ((ndl - d) * p.x - l.x * ndp + l.x * d) + n.y * ((ndl - d) * p.y - l.y * ndp + l.y * d)
        + n.z * ((ndl - d) * p.z - l.z * ndp + l.z * d);
      (ndl - d) * (n.x * p.x + n.y * p.y + n.z * p.z) - ndp * (n.x * l.x + n.y * l.y + n.z * l.z)
        + d * (n.x * l.x + n.y * l.y + n.z * l.z);
      (ndl - d) * ndp - ndp * ndl + d * ndl;
    }
  }

  /** The light's own position is sent to infinity (w == 0). */
  lemma PlanarMatrixLightAtInfinity(l: Vec3, n: Vec3, d: real)
    ensures Transform(PlanarMatrix(l, n, d), l).1 == 0.0
  {
  }

  /** The offset the engine adds to the plane distance against z-fighting. */
  const Z_FIGHT_OFFSET: real := 0.001

  /** `updateSphereLight`: nothing happens unless the light's node moved or
      the shadow settings are dirty; otherwise the dirty flag is cleared
      and the planar matrix for the light's position is computed and copied
      into the shadow UBO at `offset`. */
  function UpdateSphereLight(shadows: Shadows, node: Node, ubo: seq<real>, offset: nat): (r: (Shadows, seq<real>))
    requires offset + 16 <= |ubo|
    ensures !node.flagsChanged && !shadows.dirty ==> r == (shadows, ubo)
    ensures node.flagsChanged || shadows.dirty ==>
      && !r.0.dirty
      && |r.0.matLight| == 16
      && r.0.(matLight := shadows.matLight, dirty := shadows.dirty) == shadows
      && |r.1| == |ubo|
      && r.1[offset..offset + 16] == r.0.matLight
      && r.1[..offset] == ubo[..offset] && r.1[offset + 16..] == ubo[offset + 16..]
  {
    if !node.flagsChanged && !shadows.dirty then (shadows, ubo)
    else
      var m := PlanarMatrix(node.worldPosition, shadows.normal, shadows.distance + Z_FIGHT_OFFSET);
      var u := Overwrite(ubo, offset, m);
      assert u[offset..offset + 16] == m;
      assert u[..offset] == ubo[..offset];
      assert u[offset + 16..] == ubo[offset + 16..];
      (shadows.(dirty := false, matLight := m), u)
  }

  /** A second update with nothing moved is a no-op: the first one cleared
      the dirty flag. */
  lemma UpdateSphereLightSettles(shadows: Shadows, node: Node, ubo: seq<real>, offset: nat)
    requires offset + 16 <= |ubo|
    ensures var (s1, u1) := UpdateSphereLight(shadows, node, ubo, offset);
      UpdateSphereLight(s1, node.(flagsChanged := false), u1, offset) == (s1, u1)
  {
  }

  /** After an update the stored matrix flattens every point onto the
      shadow plane (offset against z-fighting). */
  lemma UpdatedMatrixFlattens(shadows: Shadows, node: Node, ubo: seq<real>, offset: nat, p: Vec3)
    requires offset + 16 <= |ubo|
    requires node.flagsChanged || shadows.dirty
    ensures var s1 := UpdateSphereLight(shadows, node, ubo, offset).0;
      var (q, w) := Transform(s1.matLight, p);
      Dot(s1.normal, q) == (s1.distance + Z_FIGHT_OFFSET) * w
  {
    PlanarMatrixFlattens(node.worldPosition, shadows.normal, shadows.distance + Z_FIGHT_OFFSET, p);
  }
}
