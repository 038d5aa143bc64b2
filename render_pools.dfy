// The per-frame render pools. Every soldier, explosion and marker is drawn
// as one instance of an instanced mesh; a mesh's `count` is an append cursor
// over its fixed-size matrix buffer (`setMatrixAt(count, m); ++count`).
// Banner towers and dragonflies are whole glTF scenes kept in caches that
// grow on demand by cloning their first entry. All of it is reset at the
// start of a frame and flushed into the scene at its end
// (src/updateThreeScene/*.ts, src/updateThreeScene.ts).
//
// A three.js matrix is modelled by the transform it is composed from: the
// position, the rotation the caller set and the `translateY` applied after
// it. Composing those into a 4x4 matrix is library code and is left out.

module RenderPools {
  import opened Prelude
  import opened GeoUtils
  import opened BattleData

  /** The capacity every spear frame mesh is created with (`10e3`). */
  const MAX_SOLDIER_LIMIT: nat := 10000

  /** The rotation a caller gave the temporary object before composing its matrix. */
  datatype Rotation =
    | Unrotated                          // the quaternion was never set
    | AboutY(angle: real)                // `setFromAxisAngle((0, 1, 0), angle)`
    | Oriented(orientation: Orientation) // `setQuaternionFromOrientation`

  /** A matrix, as the position, rotation and local `translateY` it was composed from. */
  datatype Transform = Transform(position: Triple, rotation: Rotation, lift: real)

  /** A three.js scene; `add` re-parents, so an object already present moves to the end. */
  class Scene {
    var children: seq<object>

    constructor()
      ensures children == []
    {
      children := [];
    }

    /** `scene.add(x)`. */
    method Add(x: object)
      modifies this
      ensures children == AddTo(old(children), x)
    {
      children := Without(children, x) + [x];
    }

    /** `scene.remove(...scene.children)`. */
    method RemoveAll()
      modifies this
      ensures children == []
    {
      children := [];
    }
  }

  /** `s` with every occurrence of `x` removed, the rest in order. */
  function Without(s: seq<object>, x: object): seq<object>
  {
    if s == [] then []
    else Without(s[..|s| - 1], x) + (if s[|s| - 1] == x then [] else [s[|s| - 1]])
  }

  /** Removing `x` removes it and nothing else, and is no change when it is absent. */
  lemma {:induction false} WithoutSpec(s: seq<object>, x: object)
    ensures x !in Without(s, x)
    ensures forall y :: y in Without(s, x) <==> y in s && y != x
    ensures x !in s ==> Without(s, x) == s
  {
    if s != [] {
      var init := s[..|s| - 1];
      WithoutSpec(init, x);
      assert s == init + [s[|s| - 1]];
    }
  }

  /** The children after `add(x)`. */
  function AddTo(children: seq<object>, x: object): seq<object>
  {
    Without(children, x) + [x]
  }

  /** The children after adding each of `xs` in order. */
  function AddAll(children: seq<object>, xs: seq<object>): seq<object>
  {
    if xs == [] then children else AddTo(AddAll(children, xs[..|xs| - 1]), xs[|xs| - 1])
  }

  /** After adding `xs`, an object is a child exactly when it was one already or is among `xs`. */
  lemma {:induction false} AddAllMembers(children: seq<object>, xs: seq<object>)
    ensures forall y :: y in AddAll(children, xs) <==> y in children || y in xs
  {
    if xs != [] {
      AddAllMembers(children, xs[..|xs| - 1]);
      WithoutSpec(AddAll(children, xs[..|xs| - 1]), xs[|xs| - 1]);
      assert xs == xs[..|xs| - 1] + [xs[|xs| - 1]];
    }
  }

  /** Adding an object that is not a child appends it. */
  lemma AddToFresh(children: seq<object>, x: object)
    requires x !in children
    ensures AddTo(children, x) == children + [x]
  {
    WithoutSpec(children, x);
  }

  /** The conditions of `AddAllFresh` pass to all but the last object, and the last is new to the others. */
  lemma FreshInit(children: seq<object>, xs: seq<object>)
    requires |xs| > 0
    requires forall i, j | 0 <= i < j < |xs| :: xs[i] != xs[j]
    requires forall i | 0 <= i < |xs| :: xs[i] !in children
    ensures var init := xs[..|xs| - 1];
      (forall i, j | 0 <= i < j < |init| :: init[i] != init[j])
      && (forall i | 0 <= i < |init| :: init[i] !in children)
      && xs[|xs| - 1] !in children + init
  {
    var init, x := xs[..|xs| - 1], xs[|xs| - 1];
    assert forall i | 0 <= i < |init| :: init[i] == xs[i];
    assert x !in init by {
      forall i | 0 <= i < |init| ensures init[i] != x {
        assert init[i] == xs[i];
      }
    }
  }

  /** Adding objects that are new to the scene and pairwise distinct appends them in order. */
  lemma {:induction false} AddAllFresh(children: seq<object>, xs: seq<object>)
    requires forall i, j | 0 <= i < j < |xs| :: xs[i] != xs[j]
    requires forall i | 0 <= i < |xs| :: xs[i] !in children
    ensures AddAll(children, xs) == children + xs
  {
    if xs != [] {
      var init, x := xs[..|xs| - 1], xs[|xs| - 1];
      FreshInit(children, xs);
      AddAllFresh(children, init);
      AddToFresh(children + init, x);
      assert xs == init + [x];
    }
  }

  /** An instanced mesh: an append cursor over a fixed-size matrix buffer. */
  class InstancedMesh {
    var count: nat
    var instanceMatrix: seq<Transform>
    var needsUpdate: bool

    /** A mesh with room for `capacity` instances, all at `initial`. */
    constructor(capacity: nat, initial: Transform)
      ensures count == 0 && |instanceMatrix| == capacity && !needsUpdate
    {
      count := 0;
      instanceMatrix := seq(capacity, _ => initial);
      needsUpdate := false;
    }

    /**
     * `setMatrixAt(count, t); ++count`: the next slot takes `t`. Nothing checks
     * the capacity: past the end of the buffer the write is dropped, as a
     * typed-array store out of range is, while the count still grows.
     */
    method Push(t: Transform)
      modifies this
      ensures count == old(count) + 1
      ensures instanceMatrix == Placed(old(instanceMatrix), old(count), [t])
      ensures needsUpdate == old(needsUpdate)
    {
      if count < |instanceMatrix| {
        instanceMatrix := instanceMatrix[count := t];
      }
      count := count + 1;
    }
  }

  /** One appended instance: the mesh it went to and its matrix. */
  datatype Instance = Instance(mesh: InstancedMesh, transform: Transform)

  /** The matrices `items` append to mesh `m`, in order. */
  function Written(items: seq<Instance>, m: InstancedMesh): (ts: seq<Transform>)
    ensures |ts| <= |items|
  {
    if items == [] then []
    else Written(items[..|items| - 1], m) + (if items[|items| - 1].mesh == m then [items[|items| - 1].transform] else [])
  }

  /** Appending one more instance extends exactly its own mesh's matrices. */
  lemma WrittenSnoc(items: seq<Instance>, x: Instance, m: InstancedMesh)
    ensures Written(items + [x], m) == Written(items, m) + (if x.mesh == m then [x.transform] else [])
  {
    assert (items + [x])[..|items|] == items;
  }

  lemma {:induction false} WrittenAppend(a: seq<Instance>, b: seq<Instance>, m: InstancedMesh)
    ensures Written(a + b, m) == Written(a, m) + Written(b, m)
  {
    if b != [] {
      var init := b[..|b| - 1];
      WrittenAppend(a, init, m);
      assert (a + b)[..|a + b| - 1] == a + init;
      assert b[..|b| - 1] == init;
    } else {
      assert a + b == a;
    }
  }

  /** A mesh that no instance goes to receives no matrices. */
  lemma {:induction false} WrittenOfOther(items: seq<Instance>, m: InstancedMesh)
    requires forall i | 0 <= i < |items| :: items[i].mesh != m
    ensures Written(items, m) == []
  {
    if items != [] {
      WrittenOfOther(items[..|items| - 1], m);
    }
  }

  /** The buffer `buf` with `ts` written into the slots from `start` on, as far as the buffer reaches. */
  function Placed(buf: seq<Transform>, start: nat, ts: seq<Transform>): (r: seq<Transform>)
    ensures |r| == |buf|
    ensures forall i | 0 <= i < |buf| :: r[i] == if start <= i < start + |ts| then ts[i - start] else buf[i]
  {
    seq(|buf|, i requires 0 <= i < |buf| => if start <= i < start + |ts| then ts[i - start] else buf[i])
  }

  /** Writing one more matrix at the next slot is one more placement. */
  lemma PlacedSnoc(buf: seq<Transform>, start: nat, ts: seq<Transform>, t: Transform)
    ensures Placed(buf, start, ts + [t]) == Placed(Placed(buf, start, ts), start + |ts|, [t])
  {
  }

  /** What an instanced mesh holds at one moment. */
  datatype MeshState = MeshState(count: nat, instanceMatrix: seq<Transform>, needsUpdate: bool)

  function StateOf(m: InstancedMesh): MeshState
    reads m
  {
    MeshState(m.count, m.instanceMatrix, m.needsUpdate)
  }

  /** The states of the meshes of `ms`, taken together. */
  function Snapshot(ms: set<InstancedMesh>): map<InstancedMesh, MeshState>
    reads ms
  {
    map m | m in ms :: StateOf(m)
  }

  /** A mesh state after the matrices `ts` were appended at its cursor. */
  function AppendedTo(s: MeshState, ts: seq<Transform>): MeshState
  {
    MeshState(s.count + |ts|, Placed(s.instanceMatrix, s.count, ts), s.needsUpdate)
  }

  /**
   * Every mesh of `ms` is what it was in `before` with exactly the instances
   * of `items` that go to it appended, in order, at its cursor; every item
   * goes to a mesh of `ms`.
   */
  predicate DrawnSince(ms: set<InstancedMesh>, before: map<InstancedMesh, MeshState>, items: seq<Instance>)
    reads ms
  {
    (forall m | m in ms :: m in before && StateOf(m) == AppendedTo(before[m], Written(items, m)))
    && (forall i | 0 <= i < |items| :: items[i].mesh in ms)
  }

  lemma DrawnSinceStart(ms: set<InstancedMesh>)
    ensures DrawnSince(ms, Snapshot(ms), [])
  {
    forall m | m in ms ensures StateOf(m) == AppendedTo(Snapshot(ms)[m], Written([], m)) {
      assert Placed(m.instanceMatrix, m.count, []) == m.instanceMatrix;
    }
  }

  /** The same drawing, written another way. */
  lemma DrawnSinceSame(ms: set<InstancedMesh>, before: map<InstancedMesh, MeshState>, a: seq<Instance>, b: seq<Instance>)
    requires DrawnSince(ms, before, a) && a == b
    ensures DrawnSince(ms, before, b)
  {
  }

  /** Appending `w` and then `[t]` is appending `w + [t]`. */
  lemma AppendedToSnoc(s: MeshState, w: seq<Transform>, t: Transform)
    ensures AppendedTo(AppendedTo(s, w), [t]) == AppendedTo(s, w + [t])
  {
    PlacedSnoc(s.instanceMatrix, s.count, w, t);
  }

  /** `setMatrixAt(count, t); ++count` on one mesh of `ms`, keeping account of what has been drawn since `before`. */
  method Emit(m: InstancedMesh, t: Transform, ms: set<InstancedMesh>,
              ghost before: map<InstancedMesh, MeshState>, ghost items: seq<Instance>)
    requires m in ms && DrawnSince(ms, before, items)
    modifies m
    ensures DrawnSince(ms, before, items + [Instance(m, t)])
  {
    ghost var x := Instance(m, t);
    ghost var s0 := StateOf(m);
    m.Push(t);
    assert StateOf(m) == AppendedTo(s0, [t]);
    AppendedToSnoc(before[m], Written(items, m), t);
    WrittenSnoc(items, x, m);
    forall other | other in ms && other != m
      ensures StateOf(other) == AppendedTo(before[other], Written(items + [x], other))
    {
      WrittenSnoc(items, x, other);
    }
    assert forall i | 0 <= i < |items + [x]| :: (items + [x])[i].mesh in ms;
  }

  /** The `.scene` of a glTF: the object whose pose a tower or dragonfly is drawn at. */
  class GltfScene {
    var position: Triple
    var rotation: Rotation

    constructor(position: Triple, rotation: Rotation)
      ensures this.position == position && this.rotation == rotation
    {
      this.position := position;
      this.rotation := rotation;
    }

    /** `cloneGltf`: a new scene at the same pose. */
    constructor Clone(g: GltfScene)
      ensures position == g.position && rotation == g.rotation
    {
      position := g.position;
      rotation := g.rotation;
    }
  }

  /** A cache of glTF scenes: the first `count` are in use this frame. */
  class GltfCache {
    var gltfs: seq<GltfScene>
    var count: nat

    constructor(first: GltfScene)
      ensures gltfs == [first] && count == 0
    {
      gltfs := [first];
      count := 0;
    }

    /** The scenes of the cache are pairwise distinct objects. */
    predicate Distinct()
      reads this
    {
      forall i, j | 0 <= i < j < |gltfs| :: gltfs[i] != gltfs[j]
    }

    /**
     * `getInstanceSceneFromGltfCache`: clones entry 0 until there is an entry
     * at index `count`, hands that entry out and advances `count` by one.
     */
    method Take() returns (instance: GltfScene)
      requires |gltfs| > 0
      modifies this
      ensures count == old(count) + 1
      ensures |gltfs| == Max(|old(gltfs)|, old(count) + 1)
      ensures gltfs[..|old(gltfs)|] == old(gltfs)
      ensures forall i | |old(gltfs)| <= i < |gltfs| ::
        fresh(gltfs[i]) && gltfs[i].position == old(gltfs[0].position) && gltfs[i].rotation == old(gltfs[0].rotation)
      ensures instance == gltfs[old(count)]
      ensures old(Distinct()) ==> Distinct()
    {
      var n := count;
      while n >= |gltfs|
        invariant |old(gltfs)| <= |gltfs| <= Max(|old(gltfs)|, n + 1)
        invariant gltfs[..|old(gltfs)|] == old(gltfs)
        invariant forall i | |old(gltfs)| <= i < |gltfs| ::
          fresh(gltfs[i]) && gltfs[i].position == old(gltfs[0].position) && gltfs[i].rotation == old(gltfs[0].rotation)
        invariant old(Distinct()) ==> Distinct()
        decreases n + 1 - |gltfs|
      {
        var clone := new GltfScene.Clone(gltfs[0]);
        gltfs := gltfs + [clone];
      }
      instance := gltfs[n];
      count := n + 1;
    }

    /**
     * `writeToGltfCache` (src/updateThreeScene.ts:322-336): takes the next
     * entry as `Take` does and moves it to the given pose.
     */
    method Write(position: Triple, rotation: Rotation)
      requires |gltfs| > 0
      modifies this, gltfs
      ensures count == old(count) + 1
      ensures |gltfs| == Max(|old(gltfs)|, old(count) + 1)
      ensures gltfs[..|old(gltfs)|] == old(gltfs)
      ensures forall i | |old(gltfs)| <= i < |gltfs| :: fresh(gltfs[i])
      ensures gltfs[old(count)].position == position && gltfs[old(count)].rotation == rotation
      ensures forall i | 0 <= i < |old(gltfs)| && old(gltfs[i]) != gltfs[old(count)] ::
        gltfs[i].position == old(gltfs[i].position) && gltfs[i].rotation == old(gltfs[i].rotation)
      ensures old(Distinct()) ==> Distinct()
    {
      var instance := Take();
      instance.position := position;
      instance.rotation := rotation;
    }
  }

  /** Setting every count of `meshes` to zero changes nothing else. */
  method SetCountsToZero(meshes: seq<InstancedMesh>)
    modifies (set m | m in meshes)`count
    ensures forall m | m in meshes :: m.count == 0
  {
    for k := 0 to |meshes|
      invariant forall i | 0 <= i < k :: meshes[i].count == 0
    {
      meshes[k].count := 0;
    }
  }

  /**
   * The renderer's state (`san.data`): the scene, the pre-baked frame meshes
   * of both sides, the marker meshes and the glTF caches, with the clip
   * durations the frame lookups use. None of these references is reassigned
   * during a frame; only the objects they name change.
   */
  class San {
    const scene: Scene
    const azukiSpearWalkFrames: seq<InstancedMesh>
    const azukiSpearStabFrames: seq<InstancedMesh>
    const edamameSpearWalkFrames: seq<InstancedMesh>
    const edamameSpearStabFrames: seq<InstancedMesh>
    const azukiUnarmedExplosionFrames: seq<InstancedMesh>
    const edamameUnarmedExplosionFrames: seq<InstancedMesh>
    const azukiSafezoneMarker: InstancedMesh
    const edamameSafezoneMarker: InstancedMesh
    /** `blueSphere` in the newer renderer. */
    const selectedSoldierMarker: InstancedMesh
    /** `flashingBlueSphere` in the newer renderer. */
    const tentativelySelectedSoldierMarker: InstancedMesh
    const azukiBannerTowers: GltfCache
    const edamameBannerTowers: GltfCache
    const dragonflies: GltfCache
    const mcon: ModelConstants

    constructor(scene: Scene,
                azukiSpearWalkFrames: seq<InstancedMesh>, azukiSpearStabFrames: seq<InstancedMesh>,
                edamameSpearWalkFrames: seq<InstancedMesh>, edamameSpearStabFrames: seq<InstancedMesh>,
                azukiUnarmedExplosionFrames: seq<InstancedMesh>, edamameUnarmedExplosionFrames: seq<InstancedMesh>,
                azukiSafezoneMarker: InstancedMesh, edamameSafezoneMarker: InstancedMesh,
                selectedSoldierMarker: InstancedMesh, tentativelySelectedSoldierMarker: InstancedMesh,
                azukiBannerTowers: GltfCache, edamameBannerTowers: GltfCache, dragonflies: GltfCache,
                mcon: ModelConstants)
      ensures this.scene == scene
      ensures this.azukiSpearWalkFrames == azukiSpearWalkFrames && this.azukiSpearStabFrames == azukiSpearStabFrames
      ensures this.edamameSpearWalkFrames == edamameSpearWalkFrames && this.edamameSpearStabFrames == edamameSpearStabFrames
      ensures this.azukiUnarmedExplosionFrames == azukiUnarmedExplosionFrames
      ensures this.edamameUnarmedExplosionFrames == edamameUnarmedExplosionFrames
      ensures this.azukiSafezoneMarker == azukiSafezoneMarker && this.edamameSafezoneMarker == edamameSafezoneMarker
      ensures this.selectedSoldierMarker == selectedSoldierMarker
      ensures this.tentativelySelectedSoldierMarker == tentativelySelectedSoldierMarker
      ensures this.azukiBannerTowers == azukiBannerTowers && this.edamameBannerTowers == edamameBannerTowers
      ensures this.dragonflies == dragonflies && this.mcon == mcon
    {
      this.scene := scene;
      this.azukiSpearWalkFrames := azukiSpearWalkFrames;
      this.azukiSpearStabFrames := azukiSpearStabFrames;
      this.edamameSpearWalkFrames := edamameSpearWalkFrames;
      this.edamameSpearStabFrames := edamameSpearStabFrames;
      this.azukiUnarmedExplosionFrames := azukiUnarmedExplosionFrames;
      this.edamameUnarmedExplosionFrames := edamameUnarmedExplosionFrames;
      this.azukiSafezoneMarker := azukiSafezoneMarker;
      this.edamameSafezoneMarker := edamameSafezoneMarker;
      this.selectedSoldierMarker := selectedSoldierMarker;
      this.tentativelySelectedSoldierMarker := tentativelySelectedSoldierMarker;
      this.azukiBannerTowers := azukiBannerTowers;
      this.edamameBannerTowers := edamameBannerTowers;
      this.dragonflies := dragonflies;
      this.mcon := mcon;
    }

    /** The four spear frame arrays, in the order the flush visits them. */
    function SpearMeshes(): seq<InstancedMesh>
    {
      azukiSpearWalkFrames + azukiSpearStabFrames + edamameSpearWalkFrames + edamameSpearStabFrames
    }

    /** The two explosion frame arrays, in the order the flush visits them. */
    function ExplosionMeshes(): seq<InstancedMesh>
    {
      azukiUnarmedExplosionFrames + edamameUnarmedExplosionFrames
    }

    /** The four single marker meshes. */
    function MarkerMeshes(): seq<InstancedMesh>
    {
      [azukiSafezoneMarker, edamameSafezoneMarker, selectedSoldierMarker, tentativelySelectedSoldierMarker]
    }

    /** Every instanced mesh of the renderer. */
    function Meshes(): set<InstancedMesh>
    {
      set m | m in SpearMeshes() + ExplosionMeshes() + MarkerMeshes()
    }

    /** `m` is none of the frame meshes. */
    predicate ApartFromFrames(m: InstancedMesh)
    {
      m !in SpearMeshes() && m !in ExplosionMeshes()
    }

    /** The three glTF caches. */
    function Caches(): set<GltfCache>
    {
      {azukiBannerTowers, edamameBannerTowers, dragonflies}
    }

    /**
     * What the lookups rely on: each side has as many frames of a clip as the
     * Azuki arrays whose lengths are used for both, every clip has a frame,
     * the clip durations are positive, the marker meshes are four distinct
     * meshes apart from the frame meshes, and the caches are three.
     */
    predicate Valid()
    {
      |azukiSpearWalkFrames| > 0 && |edamameSpearWalkFrames| == |azukiSpearWalkFrames|
      && |azukiSpearStabFrames| > 0 && |edamameSpearStabFrames| == |azukiSpearStabFrames|
      && |azukiUnarmedExplosionFrames| > 0 && |edamameUnarmedExplosionFrames| == |azukiUnarmedExplosionFrames|
      && ValidModelConstants(mcon)
      && azukiSafezoneMarker != edamameSafezoneMarker && azukiSafezoneMarker != selectedSoldierMarker
      && azukiSafezoneMarker != tentativelySelectedSoldierMarker && edamameSafezoneMarker != selectedSoldierMarker
      && edamameSafezoneMarker != tentativelySelectedSoldierMarker
      && selectedSoldierMarker != tentativelySelectedSoldierMarker
      && ApartFromFrames(azukiSafezoneMarker) && ApartFromFrames(edamameSafezoneMarker)
      && ApartFromFrames(selectedSoldierMarker) && ApartFromFrames(tentativelySelectedSoldierMarker)
      && azukiBannerTowers != edamameBannerTowers && azukiBannerTowers != dragonflies
      && edamameBannerTowers != dragonflies
    }
  }
}
