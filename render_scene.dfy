// Clearing the renderer at the start of a frame and handing the filled pools
// to the scene at its end (src/updateThreeScene/resetThreeScene.ts,
// src/updateThreeScene/addInstancedMeshesToSceneAndFlagForUpdate.ts and the
// flush half of the older src/updateThreeScene.ts).

module RenderScene {
  import opened Prelude
  import opened RenderPools

  /** The meshes among the first `n` of `meshes` that hold at least one instance, in order. */
  function NonEmpty(meshes: seq<InstancedMesh>, n: nat := |meshes|): (r: seq<object>)
    requires n <= |meshes|
    reads (set m | m in meshes)`count
    ensures |r| <= n
  {
    if n == 0 then []
    else NonEmpty(meshes, n - 1) + (if meshes[n - 1].count > 0 then [meshes[n - 1]] else [])
  }

  /** A mesh is among the non-empty ones exactly when it is one of the first `n` and has a positive count. */
  lemma {:induction false} NonEmptyMembers(meshes: seq<InstancedMesh>, n: nat)
    requires n <= |meshes|
    ensures forall y: object :: y in NonEmpty(meshes, n) <==> exists i | 0 <= i < n :: meshes[i] == y && meshes[i].count > 0
  {
    if n > 0 {
      NonEmptyMembers(meshes, n - 1);
    }
  }

  /** The meshes among the first `n` of `meshes` that `items` draws to, in order. */
  function Used(meshes: seq<InstancedMesh>, items: seq<Instance>, n: nat := |meshes|): (r: seq<object>)
    requires n <= |meshes|
    ensures |r| <= n
  {
    if n == 0 then []
    else Used(meshes, items, n - 1) + (if Written(items, meshes[n - 1]) != [] then [meshes[n - 1]] else [])
  }

  /** When every count is the number of instances drawn to it, the non-empty meshes are the used ones. */
  lemma {:induction false} NonEmptyIsUsed(meshes: seq<InstancedMesh>, items: seq<Instance>, n: nat)
    requires n <= |meshes|
    requires forall i | 0 <= i < n :: meshes[i].count == |Written(items, meshes[i])|
    ensures NonEmpty(meshes, n) == Used(meshes, items, n)
  {
    if n > 0 {
      NonEmptyIsUsed(meshes, items, n - 1);
    }
  }

  /** Adding `xs` and then `ys` is adding `xs + ys`. */
  lemma {:induction false} AddAllAppend(children: seq<object>, xs: seq<object>, ys: seq<object>)
    ensures AddAll(children, xs + ys) == AddAll(AddAll(children, xs), ys)
  {
    if ys == [] {
      assert xs + ys == xs;
    } else {
      var init := ys[..|ys| - 1];
      AddAllAppend(children, xs, init);
      assert (xs + ys)[..|xs + ys| - 1] == xs + init;
    }
  }

  /** Adding `xs` and then `x` is adding `xs + [x]`. */
  lemma AddAllSnoc(children: seq<object>, xs: seq<object>, x: object)
    ensures AddAll(children, xs + [x]) == AddTo(AddAll(children, xs), x)
  {
    assert (xs + [x])[..|xs|] == xs;
  }

  /**
   * `addNonEmptyInstancedMeshesToSceneAndFlagForUpdate`: every mesh with a
   * positive count is flagged for upload and added to the scene, in array
   * order; counts and matrices stay as they are.
   */
  method AddNonEmptyInstancedMeshesToSceneAndFlagForUpdate(meshes: seq<InstancedMesh>, scene: Scene)
    modifies scene, (set m | m in meshes)`needsUpdate
    ensures scene.children == AddAll(old(scene.children), old(NonEmpty(meshes)))
    ensures forall m | m in meshes :: m.needsUpdate == (old(m.needsUpdate) || m.count > 0)
  {
    ghost var added := [];
    for k := 0 to |meshes|
      invariant added == old(NonEmpty(meshes, k))
      invariant scene.children == AddAll(old(scene.children), added)
      invariant forall m | m in meshes :: old(m.needsUpdate) ==> m.needsUpdate
      invariant forall m | m in meshes :: m.needsUpdate ==> old(m.needsUpdate) || m.count > 0
      invariant forall i | 0 <= i < k :: meshes[i].count > 0 ==> meshes[i].needsUpdate
    {
      var mesh := meshes[k];
      AddAllSnoc(old(scene.children), added, mesh);
      FlagAndAdd(mesh, scene);
      if mesh.count > 0 {
        added := added + [mesh];
      }
    }
  }

  /** The loop body: a mesh with a positive count is flagged and added; an empty one is skipped. */
  method FlagAndAdd(mesh: InstancedMesh, scene: Scene)
    modifies scene, mesh`needsUpdate
    ensures scene.children == if mesh.count > 0 then AddTo(old(scene.children), mesh) else old(scene.children)
    ensures mesh.needsUpdate == (old(mesh.needsUpdate) || mesh.count > 0)
  {
    if mesh.count > 0 {
      mesh.needsUpdate := true;
      scene.Add(mesh);
    }
  }

  /** The scenes of a cache that are in use this frame. */
  function InUse(cache: GltfCache): seq<object>
    reads cache
    requires cache.count <= |cache.gltfs|
  {
    cache.gltfs[..cache.count]
  }

  /** `addGltfCacheToScene`: the first `count` scenes of the cache are added, in index order. */
  method AddGltfCacheToScene(cache: GltfCache, scene: Scene)
    requires cache.count <= |cache.gltfs|
    modifies scene
    ensures scene.children == AddAll(old(scene.children), InUse(cache))
  {
    var gltfs, count := cache.gltfs, cache.count;
    for i := 0 to count
      invariant scene.children == AddAll(old(scene.children), gltfs[..i])
    {
      assert gltfs[..i + 1] == gltfs[..i] + [gltfs[i]];
      AddAllSnoc(old(scene.children), gltfs[..i], gltfs[i]);
      scene.Add(gltfs[i]);
    }
  }

  /** The frame arrays the flush visits, in its order: spear pools, then explosion pools. */
  function FrameMeshes(san: San): seq<InstancedMesh>
  {
    san.SpearMeshes() + san.ExplosionMeshes()
  }

  /** Everything the flush adds, in the order it adds it: non-empty frame meshes, tower caches, dragonflies. */
  function Flushed(san: San): seq<object>
    reads (set m | m in FrameMeshes(san))`count, san.Caches()
    requires forall c | c in san.Caches() :: c.count <= |c.gltfs|
  {
    NonEmpty(FrameMeshes(san))
    + InUse(san.azukiBannerTowers) + InUse(san.edamameBannerTowers) + InUse(san.dragonflies)
  }

  /**
   * `addInstancedMeshesToSceneAndFlagForUpdate`: the six frame arrays are
   * visited one after another (one pass over their concatenation), then the
   * in-use scenes of the two tower caches and the dragonfly cache; nothing
   * but the scene and the frame meshes' upload flags changes.
   */
  method AddInstancedMeshesToSceneAndFlagForUpdate(san: San)
    requires forall c | c in san.Caches() :: c.count <= |c.gltfs|
    modifies san.scene, (set m | m in FrameMeshes(san))`needsUpdate
    ensures san.scene.children == AddAll(old(san.scene.children), old(Flushed(san)))
    ensures forall m | m in FrameMeshes(san) :: m.needsUpdate == (old(m.needsUpdate) || m.count > 0)
  {
    var scene := san.scene;
    ghost var c0 := scene.children;
    ghost var t1, t2, t3 := InUse(san.azukiBannerTowers), InUse(san.edamameBannerTowers), InUse(san.dragonflies);
    ghost var n := NonEmpty(FrameMeshes(san));
    AddNonEmptyInstancedMeshesToSceneAndFlagForUpdate(FrameMeshes(san), scene);
    AddGltfCacheToScene(san.azukiBannerTowers, scene);
    AddAllAppend(c0, n, t1);
    AddGltfCacheToScene(san.edamameBannerTowers, scene);
    AddAllAppend(c0, n + t1, t2);
    AddGltfCacheToScene(san.dragonflies, scene);
    AddAllAppend(c0, n + t1 + t2, t3);
  }

  /**
   * `resetThreeScene`: the scene is emptied and every pool, marker and cache
   * count is zero; matrices, flags and cached scenes stay as they are. The
   * single counts are written before the frame arrays are swept; the writes
   * all store zero, so their order does not matter.
   */
  method ResetThreeScene(san: San)
    modifies san.scene, (set m | m in FrameMeshes(san))`count
    modifies san.azukiSafezoneMarker`count, san.edamameSafezoneMarker`count
    modifies san.selectedSoldierMarker`count, san.tentativelySelectedSoldierMarker`count
    modifies san.azukiBannerTowers`count, san.edamameBannerTowers`count, san.dragonflies`count
    ensures san.scene.children == []
    ensures forall m | m in FrameMeshes(san) :: m.count == 0
    ensures forall m | m in san.MarkerMeshes() :: m.count == 0
    ensures forall c | c in san.Caches() :: c.count == 0
  {
    san.scene.RemoveAll();
    san.azukiBannerTowers.count := 0;
    san.edamameBannerTowers.count := 0;
    san.azukiSafezoneMarker.count := 0;
    san.edamameSafezoneMarker.count := 0;
    san.selectedSoldierMarker.count := 0;
    san.tentativelySelectedSoldierMarker.count := 0;
    san.dragonflies.count := 0;
    SetCountsToZero(FrameMeshes(san));
  }
}
