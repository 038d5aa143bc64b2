// The two per-frame passes of the older src/updateThreeScene.ts that own
// their pools outright: `updateUnits` (lines 103-159) and
// `updateSoldierExplosions` (lines 236-271) each zero their frame arrays,
// draw into them and flush the non-empty ones to the scene. The drawing
// itself is the `Older` revision of RenderUnits.

module RenderOld {
  import opened Prelude
  import opened BattleData
  import opened RenderPools
  import opened RenderScene
  import opened RenderUnits

  /** The mesh states `before` with the counts of the meshes of `ms` set to zero. */
  function Zeroed(before: map<InstancedMesh, MeshState>, ms: seq<InstancedMesh>): map<InstancedMesh, MeshState>
  {
    map m | m in before :: if m in ms then MeshState(0, before[m].instanceMatrix, before[m].needsUpdate) else before[m]
  }

  /** A mesh of a drawing that none of its instances goes to is as it was. */
  lemma DrawnUntouched(ms: set<InstancedMesh>, before: map<InstancedMesh, MeshState>, items: seq<Instance>,
                       m: InstancedMesh)
    requires DrawnSince(ms, before, items) && m in ms && Written(items, m) == []
    ensures StateOf(m) == before[m]
  {
    assert Placed(before[m].instanceMatrix, before[m].count, []) == before[m].instanceMatrix;
  }

  /** Every instance of `items` goes to a mesh of `ms`. */
  predicate AllOn(items: seq<Instance>, ms: seq<InstancedMesh>)
  {
    forall i | 0 <= i < |items| :: items[i].mesh in ms
  }

  /** The older renderer draws every soldier of every unit on a spear frame mesh. */
  lemma {:induction false} OlderUnitsOnSpearMeshes(san: San, d: BattleStateData, ids: seq<Ref>)
    requires san.Valid() && UnitsValid(d, ids)
    ensures AllOn(UnitsDrawing(san, d, ids, None, Older).items, san.SpearMeshes())
  {
    if ids != [] {
      var init, id := ids[..|ids| - 1], ids[|ids| - 1];
      assert init + [id] == ids;
      UnitsDrawingSnoc(san, d, init, id, None, Older);
      OlderUnitsOnSpearMeshes(san, d, init);
      var prev := UnitsDrawing(san, d, init, None, Older);
      if !prev.failed {
        var u := GetUnit(d, id);
        var body := SoldiersDrawing(san, d, u.allegiance, u.soldierIds, Older);
        assert UnitDrawing(san, d, id, None, Older) == body;
        SoldiersDrawingOnSpearMeshes(san, d, u.allegiance, u.soldierIds, Older);
        var items := prev.items + body.items;
        assert UnitsDrawing(san, d, ids, None, Older).items == items;
        assert AllOn(items, san.SpearMeshes()) by {
          forall i | 0 <= i < |items| ensures items[i].mesh in san.SpearMeshes() {
            if i >= |prev.items| {
              assert items[i] == body.items[i - |prev.items|];
            }
          }
        }
      } else {
        assert UnitsDrawing(san, d, ids, None, Older) == prev;
      }
    }
  }

  /**
   * A mesh redrawn from scratch: it holds the matrices `w`, written from
   * slot 0 over those of `s`, and is flagged for upload when it was already
   * or when it was flushed with something in it.
   */
  predicate Redrawn(m: InstancedMesh, s: MeshState, w: seq<Transform>, flushed: bool)
    reads m
  {
    m.count == |w| && m.instanceMatrix == Placed(s.instanceMatrix, 0, w)
    && m.needsUpdate == (s.needsUpdate || (flushed && w != []))
  }

  /** A mesh among the zeroed ones after a drawing holds just what was drawn to it, from slot 0. */
  lemma ZeroedDrawn(ms: set<InstancedMesh>, zeroed: seq<InstancedMesh>, before: map<InstancedMesh, MeshState>,
                    items: seq<Instance>, m: InstancedMesh)
    requires DrawnSince(ms, Zeroed(before, zeroed), items) && m in ms && m in zeroed
    ensures m in before
    ensures m.count == |Written(items, m)| && m.instanceMatrix == Placed(before[m].instanceMatrix, 0, Written(items, m))
    ensures m.needsUpdate == before[m].needsUpdate
  {
  }

  /** A mesh outside the zeroed ones that the drawing does not reach is as it was. */
  lemma ZeroedUntouched(ms: set<InstancedMesh>, zeroed: seq<InstancedMesh>, before: map<InstancedMesh, MeshState>,
                        items: seq<Instance>, m: InstancedMesh)
    requires DrawnSince(ms, Zeroed(before, zeroed), items) && m in ms && m !in zeroed
    requires AllOn(items, zeroed)
    ensures m in before && StateOf(m) == before[m]
  {
    WrittenOfOther(items, m);
    DrawnUntouched(ms, Zeroed(before, zeroed), items, m);
  }

  /**
   * The flush that ends both passes, reached only when drawing did not
   * throw: the meshes that received instances are flagged and added.
   */
  method FlushUnlessThrown(ms: seq<InstancedMesh>, scene: Scene, ghost before: map<InstancedMesh, MeshState>,
                           ghost items: seq<Instance>, thrown: bool)
    requires forall m | m in ms ::
      m in before && m.count == |Written(items, m)|
      && m.instanceMatrix == Placed(before[m].instanceMatrix, 0, Written(items, m))
      && m.needsUpdate == before[m].needsUpdate
    modifies scene, (set m | m in ms)`needsUpdate
    ensures scene.children == if thrown then old(scene.children) else AddAll(old(scene.children), Used(ms, items))
    ensures forall m | m in ms :: Redrawn(m, before[m], Written(items, m), !thrown)
  {
    if !thrown {
      NonEmptyIsUsed(ms, items, |ms|);
      AddNonEmptyInstancedMeshesToSceneAndFlagForUpdate(ms, scene);
    }
  }

  /** Lines 112-141: the four spear arrays are zeroed, then every unit is drawn as `Older` says. */
  method ZeroThenDrawUnits(battle: BattleState, san: San) returns (thrown: bool)
    requires san.Valid() && UnitsValid(battle.data, battle.data.activeUnitIds)
    modifies san.Meshes()
    ensures thrown == UnitsDrawing(san, battle.data, battle.data.activeUnitIds, None, Older).failed
    ensures DrawnSince(san.Meshes(), Zeroed(old(Snapshot(san.Meshes())), san.SpearMeshes()),
                       UnitsDrawing(san, battle.data, battle.data.activeUnitIds, None, Older).items)
  {
    ghost var s0 := Snapshot(san.Meshes());
    SetCountsToZero(san.SpearMeshes());
    assert Snapshot(san.Meshes()) == Zeroed(s0, san.SpearMeshes());
    thrown := UpdateUnits(battle, san, None, Older);
  }

  /**
   * `updateUnits` of the older renderer: each spear frame mesh ends up
   * holding exactly the soldiers drawn to it, written from slot 0 over the
   * old matrices; unless a lookup threw, the meshes that received any are
   * flagged and added to the scene in array order. No other mesh changes.
   */
  method OldUpdateUnits(battle: BattleState, san: San) returns (thrown: bool)
    requires san.Valid() && UnitsValid(battle.data, battle.data.activeUnitIds)
    modifies san.Meshes(), san.scene
    ensures thrown == UnitsDrawing(san, battle.data, battle.data.activeUnitIds, None, Older).failed
    ensures forall m | m in san.SpearMeshes() ::
      Redrawn(m, old(StateOf(m)), Written(UnitsDrawing(san, battle.data, battle.data.activeUnitIds, None, Older).items, m), !thrown)
    ensures san.scene.children == if thrown then old(san.scene.children)
      else AddAll(old(san.scene.children), Used(san.SpearMeshes(), UnitsDrawing(san, battle.data, battle.data.activeUnitIds, None, Older).items))
    ensures forall m | m in san.Meshes() && m !in san.SpearMeshes() :: StateOf(m) == old(StateOf(m))
  {
    ghost var s0 := Snapshot(san.Meshes());
    assert forall m | m in san.Meshes() :: s0[m] == StateOf(m);
    ghost var items := UnitsDrawing(san, battle.data, battle.data.activeUnitIds, None, Older).items;
    thrown := ZeroThenDrawUnits(battle, san);
    assert AllOn(items, san.SpearMeshes()) by {
      OlderUnitsOnSpearMeshes(san, battle.data, battle.data.activeUnitIds);
    }
    forall m | m in san.Meshes() && m !in san.SpearMeshes() ensures StateOf(m) == s0[m] {
      ZeroedUntouched(san.Meshes(), san.SpearMeshes(), s0, items, m);
    }
    forall m | m in san.SpearMeshes()
      ensures m in s0 && m.count == |Written(items, m)|
      ensures m.instanceMatrix == Placed(s0[m].instanceMatrix, 0, Written(items, m))
      ensures m.needsUpdate == s0[m].needsUpdate
    {
      ZeroedDrawn(san.Meshes(), san.SpearMeshes(), s0, items, m);
    }
    FlushUnlessThrown(san.SpearMeshes(), san.scene, s0, items, thrown);
  }

  /** Lines 241-261: the two explosion arrays are zeroed, then every explosion is drawn. */
  method ZeroThenDrawExplosions(battle: BattleState, san: San) returns (thrown: bool)
    requires san.Valid()
    modifies san.Meshes()
    ensures thrown == ExplosionsDrawing(san, battle.data.soldierExplosions).failed
    ensures DrawnSince(san.Meshes(), Zeroed(old(Snapshot(san.Meshes())), san.ExplosionMeshes()),
                       ExplosionsDrawing(san, battle.data.soldierExplosions).items)
  {
    ghost var s0 := Snapshot(san.Meshes());
    SetCountsToZero(san.ExplosionMeshes());
    assert Snapshot(san.Meshes()) == Zeroed(s0, san.ExplosionMeshes());
    thrown := UpdateSoldierExplosions(battle, san);
  }

  /**
   * `updateSoldierExplosions` of the older renderer: each explosion frame
   * mesh ends up holding exactly the explosions drawn to it, from slot 0;
   * unless a lookup threw, the meshes that received any are flagged and
   * added to the scene in array order. No other mesh changes.
   */
  method OldUpdateSoldierExplosions(battle: BattleState, san: San) returns (thrown: bool)
    requires san.Valid()
    modifies san.Meshes(), san.scene
    ensures thrown == ExplosionsDrawing(san, battle.data.soldierExplosions).failed
    ensures forall m | m in san.ExplosionMeshes() ::
      Redrawn(m, old(StateOf(m)), Written(ExplosionsDrawing(san, battle.data.soldierExplosions).items, m), !thrown)
    ensures san.scene.children == if thrown then old(san.scene.children)
      else AddAll(old(san.scene.children), Used(san.ExplosionMeshes(), ExplosionsDrawing(san, battle.data.soldierExplosions).items))
    ensures forall m | m in san.Meshes() && m !in san.ExplosionMeshes() :: StateOf(m) == old(StateOf(m))
  {
    ghost var s0 := Snapshot(san.Meshes());
    assert forall m | m in san.Meshes() :: s0[m] == StateOf(m);
    ghost var items := ExplosionsDrawing(san, battle.data.soldierExplosions).items;
    thrown := ZeroThenDrawExplosions(battle, san);
    assert AllOn(items, san.ExplosionMeshes()) by {
      ExplosionsDrawingSpec(san, battle.data.soldierExplosions);
    }
    forall m | m in san.Meshes() && m !in san.ExplosionMeshes() ensures StateOf(m) == s0[m] {
      ZeroedUntouched(san.Meshes(), san.ExplosionMeshes(), s0, items, m);
    }
    forall m | m in san.ExplosionMeshes()
      ensures m in s0 && m.count == |Written(items, m)|
      ensures m.instanceMatrix == Placed(s0[m].instanceMatrix, 0, Written(items, m))
      ensures m.needsUpdate == s0[m].needsUpdate
    {
      ZeroedDrawn(san.Meshes(), san.ExplosionMeshes(), s0, items, m);
    }
    FlushUnlessThrown(san.ExplosionMeshes(), san.scene, s0, items, thrown);
  }
}
