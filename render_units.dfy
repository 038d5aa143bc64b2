// Drawing soldiers, their selection markers and soldier explosions into the
// frame pools (`updateUnits`, `updateSelectedSoldierMarker`,
// `updateTentativelySelectedUnitMarkers` and `updateSoldierExplosions` of
// src/updateThreeScene/main.ts, the same functions of
// src/updateThreeScene/updateThreeSceneAfterTicking.ts, and the older
// src/updateThreeScene.ts:103-159 and 236-271).
//
// Each drawing loop is specified by the list of instances it appends, a
// left fold over the ids it walks; a thrown exception ends the fold early,
// with what was appended before it.

module RenderUnits {
  import opened Prelude
  import opened GeoUtils
  import opened BattleData
  import opened RenderFrames
  import opened RenderPools

  /** The instances a drawing pass appended, in order, and whether it ended in a thrown error. */
  datatype Drawing = Drawing(items: seq<Instance>, failed: bool)

  /**
   * Which renderer draws: the older src/updateThreeScene.ts looks frames up
   * without the lower clamp and draws no selection markers; the newer
   * renderers clamp and mark selected units.
   */
  datatype Revision = Older | Newer

  /** The meshes of `ms` are pairwise distinct objects. */
  predicate DistinctMeshes(ms: seq<InstancedMesh>)
  {
    forall i, j | 0 <= i < j < |ms| :: ms[i] != ms[j]
  }

  // ---- Frame meshes ------------------------------------------------------

  /** The spear mesh of a frame: the array of the frame's side and clip, at the frame's index. */
  function SpearMesh(san: San, f: SpearFrame): (m: InstancedMesh)
    requires san.Valid()
    requires f.clip == WalkFrames ==> f.frame < |san.azukiSpearWalkFrames|
    requires f.clip == StabFrames ==> f.frame < |san.azukiSpearStabFrames|
    ensures m in san.SpearMeshes()
  {
    match (f.allegiance, f.clip)
    case (Azuki, WalkFrames) => san.azukiSpearWalkFrames[f.frame]
    case (Azuki, StabFrames) => san.azukiSpearStabFrames[f.frame]
    case (Edamame, WalkFrames) => san.edamameSpearWalkFrames[f.frame]
    case (Edamame, StabFrames) => san.edamameSpearStabFrames[f.frame]
  }

  /**
   * `getSpearFrameInstancedMesh` followed by the `setMatrixAt` on its result.
   * The newer lookup clamps and fails only on a slash. The older one leaves
   * out the lower clamp, so a negative frame number reads `undefined` from
   * the array and the `setMatrixAt` on it throws.
   */
  function SpearMeshOf(san: San, a: SoldierAnimationState, allegiance: Allegiance, revision: Revision)
    : (r: Result<InstancedMesh>)
    requires san.Valid()
    ensures r.Success? ==> r.value in san.SpearMeshes()
    ensures revision == Newer ==> (r.Failure? <==> a.kind == Slash)
    ensures revision == Older ==> (r.Failure? <==> a.kind == Slash || SpearFrameNumberAsWritten(
      a, san.mcon, |san.azukiSpearWalkFrames|, |san.azukiSpearStabFrames|).value < 0)
  {
    var walkFrameCount, stabFrameCount := |san.azukiSpearWalkFrames|, |san.azukiSpearStabFrames|;
    if revision == Newer then
      match SpearFrameOf(a, allegiance, san.mcon, walkFrameCount, stabFrameCount)
      case Failure(e) => Failure(e)
      case Success(f) => Success(SpearMesh(san, f))
    else
      match SpearFrameNumberAsWritten(a, san.mcon, walkFrameCount, stabFrameCount)
      case None => Failure("Spearmen cannot slash.")
      case Some(i) =>
        if i < 0 then Failure("Cannot read properties of undefined (reading 'setMatrixAt')")
        else Success(SpearMesh(san, SpearFrame(allegiance, if a.kind == Stab then StabFrames else WalkFrames, i)))
  }

  /** A soldier's body: at its position, turned about the vertical axis by its yaw. */
  function SoldierTransform(s: Soldier): Transform
  {
    Transform(s.position, AboutY(s.orientation.yaw), 0.0)
  }

  /** A marker over a soldier: at its position, in its full orientation, one unit up its own vertical. */
  function MarkerTransform(s: Soldier): Transform
  {
    Transform(s.position, Oriented(s.orientation), 1.0)
  }

  // ---- Soldiers ------------------------------------------------------------

  /** The inner loop of `updateUnits`: one spear instance per soldier, until a lookup throws. */
  function SoldiersDrawing(san: San, d: BattleStateData, allegiance: Allegiance, ids: seq<Ref>, revision: Revision)
    : (r: Drawing)
    requires san.Valid() && SoldierIdsValid(d, ids)
    ensures |r.items| <= |ids|
  {
    if ids == [] then Drawing([], false)
    else
      var prev := SoldiersDrawing(san, d, allegiance, ids[..|ids| - 1], revision);
      if prev.failed then prev
      else
        var s := GetSoldier(d, ids[|ids| - 1]);
        match SpearMeshOf(san, s.animation, allegiance, revision)
        case Failure(_) => Drawing(prev.items, true)
        case Success(m) => Drawing(prev.items + [Instance(m, SoldierTransform(s))], false)
  }

  /** No soldier of `ids` is in a slash, which a spearman cannot be drawn in. */
  predicate NoneSlashing(d: BattleStateData, ids: seq<Ref>)
    requires SoldierIdsValid(d, ids)
  {
    forall j | 0 <= j < |ids| :: GetSoldier(d, ids[j]).animation.kind != Slash
  }

  /** Every soldier drawn goes to a spear frame mesh, and a drawing that does not fail draws every soldier. */
  lemma {:induction false} SoldiersDrawingOnSpearMeshes(san: San, d: BattleStateData, allegiance: Allegiance,
                                                        ids: seq<Ref>, revision: Revision)
    requires san.Valid() && SoldierIdsValid(d, ids)
    ensures var r := SoldiersDrawing(san, d, allegiance, ids, revision);
      (forall i | 0 <= i < |r.items| :: r.items[i].mesh in san.SpearMeshes())
      && (!r.failed ==> |r.items| == |ids|)
  {
    if ids != [] {
      var init := ids[..|ids| - 1];
      assert SoldierIdsValid(d, init);
      SoldiersDrawingOnSpearMeshes(san, d, allegiance, init, revision);
    }
  }

  /** The newer renderer's soldier loop throws exactly when some soldier is slashing. */
  lemma {:induction false} SoldiersDrawingFailsOnSlash(san: San, d: BattleStateData, allegiance: Allegiance,
                                                       ids: seq<Ref>)
    requires san.Valid() && SoldierIdsValid(d, ids)
    ensures SoldiersDrawing(san, d, allegiance, ids, Newer).failed <==> !NoneSlashing(d, ids)
  {
    if ids != [] {
      var init := ids[..|ids| - 1];
      assert SoldierIdsValid(d, init);
      SoldiersDrawingFailsOnSlash(san, d, allegiance, init);
      assert NoneSlashing(d, ids) <==> NoneSlashing(d, init) && GetSoldier(d, ids[|ids| - 1]).animation.kind != Slash;
    }
  }

  /** One more soldier after an unfailed prefix: its lookup either throws or appends its body to the looked-up mesh. */
  lemma SoldiersDrawingStep(san: San, d: BattleStateData, allegiance: Allegiance, ids: seq<Ref>, j: nat,
                            revision: Revision)
    requires san.Valid() && SoldierIdsValid(d, ids) && j < |ids|
    ensures SoldierIdsValid(d, ids[..j]) && SoldierIdsValid(d, ids[..j + 1])
    ensures var prev, s := SoldiersDrawing(san, d, allegiance, ids[..j], revision), GetSoldier(d, ids[j]);
      var r := SpearMeshOf(san, s.animation, allegiance, revision);
      !prev.failed ==>
        SoldiersDrawing(san, d, allegiance, ids[..j + 1], revision)
        == if r.Failure? then Drawing(prev.items, true) else Drawing(prev.items + [Instance(r.value, SoldierTransform(s))], false)
  {
    assert ids[..j + 1][..j] == ids[..j];
    assert forall k | 0 <= k < j + 1 :: ids[..j + 1][k] == ids[k];
  }

  /** The markers drawn with `mesh` over the soldiers of `ids`, one each, in order. */
  function MarkerItems(mesh: InstancedMesh, d: BattleStateData, ids: seq<Ref>): (items: seq<Instance>)
    requires SoldierIdsValid(d, ids)
    ensures |items| == |ids|
    ensures forall i | 0 <= i < |ids| :: items[i] == Instance(mesh, MarkerTransform(GetSoldier(d, ids[i])))
  {
    seq(|ids|, i requires 0 <= i < |ids| => Instance(mesh, MarkerTransform(GetSoldier(d, ids[i]))))
  }

  // ---- Units ---------------------------------------------------------------

  /** A selected unit is marked unless it is also the unit under the cursor, which gets the flashing marker. */
  predicate ShowsSelection(u: Unit, unitId: Ref, tentative: Option<Ref>)
  {
    u.isSelected && tentative != Some(unitId)
  }

  /** One unit: its soldiers, then, in the newer renderers, a marker over each if the unit shows selection. */
  function UnitDrawing(san: San, d: BattleStateData, unitId: Ref, tentative: Option<Ref>, revision: Revision)
    : Drawing
    requires san.Valid() && IsUnit(d, unitId) && UnitValid(d, GetUnit(d, unitId))
  {
    var u := GetUnit(d, unitId);
    var body := SoldiersDrawing(san, d, u.allegiance, u.soldierIds, revision);
    if body.failed || revision == Older || !ShowsSelection(u, unitId, tentative) then body
    else Drawing(body.items + MarkerItems(san.selectedSoldierMarker, d, u.soldierIds), false)
  }

  /** `updateUnits`: the units of `ids` in order, stopping at the first one that throws. */
  function UnitsDrawing(san: San, d: BattleStateData, ids: seq<Ref>, tentative: Option<Ref>, revision: Revision)
    : Drawing
    requires san.Valid() && UnitsValid(d, ids)
  {
    if ids == [] then Drawing([], false)
    else
      assert forall i | 0 <= i < |ids| - 1 :: ids[..|ids| - 1][i] == ids[i];
      var prev := UnitsDrawing(san, d, ids[..|ids| - 1], tentative, revision);
      if prev.failed then prev
      else
        var last := UnitDrawing(san, d, ids[|ids| - 1], tentative, revision);
        Drawing(prev.items + last.items, last.failed)
  }

  /** Drawing one more unit after an unfailed prefix appends that unit's drawing. */
  lemma UnitsDrawingSnoc(san: San, d: BattleStateData, ids: seq<Ref>, id: Ref, tentative: Option<Ref>,
                         revision: Revision)
    requires san.Valid() && UnitsValid(d, ids + [id])
    ensures UnitsValid(d, ids) && IsUnit(d, id) && UnitValid(d, GetUnit(d, id))
    ensures !UnitsDrawing(san, d, ids, tentative, revision).failed ==>
      var last := UnitDrawing(san, d, id, tentative, revision);
      UnitsDrawing(san, d, ids + [id], tentative, revision)
      == Drawing(UnitsDrawing(san, d, ids, tentative, revision).items + last.items, last.failed)
  {
    assert (ids + [id])[..|ids|] == ids;
    assert forall i | 0 <= i < |ids| :: ids[i] == (ids + [id])[i];
    assert (ids + [id])[|ids|] == id;
  }

  // ---- Counting what was drawn ---------------------------------------------

  /** How many of `items` went to the meshes of `ms`, counted mesh by mesh. */
  function SumWritten(items: seq<Instance>, ms: seq<InstancedMesh>): nat
  {
    if ms == [] then 0 else SumWritten(items, ms[..|ms| - 1]) + |Written(items, ms[|ms| - 1])|
  }

  /** Over distinct meshes, one more instance adds one exactly when it goes to one of them. */
  lemma {:induction false} SumWrittenSnoc(items: seq<Instance>, x: Instance, ms: seq<InstancedMesh>)
    requires DistinctMeshes(ms)
    ensures SumWritten(items + [x], ms) == SumWritten(items, ms) + (if x.mesh in ms then 1 else 0)
  {
    if ms != [] {
      var init := ms[..|ms| - 1];
      assert DistinctMeshes(init);
      SumWrittenSnoc(items, x, init);
      WrittenSnoc(items, x, ms[|ms| - 1]);
      assert x.mesh in ms <==> x.mesh in init || x.mesh == ms[|ms| - 1];
      assert !(x.mesh in init && x.mesh == ms[|ms| - 1]);
    }
  }

  lemma {:induction false} SumWrittenAppend(a: seq<Instance>, b: seq<Instance>, ms: seq<InstancedMesh>)
    ensures SumWritten(a + b, ms) == SumWritten(a, ms) + SumWritten(b, ms)
  {
    if ms != [] {
      SumWrittenAppend(a, b, ms[..|ms| - 1]);
      WrittenAppend(a, b, ms[|ms| - 1]);
    }
  }

  lemma {:induction false} SumWrittenOfOthers(items: seq<Instance>, ms: seq<InstancedMesh>)
    requires forall i | 0 <= i < |items| :: items[i].mesh !in ms
    ensures SumWritten(items, ms) == 0
  {
    if ms != [] {
      SumWrittenOfOthers(items, ms[..|ms| - 1]);
      WrittenOfOther(items, ms[|ms| - 1]);
    }
  }

  /** Over distinct meshes that receive every instance, the per-mesh increases add up to all the instances. */
  lemma {:induction false} SumWrittenAll(items: seq<Instance>, ms: seq<InstancedMesh>)
    requires DistinctMeshes(ms)
    requires forall i | 0 <= i < |items| :: items[i].mesh in ms
    ensures SumWritten(items, ms) == |items|
  {
    if items == [] {
      SumWrittenOfOthers(items, ms);
    } else {
      var init := items[..|items| - 1];
      SumWrittenAll(init, ms);
      SumWrittenSnoc(init, items[|items| - 1], ms);
      assert init + [items[|items| - 1]] == items;
    }
  }

  /** Every soldier of the units of `ids`. */
  function SoldierCount(d: BattleStateData, ids: seq<Ref>): nat
    requires UnitsValid(d, ids)
  {
    if ids == [] then 0 else SoldierCount(d, ids[..|ids| - 1]) + |GetUnit(d, ids[|ids| - 1]).soldierIds|
  }

  /** The soldiers of the units of `ids` that show selection. */
  function MarkedSoldierCount(d: BattleStateData, ids: seq<Ref>, tentative: Option<Ref>): nat
    requires UnitsValid(d, ids)
  {
    if ids == [] then 0
    else
      var u := GetUnit(d, ids[|ids| - 1]);
      MarkedSoldierCount(d, ids[..|ids| - 1], tentative) + if ShowsSelection(u, ids[|ids| - 1], tentative) then |u.soldierIds| else 0
  }

  /** No soldier of any unit of `ids` is slashing. */
  predicate AllDrawable(d: BattleStateData, ids: seq<Ref>)
    requires UnitsValid(d, ids)
  {
    forall i | 0 <= i < |ids| :: NoneSlashing(d, GetUnit(d, ids[i]).soldierIds)
  }

  /**
   * The newer `updateUnits` throws exactly when some soldier is slashing.
   * Otherwise the spear frame meshes, which are distinct, grow by one
   * instance per soldier in all, and the selection marker by one per soldier
   * of the units that show selection.
   */
  lemma {:induction false} UpdateUnitsCounts(san: San, d: BattleStateData, ids: seq<Ref>, tentative: Option<Ref>)
    requires san.Valid() && UnitsValid(d, ids) && DistinctMeshes(san.SpearMeshes())
    ensures var r := UnitsDrawing(san, d, ids, tentative, Newer);
      (r.failed <==> !AllDrawable(d, ids))
      && (!r.failed ==>
        SumWritten(r.items, san.SpearMeshes()) == SoldierCount(d, ids)
        && |Written(r.items, san.selectedSoldierMarker)| == MarkedSoldierCount(d, ids, tentative))
  {
    if ids != [] {
      var init, id := ids[..|ids| - 1], ids[|ids| - 1];
      assert ids == init + [id];
      UnitsDrawingSnoc(san, d, init, id, tentative, Newer);
      UpdateUnitsCounts(san, d, init, tentative);
      var prev := UnitsDrawing(san, d, init, tentative, Newer);
      var last := UnitDrawing(san, d, id, tentative, Newer);
      UnitDrawingCounts(san, d, id, tentative);
      assert AllDrawable(d, ids) <==> AllDrawable(d, init) && NoneSlashing(d, GetUnit(d, id).soldierIds);
      if !prev.failed && !last.failed {
        SumWrittenAppend(prev.items, last.items, san.SpearMeshes());
        WrittenAppend(prev.items, last.items, san.selectedSoldierMarker);
      }
    } else {
      SumWrittenOfOthers([], san.SpearMeshes());
    }
  }

  /** One unit of the newer renderer: its soldiers on the spear meshes and, if it shows selection, a marker over each. */
  lemma UnitDrawingCounts(san: San, d: BattleStateData, id: Ref, tentative: Option<Ref>)
    requires san.Valid() && IsUnit(d, id) && UnitValid(d, GetUnit(d, id)) && DistinctMeshes(san.SpearMeshes())
    ensures var u, r := GetUnit(d, id), UnitDrawing(san, d, id, tentative, Newer);
      (r.failed <==> !NoneSlashing(d, u.soldierIds))
      && (!r.failed ==>
        SumWritten(r.items, san.SpearMeshes()) == |u.soldierIds|
        && |Written(r.items, san.selectedSoldierMarker)| == if ShowsSelection(u, id, tentative) then |u.soldierIds| else 0)
  {
    var u := GetUnit(d, id);
    var body := SoldiersDrawing(san, d, u.allegiance, u.soldierIds, Newer);
    SoldiersDrawingOnSpearMeshes(san, d, u.allegiance, u.soldierIds, Newer);
    SoldiersDrawingFailsOnSlash(san, d, u.allegiance, u.soldierIds);
    if !body.failed {
      SumWrittenAll(body.items, san.SpearMeshes());
      WrittenOfOther(body.items, san.selectedSoldierMarker);
      if ShowsSelection(u, id, tentative) {
        var marks := MarkerItems(san.selectedSoldierMarker, d, u.soldierIds);
        SumWrittenOfOthers(marks, san.SpearMeshes());
        SumWrittenAppend(body.items, marks, san.SpearMeshes());
        WrittenAppend(body.items, marks, san.selectedSoldierMarker);
        MarkerItemsWritten(san.selectedSoldierMarker, d, u.soldierIds);
      }
    }
  }

  /** All of a marker list goes to its mesh. */
  lemma {:induction false} MarkerItemsWritten(mesh: InstancedMesh, d: BattleStateData, ids: seq<Ref>)
    requires SoldierIdsValid(d, ids)
    ensures |Written(MarkerItems(mesh, d, ids), mesh)| == |ids|
  {
    if ids != [] {
      var init := ids[..|ids| - 1];
      assert SoldierIdsValid(d, init);
      MarkerItemsWritten(mesh, d, init);
      assert MarkerItems(mesh, d, ids)[..|ids| - 1] == MarkerItems(mesh, d, init);
    }
  }

  // ---- The drawing loops -----------------------------------------------------

  /** `updateSelectedSoldierMarker` (and the loop body of `updateTentativelySelectedUnitMarkers`): the marker over soldier `j`. */
  method DrawMarker(mesh: InstancedMesh, d: BattleStateData, ids: seq<Ref>, j: nat, ms: set<InstancedMesh>,
                    ghost before: map<InstancedMesh, MeshState>, ghost items: seq<Instance>)
    requires SoldierIdsValid(d, ids) && j < |ids| && mesh in ms
    requires DrawnSince(ms, before, items + MarkerItems(mesh, d, ids)[..j])
    modifies mesh
    ensures DrawnSince(ms, before, items + MarkerItems(mesh, d, ids)[..j + 1])
  {
    ghost var marks := MarkerItems(mesh, d, ids);
    var soldier := GetSoldier(d, ids[j]);
    Emit(mesh, MarkerTransform(soldier), ms, before, items + marks[..j]);
    assert items + marks[..j + 1] == (items + marks[..j]) + [Instance(mesh, MarkerTransform(soldier))];
  }

  /** A marker with `mesh` over each soldier of `ids`, in order. */
  method DrawMarkers(mesh: InstancedMesh, d: BattleStateData, ids: seq<Ref>, ms: set<InstancedMesh>,
                     ghost before: map<InstancedMesh, MeshState>, ghost items: seq<Instance>)
    requires SoldierIdsValid(d, ids) && mesh in ms && DrawnSince(ms, before, items)
    modifies ms
    ensures DrawnSince(ms, before, items + MarkerItems(mesh, d, ids))
  {
    assert items + MarkerItems(mesh, d, ids)[..0] == items;
    for j := 0 to |ids|
      invariant DrawnSince(ms, before, items + MarkerItems(mesh, d, ids)[..j])
    {
      DrawMarker(mesh, d, ids, j, ms, before, items);
    }
    assert MarkerItems(mesh, d, ids)[..|ids|] == MarkerItems(mesh, d, ids);
  }

  /** The body of the soldier loop of `updateUnits`: soldier `j`'s frame mesh is looked up and its body appended there. */
  method DrawSoldier(san: San, d: BattleStateData, allegiance: Allegiance, ids: seq<Ref>, j: nat, revision: Revision,
                     ghost before: map<InstancedMesh, MeshState>, ghost items: seq<Instance>)
    returns (thrown: bool)
    requires san.Valid() && SoldierIdsValid(d, ids) && j < |ids| && SoldierIdsValid(d, ids[..j])
    requires !SoldiersDrawing(san, d, allegiance, ids[..j], revision).failed
    requires DrawnSince(san.Meshes(), before, items + SoldiersDrawing(san, d, allegiance, ids[..j], revision).items)
    modifies san.Meshes()
    ensures SoldierIdsValid(d, ids[..j + 1])
    ensures thrown == SoldiersDrawing(san, d, allegiance, ids[..j + 1], revision).failed
    ensures DrawnSince(san.Meshes(), before, items + SoldiersDrawing(san, d, allegiance, ids[..j + 1], revision).items)
  {
    SoldiersDrawingStep(san, d, allegiance, ids, j, revision);
    ghost var done := SoldiersDrawing(san, d, allegiance, ids[..j], revision).items;
    var soldier := GetSoldier(d, ids[j]);
    var mesh := SpearMeshOf(san, soldier.animation, allegiance, revision);
    if mesh.Failure? {
      return true;
    }
    Emit(mesh.value, SoldierTransform(soldier), san.Meshes(), before, items + done);
    assert items + done + [Instance(mesh.value, SoldierTransform(soldier))]
      == items + (done + [Instance(mesh.value, SoldierTransform(soldier))]);
    return false;
  }

  /** The soldier loop of `updateUnits`, left at the first soldier whose lookup throws. */
  method DrawSoldiers(san: San, d: BattleStateData, allegiance: Allegiance, ids: seq<Ref>, revision: Revision,
                      ghost before: map<InstancedMesh, MeshState>, ghost items: seq<Instance>)
    returns (thrown: bool)
    requires san.Valid() && SoldierIdsValid(d, ids) && DrawnSince(san.Meshes(), before, items)
    modifies san.Meshes()
    ensures thrown == SoldiersDrawing(san, d, allegiance, ids, revision).failed
    ensures DrawnSince(san.Meshes(), before, items + SoldiersDrawing(san, d, allegiance, ids, revision).items)
  {
    assert ids[..0] == [] && items + [] == items;
    for j := 0 to |ids|
      invariant SoldierIdsValid(d, ids[..j])
      invariant !SoldiersDrawing(san, d, allegiance, ids[..j], revision).failed
      invariant DrawnSince(san.Meshes(), before, items + SoldiersDrawing(san, d, allegiance, ids[..j], revision).items)
    {
      thrown := DrawSoldier(san, d, allegiance, ids, j, revision, before, items);
      if thrown {
        SoldiersDrawingPrefixFailed(san, d, allegiance, ids, revision, j + 1);
        return;
      }
    }
    assert ids[..|ids|] == ids;
    return false;
  }

  /** Once a prefix of the soldiers fails, the whole list fails with the same instances. */
  lemma {:induction false} SoldiersDrawingPrefixFailed(san: San, d: BattleStateData, allegiance: Allegiance, ids: seq<Ref>,
                                                       revision: Revision, k: nat)
    requires san.Valid() && SoldierIdsValid(d, ids) && k <= |ids|
    requires SoldierIdsValid(d, ids[..k]) && SoldiersDrawing(san, d, allegiance, ids[..k], revision).failed
    ensures SoldiersDrawing(san, d, allegiance, ids, revision) == SoldiersDrawing(san, d, allegiance, ids[..k], revision)
    decreases |ids| - k
  {
    if k < |ids| {
      assert ids[..k + 1][..k] == ids[..k];
      SoldiersDrawingPrefixFailed(san, d, allegiance, ids, revision, k + 1);
    } else {
      assert ids[..k] == ids;
    }
  }

  lemma AppendAssociates(a: seq<Instance>, b: seq<Instance>, c: seq<Instance>, bc: seq<Instance>)
    requires bc == b + c
    ensures a + b + c == a + bc
  {
  }

  /** The units of a prefix of a valid list are valid, and so is the unit after it. */
  lemma UnitsValidPrefix(d: BattleStateData, ids: seq<Ref>, i: nat)
    requires UnitsValid(d, ids) && i < |ids|
    ensures UnitsValid(d, ids[..i]) && IsUnit(d, ids[i]) && UnitValid(d, GetUnit(d, ids[i]))
    ensures ids[..i + 1] == ids[..i] + [ids[i]] && UnitsValid(d, ids[..i] + [ids[i]])
  {
    assert forall k | 0 <= k < i :: ids[..i][k] == ids[k];
    assert ids[..i + 1] == ids[..i] + [ids[i]];
  }

  /** The body of the unit loop of `updateUnits`: unit `i`'s soldiers, then its selection markers if it shows any. */
  method DrawUnit(san: San, d: BattleStateData, ids: seq<Ref>, i: nat, tentative: Option<Ref>, revision: Revision,
                  ghost before: map<InstancedMesh, MeshState>)
    returns (thrown: bool)
    requires san.Valid() && UnitsValid(d, ids) && i < |ids| && UnitsValid(d, ids[..i])
    requires !UnitsDrawing(san, d, ids[..i], tentative, revision).failed
    requires DrawnSince(san.Meshes(), before, UnitsDrawing(san, d, ids[..i], tentative, revision).items)
    modifies san.Meshes()
    ensures UnitsValid(d, ids[..i + 1])
    ensures thrown == UnitsDrawing(san, d, ids[..i + 1], tentative, revision).failed
    ensures DrawnSince(san.Meshes(), before, UnitsDrawing(san, d, ids[..i + 1], tentative, revision).items)
  {
    UnitsValidPrefix(d, ids, i);
    UnitsDrawingSnoc(san, d, ids[..i], ids[i], tentative, revision);
    ghost var done := UnitsDrawing(san, d, ids[..i], tentative, revision).items;
    var unitId := ids[i];
    var unit := GetUnit(d, unitId);
    ghost var last := UnitDrawing(san, d, unitId, tentative, revision);
    ghost var body := SoldiersDrawing(san, d, unit.allegiance, unit.soldierIds, revision);
    assert UnitsDrawing(san, d, ids[..i + 1], tentative, revision) == Drawing(done + last.items, last.failed);
    thrown := DrawSoldiers(san, d, unit.allegiance, unit.soldierIds, revision, before, done);
    if thrown {
      assert last == body;
      return;
    }
    if revision == Newer && ShowsSelection(unit, unitId, tentative) {
      ghost var marks := MarkerItems(san.selectedSoldierMarker, d, unit.soldierIds);
      assert last.items == body.items + marks;
      DrawMarkers(san.selectedSoldierMarker, d, unit.soldierIds, san.Meshes(), before, done + body.items);
      AppendAssociates(done, body.items, marks, last.items);
      DrawnSinceSame(san.Meshes(), before, done + body.items + marks, done + last.items);
    } else {
      assert last == body;
    }
  }

  /**
   * `updateUnits`: every active unit in order is drawn as `UnitsDrawing`
   * says, and nothing but the render pools changes; `tentative` is the unit
   * under the cursor, which the game finds by ray casting.
   */
  method UpdateUnits(battle: BattleState, san: San, tentative: Option<Ref>, revision: Revision) returns (thrown: bool)
    requires san.Valid() && UnitsValid(battle.data, battle.data.activeUnitIds)
    modifies san.Meshes()
    ensures thrown == UnitsDrawing(san, battle.data, battle.data.activeUnitIds, tentative, revision).failed
    ensures DrawnSince(san.Meshes(), old(Snapshot(san.Meshes())),
                       UnitsDrawing(san, battle.data, battle.data.activeUnitIds, tentative, revision).items)
  {
    var d := battle.data;
    var ids := d.activeUnitIds;
    ghost var before := Snapshot(san.Meshes());
    DrawnSinceStart(san.Meshes());
    assert ids[..0] == [];
    for i := 0 to |ids|
      invariant UnitsValid(d, ids[..i])
      invariant !UnitsDrawing(san, d, ids[..i], tentative, revision).failed
      invariant DrawnSince(san.Meshes(), before, UnitsDrawing(san, d, ids[..i], tentative, revision).items)
    {
      thrown := DrawUnit(san, d, ids, i, tentative, revision, before);
      if thrown {
        UnitsDrawingPrefixFailed(san, d, ids, tentative, revision, i + 1);
        return;
      }
    }
    assert ids[..|ids|] == ids;
    return false;
  }

  /** Once a prefix of the units fails, the whole list fails with the same instances. */
  lemma {:induction false} UnitsDrawingPrefixFailed(san: San, d: BattleStateData, ids: seq<Ref>, tentative: Option<Ref>,
                                                    revision: Revision, k: nat)
    requires san.Valid() && UnitsValid(d, ids) && k <= |ids|
    requires UnitsValid(d, ids[..k]) && UnitsDrawing(san, d, ids[..k], tentative, revision).failed
    ensures UnitsDrawing(san, d, ids, tentative, revision) == UnitsDrawing(san, d, ids[..k], tentative, revision)
    decreases |ids| - k
  {
    if k < |ids| {
      UnitsValidPrefix(d, ids, k);
      assert ids[..k + 1][..k] == ids[..k];
      UnitsDrawingPrefixFailed(san, d, ids, tentative, revision, k + 1);
    } else {
      assert ids[..k] == ids;
    }
  }

  // ---- Soldier explosions ----------------------------------------------------

  /**
   * `getExplosionFrameInstancedMesh` followed by the `setMatrixAt` on its
   * result: the frame number has no lower clamp, so an explosion with a
   * negative time reads `undefined` from the array and the write throws.
   */
  function ExplosionMeshOf(san: San, e: SoldierExplosion): (r: Result<InstancedMesh>)
    requires san.Valid()
    ensures r.Success? ==> r.value in san.ExplosionMeshes()
    ensures r.Failure? <==> e.timeInSeconds < 0.0
  {
    var frameCount := |san.azukiUnarmedExplosionFrames|;
    var i := ExplosionFrameNumber(e, san.mcon, frameCount);
    if i < 0 then Failure("Cannot read properties of undefined (reading 'setMatrixAt')")
    else
      assert e.timeInSeconds < 0.0 ==> i < 0 by {
        if e.timeInSeconds < 0.0 {
          UpperClampedFrameNumberBeforeClip(e.timeInSeconds, san.mcon.soldierExplosionClipDuration, frameCount);
        }
      }
      Success(if e.allegiance == Azuki then san.azukiUnarmedExplosionFrames[i] else san.edamameUnarmedExplosionFrames[i])
  }

  /** An explosion: at its position, in its orientation. */
  function ExplosionTransform(e: SoldierExplosion): Transform
  {
    Transform(e.position, Oriented(e.orientation), 0.0)
  }

  /** `updateSoldierExplosions`: one instance per explosion, in order, until a lookup throws. */
  function ExplosionsDrawing(san: San, es: seq<SoldierExplosion>): Drawing
    requires san.Valid()
  {
    if es == [] then Drawing([], false)
    else
      var prev := ExplosionsDrawing(san, es[..|es| - 1]);
      var e := es[|es| - 1];
      if prev.failed then prev
      else
        match ExplosionMeshOf(san, e)
        case Failure(_) => Drawing(prev.items, true)
        case Success(m) => Drawing(prev.items + [Instance(m, ExplosionTransform(e))], false)
  }

  /**
   * Drawing the explosions throws exactly when one of them has a negative
   * time. Otherwise each explosion is one instance on an explosion frame
   * mesh, and over those meshes, when distinct, the counts grow by the
   * number of explosions in all.
   */
  lemma {:induction false} ExplosionsDrawingSpec(san: San, es: seq<SoldierExplosion>)
    requires san.Valid()
    ensures var r := ExplosionsDrawing(san, es);
      (r.failed <==> exists k | 0 <= k < |es| :: es[k].timeInSeconds < 0.0)
      && (forall i | 0 <= i < |r.items| :: r.items[i].mesh in san.ExplosionMeshes())
      && (!r.failed ==> |r.items| == |es|)
      && (!r.failed && DistinctMeshes(san.ExplosionMeshes()) ==> SumWritten(r.items, san.ExplosionMeshes()) == |es|)
  {
    var r := ExplosionsDrawing(san, es);
    if es != [] {
      var init := es[..|es| - 1];
      ExplosionsDrawingSpec(san, init);
      assert forall k | 0 <= k < |init| :: init[k] == es[k];
      assert (exists k | 0 <= k < |es| :: es[k].timeInSeconds < 0.0)
        <==> (exists k | 0 <= k < |init| :: init[k].timeInSeconds < 0.0) || es[|es| - 1].timeInSeconds < 0.0;
    }
    if !r.failed && DistinctMeshes(san.ExplosionMeshes()) {
      SumWrittenAll(r.items, san.ExplosionMeshes());
    }
  }

  /** One more explosion after an unfailed prefix: its lookup either throws or appends it to the looked-up mesh. */
  lemma ExplosionsDrawingStep(san: San, es: seq<SoldierExplosion>, j: nat)
    requires san.Valid() && j < |es|
    ensures var prev, r := ExplosionsDrawing(san, es[..j]), ExplosionMeshOf(san, es[j]);
      !prev.failed ==>
        ExplosionsDrawing(san, es[..j + 1])
        == if r.Failure? then Drawing(prev.items, true) else Drawing(prev.items + [Instance(r.value, ExplosionTransform(es[j]))], false)
  {
    assert es[..j + 1][..j] == es[..j];
  }

  /** Once a prefix of the explosions fails, the whole list fails with the same instances. */
  lemma {:induction false} ExplosionsDrawingPrefixFailed(san: San, es: seq<SoldierExplosion>, k: nat)
    requires san.Valid() && k <= |es| && ExplosionsDrawing(san, es[..k]).failed
    ensures ExplosionsDrawing(san, es) == ExplosionsDrawing(san, es[..k])
    decreases |es| - k
  {
    if k < |es| {
      assert es[..k + 1][..k] == es[..k];
      ExplosionsDrawingPrefixFailed(san, es, k + 1);
    } else {
      assert es[..k] == es;
    }
  }

  /** The loop body of `updateSoldierExplosions`: explosion `j` is appended to its frame mesh. */
  method DrawExplosion(san: San, es: seq<SoldierExplosion>, j: nat, ghost before: map<InstancedMesh, MeshState>)
    returns (thrown: bool)
    requires san.Valid() && j < |es| && !ExplosionsDrawing(san, es[..j]).failed
    requires DrawnSince(san.Meshes(), before, ExplosionsDrawing(san, es[..j]).items)
    modifies san.Meshes()
    ensures thrown == ExplosionsDrawing(san, es[..j + 1]).failed
    ensures DrawnSince(san.Meshes(), before, ExplosionsDrawing(san, es[..j + 1]).items)
  {
    ExplosionsDrawingStep(san, es, j);
    var explosion := es[j];
    var mesh := ExplosionMeshOf(san, explosion);
    if mesh.Failure? {
      return true;
    }
    Emit(mesh.value, ExplosionTransform(explosion), san.Meshes(), before, ExplosionsDrawing(san, es[..j]).items);
    return false;
  }

  /** `updateSoldierExplosions`: every explosion of the battle in order, as `ExplosionsDrawing` says. */
  method UpdateSoldierExplosions(battle: BattleState, san: San) returns (thrown: bool)
    requires san.Valid()
    modifies san.Meshes()
    ensures thrown == ExplosionsDrawing(san, battle.data.soldierExplosions).failed
    ensures DrawnSince(san.Meshes(), old(Snapshot(san.Meshes())), ExplosionsDrawing(san, battle.data.soldierExplosions).items)
  {
    var es := battle.data.soldierExplosions;
    ghost var before := Snapshot(san.Meshes());
    DrawnSinceStart(san.Meshes());
    assert es[..0] == [];
    for j := 0 to |es|
      invariant !ExplosionsDrawing(san, es[..j]).failed
      invariant DrawnSince(san.Meshes(), before, ExplosionsDrawing(san, es[..j]).items)
    {
      thrown := DrawExplosion(san, es, j, before);
      if thrown {
        ExplosionsDrawingPrefixFailed(san, es, j + 1);
        return;
      }
    }
    assert es[..|es|] == es;
    return false;
  }
}
