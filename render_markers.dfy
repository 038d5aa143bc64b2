// The two small per-frame appends of the renderer: the flashing markers over
// the tentatively selected unit
// (src/updateThreeScene/updateThreeSceneAfterTicking.ts:481-508) and the
// preview of a planned deployment
// (src/updateThreeScene/updateThreeSceneAfterPlannedDeployment.ts).

module RenderMarkers {
  import opened Prelude
  import opened BattleData
  import opened RenderPools
  import opened RenderUnits

  // ---- Tentatively selected unit -------------------------------------------

  /** The unit under the cursor, when there is one, is a unit of the battle with valid soldier ids. */
  predicate TentativeValid(d: BattleStateData, tentative: Option<Ref>)
  {
    tentative.Some? ==> IsUnit(d, tentative.value) && UnitValid(d, GetUnit(d, tentative.value))
  }

  /** The markers over the tentatively selected unit: one per soldier, in order; none without such a unit. */
  function TentativeItems(san: San, d: BattleStateData, tentative: Option<Ref>): seq<Instance>
    requires TentativeValid(d, tentative)
  {
    if tentative.None? then []
    else MarkerItems(san.tentativelySelectedSoldierMarker, d, GetUnit(d, tentative.value).soldierIds)
  }

  /**
   * Every tentative marker goes to the tentative marker mesh, lifted one unit
   * over its soldier and turned as the soldier is, and that mesh receives one
   * per soldier of the unit, or none when no unit is under the cursor.
   */
  lemma TentativeItemsSpec(san: San, d: BattleStateData, tentative: Option<Ref>)
    requires TentativeValid(d, tentative)
    ensures forall i | 0 <= i < |TentativeItems(san, d, tentative)| ::
      TentativeItems(san, d, tentative)[i].mesh == san.tentativelySelectedSoldierMarker
    ensures tentative.Some? ==> forall i | 0 <= i < |GetUnit(d, tentative.value).soldierIds| ::
      TentativeItems(san, d, tentative)[i].transform
        == MarkerTransform(GetSoldier(d, GetUnit(d, tentative.value).soldierIds[i]))
    ensures |Written(TentativeItems(san, d, tentative), san.tentativelySelectedSoldierMarker)|
      == if tentative.None? then 0 else |GetUnit(d, tentative.value).soldierIds|
  {
    if tentative.Some? {
      MarkerItemsWritten(san.tentativelySelectedSoldierMarker, d, GetUnit(d, tentative.value).soldierIds);
    }
  }

  /**
   * `updateTentativelySelectedSoldierMarkersIfSelectCommandIsPending`: with no
   * unit under the cursor nothing changes; otherwise each soldier of that
   * unit gets a marker on the tentative marker mesh, which is the only mesh
   * written. The unit under the cursor is found by ray casting and is a
   * parameter here.
   */
  method UpdateTentativelySelectedSoldierMarkers(battle: BattleState, san: San, tentative: Option<Ref>)
    requires TentativeValid(battle.data, tentative)
    modifies san.tentativelySelectedSoldierMarker
    ensures DrawnSince({san.tentativelySelectedSoldierMarker}, old(Snapshot({san.tentativelySelectedSoldierMarker})),
                       TentativeItems(san, battle.data, tentative))
  {
    var mesh := san.tentativelySelectedSoldierMarker;
    var ms := {mesh};
    DrawnSinceStart(ms);
    if tentative.None? {
      return;
    }
    var unit := GetUnit(battle.data, tentative.value);
    DrawMarkers(mesh, battle.data, unit.soldierIds, ms, Snapshot(ms), []);
    assert [] + MarkerItems(mesh, battle.data, unit.soldierIds) == TentativeItems(san, battle.data, tentative);
  }

  // ---- Planned deployment --------------------------------------------------

  /** The part of a planned unit the preview reads: its soldiers. */
  datatype PlannedUnit = PlannedUnit(soldiers: seq<PlannedSoldier>)

  /** A planned soldier's matrix: at its position, turned by `yRot` about the y axis. */
  function PlannedTransform(s: PlannedSoldier): Transform
  {
    Transform(s.position, AboutY(s.yRot), 0.0)
  }

  /** The matrices of `soldiers`, in order. */
  function PlannedTransforms(soldiers: seq<PlannedSoldier>): seq<Transform>
  {
    seq(|soldiers|, i requires 0 <= i < |soldiers| => PlannedTransform(soldiers[i]))
  }

  /** What the preview appends for the planned unit, if any. */
  function PlannedPreview(plannedUnit: Option<PlannedUnit>): seq<Transform>
  {
    if plannedUnit.None? then [] else PlannedTransforms(plannedUnit.value.soldiers)
  }

  /**
   * After the preview, walk frame 0 holds one more instance per planned
   * soldier, in slots `count .. count + n - 1` in soldier order (as far as
   * the buffer reaches); every other slot keeps its matrix.
   */
  lemma PlannedPreviewSlots(s: MeshState, plannedUnit: Option<PlannedUnit>)
    ensures plannedUnit.None? ==> AppendedTo(s, PlannedPreview(plannedUnit)) == s
    ensures plannedUnit.Some? ==>
      var n := |plannedUnit.value.soldiers|;
      var r := AppendedTo(s, PlannedPreview(plannedUnit));
      r.count == s.count + n && |r.instanceMatrix| == |s.instanceMatrix| && r.needsUpdate == s.needsUpdate
      && forall i | 0 <= i < |s.instanceMatrix| ::
        r.instanceMatrix[i] == if s.count <= i < s.count + n then PlannedTransform(plannedUnit.value.soldiers[i - s.count])
                               else s.instanceMatrix[i]
  {
    if plannedUnit.None? {
      assert Placed(s.instanceMatrix, s.count, []) == s.instanceMatrix;
    }
  }

  /**
   * `updateThreeSceneAfterPlannedDeployment`: with no planned unit nothing
   * changes; otherwise every planned soldier is appended, in order, to the
   * Azuki walk-frame-0 mesh, which is the only object written.
   */
  method UpdateThreeSceneAfterPlannedDeployment(plannedUnit: Option<PlannedUnit>, san: San)
    requires san.Valid()
    modifies san.azukiSpearWalkFrames[0]
    ensures StateOf(san.azukiSpearWalkFrames[0]) == AppendedTo(old(StateOf(san.azukiSpearWalkFrames[0])), PlannedPreview(plannedUnit))
  {
    ghost var s0 := StateOf(san.azukiSpearWalkFrames[0]);
    if plannedUnit.None? {
      assert Placed(s0.instanceMatrix, s0.count, []) == s0.instanceMatrix;
      return;
    }
    var soldiers := plannedUnit.value.soldiers;
    assert PlannedTransforms(soldiers[..0]) == [];
    assert Placed(s0.instanceMatrix, s0.count, []) == s0.instanceMatrix;
    for i := 0 to |soldiers|
      invariant StateOf(san.azukiSpearWalkFrames[0]) == AppendedTo(s0, PlannedTransforms(soldiers[..i]))
    {
      var mesh := san.azukiSpearWalkFrames[0];
      var t := PlannedTransform(soldiers[i]);
      mesh.Push(t);
      assert PlannedTransforms(soldiers[..i + 1]) == PlannedTransforms(soldiers[..i]) + [t];
      AppendedToSnoc(s0, PlannedTransforms(soldiers[..i]), t);
    }
    assert soldiers[..|soldiers|] == soldiers;
  }
}
