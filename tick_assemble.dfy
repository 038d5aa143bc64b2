// The Assemble order of a unit (src/tick.ts:827-891): every soldier walks to
// its assembly point and then turns to face the unit's forward direction; the
// unit switches to Storm once no more soldiers are coming and every living
// soldier is ready. `Math.atan2` and the rendering library's translateZ are
// the parameters `atan2` and `move`.

module TickAssemble {
  import opened Prelude
  import opened GeoUtils
  import opened BattleData
  import opened TickAnimation
  import opened TickAngles

  /** A soldier after one assembling tick, and whether it is ready for combat. */
  datatype AssembleStep = AssembleStep(soldier: Soldier, isReadyForCombat: bool)

  /** Close enough to the assembly point to stop walking and turn. */
  predicate AtAssemblyPoint(s: Soldier)
  {
    LengthSquared(Sub(s.assemblyPoint, s.position)) < 0.1
  }

  /** The yaw a soldier at its assembly point turns toward: the unit's forward direction. */
  function ForwardYaw(forward: Triple, atan2: (real, real) -> real): real
  {
    atan2(forward[0], forward[2])
  }

  /**
   * One tick of one assembling soldier: at its assembly point it turns toward
   * the unit's forward direction and stops walking, and is ready once it is
   * idle and facing forward; elsewhere it turns toward the point, walks and
   * moves backward along its local Z axis at double speed.
   */
  function AssembleSoldier(elapsed: real, forward: Triple, s: Soldier, walkClipDuration: real,
                           atan2: (real, real) -> real, move: (Triple, Orientation, real) -> Triple): (r: AssembleStep)
    requires walkClipDuration > 0.0
    ensures r.soldier.health == s.health && r.soldier.attackTargetId == s.attackTargetId
    ensures r.soldier.assemblyPoint == s.assemblyPoint
    ensures r.soldier.orientation.pitch == s.orientation.pitch && r.soldier.orientation.roll == s.orientation.roll
    ensures AtAssemblyPoint(s) ==> r.soldier.position == s.position
    ensures !AtAssemblyPoint(s) ==> !r.isReadyForCombat && r.soldier.animation.kind == Walk
    ensures r.isReadyForCombat ==>
      r.soldier.animation == SoldierAnimationState(Idle, 0.0) || (s.animation.kind != Walk && r.soldier.animation == s.animation)
    ensures r.isReadyForCombat ==> r.soldier.orientation.yaw == ForwardYaw(forward, atan2)
  {
    var turnStep := elapsed * TURN_SPEED_RAD_PER_SEC;
    if AtAssemblyPoint(s) then
      var desired := ForwardYaw(forward, atan2);
      var orientation := s.orientation.(yaw := LimitedTurn(s.orientation.yaw, desired, turnStep));
      var animation := StopWalkingAnimation(ASSEMBLING_TROOP_SPEEDUP_FACTOR * elapsed, s.animation, walkClipDuration);
      AssembleStep(s.(orientation := orientation, animation := animation),
                   animation.kind == Idle && orientation.yaw == desired)
    else
      var difference := Sub(s.assemblyPoint, s.position);
      var desired := atan2(difference[0], difference[2]) + PI;
      var orientation := s.orientation.(yaw := LimitedTurn(s.orientation.yaw, desired, turnStep));
      var animation := StartOrContinueWalkingAnimation(ASSEMBLING_TROOP_SPEEDUP_FACTOR * elapsed, s.animation, walkClipDuration);
      var position := move(s.position, orientation, ASSEMBLING_TROOP_SPEEDUP_FACTOR * -1.5 * elapsed);
      AssembleStep(Soldier(position, animation, s.attackTargetId, s.health, orientation, s.assemblyPoint), false)
  }

  /**
   * A soldier is ready exactly when it stands at its assembly point, its walk
   * has stopped this tick, and the forward direction is within this tick's
   * turning step.
   */
  lemma ReadyIff(elapsed: real, forward: Triple, s: Soldier, walkClipDuration: real,
                 atan2: (real, real) -> real, move: (Triple, Orientation, real) -> Triple)
    requires walkClipDuration > 0.0 && elapsed >= 0.0
    ensures AssembleSoldier(elapsed, forward, s, walkClipDuration, atan2, move).isReadyForCombat <==>
      AtAssemblyPoint(s)
      && StopWalkingAnimation(ASSEMBLING_TROOP_SPEEDUP_FACTOR * elapsed, s.animation, walkClipDuration).kind == Idle
      && Abs(WrappedDifference(ForwardYaw(forward, atan2) - s.orientation.yaw)) <= elapsed * TURN_SPEED_RAD_PER_SEC
  {
    assert elapsed * TURN_SPEED_RAD_PER_SEC >= 0.0 by { MulNonNegative(elapsed, TURN_SPEED_RAD_PER_SEC); }
    LimitTurnReachesDesiredIff(s.orientation.yaw, ForwardYaw(forward, atan2), elapsed * TURN_SPEED_RAD_PER_SEC);
  }

  lemma MulNonNegative(x: real, y: real)
    requires x >= 0.0 && y >= 0.0
    ensures x * y >= 0.0
  {
  }

  /** The arena with one soldier replaced by its assembling step. */
  function AssembleAt(d: BattleStateData, id: Ref, elapsed: real, forward: Triple, walkClipDuration: real,
                      atan2: (real, real) -> real, move: (Triple, Orientation, real) -> Triple): BattleStateData
    requires IsSoldier(d, id) && walkClipDuration > 0.0
  {
    var s := AssembleSoldier(elapsed, forward, GetSoldier(d, id), walkClipDuration, atan2, move).soldier;
    d.(entities := d.entities[id.value := SoldierEntity(s)])
  }

  /** A soldier that is alive and not ready keeps its unit assembling. */
  predicate Lagging(d: BattleStateData, id: Ref, elapsed: real, forward: Triple, walkClipDuration: real,
                    atan2: (real, real) -> real, move: (Triple, Orientation, real) -> Triple)
    requires IsSoldier(d, id) && walkClipDuration > 0.0
  {
    GetSoldier(d, id).health > 0.0
    && !AssembleSoldier(elapsed, forward, GetSoldier(d, id), walkClipDuration, atan2, move).isReadyForCombat
  }

  /** The arena after the soldiers of `ids` took their assembling step, one after another. */
  function AssembledUpTo(d: BattleStateData, ids: seq<Ref>, elapsed: real, forward: Triple, walkClipDuration: real,
                         atan2: (real, real) -> real, move: (Triple, Orientation, real) -> Triple): (r: BattleStateData)
    requires SoldierIdsValid(d, ids) && walkClipDuration > 0.0
    ensures KindsKept(d.entities, r.entities) && |r.entities| == |d.entities| && r.(entities := d.entities) == d
  {
    if |ids| == 0 then d
    else
      var m := AssembledUpTo(d, ids[..|ids| - 1], elapsed, forward, walkClipDuration, atan2, move);
      KindsKeptRefs(d, m, ids[|ids| - 1]);
      AssembleAt(m, ids[|ids| - 1], elapsed, forward, walkClipDuration, atan2, move)
  }

  /** Whether any soldier of `ids`, as the loop meets it, keeps the unit assembling. */
  predicate StillAssembling(d: BattleStateData, ids: seq<Ref>, elapsed: real, forward: Triple, walkClipDuration: real,
                            atan2: (real, real) -> real, move: (Triple, Orientation, real) -> Triple)
    requires SoldierIdsValid(d, ids) && walkClipDuration > 0.0
  {
    if |ids| == 0 then false
    else
      var m := AssembledUpTo(d, ids[..|ids| - 1], elapsed, forward, walkClipDuration, atan2, move);
      KindsKeptRefs(d, m, ids[|ids| - 1]);
      StillAssembling(d, ids[..|ids| - 1], elapsed, forward, walkClipDuration, atan2, move)
      || Lagging(m, ids[|ids| - 1], elapsed, forward, walkClipDuration, atan2, move)
  }

  /** The unit an Assemble tick acts on: an existing, valid unit under the Assemble order. */
  predicate Assembling(d: BattleStateData, unitId: Ref)
  {
    IsUnit(d, unitId) && UnitValid(d, GetUnit(d, unitId)) && GetUnit(d, unitId).order == Assemble
  }

  /** `tickUnitWithAssembleOrder` on the arena. */
  function TickAssemble(d: BattleStateData, unitId: Ref, elapsed: real, walkClipDuration: real,
                        atan2: (real, real) -> real, move: (Triple, Orientation, real) -> Triple): BattleStateData
    requires Assembling(d, unitId) && walkClipDuration > 0.0
  {
    var u := GetUnit(d, unitId);
    var m := AssembledUpTo(d, u.soldierIds, elapsed, u.forward.value, walkClipDuration, atan2, move);
    if !u.areSoldiersStillBeingAdded && !StillAssembling(d, u.soldierIds, elapsed, u.forward.value, walkClipDuration, atan2, move)
    then m.(entities := m.entities[unitId.value := UnitEntity(u.(order := Storm))])
    else m
  }

  // ---- Properties of the fold ----

  /** An entity whose reference is not among `ids` is left alone. */
  lemma {:induction false} AssembledUpToUntouched(d: BattleStateData, ids: seq<Ref>, elapsed: real, forward: Triple,
                                                   walkClipDuration: real, atan2: (real, real) -> real,
                                                   move: (Triple, Orientation, real) -> Triple, x: nat)
    requires SoldierIdsValid(d, ids) && walkClipDuration > 0.0
    requires x < |d.entities| && Ref(x) !in ids
    ensures AssembledUpTo(d, ids, elapsed, forward, walkClipDuration, atan2, move).entities[x] == d.entities[x]
  {
    if |ids| > 0 {
      assert Ref(x) !in ids[..|ids| - 1];
      AssembledUpToUntouched(d, ids[..|ids| - 1], elapsed, forward, walkClipDuration, atan2, move, x);
    }
  }

  predicate Distinct(ids: seq<Ref>)
  {
    forall i, j | 0 <= i < j < |ids| :: ids[i] != ids[j]
  }

  /** For distinct ids, the last soldier is still in its starting state when the loop reaches it. */
  lemma LastUntouched(d: BattleStateData, ids: seq<Ref>, elapsed: real, forward: Triple,
                      walkClipDuration: real, atan2: (real, real) -> real,
                      move: (Triple, Orientation, real) -> Triple)
    requires SoldierIdsValid(d, ids) && walkClipDuration > 0.0 && Distinct(ids) && |ids| > 0
    ensures var front := ids[..|ids| - 1];
      var m := AssembledUpTo(d, front, elapsed, forward, walkClipDuration, atan2, move);
      Distinct(front) && SoldierIdsValid(d, front) && IsSoldier(m, ids[|ids| - 1])
      && m.entities[ids[|ids| - 1].value] == d.entities[ids[|ids| - 1].value]
  {
    var front := ids[..|ids| - 1];
    var last := ids[|ids| - 1];
    assert forall i | 0 <= i < |front| :: front[i] == ids[i];
    assert last !in front;
    AssembledUpToUntouched(d, front, elapsed, forward, walkClipDuration, atan2, move, last.value);
  }

  /** With distinct soldier ids, each soldier takes exactly one step, from its own starting state. */
  lemma {:induction false} AssembledDistinct(d: BattleStateData, ids: seq<Ref>, elapsed: real, forward: Triple,
                                             walkClipDuration: real, atan2: (real, real) -> real,
                                             move: (Triple, Orientation, real) -> Triple)
    requires SoldierIdsValid(d, ids) && walkClipDuration > 0.0 && Distinct(ids)
    ensures var r := AssembledUpTo(d, ids, elapsed, forward, walkClipDuration, atan2, move);
      forall k | 0 <= k < |ids| ::
        r.entities[ids[k].value] == SoldierEntity(AssembleSoldier(elapsed, forward, GetSoldier(d, ids[k]), walkClipDuration, atan2, move).soldier)
  {
    if |ids| > 0 {
      var front := ids[..|ids| - 1];
      var last := ids[|ids| - 1];
      LastUntouched(d, ids, elapsed, forward, walkClipDuration, atan2, move);
      AssembledDistinct(d, front, elapsed, forward, walkClipDuration, atan2, move);
      var r := AssembledUpTo(d, ids, elapsed, forward, walkClipDuration, atan2, move);
      forall k | 0 <= k < |ids|
        ensures r.entities[ids[k].value] == SoldierEntity(AssembleSoldier(elapsed, forward, GetSoldier(d, ids[k]), walkClipDuration, atan2, move).soldier)
      {
        if k < |front| {
          assert ids[k] == front[k] && ids[k] != last;
        }
      }
    }
  }

  /**
   * With distinct soldier ids, the unit still assembles exactly when one of
   * its soldiers, as it was before the tick, is lagging.
   */
  lemma {:induction false} StillAssemblingDistinct(d: BattleStateData, ids: seq<Ref>, elapsed: real, forward: Triple,
                                                   walkClipDuration: real, atan2: (real, real) -> real,
                                                   move: (Triple, Orientation, real) -> Triple)
    requires SoldierIdsValid(d, ids) && walkClipDuration > 0.0 && Distinct(ids)
    ensures StillAssembling(d, ids, elapsed, forward, walkClipDuration, atan2, move) <==>
      exists k | 0 <= k < |ids| :: Lagging(d, ids[k], elapsed, forward, walkClipDuration, atan2, move)
  {
    if |ids| > 0 {
      var front := ids[..|ids| - 1];
      LastUntouched(d, ids, elapsed, forward, walkClipDuration, atan2, move);
      StillAssemblingDistinct(d, front, elapsed, forward, walkClipDuration, atan2, move);
      if exists k | 0 <= k < |ids| :: Lagging(d, ids[k], elapsed, forward, walkClipDuration, atan2, move) {
        var k :| 0 <= k < |ids| && Lagging(d, ids[k], elapsed, forward, walkClipDuration, atan2, move);
        if k < |front| {
          assert Lagging(d, front[k], elapsed, forward, walkClipDuration, atan2, move);
        }
      }
      if StillAssembling(d, front, elapsed, forward, walkClipDuration, atan2, move) {
        var k :| 0 <= k < |front| && Lagging(d, front[k], elapsed, forward, walkClipDuration, atan2, move);
        assert ids[k] == front[k];
      }
    }
  }

  /** Assembling steps replace soldiers by soldiers, so the arena stays well formed. */
  lemma {:induction false} AssembledUpToKeepsWellFormed(d: BattleStateData, ids: seq<Ref>, elapsed: real, forward: Triple,
                                                        walkClipDuration: real, atan2: (real, real) -> real,
                                                        move: (Triple, Orientation, real) -> Triple)
    requires WellFormed(d) && SoldierIdsValid(d, ids) && walkClipDuration > 0.0
    ensures WellFormed(AssembledUpTo(d, ids, elapsed, forward, walkClipDuration, atan2, move))
  {
    if |ids| > 0 {
      var front := ids[..|ids| - 1];
      AssembledUpToKeepsWellFormed(d, front, elapsed, forward, walkClipDuration, atan2, move);
      var m := AssembledUpTo(d, front, elapsed, forward, walkClipDuration, atan2, move);
      KindsKeptRefs(d, m, ids[|ids| - 1]);
      ReplaceSoldierKeepsWellFormed(m, ids[|ids| - 1],
        AssembleSoldier(elapsed, forward, GetSoldier(m, ids[|ids| - 1]), walkClipDuration, atan2, move).soldier);
    }
  }

  /**
   * An Assemble tick keeps the arena well formed and moves only soldiers of
   * the unit; the unit itself changes at most by taking the Storm order, and
   * takes it exactly when no more soldiers are coming and none is lagging.
   */
  lemma TickAssembleSpec(d: BattleStateData, unitId: Ref, elapsed: real, walkClipDuration: real,
                         atan2: (real, real) -> real, move: (Triple, Orientation, real) -> Triple)
    requires WellFormed(d) && Assembling(d, unitId) && walkClipDuration > 0.0
    ensures var r := TickAssemble(d, unitId, elapsed, walkClipDuration, atan2, move);
      var u := GetUnit(d, unitId);
      WellFormed(r) && KindsKept(d.entities, r.entities) && r.(entities := d.entities) == d
      && IsUnit(r, unitId)
      && GetUnit(r, unitId) == u.(order := GetUnit(r, unitId).order)
      && (GetUnit(r, unitId).order == Storm <==>
            !u.areSoldiersStillBeingAdded && !StillAssembling(d, u.soldierIds, elapsed, u.forward.value, walkClipDuration, atan2, move))
      && (GetUnit(r, unitId).order != Storm ==> GetUnit(r, unitId).order == Assemble)
      && forall x | 0 <= x < |d.entities| && Ref(x) !in u.soldierIds && x != unitId.value :: r.entities[x] == d.entities[x]
  {
    var u := GetUnit(d, unitId);
    var m := AssembledUpTo(d, u.soldierIds, elapsed, u.forward.value, walkClipDuration, atan2, move);
    AssembledUpToKeepsWellFormed(d, u.soldierIds, elapsed, u.forward.value, walkClipDuration, atan2, move);
    assert Ref(unitId.value) !in u.soldierIds;
    AssembledUpToUntouched(d, u.soldierIds, elapsed, u.forward.value, walkClipDuration, atan2, move, unitId.value);
    KindsKeptRefs(d, m, unitId);
    forall x | 0 <= x < |d.entities| && Ref(x) !in u.soldierIds
      ensures m.entities[x] == d.entities[x]
    {
      AssembledUpToUntouched(d, u.soldierIds, elapsed, u.forward.value, walkClipDuration, atan2, move, x);
    }
    if !u.areSoldiersStillBeingAdded && !StillAssembling(d, u.soldierIds, elapsed, u.forward.value, walkClipDuration, atan2, move) {
      KindsKeptSoldierIds(d, m, u.soldierIds);
      ReplaceUnitKeepsWellFormed(m, unitId, u.(order := Storm));
    }
  }

  /**
   * For a unit whose soldier ids are distinct, the Storm order is taken
   * exactly when no more soldiers are coming and every living soldier is
   * ready for combat after this tick.
   */
  lemma TickAssembleStormIff(d: BattleStateData, unitId: Ref, elapsed: real, walkClipDuration: real,
                             atan2: (real, real) -> real, move: (Triple, Orientation, real) -> Triple)
    requires WellFormed(d) && Assembling(d, unitId) && walkClipDuration > 0.0
    requires Distinct(GetUnit(d, unitId).soldierIds)
    ensures var r := TickAssemble(d, unitId, elapsed, walkClipDuration, atan2, move);
      var u := GetUnit(d, unitId);
      IsUnit(r, unitId)
      && (GetUnit(r, unitId).order == Storm <==>
            !u.areSoldiersStillBeingAdded
            && forall k | 0 <= k < |u.soldierIds| && GetSoldier(d, u.soldierIds[k]).health > 0.0 ::
                 AssembleSoldier(elapsed, u.forward.value, GetSoldier(d, u.soldierIds[k]), walkClipDuration, atan2, move).isReadyForCombat)
  {
    var u := GetUnit(d, unitId);
    TickAssembleSpec(d, unitId, elapsed, walkClipDuration, atan2, move);
    StillAssemblingDistinct(d, u.soldierIds, elapsed, u.forward.value, walkClipDuration, atan2, move);
  }

  // ---- The imperative tick ----

  /** The loop body of `tickUnitWithAssembleOrder` for one soldier. */
  method TickAssemblingSoldier(elapsed: real, forward: Triple, soldier: Soldier, walkClipDuration: real,
                               atan2: (real, real) -> real, move: (Triple, Orientation, real) -> Triple)
    returns (s: Soldier, isReadyForCombat: bool)
    requires walkClipDuration > 0.0
    ensures AssembleStep(s, isReadyForCombat) == AssembleSoldier(elapsed, forward, soldier, walkClipDuration, atan2, move)
  {
    s := soldier;
    isReadyForCombat := false;
    var difference := Sub(s.assemblyPoint, s.position);
    if LengthSquared(difference) < 0.1 {
      var desiredYRot := atan2(forward[0], forward[2]);
      var radiansPerTick := elapsed * TURN_SPEED_RAD_PER_SEC;
      var yaw := LimitTurn(s.orientation.yaw, desiredYRot, radiansPerTick);
      s := s.(orientation := s.orientation.(yaw := yaw));
      s := s.(animation := StopWalkingAnimation(ASSEMBLING_TROOP_SPEEDUP_FACTOR * elapsed, s.animation, walkClipDuration));
      if s.animation.kind == Idle && s.orientation.yaw == desiredYRot {
        isReadyForCombat := true;
      }
    } else {
      var desiredYRot := atan2(difference[0], difference[2]) + PI;
      var radiansPerTick := elapsed * TURN_SPEED_RAD_PER_SEC;
      var yaw := LimitTurn(s.orientation.yaw, desiredYRot, radiansPerTick);
      s := s.(orientation := s.orientation.(yaw := yaw));
      s := s.(animation := StartOrContinueWalkingAnimation(ASSEMBLING_TROOP_SPEEDUP_FACTOR * elapsed, s.animation, walkClipDuration));
      s := s.(position := move(s.position, s.orientation, ASSEMBLING_TROOP_SPEEDUP_FACTOR * -1.5 * elapsed));
    }
  }

  lemma AssembleLoopStep(d0: BattleStateData, ids: seq<Ref>, j: nat, elapsed: real, forward: Triple, walkClipDuration: real,
                         atan2: (real, real) -> real, move: (Triple, Orientation, real) -> Triple)
    requires SoldierIdsValid(d0, ids) && walkClipDuration > 0.0 && j < |ids|
    ensures ids[..j + 1][..j] == ids[..j] && ids[..j + 1][j] == ids[j]
    ensures SoldierIdsValid(d0, ids[..j]) && SoldierIdsValid(d0, ids[..j + 1])
  {
  }

  /** `tickUnitWithAssembleOrder`: the soldiers of the unit are stepped in place, then the order may turn to Storm. */
  method TickUnitWithAssembleOrder(elapsed: real, unitId: Ref, battle: BattleState, walkClipDuration: real,
                                   atan2: (real, real) -> real, move: (Triple, Orientation, real) -> Triple)
    requires Assembling(battle.data, unitId) && walkClipDuration > 0.0
    modifies battle
    ensures battle.data == TickAssemble(old(battle.data), unitId, elapsed, walkClipDuration, atan2, move)
  {
    ghost var d0 := battle.data;
    var unit := GetUnit(battle.data, unitId);
    var forward := unit.forward.value;
    var ids := unit.soldierIds;
    var isUnitStillAssembling := false;
    for j := 0 to |ids|
      invariant SoldierIdsValid(d0, ids[..j])
      invariant battle.data == AssembledUpTo(d0, ids[..j], elapsed, forward, walkClipDuration, atan2, move)
      invariant isUnitStillAssembling == StillAssembling(d0, ids[..j], elapsed, forward, walkClipDuration, atan2, move)
    {
      AssembleLoopStep(d0, ids, j, elapsed, forward, walkClipDuration, atan2, move);
      KindsKeptRefs(d0, battle.data, ids[j]);
      var soldierId := ids[j];
      var soldier := GetSoldier(battle.data, soldierId);
      var s, isReadyForCombat := TickAssemblingSoldier(elapsed, forward, soldier, walkClipDuration, atan2, move);
      battle.data := battle.data.(entities := battle.data.entities[soldierId.value := SoldierEntity(s)]);
      if s.health > 0.0 && !isReadyForCombat {
        isUnitStillAssembling := true;
      }
    }
    assert ids[..|ids|] == ids;
    if !unit.areSoldiersStillBeingAdded && !isUnitStillAssembling {
      battle.data := battle.data.(entities := battle.data.entities[unitId.value := UnitEntity(unit.(order := Storm))]);
    }
  }
}
