// The battle state: one arena of entities addressed by index references, and
// the records the tick rules read and write (src/battleStateData.ts and the
// fields src/tick.ts and src/getBattleState.ts use on it).

module BattleData {
  import opened Prelude
  import opened GeoUtils

  datatype Allegiance = Azuki | Edamame

  function Opponent(a: Allegiance): (b: Allegiance)
    ensures b != a
  {
    if a == Azuki then Edamame else Azuki
  }

  datatype SoldierAnimationKind = Idle | Walk | Stab | Slash

  datatype SoldierAnimationState = SoldierAnimationState(kind: SoldierAnimationKind, timeInSeconds: real)

  /** An index into `entities`. */
  datatype Ref = Ref(value: nat)

  datatype Soldier = Soldier(
    position: Triple,
    animation: SoldierAnimationState,
    attackTargetId: Option<Ref>,
    health: real,
    orientation: Orientation,
    assemblyPoint: Triple)

  /** A king is a soldier with a few extra fields. */
  datatype King = King(body: Soldier, hasExploded: bool, dragonflyId: Option<Ref>, cameraPitch: real)

  datatype DragonflyFlightKind = Resting | Flying | Landing

  datatype DragonflyAnimationKind = DragonflyIdle | DragonflyFly

  datatype Dragonfly = Dragonfly(
    position: Triple,
    orientation: Orientation,
    flightState: DragonflyFlightKind,
    speed: real,
    animationKind: DragonflyAnimationKind,
    animationTimeInSeconds: real,
    dismountTimer: real)

  datatype UnitOrderKind = Advance | Assemble | Storm

  /**
   * `forward` is set on units deployed from a planned unit, `yaw` on the
   * legions built at the start of a battle; each kind of unit carries only one.
   */
  datatype Unit = Unit(
    isSelected: bool,
    order: UnitOrderKind,
    soldierIds: seq<Ref>,
    forward: Option<Triple>,
    yaw: Option<real>,
    isPreview: bool,
    allegiance: Allegiance,
    areSoldiersStillBeingAdded: bool)

  datatype PlannedSoldier = PlannedSoldier(position: Triple, health: real, yRot: real, assemblyPoint: Triple)

  datatype BannerTowerPendingUnit = BannerTowerPendingUnit(soldiers: seq<PlannedSoldier>, unitId: Ref)

  datatype BannerTower = BannerTower(
    position: Triple,
    isPreview: bool,
    allegiance: Allegiance,
    pendingUnits: seq<BannerTowerPendingUnit>,
    secondsUntilNextSoldier: real)

  datatype SoldierExplosion = SoldierExplosion(
    allegiance: Allegiance,
    position: Triple,
    orientation: Orientation,
    timeInSeconds: real)

  datatype Hand = Hand(spearCount: int)

  datatype PendingCommandKind = NoCommand | Deploy | Retreat | Patrol

  datatype Entity =
    | KingEntity(king: King)
    | SoldierEntity(soldier: Soldier)
    | DragonflyEntity(dragonfly: Dragonfly)
    | UnitEntity(unit: Unit)
    | TowerEntity(tower: BannerTower)

  datatype BattleStateData = BattleStateData(
    entities: seq<Entity>,
    azukiKingId: Ref,
    edamameKingId: Ref,
    activeUnitIds: seq<Ref>,
    activeTowerIds: seq<Ref>,
    activeDragonflyIds: seq<Ref>,
    azukiHand: Hand,
    edamameHand: Hand,
    soldierExplosions: seq<SoldierExplosion>,
    pendingCommand: PendingCommandKind)

  /** Game constants (src/gameConsts.ts). */
  const TURN_SPEED_RAD_PER_SEC: real := PI * 0.5
  const STAB_COOLDOWN: real := 1.0
  const SOLDIER_DEPLOYMENT_DELAY_SECONDS: real := 1.0
  const ASSEMBLING_TROOP_SPEEDUP_FACTOR: real := 2.0
  const STAB_TIME_SCALE: real := 2.0
  const MAX_STAB_DELAY: real := 1.0

  /** Animation clip lengths read from the loaded models; only their positivity is assumed. */
  datatype ModelConstants = ModelConstants(
    azukiSpearWalkClipDuration: real,
    azukiSpearStabClipDuration: real,
    azukiKingSlashClipDuration: real,
    soldierExplosionClipDuration: real)

  predicate ValidModelConstants(m: ModelConstants)
  {
    m.azukiSpearWalkClipDuration > 0.0 && m.azukiSpearStabClipDuration > 0.0
    && m.azukiKingSlashClipDuration > 0.0 && m.soldierExplosionClipDuration > 0.0
  }

  // Reference checks and typed lookups (the accessors of src/battleState.ts).

  predicate IsKing(d: BattleStateData, r: Ref)
  {
    r.value < |d.entities| && d.entities[r.value].KingEntity?
  }

  predicate IsSoldier(d: BattleStateData, r: Ref)
  {
    r.value < |d.entities| && d.entities[r.value].SoldierEntity?
  }

  predicate IsDragonfly(d: BattleStateData, r: Ref)
  {
    r.value < |d.entities| && d.entities[r.value].DragonflyEntity?
  }

  predicate IsUnit(d: BattleStateData, r: Ref)
  {
    r.value < |d.entities| && d.entities[r.value].UnitEntity?
  }

  predicate IsTower(d: BattleStateData, r: Ref)
  {
    r.value < |d.entities| && d.entities[r.value].TowerEntity?
  }

  function GetKing(d: BattleStateData, r: Ref): King
    requires IsKing(d, r)
  {
    d.entities[r.value].king
  }

  function GetSoldier(d: BattleStateData, r: Ref): Soldier
    requires IsSoldier(d, r)
  {
    d.entities[r.value].soldier
  }

  function GetDragonfly(d: BattleStateData, r: Ref): Dragonfly
    requires IsDragonfly(d, r)
  {
    d.entities[r.value].dragonfly
  }

  function GetUnit(d: BattleStateData, r: Ref): Unit
    requires IsUnit(d, r)
  {
    d.entities[r.value].unit
  }

  function GetBannerTower(d: BattleStateData, r: Ref): BannerTower
    requires IsTower(d, r)
  {
    d.entities[r.value].tower
  }

  predicate SoldierIdsValid(d: BattleStateData, ids: seq<Ref>)
  {
    forall j | 0 <= j < |ids| :: IsSoldier(d, ids[j])
  }

  /** A pending unit names a unit of the arena and still has soldiers to deploy. */
  predicate PendingUnitsValid(d: BattleStateData, p: seq<BannerTowerPendingUnit>)
  {
    forall k | 0 <= k < |p| :: IsUnit(d, p[k].unitId) && |p[k].soldiers| > 0
  }

  /** A unit whose soldiers all exist and which, while assembling, knows its forward direction. */
  predicate UnitValid(d: BattleStateData, u: Unit)
  {
    SoldierIdsValid(d, u.soldierIds) && (u.order == Assemble ==> u.forward.Some?)
  }

  predicate UnitsValid(d: BattleStateData, ids: seq<Ref>)
  {
    forall i | 0 <= i < |ids| :: IsUnit(d, ids[i]) && UnitValid(d, GetUnit(d, ids[i]))
  }

  predicate TowersValid(d: BattleStateData, ids: seq<Ref>)
  {
    forall i | 0 <= i < |ids| :: IsTower(d, ids[i]) && PendingUnitsValid(d, GetBannerTower(d, ids[i]).pendingUnits)
  }

  predicate DragonfliesValid(d: BattleStateData, ids: seq<Ref>)
  {
    forall i | 0 <= i < |ids| :: IsDragonfly(d, ids[i])
  }

  /** Every reference the tick rules follow lands on an entity of the expected kind. */
  predicate WellFormed(d: BattleStateData)
  {
    IsKing(d, d.azukiKingId) && IsKing(d, d.edamameKingId)
    && UnitsValid(d, d.activeUnitIds)
    && TowersValid(d, d.activeTowerIds)
    && DragonfliesValid(d, d.activeDragonflyIds)
  }

  /** The battle as the game holds it: a mutable box around the state record. */
  class BattleState {
    var data: BattleStateData

    constructor(data: BattleStateData)
      ensures this.data == data
    {
      this.data := data;
    }

    /** Stores a new entity at the end of the arena and hands back its reference. */
    method AddEntity(e: Entity) returns (r: Ref)
      modifies this
      ensures data == old(data).(entities := old(data).entities + [e])
      ensures r == Ref(|old(data).entities|) && data.entities[r.value] == e
    {
      r := Ref(|data.entities|);
      data := data.(entities := data.entities + [e]);
    }
  }

  /** The kind tag of an entity, ignoring its contents. */
  predicate SameKind(a: Entity, b: Entity)
  {
    (a.KingEntity? <==> b.KingEntity?) && (a.SoldierEntity? <==> b.SoldierEntity?)
    && (a.DragonflyEntity? <==> b.DragonflyEntity?) && (a.UnitEntity? <==> b.UnitEntity?)
    && (a.TowerEntity? <==> b.TowerEntity?)
  }

  /** `e2` keeps every entity of `e1` at its index with the same kind, and may have more. */
  predicate KindsKept(e1: seq<Entity>, e2: seq<Entity>)
  {
    |e1| <= |e2| && forall i | 0 <= i < |e1| :: SameKind(e1[i], e2[i])
  }

  lemma KindsKeptRefs(d1: BattleStateData, d2: BattleStateData, r: Ref)
    requires KindsKept(d1.entities, d2.entities)
    ensures IsKing(d1, r) ==> IsKing(d2, r)
    ensures IsSoldier(d1, r) ==> IsSoldier(d2, r)
    ensures IsDragonfly(d1, r) ==> IsDragonfly(d2, r)
    ensures IsUnit(d1, r) ==> IsUnit(d2, r)
    ensures IsTower(d1, r) ==> IsTower(d2, r)
  {
  }

  lemma KindsKeptSoldierIds(d1: BattleStateData, d2: BattleStateData, ids: seq<Ref>)
    requires KindsKept(d1.entities, d2.entities) && SoldierIdsValid(d1, ids)
    ensures SoldierIdsValid(d2, ids)
  {
    forall j | 0 <= j < |ids|
      ensures IsSoldier(d2, ids[j])
    {
      KindsKeptRefs(d1, d2, ids[j]);
    }
  }

  lemma KindsKeptPending(d1: BattleStateData, d2: BattleStateData, p: seq<BannerTowerPendingUnit>)
    requires KindsKept(d1.entities, d2.entities) && PendingUnitsValid(d1, p)
    ensures PendingUnitsValid(d2, p)
  {
    forall k | 0 <= k < |p|
      ensures IsUnit(d2, p[k].unitId)
    {
      KindsKeptRefs(d1, d2, p[k].unitId);
    }
  }

  lemma KindsKeptTransitive(e1: seq<Entity>, e2: seq<Entity>, e3: seq<Entity>)
    requires KindsKept(e1, e2) && KindsKept(e2, e3)
    ensures KindsKept(e1, e3)
  {
  }

  /** Replacing one unit's soldier list by a list of existing soldiers keeps the arena well formed. */
  lemma {:induction false} ReplaceUnitKeepsWellFormed(d: BattleStateData, r: Ref, u: Unit)
    requires WellFormed(d) && IsUnit(d, r) && UnitValid(d, u)
    ensures var d2 := d.(entities := d.entities[r.value := UnitEntity(u)]);
      WellFormed(d2) && KindsKept(d.entities, d2.entities)
  {
    var d2 := d.(entities := d.entities[r.value := UnitEntity(u)]);
    assert KindsKept(d.entities, d2.entities);
    KindsKeptRefs(d, d2, d.azukiKingId);
    KindsKeptRefs(d, d2, d.edamameKingId);
    forall i | 0 <= i < |d.activeUnitIds|
      ensures IsUnit(d2, d.activeUnitIds[i]) && UnitValid(d2, GetUnit(d2, d.activeUnitIds[i]))
    {
      var x := d.activeUnitIds[i];
      KindsKeptRefs(d, d2, x);
      KindsKeptSoldierIds(d, d2, GetUnit(d, x).soldierIds);
      KindsKeptSoldierIds(d, d2, u.soldierIds);
    }
    forall i | 0 <= i < |d.activeTowerIds|
      ensures IsTower(d2, d.activeTowerIds[i]) && PendingUnitsValid(d2, GetBannerTower(d2, d.activeTowerIds[i]).pendingUnits)
    {
      var x := d.activeTowerIds[i];
      KindsKeptRefs(d, d2, x);
      KindsKeptPending(d, d2, GetBannerTower(d, x).pendingUnits);
    }
    forall i | 0 <= i < |d.activeDragonflyIds|
      ensures IsDragonfly(d2, d.activeDragonflyIds[i])
    {
      KindsKeptRefs(d, d2, d.activeDragonflyIds[i]);
    }
  }

  /** Replacing one soldier by another soldier keeps the arena well formed. */
  lemma {:induction false} ReplaceSoldierKeepsWellFormed(d: BattleStateData, r: Ref, s: Soldier)
    requires WellFormed(d) && IsSoldier(d, r)
    ensures var d2 := d.(entities := d.entities[r.value := SoldierEntity(s)]);
      WellFormed(d2) && KindsKept(d.entities, d2.entities)
  {
    var d2 := d.(entities := d.entities[r.value := SoldierEntity(s)]);
    assert KindsKept(d.entities, d2.entities);
    KindsKeptRefs(d, d2, d.azukiKingId);
    KindsKeptRefs(d, d2, d.edamameKingId);
    forall i | 0 <= i < |d.activeUnitIds|
      ensures IsUnit(d2, d.activeUnitIds[i]) && UnitValid(d2, GetUnit(d2, d.activeUnitIds[i]))
    {
      var x := d.activeUnitIds[i];
      KindsKeptRefs(d, d2, x);
      KindsKeptSoldierIds(d, d2, GetUnit(d, x).soldierIds);
    }
    forall i | 0 <= i < |d.activeTowerIds|
      ensures IsTower(d2, d.activeTowerIds[i]) && PendingUnitsValid(d2, GetBannerTower(d2, d.activeTowerIds[i]).pendingUnits)
    {
      var x := d.activeTowerIds[i];
      KindsKeptRefs(d, d2, x);
      KindsKeptPending(d, d2, GetBannerTower(d, x).pendingUnits);
    }
    forall i | 0 <= i < |d.activeDragonflyIds|
      ensures IsDragonfly(d2, d.activeDragonflyIds[i])
    {
      KindsKeptRefs(d, d2, d.activeDragonflyIds[i]);
    }
  }

  /** Replacing one banner tower by a tower whose queue names existing units keeps the arena well formed. */
  lemma {:induction false} ReplaceTowerKeepsWellFormed(d: BattleStateData, r: Ref, t: BannerTower)
    requires WellFormed(d) && IsTower(d, r) && PendingUnitsValid(d, t.pendingUnits)
    ensures var d2 := d.(entities := d.entities[r.value := TowerEntity(t)]);
      WellFormed(d2) && KindsKept(d.entities, d2.entities)
  {
    var d2 := d.(entities := d.entities[r.value := TowerEntity(t)]);
    assert KindsKept(d.entities, d2.entities);
    KindsKeptRefs(d, d2, d.azukiKingId);
    KindsKeptRefs(d, d2, d.edamameKingId);
    forall i | 0 <= i < |d.activeUnitIds|
      ensures IsUnit(d2, d.activeUnitIds[i]) && UnitValid(d2, GetUnit(d2, d.activeUnitIds[i]))
    {
      var x := d.activeUnitIds[i];
      KindsKeptRefs(d, d2, x);
      KindsKeptSoldierIds(d, d2, GetUnit(d, x).soldierIds);
    }
    forall i | 0 <= i < |d.activeTowerIds|
      ensures IsTower(d2, d.activeTowerIds[i]) && PendingUnitsValid(d2, GetBannerTower(d2, d.activeTowerIds[i]).pendingUnits)
    {
      var x := d.activeTowerIds[i];
      KindsKeptRefs(d, d2, x);
      KindsKeptPending(d, d2, GetBannerTower(d, x).pendingUnits);
      KindsKeptPending(d, d2, t.pendingUnits);
    }
    forall i | 0 <= i < |d.activeDragonflyIds|
      ensures IsDragonfly(d2, d.activeDragonflyIds[i])
    {
      KindsKeptRefs(d, d2, d.activeDragonflyIds[i]);
    }
  }

  /** Adding an entity at the end of the arena keeps it well formed, and the new entity's reference is its old length. */
  lemma {:induction false} AppendEntityKeepsWellFormed(d: BattleStateData, e: Entity)
    requires WellFormed(d)
    ensures var d2 := d.(entities := d.entities + [e]);
      WellFormed(d2) && KindsKept(d.entities, d2.entities)
  {
    var d2 := d.(entities := d.entities + [e]);
    assert KindsKept(d.entities, d2.entities);
    KindsKeptRefs(d, d2, d.azukiKingId);
    KindsKeptRefs(d, d2, d.edamameKingId);
    forall i | 0 <= i < |d.activeUnitIds|
      ensures IsUnit(d2, d.activeUnitIds[i]) && UnitValid(d2, GetUnit(d2, d.activeUnitIds[i]))
    {
      var x := d.activeUnitIds[i];
      KindsKeptRefs(d, d2, x);
      KindsKeptSoldierIds(d, d2, GetUnit(d, x).soldierIds);
    }
    forall i | 0 <= i < |d.activeTowerIds|
      ensures IsTower(d2, d.activeTowerIds[i]) && PendingUnitsValid(d2, GetBannerTower(d2, d.activeTowerIds[i]).pendingUnits)
    {
      var x := d.activeTowerIds[i];
      KindsKeptRefs(d, d2, x);
      KindsKeptPending(d, d2, GetBannerTower(d, x).pendingUnits);
    }
    forall i | 0 <= i < |d.activeDragonflyIds|
      ensures IsDragonfly(d2, d.activeDragonflyIds[i])
    {
      KindsKeptRefs(d, d2, d.activeDragonflyIds[i]);
    }
  }

  /** Giving a unit one more existing soldier, its order and forward direction unchanged, keeps the arena well formed. */
  lemma {:induction false} GrowUnitKeepsWellFormed(d: BattleStateData, r: Ref, u2: Unit)
    requires WellFormed(d) && IsUnit(d, r)
    requires var u := GetUnit(d, r);
      u2.order == u.order && u2.forward == u.forward
      && |u2.soldierIds| == |u.soldierIds| + 1 && u2.soldierIds[..|u.soldierIds|] == u.soldierIds
      && IsSoldier(d, u2.soldierIds[|u.soldierIds|])
    ensures var d2 := d.(entities := d.entities[r.value := UnitEntity(u2)]);
      WellFormed(d2) && KindsKept(d.entities, d2.entities)
  {
    var d2 := d.(entities := d.entities[r.value := UnitEntity(u2)]);
    var u := GetUnit(d, r);
    assert KindsKept(d.entities, d2.entities);
    KindsKeptRefs(d, d2, d.azukiKingId);
    KindsKeptRefs(d, d2, d.edamameKingId);
    forall i | 0 <= i < |d.activeUnitIds|
      ensures IsUnit(d2, d.activeUnitIds[i]) && UnitValid(d2, GetUnit(d2, d.activeUnitIds[i]))
    {
      var x := d.activeUnitIds[i];
      KindsKeptRefs(d, d2, x);
      KindsKeptSoldierIds(d, d2, GetUnit(d, x).soldierIds);
      if x == r {
        forall j | 0 <= j < |u2.soldierIds|
          ensures IsSoldier(d, u2.soldierIds[j])
        {
          if j < |u.soldierIds| {
            assert u2.soldierIds[j] == u.soldierIds[j];
          }
        }
        KindsKeptSoldierIds(d, d2, u2.soldierIds);
      }
    }
    forall i | 0 <= i < |d.activeTowerIds|
      ensures IsTower(d2, d.activeTowerIds[i]) && PendingUnitsValid(d2, GetBannerTower(d2, d.activeTowerIds[i]).pendingUnits)
    {
      var x := d.activeTowerIds[i];
      KindsKeptRefs(d, d2, x);
      KindsKeptPending(d, d2, GetBannerTower(d, x).pendingUnits);
    }
    forall i | 0 <= i < |d.activeDragonflyIds|
      ensures IsDragonfly(d2, d.activeDragonflyIds[i])
    {
      KindsKeptRefs(d, d2, d.activeDragonflyIds[i]);
    }
  }
}
