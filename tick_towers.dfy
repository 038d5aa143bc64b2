// Banner towers (src/tick.ts:972-1053): each tick a tower that is not a
// preview works out which allegiance occupies its territory, is captured by a
// single occupier of the other allegiance, and deploys the next planned
// soldier of its queue when its timer runs out.
//
// The occupancy scan walks the active units and, within each, the soldiers.
// As written, the scan stops (`break`) at the first unit of the allegiance
// already found, or at the first preview unit, so the units after it are never
// looked at; it evidently means to skip that unit (`continue`). Both scans are
// modelled: `OccupierAsWritten`, the method that runs it and the tower tick
// built on it (`TickTowerAsWritten`), and the corrected `Occupier`, which
// `TickTower` and the rest of the tick use.

module TickTowers {
  import opened Prelude
  import opened GeoUtils
  import opened BattleData
  import TickSearch

  /** Whom the territory holds: nobody, one allegiance, or both (`UNOCCUPIED`, an allegiance, `CONTESTED`). */
  datatype Occupancy = Unoccupied | Occupied(allegiance: Allegiance) | Contested

  /** What the scan sees of one unit: its allegiance, whether it is a preview, and which soldiers are in territory. */
  datatype UnitView = UnitView(allegiance: Allegiance, isPreview: bool, inTerritory: seq<bool>)

  function TerritoryFlags(d: BattleStateData, soldierIds: seq<Ref>, towerPosition: Triple): (r: seq<bool>)
    ensures |r| == |soldierIds|
    ensures forall j | 0 <= j < |soldierIds| ::
      r[j] == (IsSoldier(d, soldierIds[j])
               && TickSearch.InTowerTerritory(GetSoldier(d, soldierIds[j]).position, towerPosition))
  {
    seq(|soldierIds|, j requires 0 <= j < |soldierIds| =>
      IsSoldier(d, soldierIds[j]) && TickSearch.InTowerTerritory(GetSoldier(d, soldierIds[j]).position, towerPosition))
  }

  function ViewOf(d: BattleStateData, unitId: Ref, towerPosition: Triple): UnitView
  {
    if IsUnit(d, unitId) then
      var u := GetUnit(d, unitId);
      UnitView(u.allegiance, u.isPreview, TerritoryFlags(d, u.soldierIds, towerPosition))
    else
      UnitView(Azuki, true, [])
  }

  /** The units as the scan sees them; an id that names no unit, which a well-formed arena never has, reads as a preview. */
  function UnitViews(d: BattleStateData, unitIds: seq<Ref>, towerPosition: Triple): (r: seq<UnitView>)
    ensures |r| == |unitIds|
    ensures forall i | 0 <= i < |unitIds| :: r[i] == ViewOf(d, unitIds[i], towerPosition)
  {
    seq(|unitIds|, i requires 0 <= i < |unitIds| => ViewOf(d, unitIds[i], towerPosition))
  }

  // ---- Occupancy as a set of allegiances ---------------------------------

  function Allegiances(o: Occupancy): set<Allegiance>
  {
    match o
    case Unoccupied => {}
    case Occupied(a) => {a}
    case Contested => {Azuki, Edamame}
  }

  function FromAllegiances(s: set<Allegiance>): Occupancy
  {
    if Azuki in s && Edamame in s then Contested
    else if Azuki in s then Occupied(Azuki)
    else if Edamame in s then Occupied(Edamame)
    else Unoccupied
  }

  /** An occupancy is exactly the set of allegiances it records. */
  lemma AllegiancesRoundTrip(o: Occupancy, s: set<Allegiance>)
    ensures FromAllegiances(Allegiances(o)) == o
    ensures Allegiances(FromAllegiances(s)) == s
  {
    match o {
      case Unoccupied =>
      case Occupied(a) => assert a == Azuki || a == Edamame;
      case Contested =>
    }
    forall a: Allegiance
      ensures a in Allegiances(FromAllegiances(s)) <==> a in s
    {
      assert a == Azuki || a == Edamame;
    }
    assert Allegiances(FromAllegiances(s)) == s;
  }

  // ---- The scans ---------------------------------------------------------

  /** One soldier of a unit of allegiance `a`: a soldier in territory adds `a` to the occupancy. */
  function SoldierStep(o: Occupancy, a: Allegiance, inTerritory: bool): Occupancy
  {
    if !inTerritory then o
    else if o == Unoccupied then Occupied(a)
    else if o != Occupied(a) then Contested
    else o
  }

  /** The scan over one unit's soldiers. */
  function ScanSoldiers(o: Occupancy, a: Allegiance, inTerritory: seq<bool>): Occupancy
    decreases |inTerritory|
  {
    if |inTerritory| == 0 then o else ScanSoldiers(SoldierStep(o, a, inTerritory[0]), a, inTerritory[1..])
  }

  /** The corrected scan over the units: stop once contested, pass over a unit that cannot change anything. */
  function Occupier(o: Occupancy, views: seq<UnitView>): Occupancy
    decreases |views|
  {
    if |views| == 0 || o == Contested then o
    else if o == Occupied(views[0].allegiance) || views[0].isPreview then Occupier(o, views[1..])
    else Occupier(ScanSoldiers(o, views[0].allegiance, views[0].inTerritory), views[1..])
  }

  /** The scan over the units as written: it stops at the first unit that cannot change anything. */
  function OccupierAsWritten(o: Occupancy, views: seq<UnitView>): Occupancy
    decreases |views|
  {
    if |views| == 0 || o == Contested || o == Occupied(views[0].allegiance) || views[0].isPreview then o
    else OccupierAsWritten(ScanSoldiers(o, views[0].allegiance, views[0].inTerritory), views[1..])
  }

  /** The allegiances with a unit that is not a preview and has a soldier in territory. */
  function Present(views: seq<UnitView>): set<Allegiance>
    decreases |views|
  {
    if |views| == 0 then {}
    else (if !views[0].isPreview && true in views[0].inTerritory then {views[0].allegiance} else {})
         + Present(views[1..])
  }

  lemma {:induction false} PresentIff(views: seq<UnitView>, a: Allegiance)
    ensures a in Present(views) <==>
      exists i | 0 <= i < |views| :: views[i].allegiance == a && !views[i].isPreview && true in views[i].inTerritory
    decreases |views|
  {
    if |views| > 0 {
      PresentIff(views[1..], a);
      if a in Present(views[1..]) {
        var i :| 0 <= i < |views[1..]| && views[1..][i].allegiance == a && !views[1..][i].isPreview
                 && true in views[1..][i].inTerritory;
        assert views[i + 1] == views[1..][i];
      }
      if exists i | 0 <= i < |views| :: views[i].allegiance == a && !views[i].isPreview && true in views[i].inTerritory {
        var i :| 0 <= i < |views| && views[i].allegiance == a && !views[i].isPreview && true in views[i].inTerritory;
        if i > 0 {
          assert views[1..][i - 1] == views[i];
        }
      }
    }
  }

  /** Scanning a unit's soldiers adds its allegiance exactly when one of them is in territory. */
  lemma {:induction false} ScanSoldiersSpec(o: Occupancy, a: Allegiance, inTerritory: seq<bool>)
    ensures Allegiances(ScanSoldiers(o, a, inTerritory))
      == Allegiances(o) + (if true in inTerritory then {a} else {})
    decreases |inTerritory|
  {
    if |inTerritory| > 0 {
      var o1 := SoldierStep(o, a, inTerritory[0]);
      ScanSoldiersSpec(o1, a, inTerritory[1..]);
      assert Allegiances(o1) == Allegiances(o) + (if inTerritory[0] then {a} else {}) by {
        assert a == Azuki || a == Edamame;
      }
      assert (true in inTerritory) <==> (inTerritory[0] || true in inTerritory[1..]) by {
        assert inTerritory == [inTerritory[0]] + inTerritory[1..];
      }
    }
  }

  /**
   * The corrected scan adds to the starting occupancy exactly the allegiances
   * present: the tower is contested when both are, held by one when only it is,
   * and unoccupied when neither is.
   */
  lemma {:induction false} OccupierSpec(o: Occupancy, views: seq<UnitView>)
    ensures Allegiances(Occupier(o, views)) == Allegiances(o) + Present(views)
    decreases |views|
  {
    if |views| > 0 {
      var v := views[0];
      var own := if !v.isPreview && true in v.inTerritory then {v.allegiance} else {};
      assert Present(views) == own + Present(views[1..]);
      if o == Contested {
        assert Allegiances(o) + Present(views) == Allegiances(o) by {
          forall a: Allegiance | a in Present(views) ensures a in Allegiances(o) {
            assert a == Azuki || a == Edamame;
          }
        }
      } else if o == Occupied(v.allegiance) || v.isPreview {
        OccupierSpec(o, views[1..]);
      } else {
        ScanSoldiersSpec(o, v.allegiance, v.inTerritory);
        OccupierSpec(ScanSoldiers(o, v.allegiance, v.inTerritory), views[1..]);
      }
    }
  }

  /** From an unoccupied start, the corrected scan is the set of allegiances present. */
  lemma OccupierFromUnoccupied(views: seq<UnitView>)
    ensures Occupier(Unoccupied, views) == FromAllegiances(Present(views))
  {
    OccupierSpec(Unoccupied, views);
    AllegiancesRoundTrip(Occupier(Unoccupied, views), Present(views));
  }

  /**
   * The scan as written misses both kinds of later unit: behind a second Azuki
   * unit an Edamame soldier in territory goes unseen and the tower reads as
   * Azuki's; behind a preview unit everything goes unseen and it reads as empty.
   */
  lemma AsWrittenMissesLaterUnits()
    ensures var views := [UnitView(Azuki, false, [true]), UnitView(Azuki, false, [false]),
                          UnitView(Edamame, false, [true])];
      OccupierAsWritten(Unoccupied, views) == Occupied(Azuki) && Occupier(Unoccupied, views) == Contested
    ensures var views := [UnitView(Edamame, true, []), UnitView(Azuki, false, [true])];
      OccupierAsWritten(Unoccupied, views) == Unoccupied && Occupier(Unoccupied, views) == Occupied(Azuki)
  {
    var v1 := [UnitView(Azuki, false, [true]), UnitView(Azuki, false, [false]), UnitView(Edamame, false, [true])];
    assert [true][1..] == [];
    assert v1[1..] == [UnitView(Azuki, false, [false]), UnitView(Edamame, false, [true])];
    assert v1[1..][1..] == [UnitView(Edamame, false, [true])];
    assert v1[1..][1..][1..] == [];
    assert ScanSoldiers(Unoccupied, Azuki, [true]) == Occupied(Azuki);
    assert ScanSoldiers(Occupied(Azuki), Edamame, [true]) == Contested;
    var v2 := [UnitView(Edamame, true, []), UnitView(Azuki, false, [true])];
    assert v2[1..] == [UnitView(Azuki, false, [true])];
    assert v2[1..][1..] == [];
  }

  // ---- The scan loops ----------------------------------------------------

  lemma ScanSoldiersUnfold(o: Occupancy, a: Allegiance, inTerritory: seq<bool>, j: int)
    requires 0 <= j < |inTerritory|
    ensures ScanSoldiers(o, a, inTerritory[j..])
      == ScanSoldiers(SoldierStep(o, a, inTerritory[j]), a, inTerritory[j + 1..])
  {
    assert inTerritory[j..][1..] == inTerritory[j + 1..];
  }

  /** Once contested, a territory stays contested whatever soldiers follow. */
  lemma {:induction false} ScanSoldiersContested(a: Allegiance, inTerritory: seq<bool>)
    ensures ScanSoldiers(Contested, a, inTerritory) == Contested
    decreases |inTerritory|
  {
    if |inTerritory| > 0 {
      ScanSoldiersContested(a, inTerritory[1..]);
    }
  }

  /** The inner loop of the scan: one unit's soldiers, stopping as soon as the territory is contested. */
  method ScanUnitSoldiers(d: BattleStateData, soldierIds: seq<Ref>, a: Allegiance, towerPosition: Triple,
                          o0: Occupancy)
    returns (o: Occupancy)
    requires SoldierIdsValid(d, soldierIds)
    ensures o == ScanSoldiers(o0, a, TerritoryFlags(d, soldierIds, towerPosition))
  {
    ghost var flags := TerritoryFlags(d, soldierIds, towerPosition);
    o := o0;
    assert flags[0..] == flags;
    for j := 0 to |soldierIds|
      invariant ScanSoldiers(o0, a, flags) == ScanSoldiers(o, a, flags[j..])
    {
      ScanSoldiersUnfold(o, a, flags, j);
      var soldier := GetSoldier(d, soldierIds[j]);
      if TickSearch.InTowerTerritory(soldier.position, towerPosition) {
        if o == Unoccupied {
          o := Occupied(a);
        } else if o != Occupied(a) {
          o := Contested;
          ScanSoldiersContested(a, flags[j + 1..]);
          break;
        }
      }
    }
    assert flags[|soldierIds|..] == [];
  }

  lemma OccupierUnfold(o: Occupancy, views: seq<UnitView>, i: int)
    requires 0 <= i < |views|
    ensures Occupier(o, views[i..])
      == if o == Contested then o
         else if o == Occupied(views[i].allegiance) || views[i].isPreview then Occupier(o, views[i + 1..])
         else Occupier(ScanSoldiers(o, views[i].allegiance, views[i].inTerritory), views[i + 1..])
    ensures OccupierAsWritten(o, views[i..])
      == if o == Contested || o == Occupied(views[i].allegiance) || views[i].isPreview then o
         else OccupierAsWritten(ScanSoldiers(o, views[i].allegiance, views[i].inTerritory), views[i + 1..])
  {
    assert views[i..][0] == views[i];
    assert views[i..][1..] == views[i + 1..];
  }

  /** The corrected scan over the active units: a unit that cannot change the occupancy is skipped. */
  method UniqueOccupier(d: BattleStateData, towerPosition: Triple) returns (o: Occupancy)
    requires UnitsValid(d, d.activeUnitIds)
    ensures o == Occupier(Unoccupied, UnitViews(d, d.activeUnitIds, towerPosition))
    ensures o == FromAllegiances(Present(UnitViews(d, d.activeUnitIds, towerPosition)))
  {
    var unitIds := d.activeUnitIds;
    ghost var views := UnitViews(d, unitIds, towerPosition);
    o := Unoccupied;
    assert views[0..] == views;
    for i := 0 to |unitIds|
      invariant Occupier(Unoccupied, views) == Occupier(o, views[i..])
    {
      OccupierUnfold(o, views, i);
      var unit := GetUnit(d, unitIds[i]);
      if o == Contested {
        break;
      }
      if o == Occupied(unit.allegiance) || unit.isPreview {
        continue;
      }
      o := ScanUnitSoldiers(d, unit.soldierIds, unit.allegiance, towerPosition, o);
    }
    assert views[|unitIds|..] == [];
    OccupierFromUnoccupied(views);
  }

  /** The scan over the active units as the game writes it: it stops at the first unit that cannot change the occupancy. */
  method UniqueOccupierAsWritten(d: BattleStateData, towerPosition: Triple) returns (o: Occupancy)
    requires UnitsValid(d, d.activeUnitIds)
    ensures o == OccupierAsWritten(Unoccupied, UnitViews(d, d.activeUnitIds, towerPosition))
  {
    var unitIds := d.activeUnitIds;
    ghost var views := UnitViews(d, unitIds, towerPosition);
    o := Unoccupied;
    assert views[0..] == views;
    for i := 0 to |unitIds|
      invariant OccupierAsWritten(Unoccupied, views) == OccupierAsWritten(o, views[i..])
    {
      OccupierUnfold(o, views, i);
      var unit := GetUnit(d, unitIds[i]);
      if o == Contested || o == Occupied(unit.allegiance) || unit.isPreview {
        break;
      }
      o := ScanUnitSoldiers(d, unit.soldierIds, unit.allegiance, towerPosition, o);
    }
    assert views[|unitIds|..] == [];
  }

  /** Whether an allegiance holds the tower's territory, in the arena's own terms. */
  lemma PresentInArena(d: BattleStateData, unitIds: seq<Ref>, towerPosition: Triple, a: Allegiance)
    requires UnitsValid(d, unitIds)
    ensures a in Present(UnitViews(d, unitIds, towerPosition)) <==>
      exists i, j | 0 <= i < |unitIds| && 0 <= j < |GetUnit(d, unitIds[i]).soldierIds| ::
        GetUnit(d, unitIds[i]).allegiance == a && !GetUnit(d, unitIds[i]).isPreview
        && TickSearch.InTowerTerritory(GetSoldier(d, GetUnit(d, unitIds[i]).soldierIds[j]).position, towerPosition)
  {
    var views := UnitViews(d, unitIds, towerPosition);
    PresentIff(views, a);
    if a in Present(views) {
      var i :| 0 <= i < |views| && views[i].allegiance == a && !views[i].isPreview && true in views[i].inTerritory;
      var j :| 0 <= j < |views[i].inTerritory| && views[i].inTerritory[j];
      assert GetUnit(d, unitIds[i]).soldierIds[j] == GetUnit(d, unitIds[i]).soldierIds[j];
    }
    if exists i, j | 0 <= i < |unitIds| && 0 <= j < |GetUnit(d, unitIds[i]).soldierIds| ::
        GetUnit(d, unitIds[i]).allegiance == a && !GetUnit(d, unitIds[i]).isPreview
        && TickSearch.InTowerTerritory(GetSoldier(d, GetUnit(d, unitIds[i]).soldierIds[j]).position, towerPosition) {
      var i, j :| 0 <= i < |unitIds| && 0 <= j < |GetUnit(d, unitIds[i]).soldierIds|
        && GetUnit(d, unitIds[i]).allegiance == a && !GetUnit(d, unitIds[i]).isPreview
        && TickSearch.InTowerTerritory(GetSoldier(d, GetUnit(d, unitIds[i]).soldierIds[j]).position, towerPosition);
      assert views[i].inTerritory[j];
    }
  }

  // ---- Capture and deployment ----

  /** The tower's allegiance after the scan: a sole occupier of the other side takes it over. */
  function Captured(current: Allegiance, o: Occupancy): Allegiance
  {
    if o.Occupied? && current != o.allegiance then o.allegiance else current
  }

  lemma CapturedSpec(current: Allegiance, views: seq<UnitView>)
    ensures Captured(current, Occupier(Unoccupied, views)) ==
      (if Present(views) == {Opponent(current)} then Opponent(current) else current)
  {
    OccupierFromUnoccupied(views);
    var s := Present(views);
    AllegiancesRoundTrip(FromAllegiances(s), s);
    if s == {Opponent(current)} {
      assert FromAllegiances(s) == Occupied(Opponent(current));
    } else if FromAllegiances(s).Occupied? {
      var a := FromAllegiances(s).allegiance;
      assert Allegiances(Occupied(a)) == {a};
      assert a == current;
    }
  }

  /** The soldier a tower deploys for a planned soldier: at the tower, idle, at full health, facing as planned. */
  function DeployedSoldier(p: PlannedSoldier, towerPosition: Triple): (s: Soldier)
    ensures s.position == towerPosition && s.animation.kind == Idle && s.animation.timeInSeconds == 0.0
    ensures s.attackTargetId.None? && s.health == 100.0
    ensures s.orientation.yaw == p.yRot && s.assemblyPoint == p.assemblyPoint
  {
    Soldier(towerPosition, SoldierAnimationState(Idle, 0.0), None, 100.0, Orientation(p.yRot, 0.0, 0.0), p.assemblyPoint)
  }

  /** Every planned soldier of a tower's queue, in deployment order. */
  function Queued(p: seq<BannerTowerPendingUnit>): seq<PlannedSoldier>
  {
    if |p| == 0 then [] else p[0].soldiers + Queued(p[1..])
  }

  /** The queue after its first planned soldier leaves: the head unit loses it, and is dropped once it has none left. */
  function Dequeued(p: seq<BannerTowerPendingUnit>): seq<BannerTowerPendingUnit>
    requires |p| > 0 && |p[0].soldiers| > 0
  {
    if |p[0].soldiers| == 1 then p[1..] else p[0 := p[0].(soldiers := p[0].soldiers[1..])]
  }

  /** The tower queue is first in, first out over planned soldiers, and never keeps an empty pending unit. */
  lemma {:induction false} DequeuedSpec(d: BattleStateData, p: seq<BannerTowerPendingUnit>)
    requires |p| > 0 && |p[0].soldiers| > 0
    ensures Queued(p) == [p[0].soldiers[0]] + Queued(Dequeued(p))
    ensures |Queued(Dequeued(p))| == |Queued(p)| - 1
    ensures PendingUnitsValid(d, p) ==> PendingUnitsValid(d, Dequeued(p))
  {
    var q := Dequeued(p);
    var h := p[0].soldiers;
    assert h == [h[0]] + h[1..];
    if |h| > 1 {
      assert q[0].soldiers == h[1..];
      assert q[1..] == p[1..];
      assert Queued(q) == h[1..] + Queued(p[1..]);
    } else {
      assert h == [h[0]];
    }
  }

  /**
   * One deployment from the tower's queue: the head planned soldier becomes a
   * new soldier entity at the tower, joins its unit, and the deployment timer
   * restarts. An ill-formed queue leaves the arena as it is.
   */
  function Deploy(d: BattleStateData, towerId: Ref): BattleStateData
  {
    if !IsTower(d, towerId) then d
    else
      var t := GetBannerTower(d, towerId);
      if |t.pendingUnits| == 0 || |t.pendingUnits[0].soldiers| == 0 || !IsUnit(d, t.pendingUnits[0].unitId) then d
      else
        var pu := t.pendingUnits[0];
        var u := GetUnit(d, pu.unitId);
        var d1 := d.(entities := d.entities + [SoldierEntity(DeployedSoldier(pu.soldiers[0], t.position))]);
        var u2 := u.(soldierIds := u.soldierIds + [Ref(|d.entities|)],
                     areSoldiersStillBeingAdded := u.areSoldiersStillBeingAdded && |pu.soldiers| > 1);
        var d2 := d1.(entities := d1.entities[pu.unitId.value := UnitEntity(u2)]);
        var t2 := t.(pendingUnits := Dequeued(t.pendingUnits), secondsUntilNextSoldier := SOLDIER_DEPLOYMENT_DELAY_SECONDS);
        d2.(entities := d2.entities[towerId.value := TowerEntity(t2)])
  }

  /** The tower after its capture check and timer countdown, before any deployment. */
  function Countdown(d: BattleStateData, t: BannerTower, elapsed: real): BannerTower
  {
    t.(allegiance := Captured(t.allegiance, Occupier(Unoccupied, UnitViews(d, d.activeUnitIds, t.position))),
       secondsUntilNextSoldier := t.secondsUntilNextSoldier - elapsed)
  }

  /**
   * One tick of a banner tower: a preview tower does nothing; otherwise the
   * tower may change hands, its timer runs down, and once it has run out a
   * queued soldier is deployed.
   */
  function TickTower(d: BattleStateData, towerId: Ref, elapsed: real): BattleStateData
  {
    if !IsTower(d, towerId) || GetBannerTower(d, towerId).isPreview then d
    else
      var t1 := Countdown(d, GetBannerTower(d, towerId), elapsed);
      var d1 := d.(entities := d.entities[towerId.value := TowerEntity(t1)]);
      if t1.secondsUntilNextSoldier <= 0.0 && |t1.pendingUnits| > 0 then Deploy(d1, towerId) else d1
  }

  /**
   * A deployment adds exactly one soldier, at the tower, under a fresh
   * reference, appends that reference to the pending unit, moves the queue
   * one soldier on and restarts the timer; every other entity and every
   * other part of the battle is left alone, and the arena stays well formed.
   */
  lemma {:induction false} DeploySpec(d: BattleStateData, towerId: Ref)
    requires WellFormed(d) && IsTower(d, towerId)
    requires |GetBannerTower(d, towerId).pendingUnits| > 0
    requires PendingUnitsValid(d, GetBannerTower(d, towerId).pendingUnits)
    ensures var r := Deploy(d, towerId);
      var t := GetBannerTower(d, towerId);
      var pu := t.pendingUnits[0];
      var u := GetUnit(d, pu.unitId);
      WellFormed(r) && KindsKept(d.entities, r.entities) && r.(entities := d.entities) == d
      && |r.entities| == |d.entities| + 1
      && r.entities[|d.entities|] == SoldierEntity(DeployedSoldier(pu.soldiers[0], t.position))
      && IsUnit(r, pu.unitId) && IsTower(r, towerId)
      && GetUnit(r, pu.unitId) == u.(soldierIds := u.soldierIds + [Ref(|d.entities|)],
                                     areSoldiersStillBeingAdded := u.areSoldiersStillBeingAdded && |pu.soldiers| > 1)
      && GetBannerTower(r, towerId) == t.(pendingUnits := Dequeued(t.pendingUnits),
                                          secondsUntilNextSoldier := SOLDIER_DEPLOYMENT_DELAY_SECONDS)
      && (forall i | 0 <= i < |d.entities| && i != towerId.value && i != pu.unitId.value :: r.entities[i] == d.entities[i])
  {
    var t := GetBannerTower(d, towerId);
    var pu := t.pendingUnits[0];
    var u := GetUnit(d, pu.unitId);
    var d1 := d.(entities := d.entities + [SoldierEntity(DeployedSoldier(pu.soldiers[0], t.position))]);
    AppendEntityKeepsWellFormed(d, SoldierEntity(DeployedSoldier(pu.soldiers[0], t.position)));
    KindsKeptRefs(d, d1, pu.unitId);
    KindsKeptRefs(d, d1, towerId);
    var u2 := u.(soldierIds := u.soldierIds + [Ref(|d.entities|)],
                 areSoldiersStillBeingAdded := u.areSoldiersStillBeingAdded && |pu.soldiers| > 1);
    assert u2.soldierIds[..|u.soldierIds|] == u.soldierIds;
    GrowUnitKeepsWellFormed(d1, pu.unitId, u2);
    var d2 := d1.(entities := d1.entities[pu.unitId.value := UnitEntity(u2)]);
    KindsKeptRefs(d1, d2, towerId);
    var t2 := t.(pendingUnits := Dequeued(t.pendingUnits), secondsUntilNextSoldier := SOLDIER_DEPLOYMENT_DELAY_SECONDS);
    DequeuedSpec(d, t.pendingUnits);
    KindsKeptTransitive(d.entities, d1.entities, d2.entities);
    KindsKeptPending(d, d2, t2.pendingUnits);
    ReplaceTowerKeepsWellFormed(d2, towerId, t2);
    var r := d2.(entities := d2.entities[towerId.value := TowerEntity(t2)]);
    KindsKeptTransitive(d.entities, d2.entities, r.entities);
    assert r == Deploy(d, towerId);
  }

  /** Counting down and capturing keeps the arena well formed and leaves everything but the tower alone. */
  lemma {:induction false} CountdownSpec(d: BattleStateData, towerId: Ref, elapsed: real)
    requires WellFormed(d) && IsTower(d, towerId)
    requires PendingUnitsValid(d, GetBannerTower(d, towerId).pendingUnits)
    ensures var t := GetBannerTower(d, towerId);
      var d1 := d.(entities := d.entities[towerId.value := TowerEntity(Countdown(d, t, elapsed))]);
      WellFormed(d1) && KindsKept(d.entities, d1.entities) && IsTower(d1, towerId)
      && GetBannerTower(d1, towerId) == Countdown(d, t, elapsed)
      && PendingUnitsValid(d1, GetBannerTower(d1, towerId).pendingUnits)
  {
    var t := GetBannerTower(d, towerId);
    var t1 := Countdown(d, t, elapsed);
    ReplaceTowerKeepsWellFormed(d, towerId, t1);
    var d1 := d.(entities := d.entities[towerId.value := TowerEntity(t1)]);
    KindsKeptPending(d, d1, t1.pendingUnits);
  }

  /** A tower tick keeps the arena well formed, keeps every entity's kind, and changes nothing outside the entities. */
  lemma {:induction false} TickTowerKeepsWellFormed(d: BattleStateData, towerId: Ref, elapsed: real)
    requires WellFormed(d) && IsTower(d, towerId)
    requires PendingUnitsValid(d, GetBannerTower(d, towerId).pendingUnits)
    ensures var r := TickTower(d, towerId, elapsed);
      WellFormed(r) && KindsKept(d.entities, r.entities) && r.(entities := d.entities) == d
  {
    var t := GetBannerTower(d, towerId);
    if !t.isPreview {
      CountdownSpec(d, towerId, elapsed);
      var d1 := d.(entities := d.entities[towerId.value := TowerEntity(Countdown(d, t, elapsed))]);
      if Countdown(d, t, elapsed).secondsUntilNextSoldier <= 0.0 && |t.pendingUnits| > 0 {
        DeploySpec(d1, towerId);
        KindsKeptTransitive(d.entities, d1.entities, Deploy(d1, towerId).entities);
      }
    }
  }

  /**
   * A preview tower is inert; any other tower changes hands exactly when
   * the units standing in its territory all belong to the other side.
   */
  lemma TickTowerCapture(d: BattleStateData, towerId: Ref, elapsed: real)
    requires WellFormed(d) && IsTower(d, towerId)
    requires PendingUnitsValid(d, GetBannerTower(d, towerId).pendingUnits)
    ensures var r := TickTower(d, towerId, elapsed);
      var t := GetBannerTower(d, towerId);
      var present := Present(UnitViews(d, d.activeUnitIds, t.position));
      IsTower(r, towerId)
      && (t.isPreview ==> r == d)
      && (!t.isPreview ==>
            GetBannerTower(r, towerId).allegiance == (if present == {Opponent(t.allegiance)} then Opponent(t.allegiance) else t.allegiance)
            && GetBannerTower(r, towerId).position == t.position && !GetBannerTower(r, towerId).isPreview)
  {
    var t := GetBannerTower(d, towerId);
    TickTowerKeepsWellFormed(d, towerId, elapsed);
    KindsKeptRefs(d, TickTower(d, towerId, elapsed), towerId);
    if !t.isPreview {
      CapturedSpec(t.allegiance, UnitViews(d, d.activeUnitIds, t.position));
      CountdownSpec(d, towerId, elapsed);
      var d1 := d.(entities := d.entities[towerId.value := TowerEntity(Countdown(d, t, elapsed))]);
      if Countdown(d, t, elapsed).secondsUntilNextSoldier <= 0.0 && |t.pendingUnits| > 0 {
        DeploySpec(d1, towerId);
      }
    }
  }

  /**
   * Once the timer of a live tower runs out with soldiers queued, the head
   * planned soldier is deployed at the tower; otherwise the tower only
   * counts down and no entity is added.
   */
  lemma TickTowerDeployment(d: BattleStateData, towerId: Ref, elapsed: real)
    requires WellFormed(d) && IsTower(d, towerId) && !GetBannerTower(d, towerId).isPreview
    requires PendingUnitsValid(d, GetBannerTower(d, towerId).pendingUnits)
    ensures var r := TickTower(d, towerId, elapsed);
      var t := GetBannerTower(d, towerId);
      var due := t.secondsUntilNextSoldier - elapsed <= 0.0 && |t.pendingUnits| > 0;
      IsTower(r, towerId)
      && (due ==>
            |r.entities| == |d.entities| + 1
            && r.entities[|d.entities|] == SoldierEntity(DeployedSoldier(t.pendingUnits[0].soldiers[0], t.position))
            && IsUnit(r, t.pendingUnits[0].unitId)
            && GetUnit(r, t.pendingUnits[0].unitId).soldierIds == GetUnit(d, t.pendingUnits[0].unitId).soldierIds + [Ref(|d.entities|)]
            && (GetUnit(r, t.pendingUnits[0].unitId).areSoldiersStillBeingAdded
                <==> GetUnit(d, t.pendingUnits[0].unitId).areSoldiersStillBeingAdded && |t.pendingUnits[0].soldiers| > 1)
            && Queued(t.pendingUnits) == [t.pendingUnits[0].soldiers[0]] + Queued(GetBannerTower(r, towerId).pendingUnits)
            && GetBannerTower(r, towerId).secondsUntilNextSoldier == SOLDIER_DEPLOYMENT_DELAY_SECONDS)
      && (!due ==>
            |r.entities| == |d.entities|
            && GetBannerTower(r, towerId).pendingUnits == t.pendingUnits
            && GetBannerTower(r, towerId).secondsUntilNextSoldier == t.secondsUntilNextSoldier - elapsed
            && forall i | 0 <= i < |d.entities| && i != towerId.value :: r.entities[i] == d.entities[i])
  {
    var t := GetBannerTower(d, towerId);
    CountdownSpec(d, towerId, elapsed);
    var d1 := d.(entities := d.entities[towerId.value := TowerEntity(Countdown(d, t, elapsed))]);
    if t.secondsUntilNextSoldier - elapsed <= 0.0 && |t.pendingUnits| > 0 {
      DeploySpec(d1, towerId);
      KindsKeptRefs(d, d1, t.pendingUnits[0].unitId);
      assert t.pendingUnits[0].unitId.value != towerId.value;
      assert GetUnit(d1, t.pendingUnits[0].unitId) == GetUnit(d, t.pendingUnits[0].unitId);
      DequeuedSpec(d, t.pendingUnits);
    }
  }

  /** The deployment half of `tickBannerTower`: one queued soldier leaves the tower for its unit. */
  method DeployNextSoldier(towerId: Ref, battle: BattleState)
    requires WellFormed(battle.data) && IsTower(battle.data, towerId)
    requires |GetBannerTower(battle.data, towerId).pendingUnits| > 0
    requires PendingUnitsValid(battle.data, GetBannerTower(battle.data, towerId).pendingUnits)
    modifies battle
    ensures battle.data == Deploy(old(battle.data), towerId)
  {
    var tower := GetBannerTower(battle.data, towerId);
    var pendingUnit := tower.pendingUnits[0];
    var assemblingUnit := GetUnit(battle.data, pendingUnit.unitId);
    var plannedSoldier := pendingUnit.soldiers[0];
    pendingUnit := pendingUnit.(soldiers := pendingUnit.soldiers[1..]);
    tower := tower.(pendingUnits := tower.pendingUnits[0 := pendingUnit]);
    var soldier := Soldier(tower.position, SoldierAnimationState(Idle, 0.0), None, 100.0,
                           Orientation(plannedSoldier.yRot, 0.0, 0.0), plannedSoldier.assemblyPoint);
    var soldierId := battle.AddEntity(SoldierEntity(soldier));
    assemblingUnit := assemblingUnit.(soldierIds := assemblingUnit.soldierIds + [soldierId]);
    if |pendingUnit.soldiers| == 0 {
      assemblingUnit := assemblingUnit.(areSoldiersStillBeingAdded := false);
      tower := tower.(pendingUnits := tower.pendingUnits[1..]);
    }
    tower := tower.(secondsUntilNextSoldier := SOLDIER_DEPLOYMENT_DELAY_SECONDS);
    battle.data := battle.data.(entities := battle.data.entities[pendingUnit.unitId.value := UnitEntity(assemblingUnit)]);
    battle.data := battle.data.(entities := battle.data.entities[towerId.value := TowerEntity(tower)]);
  }

  /** `tickBannerTower`: one tick of one tower, written against the arena in place. */
  method TickBannerTower(elapsed: real, towerId: Ref, battle: BattleState)
    requires WellFormed(battle.data) && IsTower(battle.data, towerId)
    requires PendingUnitsValid(battle.data, GetBannerTower(battle.data, towerId).pendingUnits)
    modifies battle
    ensures battle.data == TickTower(old(battle.data), towerId, elapsed)
  {
    var tower := GetBannerTower(battle.data, towerId);
    if tower.isPreview {
      return;
    }
    ghost var d0 := battle.data;
    var uniqueOccupier := UniqueOccupier(battle.data, tower.position);
    if uniqueOccupier.Occupied? && tower.allegiance != uniqueOccupier.allegiance {
      tower := tower.(allegiance := uniqueOccupier.allegiance);
    }
    tower := tower.(secondsUntilNextSoldier := tower.secondsUntilNextSoldier - elapsed);
    battle.data := battle.data.(entities := battle.data.entities[towerId.value := TowerEntity(tower)]);
    assert tower == Countdown(d0, GetBannerTower(d0, towerId), elapsed);
    if tower.secondsUntilNextSoldier <= 0.0 && |tower.pendingUnits| > 0 {
      CountdownSpec(d0, towerId, elapsed);
      DeployNextSoldier(towerId, battle);
    }
  }

  // ---- The tower tick with the scan as written ----------------------------

  /** The capture check and countdown of `tickBannerTower` as the game runs it, with the `break` scan. */
  function CountdownAsWritten(d: BattleStateData, t: BannerTower, elapsed: real): BannerTower
  {
    t.(allegiance := Captured(t.allegiance, OccupierAsWritten(Unoccupied, UnitViews(d, d.activeUnitIds, t.position))),
       secondsUntilNextSoldier := t.secondsUntilNextSoldier - elapsed)
  }

  /** One tick of a banner tower as the game runs it: `TickTower` with the `break` scan. */
  function TickTowerAsWritten(d: BattleStateData, towerId: Ref, elapsed: real): BattleStateData
  {
    if !IsTower(d, towerId) || GetBannerTower(d, towerId).isPreview then d
    else
      var t1 := CountdownAsWritten(d, GetBannerTower(d, towerId), elapsed);
      var d1 := d.(entities := d.entities[towerId.value := TowerEntity(t1)]);
      if t1.secondsUntilNextSoldier <= 0.0 && |t1.pendingUnits| > 0 then Deploy(d1, towerId) else d1
  }

  /** The as-written countdown keeps the arena well formed, as the corrected one does. */
  lemma {:induction false} CountdownAsWrittenSpec(d: BattleStateData, towerId: Ref, elapsed: real)
    requires WellFormed(d) && IsTower(d, towerId)
    requires PendingUnitsValid(d, GetBannerTower(d, towerId).pendingUnits)
    ensures var t := GetBannerTower(d, towerId);
      var d1 := d.(entities := d.entities[towerId.value := TowerEntity(CountdownAsWritten(d, t, elapsed))]);
      WellFormed(d1) && KindsKept(d.entities, d1.entities) && IsTower(d1, towerId)
      && GetBannerTower(d1, towerId) == CountdownAsWritten(d, t, elapsed)
      && PendingUnitsValid(d1, GetBannerTower(d1, towerId).pendingUnits)
  {
    var t := GetBannerTower(d, towerId);
    var t1 := CountdownAsWritten(d, t, elapsed);
    ReplaceTowerKeepsWellFormed(d, towerId, t1);
    var d1 := d.(entities := d.entities[towerId.value := TowerEntity(t1)]);
    KindsKeptPending(d, d1, t1.pendingUnits);
  }

  /** As run by the game, a live tower passes to the sole occupier the `break` scan reports, if that is the other side. */
  lemma TickTowerAsWrittenCapture(d: BattleStateData, towerId: Ref, elapsed: real)
    requires WellFormed(d) && IsTower(d, towerId)
    requires PendingUnitsValid(d, GetBannerTower(d, towerId).pendingUnits)
    ensures var r := TickTowerAsWritten(d, towerId, elapsed);
      var t := GetBannerTower(d, towerId);
      IsTower(r, towerId)
      && (t.isPreview ==> r == d)
      && (!t.isPreview ==>
            GetBannerTower(r, towerId).allegiance
              == Captured(t.allegiance, OccupierAsWritten(Unoccupied, UnitViews(d, d.activeUnitIds, t.position))))
  {
    var t := GetBannerTower(d, towerId);
    if !t.isPreview {
      CountdownAsWrittenSpec(d, towerId, elapsed);
      var d1 := d.(entities := d.entities[towerId.value := TowerEntity(CountdownAsWritten(d, t, elapsed))]);
      if CountdownAsWritten(d, t, elapsed).secondsUntilNextSoldier <= 0.0 && |t.pendingUnits| > 0 {
        DeploySpec(d1, towerId);
      }
    }
  }

  /**
   * The discrepancy reaches the tick: with the units [Azuki in territory,
   * Azuki outside it, Edamame in territory] around an Edamame tower, the game
   * hands the tower to Azuki, while the corrected tick sees both sides and
   * leaves it to Edamame.
   */
  lemma AsWrittenTickTakesContestedTower(d: BattleStateData, towerId: Ref, elapsed: real)
    requires WellFormed(d) && IsTower(d, towerId)
    requires PendingUnitsValid(d, GetBannerTower(d, towerId).pendingUnits)
    requires !GetBannerTower(d, towerId).isPreview && GetBannerTower(d, towerId).allegiance == Edamame
    requires UnitViews(d, d.activeUnitIds, GetBannerTower(d, towerId).position)
      == [UnitView(Azuki, false, [true]), UnitView(Azuki, false, [false]), UnitView(Edamame, false, [true])]
    ensures GetBannerTower(TickTowerAsWritten(d, towerId, elapsed), towerId).allegiance == Azuki
    ensures GetBannerTower(TickTower(d, towerId, elapsed), towerId).allegiance == Edamame
  {
    var views := UnitViews(d, d.activeUnitIds, GetBannerTower(d, towerId).position);
    AsWrittenMissesLaterUnits();
    TickTowerAsWrittenCapture(d, towerId, elapsed);
    TickTowerCapture(d, towerId, elapsed);
    PresentIff(views, Edamame);
    assert views[2].allegiance == Edamame && !views[2].isPreview && views[2].inTerritory[0];
    assert Edamame in Present(views);
  }

  /** `tickBannerTower` as the game writes it, with the `break` scan: it computes `TickTowerAsWritten`. */
  method TickBannerTowerAsWritten(elapsed: real, towerId: Ref, battle: BattleState)
    requires WellFormed(battle.data) && IsTower(battle.data, towerId)
    requires PendingUnitsValid(battle.data, GetBannerTower(battle.data, towerId).pendingUnits)
    modifies battle
    ensures battle.data == TickTowerAsWritten(old(battle.data), towerId, elapsed)
  {
    var tower := GetBannerTower(battle.data, towerId);
    if tower.isPreview {
      return;
    }
    ghost var d0 := battle.data;
    var uniqueOccupier := UniqueOccupierAsWritten(battle.data, tower.position);
    if uniqueOccupier.Occupied? && tower.allegiance != uniqueOccupier.allegiance {
      tower := tower.(allegiance := uniqueOccupier.allegiance);
    }
    tower := tower.(secondsUntilNextSoldier := tower.secondsUntilNextSoldier - elapsed);
    battle.data := battle.data.(entities := battle.data.entities[towerId.value := TowerEntity(tower)]);
    assert tower == CountdownAsWritten(d0, GetBannerTower(d0, towerId), elapsed);
    if tower.secondsUntilNextSoldier <= 0.0 && |tower.pendingUnits| > 0 {
      CountdownAsWrittenSpec(d0, towerId, elapsed);
      DeployNextSoldier(towerId, battle);
    }
  }

  /** The arena after the towers of `ids` have ticked, one after another in order. */
  function TowersTicked(d: BattleStateData, ids: seq<Ref>, elapsed: real): BattleStateData
  {
    if |ids| == 0 then d else TickTower(TowersTicked(d, ids[..|ids| - 1], elapsed), ids[|ids| - 1], elapsed)
  }

  /**
   * Ticking active towers keeps the arena well formed, leaves everything
   * outside the entities alone, and adds at most one soldier per tower.
   */
  lemma {:induction false} TowersTickedKeepsWellFormed(d: BattleStateData, ids: seq<Ref>, elapsed: real)
    requires WellFormed(d)
    requires forall k | 0 <= k < |ids| :: ids[k] in d.activeTowerIds
    ensures var r := TowersTicked(d, ids, elapsed);
      WellFormed(r) && KindsKept(d.entities, r.entities) && r.(entities := d.entities) == d
      && |r.entities| <= |d.entities| + |ids|
  {
    if |ids| > 0 {
      var front := ids[..|ids| - 1];
      var x := ids[|ids| - 1];
      TowersTickedKeepsWellFormed(d, front, elapsed);
      var m := TowersTicked(d, front, elapsed);
      var k :| 0 <= k < |m.activeTowerIds| && m.activeTowerIds[k] == x;
      TickTowerKeepsWellFormed(m, x, elapsed);
      TickTowerGrowsByOne(m, x, elapsed);
      KindsKeptTransitive(d.entities, m.entities, TickTower(m, x, elapsed).entities);
    }
  }

  lemma TickTowerGrowsByOne(d: BattleStateData, towerId: Ref, elapsed: real)
    requires WellFormed(d) && IsTower(d, towerId)
    requires PendingUnitsValid(d, GetBannerTower(d, towerId).pendingUnits)
    ensures |TickTower(d, towerId, elapsed).entities| <= |d.entities| + 1
  {
    if !GetBannerTower(d, towerId).isPreview {
      TickTowerDeployment(d, towerId, elapsed);
    }
  }

  /** `tickBannerTowers`: every active tower ticks, in the order of the active tower list. */
  method TickBannerTowers(elapsed: real, battle: BattleState)
    requires WellFormed(battle.data)
    modifies battle
    ensures battle.data == TowersTicked(old(battle.data), old(battle.data).activeTowerIds, elapsed)
    ensures WellFormed(battle.data)
  {
    ghost var d0 := battle.data;
    var ids := battle.data.activeTowerIds;
    for j := 0 to |ids|
      invariant battle.data == TowersTicked(d0, ids[..j], elapsed)
      invariant WellFormed(battle.data) && battle.data.activeTowerIds == ids
    {
      assert ids[..j + 1][..j] == ids[..j];
      assert ids[j] == battle.data.activeTowerIds[j];
      TickBannerTower(elapsed, ids[j], battle);
      TowersTickedKeepsWellFormed(d0, ids[..j + 1], elapsed);
    }
    assert ids[..|ids|] == ids;
  }
}
