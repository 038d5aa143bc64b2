// The arg-min searches of the battle tick (src/tick.ts:893-950, 1299-1319,
// 1385-1459) and the axis-aligned hitbox tests (src/tick.ts:1073-1086,
// 1321-1358).
//
// Every search walks a list of references in order, skips the ineligible
// ones and keeps the first strictly closer one, starting from an infinite
// distance. That walk is written once, as the left fold `NearestOf` over a
// list of candidates; each search method runs the loop of the game and is
// proved to compute `NearestOf` of its own candidate list.

module TickSearch {
  import opened Prelude
  import opened GeoUtils
  import opened BattleData

  /** One reference the search looks at: whether it may be chosen and how far away it is. */
  datatype Candidate = Candidate(id: Ref, eligible: bool, distanceSquared: real)

  /** The running best: `None` for the distance stands for the initial `Infinity`. */
  datatype Nearest = Nearest(id: Option<Ref>, distanceSquared: Option<real>)

  /** One step of the search loop: take `c` if it is eligible and strictly closer. */
  function Consider(n: Nearest, c: Candidate): Nearest
  {
    if c.eligible && (n.distanceSquared.None? || c.distanceSquared < n.distanceSquared.value) then
      Nearest(Some(c.id), Some(c.distanceSquared))
    else
      n
  }

  function NearestOf(cs: seq<Candidate>): Nearest
  {
    if |cs| == 0 then Nearest(None, None) else Consider(NearestOf(cs[..|cs| - 1]), cs[|cs| - 1])
  }

  /** The search over a list with one more candidate takes one more step. */
  lemma NearestOfSnoc(cs: seq<Candidate>, c: Candidate)
    ensures NearestOf(cs + [c]) == Consider(NearestOf(cs), c)
  {
    assert (cs + [c])[..|cs|] == cs;
  }

  /** Stepping a prefix of `before + mine` on by one candidate of `mine`. */
  lemma NearestOfNext(before: seq<Candidate>, mine: seq<Candidate>, j: int)
    requires 0 <= j < |mine|
    ensures NearestOf(before + mine[..j + 1]) == Consider(NearestOf(before + mine[..j]), mine[j])
  {
    assert before + mine[..j + 1] == (before + mine[..j]) + [mine[j]];
    NearestOfSnoc(before + mine[..j], mine[j]);
  }

  /** `cs[i]` is eligible, no eligible candidate is closer, and every earlier eligible one is farther. */
  predicate IsNearestAt(cs: seq<Candidate>, i: int)
  {
    0 <= i < |cs| && cs[i].eligible
    && (forall j | 0 <= j < |cs| && cs[j].eligible :: cs[i].distanceSquared <= cs[j].distanceSquared)
    && (forall j | 0 <= j < i && cs[j].eligible :: cs[i].distanceSquared < cs[j].distanceSquared)
  }

  predicate NoneEligible(cs: seq<Candidate>)
  {
    forall i | 0 <= i < |cs| :: !cs[i].eligible
  }

  /**
   * The search ends with nothing exactly when no candidate is eligible, and
   * otherwise with the closest eligible candidate, the earliest one on ties.
   */
  lemma {:induction false} NearestOfSpec(cs: seq<Candidate>)
    ensures NearestOf(cs).id.None? <==> NoneEligible(cs)
    ensures NearestOf(cs).id.None? <==> NearestOf(cs).distanceSquared.None?
    ensures NearestOf(cs).id.Some? ==>
      exists i :: IsNearestAt(cs, i)
        && NearestOf(cs) == Nearest(Some(cs[i].id), Some(cs[i].distanceSquared))
  {
    if |cs| > 0 {
      var init := cs[..|cs| - 1];
      var c := cs[|cs| - 1];
      NearestOfSpec(init);
      assert forall j | 0 <= j < |init| :: cs[j] == init[j];
      var n := NearestOf(init);
      if c.eligible && (n.distanceSquared.None? || c.distanceSquared < n.distanceSquared.value) {
        if n.id.Some? {
          var k :| IsNearestAt(init, k) && n == Nearest(Some(init[k].id), Some(init[k].distanceSquared));
          assert IsNearestAt(cs, |cs| - 1);
        } else {
          assert IsNearestAt(cs, |cs| - 1);
        }
      } else if n.id.Some? {
        var k :| IsNearestAt(init, k) && n == Nearest(Some(init[k].id), Some(init[k].distanceSquared));
        assert IsNearestAt(cs, k);
      }
    }
  }

  /** At most one candidate is the nearest. */
  lemma NearestAtUnique(cs: seq<Candidate>, i: int, k: int)
    requires IsNearestAt(cs, i) && IsNearestAt(cs, k)
    ensures i == k
  {
  }

  /** Conversely, whichever candidate is the nearest is what the search returns. */
  lemma NearestOfFindsNearest(cs: seq<Candidate>, i: int)
    requires IsNearestAt(cs, i)
    ensures NearestOf(cs) == Nearest(Some(cs[i].id), Some(cs[i].distanceSquared))
  {
    NearestOfSpec(cs);
    var k :| IsNearestAt(cs, k) && NearestOf(cs) == Nearest(Some(cs[k].id), Some(cs[k].distanceSquared));
    NearestAtUnique(cs, i, k);
  }

  // ---- Towers -------------------------------------------------------------

  function TowerCandidates(d: BattleStateData, ids: seq<Ref>, position: Triple, accepts: BannerTower -> bool)
    : (cs: seq<Candidate>)
    requires TowersValid(d, ids)
    ensures |cs| == |ids|
    ensures forall i | 0 <= i < |ids| ::
      cs[i] == Candidate(ids[i], accepts(GetBannerTower(d, ids[i])),
                         DistanceToSquared(position, GetBannerTower(d, ids[i]).position))
  {
    seq(|ids|, i requires 0 <= i < |ids| =>
      Candidate(ids[i], accepts(GetBannerTower(d, ids[i])),
                DistanceToSquared(position, GetBannerTower(d, ids[i]).position)))
  }

  /**
   * The active tower nearest to `position` among those `accepts` admits;
   * `None` exactly when it admits none of them.
   */
  method GetNearestBannerTowerId(position: Triple, battle: BattleState, accepts: BannerTower -> bool)
    returns (r: Option<Ref>)
    requires TowersValid(battle.data, battle.data.activeTowerIds)
    ensures r == NearestOf(TowerCandidates(battle.data, battle.data.activeTowerIds, position, accepts)).id
    ensures r.None? <==>
      forall i | 0 <= i < |battle.data.activeTowerIds| ::
        !accepts(GetBannerTower(battle.data, battle.data.activeTowerIds[i]))
    ensures r.Some? ==>
      exists i :: IsNearestAt(TowerCandidates(battle.data, battle.data.activeTowerIds, position, accepts), i)
        && battle.data.activeTowerIds[i] == r.value
  {
    var d := battle.data;
    var ids := d.activeTowerIds;
    ghost var cs := TowerCandidates(d, ids, position, accepts);
    var nearestTowerId: Option<Ref> := None;
    var nearestDistanceSquared: Option<real> := None;
    for i := 0 to |ids|
      invariant Nearest(nearestTowerId, nearestDistanceSquared) == NearestOf(cs[..i])
    {
      assert cs[..i + 1][..i] == cs[..i];
      var towerId := ids[i];
      var tower := GetBannerTower(d, towerId);
      if !accepts(tower) {
        continue;
      }
      var distSq := DistanceToSquared(position, tower.position);
      if nearestDistanceSquared.None? || distSq < nearestDistanceSquared.value {
        nearestTowerId := Some(towerId);
        nearestDistanceSquared := Some(distSq);
      }
    }
    assert cs[..|ids|] == cs;
    NearestOfSpec(cs);
    r := nearestTowerId;
  }

  predicate IsAzukiBannerTower(tower: BannerTower)
  {
    tower.allegiance == Azuki
  }

  predicate IsEdamameBannerTower(tower: BannerTower)
  {
    tower.allegiance == Edamame
  }

  /** The tower filter of the king-to-tower distance: `isAzukiBannerTower` or `isEdamameBannerTower`. */
  function OfAllegiance(a: Allegiance): (accepts: BannerTower -> bool)
    ensures a == Azuki ==> forall t :: accepts(t) == IsAzukiBannerTower(t)
    ensures a == Edamame ==> forall t :: accepts(t) == IsEdamameBannerTower(t)
  {
    (t: BannerTower) => t.allegiance == a
  }

  function KingId(d: BattleStateData, a: Allegiance): Ref
  {
    if a == Azuki then d.azukiKingId else d.edamameKingId
  }

  /**
   * The king's distance, on the ground plane, to the nearest active tower of
   * its allegiance (nearest in space); `None` stands for the `Infinity` the
   * game returns when there is no such tower.
   */
  function KingDistanceSquaredToNearestBannerTower(d: BattleStateData, a: Allegiance): (r: Option<real>)
    requires WellFormed(d)
    ensures r.None? <==>
      forall i | 0 <= i < |d.activeTowerIds| :: GetBannerTower(d, d.activeTowerIds[i]).allegiance != a
    ensures r.Some? ==> 0.0 <= r.value
  {
    var position := GetKing(d, KingId(d, a)).body.position;
    var cs := TowerCandidates(d, d.activeTowerIds, position, OfAllegiance(a));
    NearestOfSpec(cs);
    var n := NearestOf(cs);
    if n.id.None? then None
    else Some(XzDistanceToSquared(position, GetBannerTower(d, n.id.value).position))
  }

  /** The same distance as the game computes it, by running the tower search. */
  method GetKingDistanceSquaredToNearestBannerTower(battle: BattleState, a: Allegiance) returns (r: Option<real>)
    requires WellFormed(battle.data)
    ensures r == KingDistanceSquaredToNearestBannerTower(battle.data, a)
    ensures r.None? <==>
      forall i | 0 <= i < |battle.data.activeTowerIds| ::
        GetBannerTower(battle.data, battle.data.activeTowerIds[i]).allegiance != a
    ensures r.Some? ==>
      var position := GetKing(battle.data, KingId(battle.data, a)).body.position;
      exists i :: IsNearestAt(TowerCandidates(battle.data, battle.data.activeTowerIds, position,
                                              OfAllegiance(a)), i)
        && r.value == XzDistanceToSquared(position,
                                          GetBannerTower(battle.data, battle.data.activeTowerIds[i]).position)
  {
    var king := GetKing(battle.data, KingId(battle.data, a));
    var nearestTowerId := GetNearestBannerTowerId(king.body.position, battle, OfAllegiance(a));
    if nearestTowerId.None? {
      r := None;
    } else {
      r := Some(XzDistanceToSquared(king.body.position, GetBannerTower(battle.data, nearestTowerId.value).position));
    }
  }

  // ---- Dragonflies --------------------------------------------------------

  function DragonflyCandidates(d: BattleStateData, ids: seq<Ref>, position: Triple): (cs: seq<Candidate>)
    requires DragonfliesValid(d, ids)
    ensures |cs| == |ids|
    ensures forall i | 0 <= i < |ids| ::
      cs[i] == Candidate(ids[i], GetDragonfly(d, ids[i]).flightState == Resting,
                         DistanceToSquared(position, GetDragonfly(d, ids[i]).position))
  {
    seq(|ids|, i requires 0 <= i < |ids| =>
      Candidate(ids[i], GetDragonfly(d, ids[i]).flightState == Resting,
                DistanceToSquared(position, GetDragonfly(d, ids[i]).position)))
  }

  /** The nearest active dragonfly that is resting; `None` exactly when none is. */
  method GetNearestRestingDragonflyId(position: Triple, battle: BattleState) returns (r: Option<Ref>)
    requires DragonfliesValid(battle.data, battle.data.activeDragonflyIds)
    ensures r == NearestOf(DragonflyCandidates(battle.data, battle.data.activeDragonflyIds, position)).id
    ensures r.None? <==>
      forall i | 0 <= i < |battle.data.activeDragonflyIds| ::
        GetDragonfly(battle.data, battle.data.activeDragonflyIds[i]).flightState != Resting
    ensures r.Some? ==>
      exists i :: IsNearestAt(DragonflyCandidates(battle.data, battle.data.activeDragonflyIds, position), i)
        && battle.data.activeDragonflyIds[i] == r.value
  {
    var d := battle.data;
    var ids := d.activeDragonflyIds;
    ghost var cs := DragonflyCandidates(d, ids, position);
    var nearestDragonflyId: Option<Ref> := None;
    var nearestDistanceSquared: Option<real> := None;
    for i := 0 to |ids|
      invariant Nearest(nearestDragonflyId, nearestDistanceSquared) == NearestOf(cs[..i])
    {
      assert cs[..i + 1][..i] == cs[..i];
      var dragonflyId := ids[i];
      var dragonfly := GetDragonfly(d, dragonflyId);
      if dragonfly.flightState != Resting {
        continue;
      }
      var distSq := DistanceToSquared(position, dragonfly.position);
      if nearestDistanceSquared.None? || distSq < nearestDistanceSquared.value {
        nearestDragonflyId := Some(dragonflyId);
        nearestDistanceSquared := Some(distSq);
      }
    }
    assert cs[..|ids|] == cs;
    NearestOfSpec(cs);
    r := nearestDragonflyId;
  }

  // ---- Enemies ------------------------------------------------------------

  function SoldierCandidates(d: BattleStateData, ids: seq<Ref>, position: Triple): (cs: seq<Candidate>)
    requires SoldierIdsValid(d, ids)
    ensures |cs| == |ids|
    ensures forall i | 0 <= i < |ids| ::
      cs[i] == Candidate(ids[i], true, DistanceToSquared(position, GetSoldier(d, ids[i]).position))
  {
    seq(|ids|, i requires 0 <= i < |ids| =>
      Candidate(ids[i], true, DistanceToSquared(position, GetSoldier(d, ids[i]).position)))
  }

  predicate IsEnemyUnit(u: Unit, own: Allegiance)
  {
    u.allegiance != own && !u.isPreview
  }

  /** Soldiers of the enemy, non-preview units among `unitIds`, unit by unit. */
  function EnemyUnitCandidates(d: BattleStateData, unitIds: seq<Ref>, own: Allegiance, position: Triple)
    : seq<Candidate>
    requires UnitsValid(d, unitIds)
    decreases |unitIds|
  {
    if |unitIds| == 0 then []
    else
      var u := GetUnit(d, unitIds[|unitIds| - 1]);
      assert UnitsValid(d, unitIds[..|unitIds| - 1]) by {
        assert forall i | 0 <= i < |unitIds| - 1 :: unitIds[..|unitIds| - 1][i] == unitIds[i];
      }
      EnemyUnitCandidates(d, unitIds[..|unitIds| - 1], own, position)
        + (if IsEnemyUnit(u, own) then SoldierCandidates(d, u.soldierIds, position) else [])
  }

  /** The opposing king, eligible only while alive (each allegiance has one opponent). */
  function KingCandidates(d: BattleStateData, own: Allegiance, position: Triple): seq<Candidate>
    requires IsKing(d, d.azukiKingId) && IsKing(d, d.edamameKingId)
  {
    var azukiKing := GetKing(d, d.azukiKingId);
    var edamameKing := GetKing(d, d.edamameKingId);
    (if own != Azuki then
       [Candidate(d.azukiKingId, azukiKing.body.health > 0.0, DistanceToSquared(position, azukiKing.body.position))]
     else [])
    + (if own != Edamame then
         [Candidate(d.edamameKingId, edamameKing.body.health > 0.0,
                    DistanceToSquared(position, edamameKing.body.position))]
       else [])
  }

  function EnemyCandidates(d: BattleStateData, own: Allegiance, position: Triple): seq<Candidate>
    requires WellFormed(d)
  {
    EnemyUnitCandidates(d, d.activeUnitIds, own, position) + KingCandidates(d, own, position)
  }

  /** The search result, dropped when the nearest one is out of range (or there is none). */
  function WithinRange(n: Nearest, rangeSquared: real): Option<Ref>
  {
    if n.distanceSquared.None? || n.distanceSquared.value > rangeSquared then None else n.id
  }

  /**
   * Cutting the search off at `rangeSquared` leaves nothing exactly when every
   * eligible candidate is out of range, and otherwise the nearest, which is in range.
   */
  lemma WithinRangeSpec(cs: seq<Candidate>, rangeSquared: real)
    ensures WithinRange(NearestOf(cs), rangeSquared).None? <==>
      forall i | 0 <= i < |cs| && cs[i].eligible :: cs[i].distanceSquared > rangeSquared
    ensures WithinRange(NearestOf(cs), rangeSquared).Some? ==>
      exists i :: IsNearestAt(cs, i) && cs[i].id == WithinRange(NearestOf(cs), rangeSquared).value
        && cs[i].distanceSquared <= rangeSquared
  {
    NearestOfSpec(cs);
    if NearestOf(cs).id.Some? {
      var i :| IsNearestAt(cs, i) && NearestOf(cs) == Nearest(Some(cs[i].id), Some(cs[i].distanceSquared));
    }
  }

  /** `id` is a soldier of an enemy non-preview unit, or the living opposing king. */
  predicate IsEnemyOf(d: BattleStateData, own: Allegiance, id: Ref)
    requires WellFormed(d)
  {
    (exists k | 0 <= k < |d.activeUnitIds| ::
       IsEnemyUnit(GetUnit(d, d.activeUnitIds[k]), own) && id in GetUnit(d, d.activeUnitIds[k]).soldierIds)
    || (id == KingId(d, Opponent(own)) && GetKing(d, id).body.health > 0.0)
  }

  lemma {:induction false} EnemyUnitCandidatesAreEnemies(d: BattleStateData, unitIds: seq<Ref>, own: Allegiance,
                                                         position: Triple, i: int)
    requires UnitsValid(d, unitIds)
    requires 0 <= i < |EnemyUnitCandidates(d, unitIds, own, position)|
    ensures exists k | 0 <= k < |unitIds| ::
      IsEnemyUnit(GetUnit(d, unitIds[k]), own)
      && EnemyUnitCandidates(d, unitIds, own, position)[i].id in GetUnit(d, unitIds[k]).soldierIds
    decreases |unitIds|
  {
    var init := unitIds[..|unitIds| - 1];
    var u := GetUnit(d, unitIds[|unitIds| - 1]);
    assert forall j | 0 <= j < |init| :: init[j] == unitIds[j];
    assert UnitsValid(d, init);
    var prefix := EnemyUnitCandidates(d, init, own, position);
    var cs := EnemyUnitCandidates(d, unitIds, own, position);
    if i < |prefix| {
      EnemyUnitCandidatesAreEnemies(d, init, own, position, i);
      var k :| 0 <= k < |init| && IsEnemyUnit(GetUnit(d, init[k]), own) && prefix[i].id in GetUnit(d, init[k]).soldierIds;
      assert cs[i] == prefix[i];
      assert unitIds[k] == init[k];
    } else {
      var last := |unitIds| - 1;
      assert IsEnemyUnit(u, own);
      var own_cs := SoldierCandidates(d, u.soldierIds, position);
      assert cs[i] == own_cs[i - |prefix|];
      assert cs[i].id == u.soldierIds[i - |prefix|];
      assert IsEnemyUnit(GetUnit(d, unitIds[last]), own) && cs[i].id in GetUnit(d, unitIds[last]).soldierIds;
    }
  }

  /** Every eligible candidate of the enemy search is an enemy. */
  lemma EligibleEnemyCandidatesAreEnemies(d: BattleStateData, own: Allegiance, position: Triple, i: int)
    requires WellFormed(d)
    requires 0 <= i < |EnemyCandidates(d, own, position)| && EnemyCandidates(d, own, position)[i].eligible
    ensures IsEnemyOf(d, own, EnemyCandidates(d, own, position)[i].id)
  {
    var units := EnemyUnitCandidates(d, d.activeUnitIds, own, position);
    var cs := EnemyCandidates(d, own, position);
    if i < |units| {
      EnemyUnitCandidatesAreEnemies(d, d.activeUnitIds, own, position, i);
      assert cs[i] == units[i];
    } else {
      assert own == Azuki || own == Edamame;
    }
  }

  /** The inner loop of the enemy search: the soldiers of one enemy unit, in order. */
  method ConsiderSoldiers(d: BattleStateData, soldierIds: seq<Ref>, position: Triple, ghost before: seq<Candidate>,
                          nearestId0: Option<Ref>, nearestDistanceSquared0: Option<real>)
    returns (nearestEnemyId: Option<Ref>, nearestDistanceSquared: Option<real>)
    requires SoldierIdsValid(d, soldierIds)
    requires Nearest(nearestId0, nearestDistanceSquared0) == NearestOf(before)
    ensures Nearest(nearestEnemyId, nearestDistanceSquared)
      == NearestOf(before + SoldierCandidates(d, soldierIds, position))
  {
    ghost var mine := SoldierCandidates(d, soldierIds, position);
    nearestEnemyId, nearestDistanceSquared := nearestId0, nearestDistanceSquared0;
    assert before + mine[..0] == before;
    for j := 0 to |soldierIds|
      invariant Nearest(nearestEnemyId, nearestDistanceSquared) == NearestOf(before + mine[..j])
    {
      NearestOfNext(before, mine, j);
      var enemyId := soldierIds[j];
      var enemy := GetSoldier(d, enemyId);
      var distSq := DistanceToSquared(position, enemy.position);
      if nearestDistanceSquared.None? || distSq < nearestDistanceSquared.value {
        nearestEnemyId := Some(enemyId);
        nearestDistanceSquared := Some(distSq);
      }
    }
    assert mine[..|soldierIds|] == mine;
  }

  /** The unit part of the enemy search: the running best over the enemy units' soldiers. */
  method NearestEnemySoldier(d: BattleStateData, own: Allegiance, position: Triple)
    returns (nearestEnemyId: Option<Ref>, nearestDistanceSquared: Option<real>)
    requires WellFormed(d)
    ensures Nearest(nearestEnemyId, nearestDistanceSquared) == NearestOf(EnemyUnitCandidates(d, d.activeUnitIds, own, position))
  {
    var unitIds := d.activeUnitIds;
    nearestEnemyId, nearestDistanceSquared := None, None;
    for i := 0 to |unitIds|
      invariant UnitsValid(d, unitIds[..i])
      invariant Nearest(nearestEnemyId, nearestDistanceSquared) == NearestOf(EnemyUnitCandidates(d, unitIds[..i], own, position))
    {
      assert unitIds[..i + 1][..i] == unitIds[..i];
      ghost var before := EnemyUnitCandidates(d, unitIds[..i], own, position);
      var unit := GetUnit(d, unitIds[i]);
      if !IsEnemyUnit(unit, own) {
        assert EnemyUnitCandidates(d, unitIds[..i + 1], own, position) == before + [] == before;
        continue;
      }
      ghost var mine := SoldierCandidates(d, unit.soldierIds, position);
      nearestEnemyId, nearestDistanceSquared :=
        ConsiderSoldiers(d, unit.soldierIds, position, before, nearestEnemyId, nearestDistanceSquared);
      assert EnemyUnitCandidates(d, unitIds[..i + 1], own, position) == before + mine;
      assert Nearest(nearestEnemyId, nearestDistanceSquared) == NearestOf(before + mine);
    }
    assert unitIds[..|unitIds|] == unitIds;
  }

  /**
   * The enemy search cut off at `rangeSquared` finds an enemy, the nearest
   * eligible candidate, in range; it finds nothing exactly when every eligible
   * candidate is out of range.
   */
  lemma EnemySearchSpec(d: BattleStateData, own: Allegiance, position: Triple, rangeSquared: real)
    requires WellFormed(d)
    ensures var cs := EnemyCandidates(d, own, position);
      var r := WithinRange(NearestOf(cs), rangeSquared);
      && (r.Some? ==> IsEnemyOf(d, own, r.value))
      && (r.Some? ==> exists i :: IsNearestAt(cs, i) && cs[i].id == r.value && cs[i].distanceSquared <= rangeSquared)
      && (r.None? <==> forall i | 0 <= i < |cs| && cs[i].eligible :: cs[i].distanceSquared > rangeSquared)
  {
    var cs := EnemyCandidates(d, own, position);
    var r := WithinRange(NearestOf(cs), rangeSquared);
    WithinRangeSpec(cs, rangeSquared);
    if r.Some? {
      var i :| IsNearestAt(cs, i) && cs[i].id == r.value && cs[i].distanceSquared <= rangeSquared;
      EligibleEnemyCandidatesAreEnemies(d, own, position, i);
    }
  }

  /** The king part of the enemy search: the opposing king, taken only while alive and strictly closer. */
  method ConsiderKings(d: BattleStateData, own: Allegiance, position: Triple, ghost before: seq<Candidate>,
                       nearestId0: Option<Ref>, nearestDistanceSquared0: Option<real>)
    returns (nearestEnemyId: Option<Ref>, nearestDistanceSquared: Option<real>)
    requires IsKing(d, d.azukiKingId) && IsKing(d, d.edamameKingId)
    requires Nearest(nearestId0, nearestDistanceSquared0) == NearestOf(before)
    ensures Nearest(nearestEnemyId, nearestDistanceSquared) == NearestOf(before + KingCandidates(d, own, position))
  {
    nearestEnemyId, nearestDistanceSquared := nearestId0, nearestDistanceSquared0;
    var azukiKing := GetKing(d, d.azukiKingId);
    var edamameKing := GetKing(d, d.edamameKingId);
    ghost var kingsSoFar: seq<Candidate> := [];
    assert before + kingsSoFar == before;
    if own != Azuki {
      var distSq := DistanceToSquared(position, azukiKing.body.position);
      ghost var c := Candidate(d.azukiKingId, azukiKing.body.health > 0.0, distSq);
      NearestOfSnoc(before, c);
      kingsSoFar := [c];
      if (nearestDistanceSquared.None? || distSq < nearestDistanceSquared.value) && azukiKing.body.health > 0.0 {
        nearestEnemyId := Some(d.azukiKingId);
        nearestDistanceSquared := Some(distSq);
      }
    }
    if own != Edamame {
      var distSq := DistanceToSquared(position, edamameKing.body.position);
      ghost var c := Candidate(d.edamameKingId, edamameKing.body.health > 0.0, distSq);
      NearestOfSnoc(before + kingsSoFar, c);
      assert (before + kingsSoFar) + [c] == before + (kingsSoFar + [c]);
      kingsSoFar := kingsSoFar + [c];
      if (nearestDistanceSquared.None? || distSq < nearestDistanceSquared.value) && edamameKing.body.health > 0.0 {
        nearestEnemyId := Some(d.edamameKingId);
        nearestDistanceSquared := Some(distSq);
      }
    }
    assert kingsSoFar == KingCandidates(d, own, position);
  }

  /**
   * The nearest enemy of `soldier`, a soldier of `soldierUnit`: a soldier of a
   * unit of the other allegiance that is not a preview, or the living opposing
   * king, and `None` exactly when every such enemy is farther than
   * `rangeSquared`.
   */
  method GetNearestEnemyId(soldier: Soldier, soldierUnit: Unit, rangeSquared: real, battle: BattleState)
    returns (r: Option<Ref>)
    requires WellFormed(battle.data)
    ensures var cs := EnemyCandidates(battle.data, soldierUnit.allegiance, soldier.position);
      && r == WithinRange(NearestOf(cs), rangeSquared)
      && (r.Some? ==> IsEnemyOf(battle.data, soldierUnit.allegiance, r.value))
      && (r.Some? ==> exists i :: IsNearestAt(cs, i) && cs[i].id == r.value && cs[i].distanceSquared <= rangeSquared)
      && (r.None? <==> forall i | 0 <= i < |cs| && cs[i].eligible :: cs[i].distanceSquared > rangeSquared)
  {
    var d := battle.data;
    var own := soldierUnit.allegiance;
    var position := soldier.position;
    var nearestEnemyId, nearestDistanceSquared := NearestEnemySoldier(d, own, position);
    ghost var units := EnemyUnitCandidates(d, d.activeUnitIds, own, position);
    nearestEnemyId, nearestDistanceSquared :=
      ConsiderKings(d, own, position, units, nearestEnemyId, nearestDistanceSquared);
    assert Nearest(nearestEnemyId, nearestDistanceSquared) == NearestOf(EnemyCandidates(d, own, position));
    if nearestDistanceSquared.None? || nearestDistanceSquared.value > rangeSquared {
      r := None;
    } else {
      r := nearestEnemyId;
    }
    EnemySearchSpec(d, own, position, rangeSquared);
  }

  // ---- Hitboxes -----------------------------------------------------------

  /** The square of side 20 around the tower, below height 1 in world space. */
  predicate InTowerTerritory(possibleOccupierPosition: Triple, towerPosition: Triple)
  {
    var localX := possibleOccupierPosition[0] - towerPosition[0];
    var localZ := possibleOccupierPosition[2] - towerPosition[2];
    possibleOccupierPosition[1] < 1.0 && -10.0 <= localX <= 10.0 && -10.0 <= localZ <= 10.0
  }

  /** Moving an occupier and a tower together on the ground plane keeps the occupier in or out of territory. */
  lemma InTowerTerritoryMovesWithTower(p: Triple, t: Triple, dx: real, dz: real)
    ensures InTowerTerritory([p[0] + dx, p[1], p[2] + dz], [t[0] + dx, t[1], t[2] + dz]) == InTowerTerritory(p, t)
  {
  }

  /** Territory depends on the tower's ground position only. */
  lemma InTowerTerritoryIgnoresTowerHeight(p: Triple, t: Triple, y: real)
    ensures InTowerTerritory(p, t[1 := y]) == InTowerTerritory(p, t)
  {
  }

  /**
   * The tower body: a 20 by 30 by 20 box standing on the tower position, with
   * two crossing tunnels of width 10 and height 15 through its lower half.
   */
  predicate IsCollidingWithTower(possibleOccupierPosition: Triple, towerPosition: Triple)
  {
    var localX := possibleOccupierPosition[0] - towerPosition[0];
    var localY := possibleOccupierPosition[1] - towerPosition[1];
    var localZ := possibleOccupierPosition[2] - towerPosition[2];
    var collidesWithBigHitbox :=
      -10.0 <= localX <= 10.0 && 0.0 <= localY <= 30.0 && -10.0 <= localZ <= 10.0;
    if collidesWithBigHitbox then
      var isInGap := ((-5.0 <= localX <= 5.0) || (-5.0 <= localZ <= 5.0)) && 0.0 <= localY <= 15.0;
      !isInGap
    else
      false
  }

  /** A collision happens only inside the big box. */
  lemma CollisionIsInsideBox(p: Triple, t: Triple)
    requires IsCollidingWithTower(p, t)
    ensures Abs(p[0] - t[0]) <= 10.0 && Abs(p[2] - t[2]) <= 10.0 && 0.0 <= p[1] - t[1] <= 30.0
  {
  }

  /** The tunnels are passable: no point in them collides. */
  lemma TunnelsArePassable(p: Triple, t: Triple)
    requires Abs(p[0] - t[0]) <= 5.0 || Abs(p[2] - t[2]) <= 5.0
    requires 0.0 <= p[1] - t[1] <= 15.0
    ensures !IsCollidingWithTower(p, t)
  {
  }

  /** Above the tunnels the box is solid. */
  lemma UpperHalfIsSolid(p: Triple, t: Triple)
    requires Abs(p[0] - t[0]) <= 10.0 && Abs(p[2] - t[2]) <= 10.0
    requires 15.0 < p[1] - t[1] <= 30.0
    ensures IsCollidingWithTower(p, t)
  {
  }

  /** The four corner pillars of the lower half are solid. */
  lemma PillarsAreSolid(p: Triple, t: Triple)
    requires 5.0 < Abs(p[0] - t[0]) <= 10.0 && 5.0 < Abs(p[2] - t[2]) <= 10.0
    requires 0.0 <= p[1] - t[1] <= 30.0
    ensures IsCollidingWithTower(p, t)
  {
  }

  /** The first active tower, in list order, whose body `position` is inside; `None` if there is none. */
  method GetCollidingBannerTower(position: Triple, battle: BattleState) returns (r: Option<Ref>)
    requires TowersValid(battle.data, battle.data.activeTowerIds)
    ensures r.None? <==>
      forall i | 0 <= i < |battle.data.activeTowerIds| ::
        !IsCollidingWithTower(position, GetBannerTower(battle.data, battle.data.activeTowerIds[i]).position)
    ensures r.Some? ==>
      exists i | 0 <= i < |battle.data.activeTowerIds| ::
        battle.data.activeTowerIds[i] == r.value
        && IsCollidingWithTower(position, GetBannerTower(battle.data, battle.data.activeTowerIds[i]).position)
        && forall j | 0 <= j < i ::
             !IsCollidingWithTower(position, GetBannerTower(battle.data, battle.data.activeTowerIds[j]).position)
  {
    var d := battle.data;
    var ids := d.activeTowerIds;
    for i := 0 to |ids|
      invariant forall j | 0 <= j < i :: !IsCollidingWithTower(position, GetBannerTower(d, ids[j]).position)
    {
      var tower := GetBannerTower(d, ids[i]);
      if IsCollidingWithTower(position, tower.position) {
        return Some(ids[i]);
      }
    }
    return None;
  }
}
