// The explosion guard of `tickKings` (src/tick.ts:212-245): a king whose
// health has run out explodes once, adding one soldier explosion, and is
// latched as exploded so that later ticks add no more. The alert announcing
// the winner is a browser side effect and is left out.

module TickKings {
  import opened Prelude
  import opened BattleData
  import opened TickExplosions

  /**
   * The arena with one king checked: an explosion, at the king and of the
   * king's side, is added exactly when the king is dead and has not exploded;
   * afterwards a dead king is marked exploded, and nothing else about the
   * king or the arena changes.
   */
  function ExplodeIfDead(d: BattleStateData, kingId: Ref, allegiance: Allegiance): (r: BattleStateData)
    requires IsKing(d, kingId)
    ensures var king := GetKing(d, kingId);
      var fires := king.body.health <= 0.0 && !king.hasExploded;
      IsKing(r, kingId) && |r.entities| == |d.entities|
      && GetKing(r, kingId).body == king.body && GetKing(r, kingId).dragonflyId == king.dragonflyId
      && (GetKing(r, kingId).hasExploded <==> king.hasExploded || king.body.health <= 0.0)
      && (fires ==> r.soldierExplosions == d.soldierExplosions + [SoldierExplosion(allegiance, king.body.position, king.body.orientation, 0.0)])
      && (!fires ==> r == d)
      && r.(entities := d.entities, soldierExplosions := d.soldierExplosions) == d
      && forall i | 0 <= i < |d.entities| && i != kingId.value :: r.entities[i] == d.entities[i]
  {
    var king := GetKing(d, kingId);
    if king.body.health <= 0.0 && !king.hasExploded then
      d.(soldierExplosions := d.soldierExplosions + [GetSoldierExplosion(allegiance, king.body.position, king.body.orientation)],
         entities := d.entities[kingId.value := KingEntity(king.(hasExploded := true))])
    else
      d
  }

  /** Both kings checked, the Azuki king first. */
  function ExplodeDeadKings(d: BattleStateData): BattleStateData
    requires IsKing(d, d.azukiKingId) && IsKing(d, d.edamameKingId)
  {
    var d1 := ExplodeIfDead(d, d.azukiKingId, Azuki);
    ExplodeIfDead(d1, d1.edamameKingId, Edamame)
  }

  /** A second check of the same king in the same state does nothing: a king explodes once. */
  lemma {:induction false} ExplodeIfDeadIdempotent(d: BattleStateData, kingId: Ref, allegiance: Allegiance)
    requires IsKing(d, kingId)
    ensures var r := ExplodeIfDead(d, kingId, allegiance);
      IsKing(r, kingId) && ExplodeIfDead(r, kingId, allegiance) == r
  {
    var r := ExplodeIfDead(d, kingId, allegiance);
    assert GetKing(r, kingId).body == GetKing(d, kingId).body;
  }

  /** The king guard keeps the arena well formed. */
  lemma ExplodeIfDeadKeepsWellFormed(d: BattleStateData, kingId: Ref, allegiance: Allegiance)
    requires WellFormed(d) && IsKing(d, kingId)
    ensures WellFormed(ExplodeIfDead(d, kingId, allegiance))
    ensures KindsKept(d.entities, ExplodeIfDead(d, kingId, allegiance).entities)
  {
    var r := ExplodeIfDead(d, kingId, allegiance);
    if r != d {
      var king := GetKing(d, kingId);
      var d2 := d.(entities := d.entities[kingId.value := KingEntity(king.(hasExploded := true))]);
      ReplaceKingKeepsWellFormed(d, kingId, king.(hasExploded := true));
      assert r == d2.(soldierExplosions := r.soldierExplosions);
    }
  }

  /** Replacing a king by a king keeps the arena well formed. */
  lemma {:induction false} ReplaceKingKeepsWellFormed(d: BattleStateData, r: Ref, k: King)
    requires WellFormed(d) && IsKing(d, r)
    ensures var d2 := d.(entities := d.entities[r.value := KingEntity(k)]);
      WellFormed(d2) && KindsKept(d.entities, d2.entities)
  {
    var d2 := d.(entities := d.entities[r.value := KingEntity(k)]);
    assert KindsKept(d.entities, d2.entities);
    KindsKeptRefs(d, d2, d.azukiKingId);
    KindsKeptRefs(d, d2, d.edamameKingId);
    forall i | 0 <= i < |d.activeUnitIds|
      ensures IsUnit(d2, d.activeUnitIds[i]) && UnitValid(d2, GetUnit(d2, d.activeUnitIds[i]))
    {
      var x := d.activeUnitIds[i];
      KindsKeptRefs(d, d2, x);
      KindsKeptSoldierIds(d, d2, GetUnit(d, x).soldierIds);
    }
    forall i | 0 <= i < |d.activeTowerIds|
      ensures IsTower(d2, d.activeTowerIds[i]) && PendingUnitsValid(d2, GetBannerTower(d2, d.activeTowerIds[i]).pendingUnits)
    {
      var x := d.activeTowerIds[i];
      KindsKeptRefs(d, d2, x);
      KindsKeptPending(d, d2, GetBannerTower(d, x).pendingUnits);
    }
    forall i | 0 <= i < |d.activeDragonflyIds|
      ensures IsDragonfly(d2, d.activeDragonflyIds[i])
    {
      KindsKeptRefs(d, d2, d.activeDragonflyIds[i]);
    }
  }

  /**
   * Over both kings: the arena stays well formed, every dead king is marked
   * exploded, each king adds at most one explosion, and checking again at
   * once adds nothing.
   */
  lemma {:induction false} ExplodeDeadKingsSpec(d: BattleStateData)
    requires WellFormed(d)
    ensures var r := ExplodeDeadKings(d);
      WellFormed(r)
      && |d.soldierExplosions| <= |r.soldierExplosions| <= |d.soldierExplosions| + 2
      && r.soldierExplosions[..|d.soldierExplosions|] == d.soldierExplosions
      && (GetKing(r, r.azukiKingId).body.health <= 0.0 ==> GetKing(r, r.azukiKingId).hasExploded)
      && (GetKing(r, r.edamameKingId).body.health <= 0.0 ==> GetKing(r, r.edamameKingId).hasExploded)
      && ExplodeDeadKings(r) == r
  {
    var d1 := ExplodeIfDead(d, d.azukiKingId, Azuki);
    ExplodeIfDeadKeepsWellFormed(d, d.azukiKingId, Azuki);
    var r := ExplodeIfDead(d1, d1.edamameKingId, Edamame);
    ExplodeIfDeadKeepsWellFormed(d1, d1.edamameKingId, Edamame);
    assert r.soldierExplosions[..|d.soldierExplosions|] == d.soldierExplosions;
    // The second pass finds both kings already dealt with.
    assert ExplodeIfDead(r, r.azukiKingId, Azuki) == r;
  }

  /** The explosion guard of `tickKings`, on the arena in place. */
  method TickKingExplosions(battle: BattleState)
    requires WellFormed(battle.data)
    modifies battle
    ensures battle.data == ExplodeDeadKings(old(battle.data))
  {
    var azukiKing := GetKing(battle.data, battle.data.azukiKingId);
    if azukiKing.body.health <= 0.0 {
      if !azukiKing.hasExploded {
        var azukiExplosion := GetSoldierExplosion(Azuki, azukiKing.body.position, azukiKing.body.orientation);
        battle.data := battle.data.(soldierExplosions := battle.data.soldierExplosions + [azukiExplosion]);
        azukiKing := azukiKing.(hasExploded := true);
        battle.data := battle.data.(entities := battle.data.entities[battle.data.azukiKingId.value := KingEntity(azukiKing)]);
      }
    }
    var edamameKing := GetKing(battle.data, battle.data.edamameKingId);
    if edamameKing.body.health <= 0.0 {
      if !edamameKing.hasExploded {
        var edamameExplosion := GetSoldierExplosion(Edamame, edamameKing.body.position, edamameKing.body.orientation);
        battle.data := battle.data.(soldierExplosions := battle.data.soldierExplosions + [edamameExplosion]);
        edamameKing := edamameKing.(hasExploded := true);
        battle.data := battle.data.(entities := battle.data.entities[battle.data.edamameKingId.value := KingEntity(edamameKing)]);
      }
    }
  }
}
