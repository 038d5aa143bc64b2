// The culling pass at the start of `tickUnits` (src/tick.ts:520-546): every
// active unit drops its dead soldiers from `soldierIds` in place; each dead
// soldier leaves an explosion and gives one spear to the opposing hand.
//
// `SweepUnit` is the pass over one unit's list, `CullUnit` its effect on the
// battle, and `CullUnitsUpTo` the pass over the first k active units; the
// methods run the game's loops and are proved to compute them. The three
// functions are total: an id that names no soldier, or a unit id that names
// no unit, is passed over, which a well-formed arena never asks of them.

module TickUnits {
  import opened Prelude
  import opened BattleData
  import TickExplosions

  /** What one unit's pass leaves: the surviving ids, in order, and one explosion per dead soldier. */
  datatype Sweep = Sweep(survivors: seq<Ref>, explosions: seq<SoldierExplosion>)

  /** A soldier whose health has run out. */
  predicate Dead(d: BattleStateData, id: Ref)
  {
    IsSoldier(d, id) && GetSoldier(d, id).health <= 0.0
  }

  function SweepUnit(d: BattleStateData, ids: seq<Ref>, allegiance: Allegiance): (r: Sweep)
    ensures |r.survivors| + |r.explosions| == |ids|
    decreases |ids|
  {
    if |ids| == 0 then Sweep([], [])
    else
      var rest := SweepUnit(d, ids[1..], allegiance);
      if Dead(d, ids[0]) then
        var soldier := GetSoldier(d, ids[0]);
        Sweep(rest.survivors,
              [TickExplosions.GetSoldierExplosion(allegiance, soldier.position, soldier.orientation)] + rest.explosions)
      else
        Sweep([ids[0]] + rest.survivors, rest.explosions)
  }

  /**
   * The pass works soldier by soldier: on a concatenation it is the two passes
   * put together, so survivors keep their order and explosions follow the deaths.
   */
  lemma {:induction false} SweepUnitAppend(d: BattleStateData, a: seq<Ref>, b: seq<Ref>, allegiance: Allegiance)
    ensures SweepUnit(d, a + b, allegiance)
      == Sweep(SweepUnit(d, a, allegiance).survivors + SweepUnit(d, b, allegiance).survivors,
               SweepUnit(d, a, allegiance).explosions + SweepUnit(d, b, allegiance).explosions)
    decreases |a|
  {
    if |a| == 0 {
      assert a + b == b;
    } else {
      var ab := a + b;
      assert ab[0] == a[0];
      assert ab[1..] == a[1..] + b;
      SweepUnitAppend(d, a[1..], b, allegiance);
      var ra := SweepUnit(d, a[1..], allegiance);
      var rb := SweepUnit(d, b, allegiance);
      if Dead(d, a[0]) {
        var s := GetSoldier(d, a[0]);
        var e := TickExplosions.GetSoldierExplosion(allegiance, s.position, s.orientation);
        assert [e] + (ra.explosions + rb.explosions) == ([e] + ra.explosions) + rb.explosions;
      } else {
        assert [a[0]] + (ra.survivors + rb.survivors) == ([a[0]] + ra.survivors) + rb.survivors;
      }
    }
  }

  /** A single soldier is kept when alive, and otherwise replaced by its explosion. */
  lemma SweepUnitSingle(d: BattleStateData, x: Ref, allegiance: Allegiance)
    requires IsSoldier(d, x)
    ensures var s := GetSoldier(d, x);
      SweepUnit(d, [x], allegiance)
        == if s.health > 0.0 then Sweep([x], [])
           else Sweep([], [TickExplosions.GetSoldierExplosion(allegiance, s.position, s.orientation)])
  {
    assert [x][1..] == [];
  }

  /**
   * The survivors are exactly the ids of the list that are not dead soldiers,
   * and every explosion starts at time 0 with the unit's allegiance, at the
   * place and facing of a dead soldier of the list.
   */
  lemma {:induction false} SweepUnitSpec(d: BattleStateData, ids: seq<Ref>, allegiance: Allegiance)
    ensures forall x :: x in SweepUnit(d, ids, allegiance).survivors <==> x in ids && !Dead(d, x)
    ensures forall e | e in SweepUnit(d, ids, allegiance).explosions ::
      e.timeInSeconds == 0.0 && e.allegiance == allegiance
      && exists x | x in ids :: Dead(d, x) && e.position == GetSoldier(d, x).position
                                && e.orientation == GetSoldier(d, x).orientation
    decreases |ids|
  {
    if |ids| > 0 {
      SweepUnitSpec(d, ids[1..], allegiance);
      assert forall x | x in ids[1..] :: x in ids;
      assert forall x | x in ids :: x == ids[0] || x in ids[1..];
    }
  }

  /** The game's reward for a kill: the explosions are recorded and the opponent's hand gains one spear each. */
  function Credit(d: BattleStateData, allegiance: Allegiance, explosions: seq<SoldierExplosion>): BattleStateData
  {
    var d1 := d.(soldierExplosions := d.soldierExplosions + explosions);
    if allegiance == Azuki then d1.(edamameHand := Hand(d.edamameHand.spearCount + |explosions|))
    else d1.(azukiHand := Hand(d.azukiHand.spearCount + |explosions|))
  }

  /** No soldier entity changes, and the arena keeps its size. */
  predicate SoldiersKept(d1: BattleStateData, d2: BattleStateData)
  {
    |d1.entities| == |d2.entities|
    && forall i | 0 <= i < |d1.entities| && d1.entities[i].SoldierEntity? :: d2.entities[i] == d1.entities[i]
  }

  /** The lists of active references and the kings stay as they are. */
  predicate RefsKept(d1: BattleStateData, d2: BattleStateData)
  {
    d2.activeUnitIds == d1.activeUnitIds && d2.activeTowerIds == d1.activeTowerIds
    && d2.activeDragonflyIds == d1.activeDragonflyIds
    && d2.azukiKingId == d1.azukiKingId && d2.edamameKingId == d1.edamameKingId
  }

  /** Spears handed out so far, minus explosions recorded so far: the pass keeps this fixed. */
  function SpearsMinusExplosions(d: BattleStateData): int
  {
    d.azukiHand.spearCount + d.edamameHand.spearCount - |d.soldierExplosions|
  }

  /** The effect of culling one unit: its list is swept and the dead are credited. */
  function CullUnit(d: BattleStateData, unitId: Ref): (r: BattleStateData)
    ensures RefsKept(d, r) && |r.entities| == |d.entities|
  {
    if !IsUnit(d, unitId) then d
    else
      var u := GetUnit(d, unitId);
      var sw := SweepUnit(d, u.soldierIds, u.allegiance);
      var d1 := Credit(d, u.allegiance, sw.explosions);
      d1.(entities := d1.entities[unitId.value := UnitEntity(u.(soldierIds := sw.survivors))])
  }

  /** Culling a unit whose soldiers all exist keeps the arena well formed. */
  lemma CullUnitKeepsWellFormed(d: BattleStateData, unitId: Ref)
    requires WellFormed(d) && IsUnit(d, unitId) && UnitValid(d, GetUnit(d, unitId))
    ensures WellFormed(CullUnit(d, unitId))
  {
    var u := GetUnit(d, unitId);
    var sw := SweepUnit(d, u.soldierIds, u.allegiance);
    var d1 := Credit(d, u.allegiance, sw.explosions);
    var u2 := u.(soldierIds := sw.survivors);
    SweepUnitSpec(d, u.soldierIds, u.allegiance);
    assert UnitValid(d1, u2) by {
      forall j | 0 <= j < |sw.survivors|
        ensures IsSoldier(d1, sw.survivors[j])
      {
        assert sw.survivors[j] in sw.survivors;
      }
    }
    assert WellFormed(d1) by {
      assert d1.entities == d.entities && RefsKept(d, d1);
    }
    ReplaceUnitKeepsWellFormed(d1, unitId, u2);
  }

  /** Culling a unit changes no entity's kind and no soldier, and no entity but the unit itself. */
  lemma CullUnitKeepsEntities(d: BattleStateData, unitId: Ref)
    ensures var r := CullUnit(d, unitId);
      KindsKept(d.entities, r.entities) && SoldiersKept(d, r)
      && forall i | 0 <= i < |d.entities| && i != unitId.value :: r.entities[i] == d.entities[i]
  {
  }

  /**
   * Culling a unit only appends to the explosion list, leaves the unit's own
   * hand alone, and hands out exactly one spear per new explosion.
   */
  lemma CullUnitCredits(d: BattleStateData, unitId: Ref)
    ensures var r := CullUnit(d, unitId);
      d.soldierExplosions <= r.soldierExplosions
      && SpearsMinusExplosions(r) == SpearsMinusExplosions(d)
      && (IsUnit(d, unitId) && GetUnit(d, unitId).allegiance == Azuki ==> r.azukiHand == d.azukiHand)
      && (IsUnit(d, unitId) && GetUnit(d, unitId).allegiance == Edamame ==> r.edamameHand == d.edamameHand)
  {
  }

  /** The effect of culling the first `k` active units in order. */
  function CullUnitsUpTo(d: BattleStateData, k: nat): (r: BattleStateData)
    requires k <= |d.activeUnitIds|
    ensures RefsKept(d, r) && |r.entities| == |d.entities|
    decreases k
  {
    if k == 0 then d
    else CullUnit(CullUnitsUpTo(d, k - 1), d.activeUnitIds[k - 1])
  }

  /** The whole pass keeps the arena well formed. */
  lemma {:induction false} CullUnitsUpToKeepsWellFormed(d: BattleStateData, k: nat)
    requires WellFormed(d) && k <= |d.activeUnitIds|
    ensures WellFormed(CullUnitsUpTo(d, k))
  {
    if k > 0 {
      CullUnitsUpToKeepsWellFormed(d, k - 1);
      var prev := CullUnitsUpTo(d, k - 1);
      assert prev.activeUnitIds == d.activeUnitIds;
      CullUnitKeepsWellFormed(prev, d.activeUnitIds[k - 1]);
    }
  }

  /** The whole pass changes no soldier and no entity's kind. */
  lemma {:induction false} CullUnitsUpToKeepsEntities(d: BattleStateData, k: nat)
    requires k <= |d.activeUnitIds|
    ensures var r := CullUnitsUpTo(d, k);
      KindsKept(d.entities, r.entities) && SoldiersKept(d, r)
  {
    if k > 0 {
      CullUnitsUpToKeepsEntities(d, k - 1);
      var prev := CullUnitsUpTo(d, k - 1);
      CullUnitKeepsEntities(prev, d.activeUnitIds[k - 1]);
      KindsKeptTransitive(d.entities, prev.entities, CullUnitsUpTo(d, k).entities);
    }
  }

  /** The whole pass only appends explosions, and hands out one spear per explosion. */
  lemma {:induction false} CullUnitsUpToCredits(d: BattleStateData, k: nat)
    requires k <= |d.activeUnitIds|
    ensures var r := CullUnitsUpTo(d, k);
      d.soldierExplosions <= r.soldierExplosions && SpearsMinusExplosions(r) == SpearsMinusExplosions(d)
  {
    if k > 0 {
      CullUnitsUpToCredits(d, k - 1);
      CullUnitCredits(CullUnitsUpTo(d, k - 1), d.activeUnitIds[k - 1]);
    }
  }

  /** The unit exists and none of the soldiers it lists is dead. */
  predicate NoDeadSoldiers(d: BattleStateData, unitId: Ref)
  {
    IsUnit(d, unitId) && forall x | x in GetUnit(d, unitId).soldierIds :: !Dead(d, x)
  }

  /** Culling one unit leaves no dead soldier in it. */
  lemma CulledUnitIsAlive(d: BattleStateData, x: Ref)
    requires IsUnit(d, x)
    ensures NoDeadSoldiers(CullUnit(d, x), x)
  {
    var r := CullUnit(d, x);
    var u := GetUnit(d, x);
    SweepUnitSpec(d, u.soldierIds, u.allegiance);
    CullUnitKeepsEntities(d, x);
    forall s | s in GetUnit(r, x).soldierIds
      ensures !Dead(r, s)
    {
      assert !Dead(d, s);
    }
  }

  /** Culling one unit does not make another unit's soldiers dead. */
  lemma CullKeepsOtherUnitAlive(d: BattleStateData, x: Ref, y: Ref)
    requires y != x && NoDeadSoldiers(d, y)
    ensures NoDeadSoldiers(CullUnit(d, x), y)
  {
    var r := CullUnit(d, x);
    CullUnitKeepsEntities(d, x);
    assert r.entities[y.value] == d.entities[y.value];
    forall s | s in GetUnit(r, y).soldierIds
      ensures !Dead(r, s)
    {
      assert !Dead(d, s);
    }
  }

  /** The `k`-th unit culled has no dead soldier right after. */
  lemma CulledLastIsAlive(d: BattleStateData, k: nat)
    requires 0 < k <= |d.activeUnitIds| && IsUnit(d, d.activeUnitIds[k - 1])
    ensures NoDeadSoldiers(CullUnitsUpTo(d, k), d.activeUnitIds[k - 1])
  {
    var prev := CullUnitsUpTo(d, k - 1);
    CullUnitsUpToKeepsEntities(d, k - 1);
    KindsKeptRefs(d, prev, d.activeUnitIds[k - 1]);
    CulledUnitIsAlive(prev, d.activeUnitIds[k - 1]);
  }

  /** Culling the `k`-th unit leaves another unit without dead soldiers if it had none. */
  lemma CulledOtherStaysAlive(d: BattleStateData, k: nat, y: Ref)
    requires 0 < k <= |d.activeUnitIds| && y != d.activeUnitIds[k - 1]
    requires NoDeadSoldiers(CullUnitsUpTo(d, k - 1), y)
    ensures NoDeadSoldiers(CullUnitsUpTo(d, k), y)
  {
    CullKeepsOtherUnitAlive(CullUnitsUpTo(d, k - 1), d.activeUnitIds[k - 1], y);
  }

  /** A unit among the first `k` active ones has no dead soldier once those `k` are culled. */
  lemma {:induction false} CulledUnitIsAliveAfter(d: BattleStateData, k: nat, y: Ref)
    requires k <= |d.activeUnitIds| && y in d.activeUnitIds[..k] && IsUnit(d, y)
    ensures NoDeadSoldiers(CullUnitsUpTo(d, k), y)
  {
    if y == d.activeUnitIds[k - 1] {
      CulledLastIsAlive(d, k);
    } else {
      assert d.activeUnitIds[..k] == d.activeUnitIds[..k - 1] + [d.activeUnitIds[k - 1]];
      CulledUnitIsAliveAfter(d, k - 1, y);
      CulledOtherStaysAlive(d, k, y);
    }
  }

  /** After culling the first `k` units of a well-formed arena, every soldier left in them is alive. */
  lemma CulledUnitsAreAlive(d: BattleStateData, k: nat)
    requires WellFormed(d) && k <= |d.activeUnitIds|
    ensures forall y | y in d.activeUnitIds[..k] ::
      IsUnit(CullUnitsUpTo(d, k), y)
      && forall s | s in GetUnit(CullUnitsUpTo(d, k), y).soldierIds ::
           IsSoldier(CullUnitsUpTo(d, k), s) && GetSoldier(CullUnitsUpTo(d, k), s).health > 0.0
  {
    var r := CullUnitsUpTo(d, k);
    CullUnitsUpToKeepsWellFormed(d, k);
    forall y | y in d.activeUnitIds[..k]
      ensures IsUnit(r, y) && forall s | s in GetUnit(r, y).soldierIds :: IsSoldier(r, s) && GetSoldier(r, s).health > 0.0
    {
      var i :| 0 <= i < k && d.activeUnitIds[..k][i] == y;
      assert d.activeUnitIds[i] == y;
      CulledUnitIsAliveAfter(d, k, y);
      assert r.activeUnitIds[i] == y;
      forall s | s in GetUnit(r, y).soldierIds
        ensures IsSoldier(r, s) && GetSoldier(r, s).health > 0.0
      {
        var j :| 0 <= j < |GetUnit(r, y).soldierIds| && GetUnit(r, y).soldierIds[j] == s;
        assert !Dead(r, s);
      }
    }
  }

  /**
   * The state of the loop below: `kept` and `added` are the pass over the first
   * `j` ids, and the list is `kept` followed by the ids from `j` on.
   */
  predicate SweepLoop(d: BattleStateData, ids: seq<Ref>, a: Allegiance, j: int,
                      kept: seq<Ref>, added: seq<SoldierExplosion>, soldierIds: seq<Ref>, i: int)
  {
    0 <= j <= |ids| && i == |kept| && soldierIds == kept + ids[j..]
    && SweepUnit(d, ids[..j], a) == Sweep(kept, added)
  }

  /** The pass over the first `j + 1` ids is the pass over the first `j`, then over the next one. */
  lemma SweepLoopNext(d: BattleStateData, ids: seq<Ref>, a: Allegiance, j: int)
    requires 0 <= j < |ids|
    ensures SweepUnit(d, ids[..j + 1], a)
      == Sweep(SweepUnit(d, ids[..j], a).survivors + SweepUnit(d, [ids[j]], a).survivors,
               SweepUnit(d, ids[..j], a).explosions + SweepUnit(d, [ids[j]], a).explosions)
  {
    assert ids[..j + 1] == ids[..j] + [ids[j]];
    SweepUnitAppend(d, ids[..j], [ids[j]], a);
  }

  /** Splicing out a dead soldier keeps the loop state, with its explosion `e` added. */
  lemma SweepLoopDead(d: BattleStateData, ids: seq<Ref>, a: Allegiance, j: int,
                      kept: seq<Ref>, added: seq<SoldierExplosion>, soldierIds: seq<Ref>, i: int,
                      e: SoldierExplosion)
    requires SweepLoop(d, ids, a, j, kept, added, soldierIds, i) && j < |ids| && Dead(d, ids[j])
    requires e == TickExplosions.GetSoldierExplosion(a, GetSoldier(d, ids[j]).position, GetSoldier(d, ids[j]).orientation)
    ensures i < |soldierIds| && soldierIds[i] == ids[j]
    ensures SweepLoop(d, ids, a, j + 1, kept, added + [e], soldierIds[..i] + soldierIds[i + 1..], i)
  {
    assert soldierIds[..i] == kept;
    assert soldierIds[i + 1..] == ids[j + 1..];
    SweepLoopNext(d, ids, a, j);
    SweepUnitSingle(d, ids[j], a);
    assert kept + [] == kept;
  }

  /** Stepping past a soldier that is not dead keeps the loop state, with the soldier kept. */
  lemma SweepLoopAlive(d: BattleStateData, ids: seq<Ref>, a: Allegiance, j: int,
                       kept: seq<Ref>, added: seq<SoldierExplosion>, soldierIds: seq<Ref>, i: int)
    requires SweepLoop(d, ids, a, j, kept, added, soldierIds, i) && j < |ids| && !Dead(d, ids[j])
    ensures i < |soldierIds| && soldierIds[i] == ids[j]
    ensures SweepLoop(d, ids, a, j + 1, kept + [ids[j]], added, soldierIds, i + 1)
  {
    assert ids[j..] == [ids[j]] + ids[j + 1..];
    assert soldierIds == (kept + [ids[j]]) + ids[j + 1..];
    SweepLoopNext(d, ids, a, j);
    assert [ids[j]][1..] == [];
    assert added + [] == added;
  }

  /** One more explosion after the battle's and the pass's own. */
  lemma ExplosionSnoc(before: seq<SoldierExplosion>, added: seq<SoldierExplosion>, e: SoldierExplosion)
    ensures (before + added) + [e] == before + (added + [e])
  {
  }

  /** The loop state at the start of the list, and at its end. */
  lemma SweepLoopBounds(d: BattleStateData, ids: seq<Ref>, a: Allegiance, j: int,
                        kept: seq<Ref>, added: seq<SoldierExplosion>, soldierIds: seq<Ref>, i: int)
    ensures SweepLoop(d, ids, a, 0, [], [], ids, 0)
    ensures SweepLoop(d, ids, a, j, kept, added, soldierIds, i) ==> (i < |soldierIds| <==> j < |ids|)
    ensures SweepLoop(d, ids, a, j, kept, added, soldierIds, i) && i < |soldierIds| ==> soldierIds[i] == ids[j]
    ensures SweepLoop(d, ids, a, j, kept, added, soldierIds, i) && j == |ids| ==>
      soldierIds == kept && SweepUnit(d, ids, a) == Sweep(kept, added)
  {
    assert ids[0..] == ids && [] + ids == ids && ids[..0] == [];
    if SweepLoop(d, ids, a, j, kept, added, soldierIds, i) && j == |ids| {
      assert ids[j..] == [] && kept + [] == kept && ids[..j] == ids;
    }
  }

  /**
   * The inner loop of the culling pass over one unit's list: a dead soldier's
   * explosion is pushed, the opposing hand gains a spear, the soldier is
   * `splice`d out, and the index is stepped back so the next one is not skipped.
   */
  method SweepSoldiers(d0: BattleStateData, ids: seq<Ref>, a: Allegiance)
    returns (explosions: seq<SoldierExplosion>, opponentHand: Hand, soldierIds: seq<Ref>)
    requires SoldierIdsValid(d0, ids)
    ensures soldierIds == SweepUnit(d0, ids, a).survivors
    ensures explosions == d0.soldierExplosions + SweepUnit(d0, ids, a).explosions
    ensures opponentHand.spearCount
      == (if a == Azuki then d0.edamameHand else d0.azukiHand).spearCount + |SweepUnit(d0, ids, a).explosions|
  {
    explosions := d0.soldierExplosions;
    opponentHand := if a == Azuki then d0.edamameHand else d0.azukiHand;
    ghost var spears0 := opponentHand.spearCount;
    soldierIds := ids;
    ghost var j := 0;
    ghost var added: seq<SoldierExplosion> := [];
    ghost var kept: seq<Ref> := [];
    SweepLoopBounds(d0, ids, a, j, kept, added, soldierIds, 0);
    var i := 0;
    while i < |soldierIds|
      invariant SweepLoop(d0, ids, a, j, kept, added, soldierIds, i)
      invariant explosions == d0.soldierExplosions + added && opponentHand.spearCount == spears0 + |added|
      decreases |ids| - j
    {
      SweepLoopBounds(d0, ids, a, j, kept, added, soldierIds, i);
      var soldierId := soldierIds[i];
      var soldier := GetSoldier(d0, soldierId);
      if soldier.health <= 0.0 {
        var explosion := TickExplosions.GetSoldierExplosion(a, soldier.position, soldier.orientation);
        SweepLoopDead(d0, ids, a, j, kept, added, soldierIds, i, explosion);
        ExplosionSnoc(d0.soldierExplosions, added, explosion);
        explosions := explosions + [explosion];
        opponentHand := Hand(opponentHand.spearCount + 1);
        soldierIds := soldierIds[..i] + soldierIds[i + 1..];
        added := added + [explosion];
        j := j + 1;
        assert SweepLoop(d0, ids, a, j, kept, added, soldierIds, i);
      } else {
        SweepLoopAlive(d0, ids, a, j, kept, added, soldierIds, i);
        kept := kept + [soldierId];
        i := i + 1;
        j := j + 1;
        assert SweepLoop(d0, ids, a, j, kept, added, soldierIds, i);
      }
    }
    SweepLoopBounds(d0, ids, a, j, kept, added, soldierIds, i);
  }

  /** Culling one unit: sweep its list, then store the survivors, the explosions and the hand. */
  method CullDeadSoldiersOfUnit(battle: BattleState, unitId: Ref)
    requires IsUnit(battle.data, unitId) && SoldierIdsValid(battle.data, GetUnit(battle.data, unitId).soldierIds)
    modifies battle
    ensures battle.data == CullUnit(old(battle.data), unitId)
  {
    var unit := GetUnit(battle.data, unitId);
    var explosions, hand, soldierIds := SweepSoldiers(battle.data, unit.soldierIds, unit.allegiance);
    var data := battle.data.(soldierExplosions := explosions);
    if unit.allegiance == Azuki {
      data := data.(edamameHand := hand);
    } else {
      data := data.(azukiHand := hand);
    }
    battle.data := data.(entities := data.entities[unitId.value := UnitEntity(unit.(soldierIds := soldierIds))]);
  }

  /** The culling pass over all active units, in order (the first loop of `tickUnits`). */
  method CullDeadSoldiers(battle: BattleState)
    requires WellFormed(battle.data)
    modifies battle
    ensures battle.data == CullUnitsUpTo(old(battle.data), |old(battle.data).activeUnitIds|)
    ensures WellFormed(battle.data)
  {
    ghost var d0 := battle.data;
    var unitIds := battle.data.activeUnitIds;
    for k := 0 to |unitIds|
      invariant battle.data == CullUnitsUpTo(d0, k) && WellFormed(battle.data)
    {
      assert battle.data.activeUnitIds == unitIds;
      CullUnitKeepsWellFormed(battle.data, unitIds[k]);
      CullDeadSoldiersOfUnit(battle, unitIds[k]);
    }
  }
}
