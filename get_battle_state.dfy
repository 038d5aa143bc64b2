// The opening battle (src/getBattleState.ts): two kings, the Azuki king's
// dragonfly, one 10 by 10 legion per side and fourteen banner towers, all
// pushed into one entity array whose indices are the references. Soldier
// positions in a legion come from a three.js vector computation (sine and
// cosine of the yaw, a rotation about the Y axis and the fixed gaps 8 and
// 8·√3/2); that computation is the parameter `place`.

module GetBattleState {
  import opened Prelude
  import opened GeoUtils
  import opened BattleData

  /** The position of the soldier in column `right` and rank `back` of a legion starting at `start` facing `yaw`. */
  type Placement = (Triple, real, nat, nat) -> Triple

  /** The growing entity array the opening battle is built in. */
  class EntityArray {
    var entities: seq<Entity>

    constructor()
      ensures entities == []
    {
      entities := [];
    }

    method Push(e: Entity)
      modifies this
      ensures entities == old(entities) + [e]
    {
      entities := entities + [e];
    }
  }

  /** `getSoldier`: an idle soldier at full health at the given coordinates. */
  function IdleSoldier(x: real, y: real, z: real): (s: Soldier)
    ensures s.position == [x, y, z] && s.animation == SoldierAnimationState(Idle, 0.0)
    ensures s.attackTargetId.None? && s.health == 100.0 && s.orientation == Orientation(0.0, 0.0, 0.0)
  {
    Soldier([x, y, z], SoldierAnimationState(Idle, 0.0), None, 100.0, Orientation(0.0, 0.0, 0.0), [0.0, 0.0, 0.0])
  }

  /** The soldier `getUnit` makes for one grid cell: idle, at full health, facing the legion's yaw. */
  function LegionSoldier(place: Placement, start: Triple, yaw: real, right: nat, back: nat): Soldier
  {
    var p := place(start, yaw, right, back);
    IdleSoldier(p[0], p[1], p[2]).(orientation := Orientation(yaw, 0.0, 0.0))
  }

  /** The soldiers of column `right`, front rank first. */
  function Column(place: Placement, start: Triple, yaw: real, right: nat, height: nat): (c: seq<Soldier>)
    ensures |c| == height
  {
    seq(height, back requires 0 <= back < height => LegionSoldier(place, start, yaw, right, back))
  }

  /** The soldiers of the first `width` columns, column by column. */
  function Grid(place: Placement, start: Triple, yaw: real, width: nat, height: nat): seq<Soldier>
  {
    if width == 0 then [] else Grid(place, start, yaw, width - 1, height) + Column(place, start, yaw, width - 1, height)
  }

  lemma ColumnOffset(r: nat, w: nat, h: nat, b: nat)
    requires r < w && b < h
    ensures r * h + b < w * h
    ensures r < w - 1 ==> r * h + b < (w - 1) * h
    ensures (w - 1) * h + h == w * h
  {
    assert (r + 1) * h <= w * h by { MulMonoNat(r + 1, w, h); }
    if r < w - 1 {
      assert (r + 1) * h <= (w - 1) * h by { MulMonoNat(r + 1, w - 1, h); }
    }
  }

  lemma MulMonoNat(a: nat, b: nat, h: nat)
    requires a <= b
    ensures a * h <= b * h
  {
    assert b * h - a * h == (b - a) * h;
  }

  lemma {:induction false} GridLength(place: Placement, start: Triple, yaw: real, width: nat, height: nat)
    ensures |Grid(place, start, yaw, width, height)| == width * height
  {
    if width > 0 {
      GridLength(place, start, yaw, width - 1, height);
      assert (width - 1) * height + height == width * height;
    }
  }

  lemma {:induction false} GridCell(place: Placement, start: Triple, yaw: real, width: nat, height: nat, r: nat, b: nat)
    requires r < width && b < height
    ensures r * height + b < |Grid(place, start, yaw, width, height)|
    ensures Grid(place, start, yaw, width, height)[r * height + b] == LegionSoldier(place, start, yaw, r, b)
  {
    GridLength(place, start, yaw, width, height);
    GridLength(place, start, yaw, width - 1, height);
    ColumnOffset(r, width, height, b);
    var front := Grid(place, start, yaw, width - 1, height);
    if r < width - 1 {
      GridCell(place, start, yaw, width - 1, height, r, b);
    } else {
      assert r * height + b == |front| + b;
    }
  }

  /** The grid holds `width * height` soldiers, and cell (right, back) sits at index right * height + back. */
  lemma {:induction false} GridIndex(place: Placement, start: Triple, yaw: real, width: nat, height: nat)
    ensures |Grid(place, start, yaw, width, height)| == width * height
    ensures forall r, b | 0 <= r < width && 0 <= b < height ::
      r * height + b < width * height
      && Grid(place, start, yaw, width, height)[r * height + b] == LegionSoldier(place, start, yaw, r, b)
  {
    GridLength(place, start, yaw, width, height);
    forall r, b | 0 <= r < width && 0 <= b < height
      ensures r * height + b < width * height
      ensures Grid(place, start, yaw, width, height)[r * height + b] == LegionSoldier(place, start, yaw, r, b)
    {
      GridCell(place, start, yaw, width, height, r, b);
    }
  }

  /** The references `getUnit` hands out: consecutive indices from `base`. */
  function ConsecutiveRefs(base: nat, n: nat): (ids: seq<Ref>)
    ensures |ids| == n && forall i | 0 <= i < n :: ids[i].value == base + i
  {
    seq(n, i requires 0 <= i < n => Ref(base + i))
  }

  function SoldierEntities(ss: seq<Soldier>): (es: seq<Entity>)
    ensures |es| == |ss| && forall i | 0 <= i < |ss| :: es[i] == SoldierEntity(ss[i])
  {
    seq(|ss|, i requires 0 <= i < |ss| => SoldierEntity(ss[i]))
  }

  /** The legion `getUnit` returns: under the Storm order, not selected, not a preview, complete. */
  function Legion(soldierIds: seq<Ref>, yaw: real, allegiance: Allegiance): Unit
  {
    Unit(false, Storm, soldierIds, None, Some(yaw), false, allegiance, false)
  }

  /**
   * `getUnit`: builds the legion's soldiers column by column, then pushes them
   * onto the entity array, each one's reference being the array's length
   * just before its push.
   */
  method GetUnit(arena: EntityArray, start: Triple, yaw: real, width: nat, height: nat,
                 allegiance: Allegiance, place: Placement)
    returns (unit: Unit)
    modifies arena
    ensures arena.entities == old(arena.entities) + SoldierEntities(Grid(place, start, yaw, width, height))
    ensures unit == Legion(ConsecutiveRefs(|old(arena.entities)|, width * height), yaw, allegiance)
  {
    var soldiers: seq<Soldier> := [];
    for right := 0 to width
      invariant soldiers == Grid(place, start, yaw, right, height)
    {
      ghost var column := Column(place, start, yaw, right, height);
      for back := 0 to height
        invariant soldiers == Grid(place, start, yaw, right, height) + column[..back]
      {
        var soldierPosition := place(start, yaw, right, back);
        var soldier := IdleSoldier(soldierPosition[0], soldierPosition[1], soldierPosition[2]);
        soldier := soldier.(orientation := soldier.orientation.(yaw := yaw));
        assert column[..back + 1] == column[..back] + [soldier];
        soldiers := soldiers + [soldier];
      }
      assert column[..height] == column;
    }
    GridIndex(place, start, yaw, width, height);
    ghost var base := |arena.entities|;
    var soldierIds: seq<Ref> := [];
    for i := 0 to |soldiers|
      invariant soldierIds == ConsecutiveRefs(base, i)
      invariant arena.entities == old(arena.entities) + SoldierEntities(soldiers[..i])
    {
      soldierIds := soldierIds + [Ref(|arena.entities|)];
      arena.Push(SoldierEntity(soldiers[i]));
      assert SoldierEntities(soldiers[..i + 1]) == SoldierEntities(soldiers[..i]) + [SoldierEntity(soldiers[i])];
    }
    assert soldiers[..|soldiers|] == soldiers;
    unit := Legion(soldierIds, yaw, allegiance);
  }

  /** `getBannerTower`: a live tower with an empty queue and its timer at 0. */
  function NewBannerTower(position: Triple, allegiance: Allegiance): (t: BannerTower)
    ensures t.position == position && t.allegiance == allegiance
    ensures !t.isPreview && t.pendingUnits == [] && t.secondsUntilNextSoldier == 0.0
  {
    BannerTower(position, false, allegiance, [], 0.0)
  }

  function DefaultAzukiKing(): King
  {
    King(Soldier([0.0, 0.0, 20.0], SoldierAnimationState(Idle, 0.0), None, 100.0, Orientation(0.0, 0.0, 0.0), [0.0, 0.0, 0.0]),
         false, None, 0.0)
  }

  function DefaultEdamameKing(): King
  {
    King(Soldier([0.0, 0.0, -100.0], SoldierAnimationState(Idle, 0.0), None, 100.0, Orientation(PI, 0.0, 0.0), [0.0, 0.0, 0.0]),
         false, None, 0.0)
  }

  function DefaultDragonfly(): Dragonfly
  {
    Dragonfly([0.0, 2.5, 25.0], Orientation(0.0, 0.0, 0.0), Resting, 30.0, DragonflyIdle, 0.0, 0.0)
  }

  const EDAMAME_TOWER_POSITIONS: seq<Triple> := [
    [-50.0, 0.0, -100.0], [50.0, 0.0, -100.0], [400.0, 0.0, -400.0], [-400.0, 0.0, -400.0],
    [0.0, 0.0, -1000.0], [700.0, 0.0, -1600.0], [-700.0, 0.0, -1600.0]]

  const AZUKI_TOWER_POSITIONS: seq<Triple> := [
    [-50.0, 0.0, 100.0], [50.0, 0.0, 100.0], [400.0, 0.0, 400.0], [-400.0, 0.0, 400.0],
    [0.0, 0.0, 1000.0], [700.0, 0.0, 1600.0], [-700.0, 0.0, 1600.0]]

  const LEGION_SIZE: nat := 10

  /** Pushes a tower and returns its index, which is where `entities.indexOf` later finds it. */
  method PushTower(arena: EntityArray, position: Triple, allegiance: Allegiance) returns (r: Ref)
    modifies arena
    ensures arena.entities == old(arena.entities) + [TowerEntity(NewBannerTower(position, allegiance))]
    ensures r == Ref(|old(arena.entities)|)
  {
    r := Ref(|arena.entities|);
    arena.Push(TowerEntity(NewBannerTower(position, allegiance)));
  }

  /** The first three entities of the opening battle: both kings and the Azuki king's dragonfly. */
  function KingsAndDragonfly(): seq<Entity>
  {
    [KingEntity(DefaultAzukiKing()), KingEntity(DefaultEdamameKing()), DragonflyEntity(DefaultDragonfly())]
  }

  /** `es` followed by a 10 by 10 legion's soldiers and then the legion itself, naming them by index. */
  function WithLegion(es: seq<Entity>, start: Triple, yaw: real, allegiance: Allegiance, place: Placement): (r: seq<Entity>)
    ensures |r| == |es| + LEGION_SIZE * LEGION_SIZE + 1
  {
    GridLength(place, start, yaw, LEGION_SIZE, LEGION_SIZE);
    es + SoldierEntities(Grid(place, start, yaw, LEGION_SIZE, LEGION_SIZE))
    + [UnitEntity(Legion(ConsecutiveRefs(|es|, LEGION_SIZE * LEGION_SIZE), yaw, allegiance))]
  }

  /** The entities the opening battle is built from, in push order. */
  function DefaultEntities(place: Placement): seq<Entity>
  {
    var legions := WithLegion(WithLegion(KingsAndDragonfly(), [-50.0, 0.0, 70.0], 0.0, Azuki, place),
                              [50.0, 0.0, -70.0], PI, Edamame, place);
    legions + TowerEntities(EDAMAME_TOWER_POSITIONS, Edamame) + TowerEntities(AZUKI_TOWER_POSITIONS, Azuki)
  }

  /** The opening battle, with the references `getDefaultBattleState` computes by `indexOf`. */
  function DefaultBattleState(place: Placement): BattleStateData
  {
    BattleStateData(
      DefaultEntities(place),
      Ref(0), Ref(1),
      [Ref(103), Ref(204)],
      SevenRefs(212) + SevenRefs(205),
      [Ref(2)],
      Hand(0), Hand(0), [], NoCommand)
  }

  /** The pushes of one side's seven towers, in the order of `positions`. */
  function TowerEntities(positions: seq<Triple>, allegiance: Allegiance): (es: seq<Entity>)
    ensures |es| == |positions|
    ensures forall k | 0 <= k < |positions| :: es[k] == TowerEntity(NewBannerTower(positions[k], allegiance))
  {
    seq(|positions|, k requires 0 <= k < |positions| => TowerEntity(NewBannerTower(positions[k], allegiance)))
  }

  /** Seven consecutive references from `base`, as the seven tower pushes of one side yield. */
  function SevenRefs(base: nat): (ids: seq<Ref>)
    ensures |ids| == 7 && forall k | 0 <= k < 7 :: ids[k] == Ref(base + k)
  {
    seq(7, k requires 0 <= k < 7 => Ref(base + k))
  }

  /** The seven `getBannerTower` pushes of one side, in source order. */
  method PushSideTowers(arena: EntityArray, positions: seq<Triple>, allegiance: Allegiance)
    returns (ids: seq<Ref>)
    requires |positions| == 7
    modifies arena
    ensures arena.entities == old(arena.entities) + TowerEntities(positions, allegiance)
    ensures ids == SevenRefs(|old(arena.entities)|)
  {
    var t0 := PushTower(arena, positions[0], allegiance);
    var t1 := PushTower(arena, positions[1], allegiance);
    var t2 := PushTower(arena, positions[2], allegiance);
    var t3 := PushTower(arena, positions[3], allegiance);
    var t4 := PushTower(arena, positions[4], allegiance);
    var t5 := PushTower(arena, positions[5], allegiance);
    var t6 := PushTower(arena, positions[6], allegiance);
    assert arena.entities == old(arena.entities) + TowerEntities(positions, allegiance);
    ids := [t0, t1, t2, t3, t4, t5, t6];
  }

  /** A legion built by `getUnit` and then pushed itself, right after its soldiers. */
  method PushLegion(arena: EntityArray, start: Triple, yaw: real, allegiance: Allegiance, place: Placement)
    returns (unitId: Ref)
    modifies arena
    ensures arena.entities == WithLegion(old(arena.entities), start, yaw, allegiance, place)
    ensures unitId == Ref(|old(arena.entities)| + LEGION_SIZE * LEGION_SIZE)
  {
    var legion := GetUnit(arena, start, yaw, LEGION_SIZE, LEGION_SIZE, allegiance, place);
    GridLength(place, start, yaw, LEGION_SIZE, LEGION_SIZE);
    unitId := Ref(|arena.entities|);
    arena.Push(UnitEntity(legion));
  }

  /**
   * `getDefaultBattleState`. Each entity is pushed once, so the `indexOf`
   * the game uses to find its reference afterwards is the length of the
   * array just before its push, which is what is recorded here.
   */
  method GetDefaultBattleState(place: Placement) returns (d: BattleStateData)
    ensures d == DefaultBattleState(place)
  {
    var entities := new EntityArray();

    var azukiKing := DefaultAzukiKing();
    var azukiKingId := Ref(|entities.entities|);
    entities.Push(KingEntity(azukiKing));

    var edamameKing := DefaultEdamameKing();
    var edamameKingId := Ref(|entities.entities|);
    entities.Push(KingEntity(edamameKing));

    var azukiKingDragonfly := DefaultDragonfly();
    var azukiKingDragonflyId := Ref(|entities.entities|);
    entities.Push(DragonflyEntity(azukiKingDragonfly));

    ghost var e0 := entities.entities;
    assert e0 == KingsAndDragonfly();
    var azukiLegionId := PushLegion(entities, [-50.0, 0.0, 70.0], 0.0, Azuki, place);
    var edamameLegionId := PushLegion(entities, [50.0, 0.0, -70.0], PI, Edamame, place);

    var edamameTowerIds := PushSideTowers(entities, EDAMAME_TOWER_POSITIONS, Edamame);
    var azukiTowerIds := PushSideTowers(entities, AZUKI_TOWER_POSITIONS, Azuki);
    assert entities.entities == DefaultEntities(place);
    var activeTowerIds := azukiTowerIds + edamameTowerIds;

    d := BattleStateData(
      entities.entities,
      azukiKingId, edamameKingId,
      [azukiLegionId, edamameLegionId],
      activeTowerIds,
      [azukiKingDragonflyId],
      Hand(0), Hand(0), [], NoCommand);
  }

  /** Where `WithLegion` puts things: the old entities, the legion's soldiers in grid order, then the legion. */
  lemma WithLegionLayout(es: seq<Entity>, start: Triple, yaw: real, allegiance: Allegiance, place: Placement)
    ensures var r := WithLegion(es, start, yaw, allegiance, place);
      var n := LEGION_SIZE * LEGION_SIZE;
      (forall i | 0 <= i < |es| :: r[i] == es[i])
      && (forall i | 0 <= i < n :: r[|es| + i] == SoldierEntity(Grid(place, start, yaw, LEGION_SIZE, LEGION_SIZE)[i]))
      && r[|es| + n] == UnitEntity(Legion(ConsecutiveRefs(|es|, n), yaw, allegiance))
  {
    GridLength(place, start, yaw, LEGION_SIZE, LEGION_SIZE);
  }

  /** The Azuki legion's starting corner, and the Edamame legion's. */
  const AZUKI_LEGION_START: Triple := [-50.0, 0.0, 70.0]
  const EDAMAME_LEGION_START: Triple := [50.0, 0.0, -70.0]

  /**
   * A legion of the opening battle: under Storm and complete, its 100
   * soldiers at consecutive references from `base`, the `j`th of them in
   * column `j / 10` and rank `j % 10` as `place` puts it.
   */
  predicate LegionAt(d: BattleStateData, unitId: Ref, base: nat, start: Triple, yaw: real, allegiance: Allegiance, place: Placement)
  {
    IsUnit(d, unitId)
    && BattleData.GetUnit(d, unitId) == Legion(ConsecutiveRefs(base, LEGION_SIZE * LEGION_SIZE), yaw, allegiance)
    && var ids := BattleData.GetUnit(d, unitId).soldierIds;
       forall j | 0 <= j < |ids| ::
         IsSoldier(d, ids[j]) && GetSoldier(d, ids[j]) == LegionSoldier(place, start, yaw, j / LEGION_SIZE, j % LEGION_SIZE)
  }

  /** A legion pushed after the entities `es` sits, with its soldiers, at the matching place of any arena that starts that way. */
  lemma {:induction false} LegionInArena(d: BattleStateData, es: seq<Entity>, start: Triple, yaw: real, allegiance: Allegiance, place: Placement)
    requires |es| + LEGION_SIZE * LEGION_SIZE + 1 <= |d.entities|
    requires d.entities[..|es| + LEGION_SIZE * LEGION_SIZE + 1] == WithLegion(es, start, yaw, allegiance, place)
    ensures LegionAt(d, Ref(|es| + LEGION_SIZE * LEGION_SIZE), |es|, start, yaw, allegiance, place)
  {
    var w := WithLegion(es, start, yaw, allegiance, place);
    var g := Grid(place, start, yaw, LEGION_SIZE, LEGION_SIZE);
    WithLegionLayout(es, start, yaw, allegiance, place);
    GridIndex(place, start, yaw, LEGION_SIZE, LEGION_SIZE);
    assert d.entities[|es| + LEGION_SIZE * LEGION_SIZE] == w[|es| + LEGION_SIZE * LEGION_SIZE];
    var ids := ConsecutiveRefs(|es|, LEGION_SIZE * LEGION_SIZE);
    forall j | 0 <= j < |ids|
      ensures IsSoldier(d, ids[j])
      ensures GetSoldier(d, ids[j]) == LegionSoldier(place, start, yaw, j / LEGION_SIZE, j % LEGION_SIZE)
    {
      var r, b := j / LEGION_SIZE, j % LEGION_SIZE;
      assert j == r * LEGION_SIZE + b;
      assert g[r * LEGION_SIZE + b] == LegionSoldier(place, start, yaw, r, b);
      assert d.entities[|es| + j] == w[|es| + j] == SoldierEntity(g[j]);
    }
    assert BattleData.GetUnit(d, Ref(|es| + LEGION_SIZE * LEGION_SIZE)) == Legion(ConsecutiveRefs(|es|, LEGION_SIZE * LEGION_SIZE), yaw, allegiance);
  }

  /** Both legions of the opening battle, each right after the entities pushed before it. */
  lemma {:induction false} DefaultLegions(place: Placement)
    ensures var d := DefaultBattleState(place);
      |d.entities| == 219
      && LegionAt(d, Ref(103), 3, AZUKI_LEGION_START, 0.0, Azuki, place)
      && LegionAt(d, Ref(204), 104, EDAMAME_LEGION_START, PI, Edamame, place)
      && d.entities[..3] == KingsAndDragonfly()
  {
    var d := DefaultBattleState(place);
    var e0 := KingsAndDragonfly();
    var e1 := WithLegion(e0, AZUKI_LEGION_START, 0.0, Azuki, place);
    var e2 := WithLegion(e1, EDAMAME_LEGION_START, PI, Edamame, place);
    assert d.entities == e2 + TowerEntities(EDAMAME_TOWER_POSITIONS, Edamame) + TowerEntities(AZUKI_TOWER_POSITIONS, Azuki);
    assert d.entities[..205] == e2;
    assert e2[..104] == e1;
    assert d.entities[..104] == e1;
    assert e1[..3] == e0;
    LegionInArena(d, e0, AZUKI_LEGION_START, 0.0, Azuki, place);
    LegionInArena(d, e1, EDAMAME_LEGION_START, PI, Edamame, place);
  }

  /** The fourteen towers of the opening battle: the Edamame side's at 205 to 211, then the Azuki side's at 212 to 218. */
  lemma {:induction false} DefaultTowers(place: Placement)
    ensures var d := DefaultBattleState(place);
      |d.entities| == 219
      && (forall k | 0 <= k < 7 :: d.entities[205 + k] == TowerEntity(NewBannerTower(EDAMAME_TOWER_POSITIONS[k], Edamame)))
      && (forall k | 0 <= k < 7 :: d.entities[212 + k] == TowerEntity(NewBannerTower(AZUKI_TOWER_POSITIONS[k], Azuki)))
  {
    var d := DefaultBattleState(place);
    var e2 := WithLegion(WithLegion(KingsAndDragonfly(), AZUKI_LEGION_START, 0.0, Azuki, place), EDAMAME_LEGION_START, PI, Edamame, place);
    assert |e2| == 205;
    assert d.entities == e2 + TowerEntities(EDAMAME_TOWER_POSITIONS, Edamame) + TowerEntities(AZUKI_TOWER_POSITIONS, Azuki);
  }

  /** Seven references from `base` name the seven towers of one side pushed there. */
  lemma {:induction false} SideTowersAt(d: BattleStateData, ids: seq<Ref>, base: nat, positions: seq<Triple>, allegiance: Allegiance)
    requires ids == SevenRefs(base) && |positions| == 7 && base + 7 <= |d.entities|
    requires forall k | 0 <= k < 7 :: d.entities[base + k] == TowerEntity(NewBannerTower(positions[k], allegiance))
    ensures forall k | 0 <= k < 7 ::
      IsTower(d, ids[k]) && GetBannerTower(d, ids[k]) == NewBannerTower(positions[k], allegiance) && ids[k].value == base + k
  {
    forall k | 0 <= k < 7
      ensures IsTower(d, ids[k]) && GetBannerTower(d, ids[k]) == NewBannerTower(positions[k], allegiance) && ids[k].value == base + k
    {
      assert ids[k] == Ref(base + k);
      assert d.entities[base + k] == TowerEntity(NewBannerTower(positions[k], allegiance));
    }
  }

  /** The active towers of the opening battle: the seven Azuki towers, then the seven Edamame towers pushed before them. */
  lemma {:induction false} DefaultActiveTowers(place: Placement)
    ensures var d := DefaultBattleState(place);
      |d.activeTowerIds| == 14
      && (forall i | 0 <= i < 14 :: IsTower(d, d.activeTowerIds[i]))
      && (forall i | 0 <= i < 7 ::
            GetBannerTower(d, d.activeTowerIds[i]) == NewBannerTower(AZUKI_TOWER_POSITIONS[i], Azuki))
      && (forall i | 7 <= i < 14 ::
            GetBannerTower(d, d.activeTowerIds[i]) == NewBannerTower(EDAMAME_TOWER_POSITIONS[i - 7], Edamame)
            && d.activeTowerIds[i].value < d.activeTowerIds[i - 7].value)
  {
    var d := DefaultBattleState(place);
    DefaultTowers(place);
    var azuki, edamame := SevenRefs(212), SevenRefs(205);
    SideTowersAt(d, azuki, 212, AZUKI_TOWER_POSITIONS, Azuki);
    SideTowersAt(d, edamame, 205, EDAMAME_TOWER_POSITIONS, Edamame);
    assert d.activeTowerIds == azuki + edamame;
    assert forall i | 0 <= i < 7 :: d.activeTowerIds[i] == azuki[i];
    assert forall i | 7 <= i < 14 :: d.activeTowerIds[i] == edamame[i - 7];
  }

  /** The kings and the dragonfly of the opening battle, at references 0, 1 and 2. */
  lemma {:induction false} DefaultKings(place: Placement)
    ensures var d := DefaultBattleState(place);
      IsKing(d, d.azukiKingId) && IsKing(d, d.edamameKingId)
      && GetKing(d, d.azukiKingId) == DefaultAzukiKing() && GetKing(d, d.edamameKingId) == DefaultEdamameKing()
      && |d.activeDragonflyIds| == 1 && IsDragonfly(d, d.activeDragonflyIds[0])
      && GetDragonfly(d, d.activeDragonflyIds[0]) == DefaultDragonfly()
  {
    var d := DefaultBattleState(place);
    DefaultLegions(place);
    assert d.entities[0] == d.entities[..3][0];
    assert d.entities[1] == d.entities[..3][1];
    assert d.entities[2] == d.entities[..3][2];
  }

  /** An arena laid out like the opening battle passes every reference check of the tick rules. */
  lemma OpeningWellFormed(d: BattleStateData, place: Placement)
    requires IsKing(d, d.azukiKingId) && IsKing(d, d.edamameKingId)
    requires |d.activeUnitIds| == 2
    requires LegionAt(d, d.activeUnitIds[0], 3, AZUKI_LEGION_START, 0.0, Azuki, place)
    requires LegionAt(d, d.activeUnitIds[1], 104, EDAMAME_LEGION_START, PI, Edamame, place)
    requires forall i | 0 <= i < |d.activeTowerIds| ::
      IsTower(d, d.activeTowerIds[i]) && GetBannerTower(d, d.activeTowerIds[i]).pendingUnits == []
    requires forall i | 0 <= i < |d.activeDragonflyIds| :: IsDragonfly(d, d.activeDragonflyIds[i])
    ensures WellFormed(d)
  {
    assert UnitsValid(d, d.activeUnitIds) by {
      forall i | 0 <= i < 2 ensures IsUnit(d, d.activeUnitIds[i]) && UnitValid(d, BattleData.GetUnit(d, d.activeUnitIds[i])) {
      }
    }
  }

  /**
   * The opening battle: every reference names an entity of its kind, so the
   * tick rules can run on it; the Azuki towers come first among the active
   * towers although the Edamame towers were pushed first; each legion holds
   * its 100 soldiers in column-major order; every tower is idle with an
   * empty queue; both hands are empty and nothing is exploding or pending.
   */
  lemma {:induction false} DefaultBattleStateSpec(place: Placement)
    ensures var d := DefaultBattleState(place);
      WellFormed(d)
      && GetKing(d, d.azukiKingId) == DefaultAzukiKing() && GetKing(d, d.edamameKingId) == DefaultEdamameKing()
      && |d.activeDragonflyIds| == 1 && GetDragonfly(d, d.activeDragonflyIds[0]) == DefaultDragonfly()
      && |d.activeUnitIds| == 2
      && LegionAt(d, d.activeUnitIds[0], 3, AZUKI_LEGION_START, 0.0, Azuki, place)
      && LegionAt(d, d.activeUnitIds[1], 104, EDAMAME_LEGION_START, PI, Edamame, place)
      && |d.activeTowerIds| == 14
      && (forall i | 0 <= i < 7 ::
            GetBannerTower(d, d.activeTowerIds[i]) == NewBannerTower(AZUKI_TOWER_POSITIONS[i], Azuki))
      && (forall i | 7 <= i < 14 ::
            GetBannerTower(d, d.activeTowerIds[i]) == NewBannerTower(EDAMAME_TOWER_POSITIONS[i - 7], Edamame)
            && d.activeTowerIds[i].value < d.activeTowerIds[i - 7].value)
      && d.azukiHand == Hand(0) && d.edamameHand == Hand(0)
      && d.soldierExplosions == [] && d.pendingCommand == NoCommand
  {
    var d := DefaultBattleState(place);
    DefaultLegions(place);
    DefaultActiveTowers(place);
    DefaultKings(place);
    OpeningWellFormed(d, place);
  }
}
