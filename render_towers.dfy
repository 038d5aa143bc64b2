// Banner towers in the renderer: placing one cached glTF scene per active
// tower (`updateBannerTowers` and `writeToGltfCache` of the older
// src/updateThreeScene.ts:293-336, `getInstanceSceneFromGltfCache` of
// src/updateThreeScene/main.ts:367-376) and the safezone warning markers
// (`updateBannerTowerSafezoneMarkers`, src/updateThreeScene/main.ts:378-427
// and src/updateThreeScene/updateThreeSceneAfterTicking.ts:371-420).

module RenderTowers {
  import opened Prelude
  import opened GeoUtils
  import opened BattleData
  import opened RenderPools
  import opened RenderScene
  import opened TickSearch

  /** Where a cached scene stands. */
  datatype Pose = Pose(position: Triple, rotation: Rotation)

  /** Towers are drawn upright: yaw, pitch and roll zero. */
  const Upright: Rotation := Oriented(Orientation(0.0, 0.0, 0.0))

  /** The poses of the scenes `gs`, in order. */
  function Poses(gs: seq<GltfScene>): (ps: seq<Pose>)
    reads set g | g in gs
    ensures |ps| == |gs|
    ensures forall i | 0 <= i < |gs| :: ps[i] == Pose(gs[i].position, gs[i].rotation)
  {
    seq(|gs|, i requires 0 <= i < |gs| reads set g | g in gs => Pose(gs[i].position, gs[i].rotation))
  }

  /** A cache's entries are consistent: at least the seed scene, no more in use than held, no scene twice. */
  predicate Sound(c: GltfCache)
    reads c
  {
    0 < |c.gltfs| && c.count <= |c.gltfs| && c.Distinct()
  }

  /** The in-use poses of a sound cache. */
  function InUsePoses(c: GltfCache): seq<Pose>
    reads c, set g | g in c.gltfs
    requires c.count <= |c.gltfs|
  {
    Poses(c.gltfs[..c.count])
  }

  /** No scene belongs to both lists. */
  predicate Apart(a: seq<GltfScene>, b: seq<GltfScene>)
  {
    forall i, j | 0 <= i < |a| && 0 <= j < |b| :: a[i] != b[j]
  }

  /** The cache the towers of `a` are drawn from. */
  function TowerCache(san: San, a: Allegiance): GltfCache
  {
    if a == Azuki then san.azukiBannerTowers else san.edamameBannerTowers
  }

  /** The poses `updateBannerTowers` gives the towers of allegiance `a` among `ids`, in order. */
  function TowerPoses(d: BattleStateData, ids: seq<Ref>, a: Allegiance): (ps: seq<Pose>)
    requires TowersValid(d, ids)
    ensures |ps| <= |ids|
  {
    if ids == [] then []
    else
      var t := GetBannerTower(d, ids[|ids| - 1]);
      TowerPoses(d, ids[..|ids| - 1], a) + (if t.allegiance == a then [Pose(t.position, Upright)] else [])
  }

  /** Every tower lands in exactly one of the two caches. */
  lemma {:induction false} TowerPosesSplit(d: BattleStateData, ids: seq<Ref>)
    requires TowersValid(d, ids)
    ensures |TowerPoses(d, ids, Azuki)| + |TowerPoses(d, ids, Edamame)| == |ids|
  {
    if ids != [] {
      TowerPosesSplit(d, ids[..|ids| - 1]);
    }
  }

  /** One more tower extends the poses of its own side only. */
  lemma TowerPosesStep(d: BattleStateData, ids: seq<Ref>, j: nat, a: Allegiance)
    requires TowersValid(d, ids) && j < |ids|
    ensures TowersValid(d, ids[..j]) && TowersValid(d, ids[..j + 1])
    ensures var t := GetBannerTower(d, ids[j]);
      TowerPoses(d, ids[..j + 1], a)
      == TowerPoses(d, ids[..j], a) + (if t.allegiance == a then [Pose(t.position, Upright)] else [])
  {
    assert ids[..j + 1][..j] == ids[..j];
  }

  /**
   * `writeToGltfCache` on `c` with an upright pose: its in-use poses gain
   * `position`, while those of a cache sharing no scene with it are kept.
   */
  method WriteUpright(c: GltfCache, other: GltfCache, position: Triple)
    requires c != other && Sound(c) && Sound(other) && Apart(c.gltfs, other.gltfs)
    modifies c, c.gltfs
    ensures Sound(c) && Sound(other) && Apart(c.gltfs, other.gltfs)
    ensures InUsePoses(c) == old(InUsePoses(c)) + [Pose(position, Upright)]
    ensures other.count == old(other.count) && other.gltfs == old(other.gltfs)
    ensures InUsePoses(other) == old(InUsePoses(other))
    ensures forall g | g in c.gltfs :: g in old(c.gltfs) || fresh(g)
  {
    ghost var before := InUsePoses(c);
    ghost var n := c.count;
    c.Write(position, Upright);
    forall i | 0 <= i < n ensures c.gltfs[i] != c.gltfs[n] {
    }
    assert InUsePoses(c) == before + [Pose(position, Upright)];
    forall i, j | 0 <= i < |c.gltfs| && 0 <= j < |other.gltfs| ensures c.gltfs[i] != other.gltfs[j] {
      if i >= |old(c.gltfs)| {
        assert fresh(c.gltfs[i]);
      } else {
        assert c.gltfs[i] == old(c.gltfs)[i];
      }
    }
  }

  /** Both tower caches are sound and share no scene. */
  predicate CachesSound(san: San)
    reads san.azukiBannerTowers, san.edamameBannerTowers
  {
    Sound(san.azukiBannerTowers) && Sound(san.edamameBannerTowers)
    && Apart(san.azukiBannerTowers.gltfs, san.edamameBannerTowers.gltfs)
  }

  /** Both tower caches are sound, share no scene, and have exactly `azuki` and `edamame` in use. */
  predicate CachesHold(san: San, azuki: seq<Pose>, edamame: seq<Pose>)
    reads san.azukiBannerTowers, san.edamameBannerTowers
    reads set g | g in san.azukiBannerTowers.gltfs, set g | g in san.edamameBannerTowers.gltfs
  {
    CachesSound(san)
    && InUsePoses(san.azukiBannerTowers) == azuki && InUsePoses(san.edamameBannerTowers) == edamame
  }

  /** The loop body of `updateBannerTowers`: tower `j` is written upright into its side's cache. */
  method PlaceTower(san: San, d: BattleStateData, ids: seq<Ref>, j: nat, ghost azuki: seq<Pose>, ghost edamame: seq<Pose>)
    requires san.Valid() && TowersValid(d, ids) && j < |ids|
    requires CachesHold(san, azuki + TowerPoses(d, ids[..j], Azuki), edamame + TowerPoses(d, ids[..j], Edamame))
    modifies san.azukiBannerTowers, san.edamameBannerTowers
    modifies set g | g in san.azukiBannerTowers.gltfs, set g | g in san.edamameBannerTowers.gltfs
    ensures CachesHold(san, azuki + TowerPoses(d, ids[..j + 1], Azuki), edamame + TowerPoses(d, ids[..j + 1], Edamame))
    ensures forall g | g in san.azukiBannerTowers.gltfs :: g in old(san.azukiBannerTowers.gltfs) || fresh(g)
    ensures forall g | g in san.edamameBannerTowers.gltfs :: g in old(san.edamameBannerTowers.gltfs) || fresh(g)
  {
    TowerPosesStep(d, ids, j, Azuki);
    TowerPosesStep(d, ids, j, Edamame);
    var tower := GetBannerTower(d, ids[j]);
    if tower.allegiance == Azuki {
      WriteUpright(san.azukiBannerTowers, san.edamameBannerTowers, tower.position);
    } else {
      WriteUpright(san.edamameBannerTowers, san.azukiBannerTowers, tower.position);
    }
  }

  /**
   * The tower loop of `updateBannerTowers`: each active tower takes the next
   * scene of its side's cache, placed at the tower and upright, so each
   * cache's in-use poses gain its side's towers in order.
   */
  method PlaceBannerTowers(battle: BattleState, san: San)
    requires san.Valid() && TowersValid(battle.data, battle.data.activeTowerIds)
    requires CachesSound(san)
    modifies san.azukiBannerTowers, san.edamameBannerTowers
    modifies set g | g in san.azukiBannerTowers.gltfs, set g | g in san.edamameBannerTowers.gltfs
    ensures CachesHold(san, old(InUsePoses(san.azukiBannerTowers)) + TowerPoses(battle.data, battle.data.activeTowerIds, Azuki),
                       old(InUsePoses(san.edamameBannerTowers)) + TowerPoses(battle.data, battle.data.activeTowerIds, Edamame))
  {
    var ids := battle.data.activeTowerIds;
    ghost var azuki, edamame := InUsePoses(san.azukiBannerTowers), InUsePoses(san.edamameBannerTowers);
    assert ids[..0] == [];
    for j := 0 to |ids|
      invariant CachesHold(san, azuki + TowerPoses(battle.data, ids[..j], Azuki), edamame + TowerPoses(battle.data, ids[..j], Edamame))
      invariant forall g | g in san.azukiBannerTowers.gltfs :: g in old(san.azukiBannerTowers.gltfs) || fresh(g)
      invariant forall g | g in san.edamameBannerTowers.gltfs :: g in old(san.edamameBannerTowers.gltfs) || fresh(g)
    {
      PlaceTower(san, battle.data, ids, j, azuki, edamame);
    }
    assert ids[..|ids|] == ids;
  }

  /** Lines 298-299: both tower caches have nothing in use, and keep their scenes. */
  method ClearTowerCaches(san: San)
    requires CachesSound(san)
    modifies san.azukiBannerTowers`count, san.edamameBannerTowers`count
    ensures CachesHold(san, [], [])
  {
    san.azukiBannerTowers.count := 0;
    san.edamameBannerTowers.count := 0;
  }

  /** Lines 312-313: the in-use scenes of the Azuki cache, then of the Edamame cache, join the scene. */
  method AddTowerCachesToScene(san: San, ghost azuki: seq<Pose>, ghost edamame: seq<Pose>)
    requires CachesHold(san, azuki, edamame)
    modifies san.scene
    ensures CachesHold(san, azuki, edamame)
    ensures san.scene.children
      == AddAll(old(san.scene.children), InUse(san.azukiBannerTowers) + InUse(san.edamameBannerTowers))
  {
    ghost var c0 := san.scene.children;
    AddGltfCacheToScene(san.azukiBannerTowers, san.scene);
    AddGltfCacheToScene(san.edamameBannerTowers, san.scene);
    AddAllAppend(c0, InUse(san.azukiBannerTowers), InUse(san.edamameBannerTowers));
  }

  /**
   * `updateBannerTowers` of the older renderer: both tower caches are
   * emptied, then hold exactly their side's towers, upright and in order
   * (so their counts add up to the number of active towers), and the
   * in-use scenes of the Azuki cache and then the Edamame cache are added to
   * the scene.
   */
  method OldUpdateBannerTowers(battle: BattleState, san: San)
    requires san.Valid() && TowersValid(battle.data, battle.data.activeTowerIds)
    requires CachesSound(san)
    modifies san.azukiBannerTowers, san.edamameBannerTowers, san.scene
    modifies set g | g in san.azukiBannerTowers.gltfs, set g | g in san.edamameBannerTowers.gltfs
    ensures CachesHold(san, TowerPoses(battle.data, battle.data.activeTowerIds, Azuki),
                       TowerPoses(battle.data, battle.data.activeTowerIds, Edamame))
    ensures san.scene.children
      == AddAll(old(san.scene.children), InUse(san.azukiBannerTowers) + InUse(san.edamameBannerTowers))
  {
    ClearTowerCaches(san);
    PlaceBannerTowers(battle, san);
    ghost var azuki, edamame := TowerPoses(battle.data, battle.data.activeTowerIds, Azuki),
                                TowerPoses(battle.data, battle.data.activeTowerIds, Edamame);
    assert [] + azuki == azuki && [] + edamame == edamame;
    AddTowerCachesToScene(san, azuki, edamame);
  }

  // ---- Safezone markers --------------------------------------------------------

  /** The active towers, in the order of `ids`. */
  function Towers(d: BattleStateData, ids: seq<Ref>): (ts: seq<BannerTower>)
    requires TowersValid(d, ids)
    ensures |ts| == |ids|
    ensures forall i | 0 <= i < |ids| :: ts[i] == GetBannerTower(d, ids[i])
  {
    seq(|ids|, i requires 0 <= i < |ids| => GetBannerTower(d, ids[i]))
  }

  /** The sort key: the squared distance of a tower from `origin`. */
  function Key(origin: Triple, t: BannerTower): real
  {
    DistanceToSquared(origin, t.position)
  }

  predicate SortedByKey(origin: Triple, ts: seq<BannerTower>)
  {
    forall i, j | 0 <= i < j < |ts| :: Key(origin, ts[i]) <= Key(origin, ts[j])
  }

  /** Inserting `t` after every tower of `sorted` that is no farther than it. */
  function Insert(origin: Triple, sorted: seq<BannerTower>, t: BannerTower): seq<BannerTower>
  {
    if sorted == [] || Key(origin, sorted[|sorted| - 1]) <= Key(origin, t) then sorted + [t]
    else Insert(origin, sorted[..|sorted| - 1], t) + [sorted[|sorted| - 1]]
  }

  /**
   * The array sort with the comparator `aDistSq - bDistSq`: a stable sort by
   * distance from `origin`, written as an insertion sort.
   */
  function SortByDistance(origin: Triple, ts: seq<BannerTower>): seq<BannerTower>
  {
    if ts == [] then [] else Insert(origin, SortByDistance(origin, ts[..|ts| - 1]), ts[|ts| - 1])
  }

  /** Every tower of `ts` is within `bound` of `origin`, by the sort key. */
  predicate KeysAtMost(origin: Triple, ts: seq<BannerTower>, bound: real)
  {
    forall i | 0 <= i < |ts| :: Key(origin, ts[i]) <= bound
  }

  /** Insertion adds exactly the one tower. */
  lemma {:induction false} InsertPermutes(origin: Triple, sorted: seq<BannerTower>, t: BannerTower)
    ensures multiset(Insert(origin, sorted, t)) == multiset(sorted) + multiset{t}
  {
    if !(sorted == [] || Key(origin, sorted[|sorted| - 1]) <= Key(origin, t)) {
      var init := sorted[..|sorted| - 1];
      assert sorted == init + [sorted[|sorted| - 1]];
      InsertPermutes(origin, init, t);
    }
  }

  /** Inserting a tower within a bound into towers within it stays within it. */
  lemma {:induction false} InsertKeysAtMost(origin: Triple, sorted: seq<BannerTower>, t: BannerTower, bound: real)
    requires KeysAtMost(origin, sorted, bound) && Key(origin, t) <= bound
    ensures KeysAtMost(origin, Insert(origin, sorted, t), bound)
  {
    if !(sorted == [] || Key(origin, sorted[|sorted| - 1]) <= Key(origin, t)) {
      InsertKeysAtMost(origin, sorted[..|sorted| - 1], t, bound);
    }
  }

  /** Insertion keeps a sorted list sorted. */
  lemma {:induction false} InsertSorted(origin: Triple, sorted: seq<BannerTower>, t: BannerTower)
    requires SortedByKey(origin, sorted)
    ensures SortedByKey(origin, Insert(origin, sorted, t))
  {
    if !(sorted == [] || Key(origin, sorted[|sorted| - 1]) <= Key(origin, t)) {
      var init, last := sorted[..|sorted| - 1], sorted[|sorted| - 1];
      InsertSorted(origin, init, t);
      assert KeysAtMost(origin, init, Key(origin, last)) by {
        forall i | 0 <= i < |init| ensures Key(origin, init[i]) <= Key(origin, last) {
          assert init[i] == sorted[i];
        }
      }
      InsertKeysAtMost(origin, init, t, Key(origin, last));
    }
  }

  /** The sorted towers are in nondecreasing distance and are the same towers. */
  lemma {:induction false} SortByDistanceSpec(origin: Triple, ts: seq<BannerTower>)
    ensures SortedByKey(origin, SortByDistance(origin, ts))
    ensures multiset(SortByDistance(origin, ts)) == multiset(ts)
  {
    if ts != [] {
      var init := ts[..|ts| - 1];
      SortByDistanceSpec(origin, init);
      InsertSorted(origin, SortByDistance(origin, init), ts[|ts| - 1]);
      InsertPermutes(origin, SortByDistance(origin, init), ts[|ts| - 1]);
      assert ts == init + [ts[|ts| - 1]];
    }
  }

  /** How many of `ts` belong to allegiance `a`. */
  function CountOf(ts: seq<BannerTower>, a: Allegiance): (n: nat)
    ensures n <= |ts|
  {
    if ts == [] then 0 else CountOf(ts[..|ts| - 1], a) + (if ts[|ts| - 1].allegiance == a then 1 else 0)
  }

  lemma {:induction false} CountOfInsert(origin: Triple, sorted: seq<BannerTower>, t: BannerTower, a: Allegiance)
    ensures CountOf(Insert(origin, sorted, t), a) == CountOf(sorted, a) + (if t.allegiance == a then 1 else 0)
  {
    if !(sorted == [] || Key(origin, sorted[|sorted| - 1]) <= Key(origin, t)) {
      var init, last := sorted[..|sorted| - 1], sorted[|sorted| - 1];
      CountOfInsert(origin, init, t, a);
      var r := Insert(origin, init, t) + [last];
      assert Insert(origin, sorted, t) == r;
      assert r[..|r| - 1] == Insert(origin, init, t);
      assert CountOf(r, a) == CountOf(Insert(origin, init, t), a) + (if last.allegiance == a then 1 else 0);
    } else {
      assert Insert(origin, sorted, t) == sorted + [t];
      assert (sorted + [t])[..|sorted|] == sorted;
    }
  }

  /** Sorting keeps the number of towers of each side. */
  lemma {:induction false} CountOfSort(origin: Triple, ts: seq<BannerTower>, a: Allegiance)
    ensures CountOf(SortByDistance(origin, ts), a) == CountOf(ts, a)
  {
    if ts != [] {
      CountOfSort(origin, ts[..|ts| - 1], a);
      CountOfInsert(origin, SortByDistance(origin, ts[..|ts| - 1]), ts[|ts| - 1], a);
    }
  }

  /** A side has as many towers among the active ones as its cache receives poses. */
  lemma {:induction false} CountOfTowers(d: BattleStateData, ids: seq<Ref>, a: Allegiance)
    requires TowersValid(d, ids)
    ensures CountOf(Towers(d, ids), a) == |TowerPoses(d, ids, a)|
  {
    if ids != [] {
      var init := ids[..|ids| - 1];
      CountOfTowers(d, init, a);
      assert Towers(d, ids)[..|ids| - 1] == Towers(d, init);
    }
  }

  /** `shouldWarn`: the king is at least the warning range from its nearest tower, or has none (`Infinity`). */
  predicate ShouldWarn(distanceSquared: Option<real>, rangeSquared: real)
  {
    distanceSquared.None? || distanceSquared.value >= rangeSquared
  }

  /** The warning flag of a tower's side. */
  predicate Warns(a: Allegiance, warnAzuki: bool, warnEdamame: bool)
  {
    if a == Azuki then warnAzuki else warnEdamame
  }

  /** `getSafezoneInstancedMesh`. */
  function SafezoneMarker(san: San, a: Allegiance): InstancedMesh
  {
    if a == Azuki then san.azukiSafezoneMarker else san.edamameSafezoneMarker
  }

  /** The marker of the tower at sorted index `i`: under the tower, raised by 0.05 per index, unrotated. */
  function SafezoneTransform(t: BannerTower, i: nat): Transform
  {
    Transform([t.position[0], -0.3 + 0.05 * (i as real), t.position[2]], Unrotated, 0.0)
  }

  /** The markers the loop appends for the first `n` sorted towers. */
  function SafezoneItems(san: San, sorted: seq<BannerTower>, warnAzuki: bool, warnEdamame: bool, n: nat): seq<Instance>
    requires n <= |sorted|
  {
    if n == 0 then []
    else
      var t := sorted[n - 1];
      SafezoneItems(san, sorted, warnAzuki, warnEdamame, n - 1)
      + (if Warns(t.allegiance, warnAzuki, warnEdamame) then [Instance(SafezoneMarker(san, t.allegiance), SafezoneTransform(t, n - 1))] else [])
  }

  /** `x` is the marker of the tower at sorted index `i`, whose side is warned. */
  predicate MarksTowerAt(san: San, sorted: seq<BannerTower>, warnAzuki: bool, warnEdamame: bool, i: nat, x: Instance)
    requires i < |sorted|
  {
    Warns(sorted[i].allegiance, warnAzuki, warnEdamame)
    && x == Instance(SafezoneMarker(san, sorted[i].allegiance), SafezoneTransform(sorted[i], i))
  }

  /** Every instance of `items` is the marker of one of the first `n` sorted towers. */
  predicate MarksWarnedTowers(san: San, sorted: seq<BannerTower>, warnAzuki: bool, warnEdamame: bool, n: nat,
                              items: seq<Instance>)
    requires n <= |sorted|
  {
    forall k | 0 <= k < |items| :: MarksSomeTower(san, sorted, warnAzuki, warnEdamame, n, items[k])
  }

  /** `x` is the marker of one of the first `n` sorted towers. */
  predicate MarksSomeTower(san: San, sorted: seq<BannerTower>, warnAzuki: bool, warnEdamame: bool, n: nat, x: Instance)
    requires n <= |sorted|
  {
    exists i | 0 <= i < n :: MarksTowerAt(san, sorted, warnAzuki, warnEdamame, i, x)
  }

  /** Each marker belongs to a tower of a warned side and stands at the tower's sorted index. */
  lemma {:induction false} SafezoneItemsFromTowers(san: San, sorted: seq<BannerTower>, warnAzuki: bool,
                                                   warnEdamame: bool, n: nat)
    requires n <= |sorted|
    ensures MarksWarnedTowers(san, sorted, warnAzuki, warnEdamame, n, SafezoneItems(san, sorted, warnAzuki, warnEdamame, n))
  {
    if n > 0 {
      SafezoneItemsFromTowers(san, sorted, warnAzuki, warnEdamame, n - 1);
      var prev := SafezoneItems(san, sorted, warnAzuki, warnEdamame, n - 1);
      var items := SafezoneItems(san, sorted, warnAzuki, warnEdamame, n);
      forall k | 0 <= k < |items|
        ensures MarksSomeTower(san, sorted, warnAzuki, warnEdamame, n, items[k])
      {
        if k < |prev| {
          assert items[k] == prev[k];
          var i :| 0 <= i < n - 1 && MarksTowerAt(san, sorted, warnAzuki, warnEdamame, i, prev[k]);
        } else {
          assert MarksTowerAt(san, sorted, warnAzuki, warnEdamame, n - 1, items[k]);
        }
      }
    }
  }

  /** A side's marker mesh receives one marker per tower of that side when it is warned, and none otherwise. */
  lemma {:induction false} SafezoneItemsCount(san: San, sorted: seq<BannerTower>, warnAzuki: bool, warnEdamame: bool,
                                              n: nat, a: Allegiance)
    requires san.Valid() && n <= |sorted|
    ensures |Written(SafezoneItems(san, sorted, warnAzuki, warnEdamame, n), SafezoneMarker(san, a))|
      == if Warns(a, warnAzuki, warnEdamame) then CountOf(sorted[..n], a) else 0
  {
    if n > 0 {
      SafezoneItemsCount(san, sorted, warnAzuki, warnEdamame, n - 1, a);
      var prev := SafezoneItems(san, sorted, warnAzuki, warnEdamame, n - 1);
      var t := sorted[n - 1];
      assert sorted[..n][..n - 1] == sorted[..n - 1];
      if Warns(t.allegiance, warnAzuki, warnEdamame) {
        var x := Instance(SafezoneMarker(san, t.allegiance), SafezoneTransform(t, n - 1));
        WrittenSnoc(prev, x, SafezoneMarker(san, a));
        assert SafezoneItems(san, sorted, warnAzuki, warnEdamame, n) == prev + [x];
      } else {
        assert SafezoneItems(san, sorted, warnAzuki, warnEdamame, n) == prev;
      }
    }
  }

  /** The active towers of `d`, nearest to the Azuki king first. */
  function SortedTowers(d: BattleStateData): seq<BannerTower>
    requires WellFormed(d)
  {
    SortByDistance(GetKing(d, d.azukiKingId).body.position, Towers(d, d.activeTowerIds))
  }

  /** Whether the king of side `a` is out of range of its nearest tower. */
  function WarnFlag(d: BattleStateData, a: Allegiance, rangeSquared: real): bool
    requires WellFormed(d)
  {
    ShouldWarn(KingDistanceSquaredToNearestBannerTower(d, a), rangeSquared)
  }

  /** What `updateBannerTowerSafezoneMarkers` draws for the battle `d`. */
  function SafezonePlan(san: San, d: BattleStateData, rangeSquared: real): seq<Instance>
    requires WellFormed(d)
  {
    SafezoneItems(san, SortedTowers(d), WarnFlag(d, Azuki, rangeSquared), WarnFlag(d, Edamame, rangeSquared),
                  |SortedTowers(d)|)
  }

  /** The loop body: the tower at sorted index `i` gets a marker when its side is warned. */
  method DrawSafezoneMarker(san: San, sorted: seq<BannerTower>, warnAzuki: bool, warnEdamame: bool, i: nat,
                            ghost before: map<InstancedMesh, MeshState>)
    requires san.Valid() && i < |sorted|
    requires DrawnSince(san.Meshes(), before, SafezoneItems(san, sorted, warnAzuki, warnEdamame, i))
    modifies san.Meshes()
    ensures DrawnSince(san.Meshes(), before, SafezoneItems(san, sorted, warnAzuki, warnEdamame, i + 1))
  {
    ghost var items := SafezoneItems(san, sorted, warnAzuki, warnEdamame, i);
    var tower := sorted[i];
    if !Warns(tower.allegiance, warnAzuki, warnEdamame) {
      assert SafezoneItems(san, sorted, warnAzuki, warnEdamame, i + 1) == items;
      return;
    }
    var marker := SafezoneMarker(san, tower.allegiance);
    var transform := SafezoneTransform(tower, i);
    assert SafezoneItems(san, sorted, warnAzuki, warnEdamame, i + 1) == items + [Instance(marker, transform)];
    Emit(marker, transform, san.Meshes(), before, items);
  }

  /**
   * `updateBannerTowerSafezoneMarkers`: the active towers, sorted by
   * distance from the Azuki king, each get a marker on their side's mesh
   * when that side's king is out of range of its nearest tower (lines
   * 380-385 read the two distances through the getter that
   * `TickSearch.GetKingDistanceSquaredToNearestBannerTower` models and is
   * proved equal to); the warning range is a parameter.
   */
  method UpdateBannerTowerSafezoneMarkers(battle: BattleState, san: San, rangeSquared: real)
    requires san.Valid() && WellFormed(battle.data)
    modifies san.Meshes()
    ensures DrawnSince(san.Meshes(), old(Snapshot(san.Meshes())), SafezonePlan(san, battle.data, rangeSquared))
  {
    var warnAzuki := WarnFlag(battle.data, Azuki, rangeSquared);
    var warnEdamame := WarnFlag(battle.data, Edamame, rangeSquared);
    var sorted := SortedTowers(battle.data);
    DrawSafezoneMarkers(san, sorted, warnAzuki, warnEdamame);
  }

  /** Lines 401-417: the marker loop over the sorted towers. */
  method DrawSafezoneMarkers(san: San, sorted: seq<BannerTower>, warnAzuki: bool, warnEdamame: bool)
    requires san.Valid()
    modifies san.Meshes()
    ensures DrawnSince(san.Meshes(), old(Snapshot(san.Meshes())), SafezoneItems(san, sorted, warnAzuki, warnEdamame, |sorted|))
  {
    ghost var before := Snapshot(san.Meshes());
    DrawnSinceStart(san.Meshes());
    for i := 0 to |sorted|
      invariant DrawnSince(san.Meshes(), before, SafezoneItems(san, sorted, warnAzuki, warnEdamame, i))
    {
      DrawSafezoneMarker(san, sorted, warnAzuki, warnEdamame, i, before);
    }
  }
}
