# enbito: a Dafny model of the battle rules, the render pools and the frame exporters

enbito is a three.js battle game: two kings, their spear legions and banner
towers fight on an open field. This project models the sequential core
underneath the rendering.

- **The per-tick battle rules** (src/tick.ts) run over one arena of
  entities addressed by index references (`Ref`):
  - the small animation state machines (Walk, Idle, Stab, Slash);
  - culling dead soldiers and crediting a spear to the opposing hand;
  - the expiry of soldier explosions;
  - the explosion of dead kings;
  - the Assemble → Storm order change;
  - banner-tower capture and the tower's first-in, first-out deployment
    queue;
  - the arg-min searches for the nearest enemy, tower and resting dragonfly;
  - the tower hitboxes and the angle helpers `limitTurn` and
    `normalizeAngleBetweenNegPiAndPosPi`.
- **The triple and orientation helpers** (src/geoUtils.ts,
  src/tripleManager.ts). Values are sequences of three reals. The `out`
  parameters the game writes into are arrays of length 3.
- **The construction of the opening battle** (src/getBattleState.ts). Every
  entity is pushed onto one array, and each reference is the array's length
  just before that push.
- **The per-frame render pools** (the src/updateThreeScene* files).
  - An `InstancedMesh` is a class whose `count` is an append cursor.
  - A glTF cache grows on demand by cloning its entry 0.
  - Counts are reset at the start of a frame, and the non-empty pools are
    handed to the scene at its end.
  - Animation time maps to a frame index with clamping.
  - Every drawing method is proved against a heap-free list of the instances
    it appends (`DrawnSince`).
- **The Blender scripts that bake every frame of a model into its own glTF
  file** (the four .py scripts). Blender is a `Host` class with a current
  frame, a document, an undo stack and a log of exports. The three unrolled
  scripts are straight-line sequences of 29 (particle system), 21 (explode and
  particle system, odd frames only) and 29 (armature) blocks, one block per
  exported frame. The frame-by-frame script keeps its
  loop.

Arena operations are methods on a `BattleState` object whose `data` field the
tick rules reassign. Each such method is proved equal to a function on the
arena value, and the properties the game relies on are lemmas about those
functions.

## Model

| member | source | states |
|---|---|---|
| GeoUtils.Add | src/geoUtils.ts:71-73 | each component is the sum of the operands' components |
| GeoUtils.Sub | src/geoUtils.ts:75-81 | each component is the minuend's minus the subtrahend's |
| GeoUtils.LengthSquared | src/geoUtils.ts:83-86 | the squared length is never negative |
| GeoUtils.DistanceToSquared | src/geoUtils.ts:47-54 | the squared distance is non-negative and equals the squared length of the difference |
| GeoUtils.XzDistanceToSquared | src/geoUtils.ts:57-65 | the ground-plane distance is non-negative and at most the full squared distance |
| GeoUtils.DistanceToSquaredSymmetric | src/geoUtils.ts:47-54 | the squared distance is symmetric |
| GeoUtils.DistanceToSquaredToSelf | src/geoUtils.ts:47-54 | a point is at distance 0 from itself |
| GeoUtils.XzDistanceIgnoresY | src/geoUtils.ts:57-65 | changing either point's height does not change the ground-plane distance |
| GeoUtils.SubAddCancels | src/geoUtils.ts:71-81 | sub(add(a, b), b) == a |
| GeoUtils.AddCommutes | src/geoUtils.ts:71-73 | add is commutative |
| GeoUtils.CloneTriple | src/geoUtils.ts:67-69 | the clone is fresh storage holding the same three components |
| GeoUtils.SetTriple | src/geoUtils.ts:88-92 | `out` ends equal to the old `source`; `source` keeps its values, also when it is `out` itself; only `out` is written |
| GeoUtils.SetOrientation | src/geoUtils.ts:94-98 | `out` gets the old yaw, pitch and roll of `source`; `source` is unchanged; only `out` is written |
| GeoUtils.CloneOrientation | src/geoUtils.ts:100-106 | the clone is a fresh record with the same yaw, pitch and roll |
| GeoUtils.TranslateZ | src/geoUtils.ts:23-41 | all three components of `out` are overwritten by the library's move of the old position; nothing else is written |
| TripleManagers.TripleManager.TranslateZ | src/tripleManager.ts:7-22 | the managed array is overwritten in place by the moved position; nothing else is written |
| TripleManagers.TripleManager.constructor | src/tripleManager.ts:5 | the manager keeps the very array it is given, so later writes reach the caller's triple |
| TripleManagers.TripleManager.DistanceToSquared | src/tripleManager.ts:24-31 | it reads only `raw`; the result is non-negative, agrees with `geoUtils.distanceToSquared(raw, other)`, and is 0 when `other` equals `raw` |
| BattleData.BattleState.AddEntity | src/tick.ts:1044 | the entity is appended to the arena and its reference is the old arena length |
| TickAnimation.StartOrContinueWalkingAnimation | src/tick.ts:68-82 | a non-walk enters Walk at time 0; a walk advances by the elapsed time less a whole number of clips (none or more for a non-negative time, none or fewer for a negative one), landing in [0, clip) for a non-negative time and unchanged inside the clip |
| TickAnimation.ContinuedWalkTime | src/tick.ts:79-80 | the wrapped walk time is the one value in [0, clip) a whole number of clips below the advanced time, which is what JavaScript's `%` gives |
| TickAnimation.StartOrContinueSlashAnimation | src/tick.ts:85-109 | a non-slash enters Slash at time 0 with no damage; a slash reports damage exactly when it crosses the damage time, and its time drops a whole number of clips, landing in [0, clip) for a non-negative time |
| TickAnimation.ContinuedSlashTime | src/tick.ts:104-106 | the wrapped slash time is the one value in [0, clip) a whole number of clips below the advanced time |
| TickAnimation.StopWalkingAnimation | src/tick.ts:111-133 | only a walk changes; it goes to Idle at time 0 exactly when this tick reaches the middle of the clip from below or the end of the clip, and otherwise keeps walking at the advanced time, still inside the clip |
| TickAnimation.StopWalkingAndStartStabAnimation | src/tick.ts:135-159 | only a walk changes; it goes to Stab exactly when this tick reaches the middle or the end of the clip scaled by `timeScale`, at `-random * MAX_STAB_DELAY`, which lies in (-MAX_STAB_DELAY, 0]; otherwise it keeps walking at the advanced time, inside the scaled clip; the random draw is a parameter |
| TickAnimation.StopWalkingAgreesWithStartStab | src/tick.ts:111-159 | at the game's time scale both stop rules stop a walk on the same tick |
| TickAnimation.ContinueStabThenIdleAnimation | src/tick.ts:164-186 | damage is reported exactly when old time < damage time ≤ new time; at or past the clip's end it goes to Idle with the overrun divided by STAB_TIME_SCALE; otherwise only the time advances |
| TickAnimation.ContinueIdleThenStabAnimation | src/tick.ts:189-210 | before the cooldown ends only the time advances and there is no damage; after it a stab starts at the scaled overrun minus a delay in [0, MAX_STAB_DELAY), with damage exactly when that time already reaches the damage point |
| TickAnimation.NoSecondDamageAfterStabStart | src/tick.ts:164-210 | a stab that dealt damage on the tick that started it deals none on the next stab tick |
| TickAnimation.StabDealsDamageAtMostOnce | src/tick.ts:164-186 | over any run of forward stab ticks damage is reported at most once, and never once the stab is past its damage point |
| TickAnimation.StartedStabIsBeforeDamagePoint | src/tick.ts:135-159 | a stab started from a walk begins before its damage point |
| TickAngles.NormalizedAngleInRange | src/tick.ts:1133-1142 | the representative lies in (-PI, PI] |
| TickAngles.NormalizedAngleUnique | src/tick.ts:1133-1142 | any whole-turn shift of the angle landing in (-PI, PI] is the representative, so it is unique |
| TickAngles.NormalizedAngleIdempotent | src/tick.ts:1133-1142 | normalizing twice is normalizing once |
| TickAngles.NormalizedAnglePeriodic | src/tick.ts:1133-1142 | angles a whole turn apart normalize alike |
| TickAngles.NormalizeAngleBetweenNegPiAndPosPi | src/tick.ts:1133-1142 | the two while loops return the representative in (-PI, PI] |
| TickAngles.WrappedDifferenceInRange | src/tick.ts:957-963 | the wrapped difference lies in [-PI, PI] |
| TickAngles.WrappedDifferenceVersusNormalized | src/tick.ts:957-963 | the wrapped difference agrees with the normalized angle, except that it may keep -PI where that gives PI |
| TickAngles.WrappedDifferenceUnique | src/tick.ts:957-963 | a whole-turn shift strictly inside (-PI, PI) is the wrapped difference |
| TickAngles.LoopsGiveWrappedDifference | src/tick.ts:957-963 | what the two loops leave is the wrapped difference |
| TickAngles.LimitTurn | src/tick.ts:952-970 | returns the desired angle when the wrapped difference is within the step, otherwise the current angle plus the step times the difference's sign |
| TickAngles.LimitTurnReachesDesiredIff | src/tick.ts:952-970 | with a non-negative step the result is the desired angle exactly when the wrapped difference's magnitude is at most the step (both directions) |
| TickAngles.LimitTurnProgress | src/tick.ts:952-970 | when it stops short, the remaining wrapped difference has shrunk by exactly the step, the short way round |
| TickKings.ExplodeIfDead | src/tick.ts:220-231 | an explosion of the king's side is added at the king exactly when the king is dead and unexploded; afterwards a dead king is marked exploded; nothing else changes |
| TickKings.ExplodeIfDeadIdempotent | src/tick.ts:220-244 | a second check adds nothing: a king explodes once |
| TickKings.ExplodeDeadKingsSpec | src/tick.ts:220-244 | over both kings the arena stays well formed, every dead king is marked exploded, at most two explosions are appended and none removed, and checking again changes nothing |
| TickKings.TickKingExplosions | src/tick.ts:220-244 | the guard on the arena in place equals the function over both kings, Azuki first |
| TickExplosions.GetSoldierExplosion | src/tick.ts:1144-1155 | a new explosion of the given side at time 0, at a copy of the position, sharing the soldier's orientation record |
| TickExplosions.TickedSpec | src/tick.ts:1055-1071 | after the intended pass no explosion is past its clip, and an explosion is kept, advanced, exactly when its advanced time does not exceed the clip |
| TickExplosions.TickedAppend | src/tick.ts:1062-1070 | the intended pass works element by element, so it keeps the order of the list |
| TickExplosions.NewExplosionSurvivesShortTick | src/tick.ts:1064-1069 | a new explosion survives its first tick exactly when the tick is no longer than the clip |
| TickExplosions.AsWrittenSkipsAfterDrop | src/tick.ts:1062-1070 | as written, the explosion right after a dropped one is carried over unadvanced and unchecked |
| TickExplosions.AsWrittenKeepsExpiredExplosion | src/tick.ts:1062-1070 | two explosions expiring on the same tick: the intended pass drops both, the pass as written keeps the second |
| TickExplosions.TickSoldierExplosionsAsWritten | src/tick.ts:1055-1071 | the game's loop (advance in place, `splice`, next index) leaves exactly the as-written pass's list |
| TickExplosions.TickSoldierExplosions | src/tick.ts:1055-1071 | the same loop with the index stepped back after `splice` leaves exactly the intended pass's list |
| TickUnits.SweepUnitAppend | src/tick.ts:525-545 | the culling pass over a concatenation is the two passes put together: survivors keep their order and explosions follow the deaths |
| TickUnits.SweepUnitSingle | src/tick.ts:528-544 | a soldier is kept when alive, otherwise replaced by its explosion |
| TickUnits.SweepUnitSpec | src/tick.ts:525-545 | the survivors are exactly the ids that are not dead soldiers, and each explosion starts at time 0 with the unit's side at a dead soldier's place and facing |
| TickUnits.CullUnitKeepsWellFormed | src/tick.ts:522-546 | culling a unit keeps the arena well formed |
| TickUnits.CullUnitKeepsEntities | src/tick.ts:522-546 | culling changes no soldier, no entity's kind and no entity but the unit |
| TickUnits.CullUnitCredits | src/tick.ts:535-540 | culling only appends explosions, leaves the unit's own hand alone, and keeps spears minus explosions fixed: one spear per new explosion |
| TickUnits.CullUnitsUpToCredits | src/tick.ts:520-546 | over the whole pass, spears handed out minus explosions recorded stays fixed, and explosions are only appended |
| TickUnits.CullUnitsUpToKeepsWellFormed | src/tick.ts:520-546 | the whole culling pass keeps the arena well formed |
| TickUnits.CulledUnitsAreAlive | src/tick.ts:520-546 | after the pass every soldier left in an active unit has health above 0 |
| TickUnits.SweepSoldiers | src/tick.ts:525-545 | the splice loop with `--i` leaves the survivors and pushes the explosions and spears that the culling pass describes |
| TickUnits.CullDeadSoldiersOfUnit | src/tick.ts:523-545 | one unit's list, explosions and the opposing hand become what culling that unit gives |
| TickUnits.CullDeadSoldiers | src/tick.ts:520-546 | the loop over the active units leaves the arena the whole culling pass describes |
| TickAssemble.AssembleSoldier | src/tick.ts:837-886 | health, target, assembly point, pitch and roll are kept; at its point a soldier does not move; away from it the soldier walks and is not ready; a ready soldier has stopped walking and faces the unit's forward direction |
| TickAssemble.ReadyIff | src/tick.ts:857-862 | a soldier is ready exactly when it stands at its point, its walk has stopped, and the forward direction is within this tick's turning step |
| TickAssemble.AssembledDistinct | src/tick.ts:837-886 | with distinct ids each soldier takes exactly one step from its own starting state |
| TickAssemble.TickAssembleSpec | src/tick.ts:827-891 | the tick keeps the arena well formed and moves only soldiers of the unit; the unit changes at most by taking Storm, exactly when no more soldiers are coming and none is still assembling |
| TickAssemble.TickAssembleStormIff | src/tick.ts:883-890 | with distinct soldier ids, Storm is taken exactly when no more soldiers are coming and every living soldier is ready after this tick |
| TickAssemble.TickAssemblingSoldier | src/tick.ts:838-885 | the loop body leaves the soldier and the still-assembling flag as the step functions give |
| TickAssemble.TickUnitWithAssembleOrder | src/tick.ts:827-891 | stepping in place then ordering equals the function `TickAssemble` on the arena |
| TickSearch.NearestOfSpec | src/tick.ts:1438-1459 | the running search ends with nothing exactly when no candidate is eligible, otherwise with the closest eligible candidate, the earliest on ties (strict `<`) |
| TickSearch.NearestAtUnique | src/tick.ts:1438-1459 | at most one candidate is the nearest |
| TickSearch.NearestOfFindsNearest | src/tick.ts:1438-1459 | whichever candidate is the nearest is what the search returns |
| TickSearch.GetNearestBannerTowerId | src/tick.ts:1438-1459 | `None` exactly when no active tower is admitted; otherwise an admitted tower of least squared distance, the earliest on ties |
| TickSearch.OfAllegiance | src/tick.ts:1404-1406 | the filter admits exactly the towers `isAzukiBannerTower` or `isEdamameBannerTower` admits |
| TickSearch.KingDistanceSquaredToNearestBannerTower | src/tick.ts:1385-1432 | `None` (the game's `Infinity`) exactly when the side has no active tower; otherwise a non-negative squared distance |
| TickSearch.GetKingDistanceSquaredToNearestBannerTower | src/tick.ts:1385-1432 | running the tower search gives the function's value: `None` exactly when the side has no tower, otherwise the ground-plane squared distance from the king to a nearest tower of the side |
| TickSearch.GetNearestRestingDragonflyId | src/tick.ts:1299-1319 | `None` exactly when no active dragonfly is resting; otherwise a resting one of least distance, the earliest on ties |
| TickSearch.WithinRangeSpec | src/tick.ts:945-949 | the cut-off search gives nothing exactly when every eligible candidate is out of range, otherwise the nearest, which is in range |
| TickSearch.EligibleEnemyCandidatesAreEnemies | src/tick.ts:904-943 | every eligible candidate is a soldier of an enemy, non-preview unit, or the living opposing king |
| TickSearch.NearestEnemySoldier | src/tick.ts:902-921 | the unit loops compute the running best over the enemy units' soldiers |
| TickSearch.ConsiderKings | src/tick.ts:923-943 | the king checks continue the running best over the king candidates |
| TickSearch.EnemySearchSpec | src/tick.ts:893-950 | the search finds the nearest eligible enemy, in range, and nothing exactly when every eligible enemy is out of range |
| TickSearch.GetNearestEnemyId | src/tick.ts:893-950 | the nearest eligible enemy (earliest on ties) when it is within `rangeSquared`: never a soldier of the caller's side or of a preview unit, the opposing king only when alive, and `None` exactly when every eligible enemy is beyond the range |
| TickSearch.InTowerTerritoryMovesWithTower | src/tick.ts:1073-1086 | moving a point and the tower together on the ground keeps the point in or out of territory |
| TickSearch.InTowerTerritoryIgnoresTowerHeight | src/tick.ts:1073-1086 | territory depends on the tower's ground position only |
| TickSearch.CollisionIsInsideBox | src/tick.ts:1335-1358 | a collision happens only inside the 20 by 30 by 20 box |
| TickSearch.TunnelsArePassable | src/tick.ts:1335-1358 | no point in the two crossing tunnels collides |
| TickSearch.UpperHalfIsSolid | src/tick.ts:1335-1358 | above the tunnels the box is solid |
| TickSearch.PillarsAreSolid | src/tick.ts:1335-1358 | the four corner pillars are solid |
| TickSearch.GetCollidingBannerTower | src/tick.ts:1321-1333 | `None` exactly when no active tower's body holds the point; otherwise the first such tower in list order |
| TickTowers.AllegiancesRoundTrip | src/tick.ts:995-996 | an occupancy is exactly the set of allegiances it records, both ways round |
| TickTowers.ScanSoldiersSpec | src/tick.ts:1009-1019 | scanning a unit's soldiers adds its side exactly when one of them is in territory |
| TickTowers.OccupierSpec | src/tick.ts:998-1020 | the corrected scan adds exactly the sides present: contested when both are, one side when only it is, unoccupied when neither is |
| TickTowers.OccupierFromUnoccupied | src/tick.ts:995-1020 | from an unoccupied start the corrected scan is the set of sides present |
| TickTowers.PresentIff | src/tick.ts:998-1020 | a side is present exactly when one of its non-preview units has a soldier in the tower's territory |
| TickTowers.AsWrittenMissesLaterUnits | src/tick.ts:1000-1006 | the scan as written misses later units: behind a second Azuki unit an Edamame soldier goes unseen, and behind a preview unit everything does |
| TickTowers.ScanUnitSoldiers | src/tick.ts:1008-1019 | the inner loop computes the scan over the unit's territory flags, stopping once contested |
| TickTowers.UniqueOccupier | src/tick.ts:998-1020 | the corrected unit loop computes the corrected scan |
| TickTowers.UniqueOccupierAsWritten | src/tick.ts:998-1020 | the loop with `break` computes the as-written scan |
| TickTowers.CapturedSpec | src/tick.ts:1022-1028 | the tower changes hands only to a sole occupier of the other side, never when unoccupied or contested |
| TickTowers.DequeuedSpec | src/tick.ts:1032-1050 | taking the head planned soldier leaves exactly the rest of the queue, one shorter, and keeps every pending unit valid |
| TickTowers.DeploySpec | src/tick.ts:1030-1052 | a deployment adds exactly one idle soldier at full health at the tower under a fresh reference, appends it to the pending unit, clears the unit's adding flag when its list empties, moves the queue on and restarts the timer; nothing else changes |
| TickTowers.CountdownSpec | src/tick.ts:1022-1030 | capture and countdown keep the arena well formed and change only the tower |
| TickTowers.TickTowerKeepsWellFormed | src/tick.ts:984-1053 | a tower tick keeps the arena well formed, keeps every entity's kind, and changes nothing outside the entities |
| TickTowers.TickTowerGrowsByOne | src/tick.ts:984-1053 | a tower tick adds at most one entity |
| TickTowers.TickTowerCapture | src/tick.ts:991-1028 | for the tick with the corrected (`continue`) scan: a preview tower is inert; another tower keeps its place and changes hands exactly when the other side is the only side present in its territory |
| TickTowers.TickTowerDeployment | src/tick.ts:1030-1052 | when the timer runs out with soldiers queued the head planned soldier is deployed at the tower; otherwise the timer only counts down and no entity is added |
| TickTowers.DeployNextSoldier | src/tick.ts:1031-1052 | the in-place deployment equals the function `Deploy` |
| TickTowers.TickBannerTower | src/tick.ts:984-1053 | one tick of one tower in place, with the corrected (`continue`) scan, equals the function `TickTower` |
| TickTowers.TickTowerAsWrittenCapture | src/tick.ts:991-1028 | with the scan as written (`break`), a preview tower is inert and another tower takes the allegiance that scan reports when it is the other side's |
| TickTowers.AsWrittenTickTakesContestedTower | src/tick.ts:998-1028 | around an Edamame tower with units [Azuki in territory, Azuki outside, Edamame in territory], the tick as written hands the tower to Azuki while the corrected tick leaves it to Edamame |
| TickTowers.TickBannerTowerAsWritten | src/tick.ts:984-1053 | one tick of one tower in place, with the `break` scan the game runs, equals the function `TickTowerAsWritten` |
| TickTowers.TowersTickedKeepsWellFormed | src/tick.ts:974-982 | ticking the active towers keeps the arena well formed, changes nothing outside the entities, and adds at most one soldier per tower |
| TickTowers.TickBannerTowers | src/tick.ts:974-982 | every active tower ticks in list order, as `TowersTicked` states |
| GetBattleState.EntityArray.Push | src/getBattleState.ts:29 | `entities.push` appends the entity at the end |
| GetBattleState.IdleSoldier | src/getBattleState.ts:270-279 | a soldier at the given point, idle at time 0, health 100, no target, zero orientation |
| GetBattleState.GridIndex | src/getBattleState.ts:238-253 | the grid holds width·height soldiers, cell (right, back) at index right·height + back |
| GetBattleState.GetUnit | src/getBattleState.ts:215-268 | the arena gains the grid's soldiers in order; the unit's ids are the width·height consecutive references from the old length; the unit is under Storm, not selected, not a preview, not adding soldiers |
| GetBattleState.NewBannerTower | src/getBattleState.ts:281-295 | a live tower at the given place and side, with an empty queue and its timer at 0 |
| GetBattleState.PushTower | src/getBattleState.ts:61-143 | a pushed tower's reference is the arena length before the push, where `indexOf` finds it |
| GetBattleState.PushSideTowers | src/getBattleState.ts:61-143 | one side's seven pushes append its towers in order, at seven consecutive references |
| GetBattleState.PushLegion | src/getBattleState.ts:43-59 | a legion's soldiers come first, then the legion itself, whose reference follows them |
| GetBattleState.GetDefaultBattleState | src/getBattleState.ts:20-177 | the pushes build exactly the opening battle `DefaultBattleState` |
| GetBattleState.DefaultLegions | src/getBattleState.ts:43-59 | 219 entities, the kings and dragonfly first; the Azuki legion sits at 103 over soldiers 3 to 102, the Edamame legion at 204 over soldiers 104 to 203, each soldier at its column-major grid cell |
| GetBattleState.DefaultTowers | src/getBattleState.ts:61-143 | the Edamame towers sit at 205 to 211 and the Azuki towers at 212 to 218 |
| GetBattleState.DefaultActiveTowers | src/getBattleState.ts:153-168 | the 14 active towers list the Azuki towers first, although the Edamame towers were pushed first |
| GetBattleState.DefaultKings | src/getBattleState.ts:23-41 | the two kings and the single active dragonfly are the default records |
| GetBattleState.DefaultBattleStateSpec | src/getBattleState.ts:145-176 | the opening arena is well formed: default kings and dragonfly, the two legions laid out as above, 14 new towers with the Azuki ones listed first, both hands empty, no explosions and no pending command |
| RenderFrames.SpearFrameNumber | src/updateThreeScene/main.ts:244-274 | the clamped frame number is in [0, n-1] for every time, negative ones included, and equals the raw frame number whenever that is already in range |
| RenderFrames.UpperClampedFrameNumber | src/updateThreeScene/main.ts:333-338 | the upper-clamped frame number is at most n-1 and equals the raw frame number below that |
| RenderFrames.SpearFrameNumberWithinClip | src/updateThreeScene/main.ts:244-274 | within the clip the clamp never bites |
| RenderFrames.SpearFrameNumberMonotone | src/updateThreeScene/main.ts:244-274 | a later time never shows an earlier frame |
| RenderFrames.SpearFrameNumberBeforeClip | src/updateThreeScene/main.ts:244-274 | a time before the clip shows frame 0 |
| RenderFrames.UpperClampedFrameNumberInRange | src/updateThreeScene/main.ts:333-338 | an explosion frame is in the array when its time is not negative |
| RenderFrames.UpperClampedFrameNumberAfterClip | src/updateThreeScene/main.ts:333-338 | after the clip the last frame is shown |
| RenderFrames.UpperClampedFrameNumberBeforeClip | src/updateThreeScene.ts:195-217 | without the lower clamp a time before the clip gives a negative index |
| RenderFrames.EarlyStabBeforeFirstFrame | src/updateThreeScene.ts:179-234 | the early stab that src/tick.ts:154 starts makes the older lookup ask for a frame before frame 0, while the clamped lookup shows frame 0 |
| RenderFrames.SpearFrameOf | src/updateThreeScene/main.ts:228-291 | walks and stabs pick the clamped frame of their side's array, Idle picks walk frame 0, Slash is an error |
| RenderFrames.SpearFrameNumberAsWritten | src/updateThreeScene.ts:179-234 | the older lookup: the same choice without the lower clamp |
| RenderFrames.AsWrittenAgreesFromClipStart | src/updateThreeScene.ts:179-234 | the two lookups agree on every animation whose time is not negative |
| RenderFrames.ExplosionFrameNumber | src/updateThreeScene/main.ts:324-342 | the explosion frame is at most n-1, and it is not negative when the explosion's time is not negative |
| RenderPools.Scene.Add | src/updateThreeScene/addInstancedMeshesToSceneAndFlagForUpdate.ts:60-61 | `scene.add` moves the object to the end of the children |
| RenderPools.Scene.RemoveAll | src/updateThreeScene/resetThreeScene.ts:28 | the scene has no children afterwards |
| RenderPools.WithoutSpec | src/updateThreeScene/resetThreeScene.ts:28 | removing an object removes every occurrence of it and nothing else |
| RenderPools.AddAllMembers | src/updateThreeScene/addInstancedMeshesToSceneAndFlagForUpdate.ts:54-73 | after adding a list, an object is a child exactly when it was one or is in the list |
| RenderPools.AddAllFresh | src/updateThreeScene/addInstancedMeshesToSceneAndFlagForUpdate.ts:54-73 | adding new, pairwise distinct objects appends them in order |
| RenderPools.InstancedMesh.Push | src/updateThreeScene/main.ts:215-216 | `setMatrixAt(count, t); ++count`: slot `count` takes the matrix when it exists, the count grows by one, nothing else changes |
| RenderPools.WrittenSnoc | src/updateThreeScene/main.ts:215-216 | one more instance extends exactly its own mesh's matrices |
| RenderPools.WrittenOfOther | src/updateThreeScene/main.ts:215-216 | a mesh no instance goes to receives nothing |
| RenderPools.DrawnSinceStart | src/updateThreeScene/main.ts:215-216 | drawing nothing leaves every mesh as it was |
| RenderPools.Emit | src/updateThreeScene/main.ts:215-216 | one append keeps the account of what was drawn since the start |
| RenderPools.GltfScene.Clone | src/updateThreeScene/main.ts:370-372 | a clone is a new scene at the pose of the one cloned |
| RenderPools.GltfCache.Take | src/updateThreeScene/main.ts:367-376 | clones entry 0 until an entry `old count` exists, returns it, count grows by exactly one, earlier entries are unchanged |
| RenderPools.GltfCache.Write | src/updateThreeScene.ts:322-336 | takes the next entry as above and gives it the pose; the other entries keep their poses |
| RenderPools.SetCountsToZero | src/updateThreeScene/resetThreeScene.ts:50-54 | every count of the meshes is 0 and nothing else changes |
| RenderScene.NonEmptyMembers | src/updateThreeScene/addInstancedMeshesToSceneAndFlagForUpdate.ts:58-65 | a mesh is among those added exactly when it is in the list with a positive count |
| RenderScene.NonEmptyIsUsed | src/updateThreeScene/addInstancedMeshesToSceneAndFlagForUpdate.ts:58-65 | when counts are what was drawn, the added meshes are exactly those something was drawn to |
| RenderScene.AddNonEmptyInstancedMeshesToSceneAndFlagForUpdate | src/updateThreeScene/addInstancedMeshesToSceneAndFlagForUpdate.ts:54-66 | the non-empty meshes are added in array order, each flagged for upload; counts do not change |
| RenderScene.AddGltfCacheToScene | src/updateThreeScene/addInstancedMeshesToSceneAndFlagForUpdate.ts:68-73 | exactly `gltfs[0..count)` are added, in index order |
| RenderScene.AddInstancedMeshesToSceneAndFlagForUpdate | src/updateThreeScene/addInstancedMeshesToSceneAndFlagForUpdate.ts:4-52 | the scene gains the non-empty spear and explosion pools, then the in-use scenes of the two tower caches and of the dragonfly cache; only the scene and the upload flags change |
| RenderScene.ResetThreeScene | src/updateThreeScene/resetThreeScene.ts:4-48 | the scene is empty; every frame, marker and cache count is 0 |
| RenderUnits.SpearMeshOf | src/updateThreeScene/main.ts:228-291 | the mesh a soldier goes to, or the thrown error: the newer lookup fails only on a slash, the older one also on a negative frame |
| RenderUnits.SoldiersDrawingOnSpearMeshes | src/updateThreeScene/main.ts:196-217 | every soldier drawn goes to a spear frame mesh, and an unfailed drawing draws every soldier |
| RenderUnits.SoldiersDrawingFailsOnSlash | src/updateThreeScene/main.ts:196-217 | the newer soldier loop throws exactly when some soldier is slashing |
| RenderUnits.UpdateUnitsCounts | src/updateThreeScene/main.ts:185-226 | the newer `updateUnits` throws exactly when a soldier is slashing; otherwise the distinct spear meshes grow by one per soldier in all, and the selection marker by one per soldier of units that show selection |
| RenderUnits.UnitDrawingCounts | src/updateThreeScene/main.ts:195-224 | one unit puts its soldiers on the spear meshes and, when selected and not under the cursor, one marker each |
| RenderUnits.MarkerItemsWritten | src/updateThreeScene/main.ts:293-303 | every marker goes to its mesh, one per soldier |
| RenderUnits.DrawMarker | src/updateThreeScene/main.ts:293-303 | the marker over a soldier is appended to the marker mesh |
| RenderUnits.DrawMarkers | src/updateThreeScene/main.ts:219-224 | a marker over each soldier of the list, in order |
| RenderUnits.DrawSoldier | src/updateThreeScene/main.ts:197-216 | the soldier's body is appended to its looked-up frame mesh, or the loop stops on the thrown error |
| RenderUnits.DrawSoldiers | src/updateThreeScene/main.ts:196-217 | the soldier loop appends what `SoldiersDrawing` lists |
| RenderUnits.DrawUnit | src/updateThreeScene/main.ts:195-224 | a unit's soldiers, then its markers when it shows selection |
| RenderUnits.UpdateUnits | src/updateThreeScene/main.ts:185-226 | every active unit is drawn in order as `UnitsDrawing` lists, and only the render pools change |
| RenderUnits.ExplosionsDrawingSpec | src/updateThreeScene/main.ts:305-322 | drawing throws exactly when an explosion has a negative time; otherwise each explosion is one instance on an explosion mesh, the counts growing by the number of explosions |
| RenderUnits.DrawExplosion | src/updateThreeScene/main.ts:311-320 | the explosion is appended to its frame mesh |
| RenderUnits.UpdateSoldierExplosions | src/updateThreeScene/main.ts:305-322 | every explosion in order, as `ExplosionsDrawing` lists |
| RenderOld.OlderUnitsOnSpearMeshes | src/updateThreeScene.ts:120-141 | the older renderer draws every soldier on a spear frame mesh |
| RenderOld.ZeroedDrawn | src/updateThreeScene.ts:112-141 | a zeroed mesh holds just what was drawn to it, from slot 0 |
| RenderOld.ZeroedUntouched | src/updateThreeScene.ts:112-141 | a mesh outside the zeroed ones that nothing reaches is as it was |
| RenderOld.ZeroThenDrawUnits | src/updateThreeScene.ts:112-141 | the four spear arrays are zeroed, then every unit is drawn |
| RenderOld.OldUpdateUnits | src/updateThreeScene.ts:103-159 | each spear frame mesh holds exactly the soldiers drawn to it from slot 0; unless a lookup threw, the meshes that received any are flagged and added in array order; no other mesh changes |
| RenderOld.ZeroThenDrawExplosions | src/updateThreeScene.ts:241-261 | the two explosion arrays are zeroed, then every explosion is drawn |
| RenderOld.OldUpdateSoldierExplosions | src/updateThreeScene.ts:236-271 | each explosion mesh holds exactly the explosions drawn to it from slot 0; unless a lookup threw, the non-empty ones are flagged and added in order |
| RenderTowers.TowerPosesSplit | src/updateThreeScene.ts:300-311 | every tower lands in exactly one of the two caches |
| RenderTowers.WriteUpright | src/updateThreeScene.ts:322-336 | the cache's in-use poses gain the tower's position, upright; a cache sharing no scene keeps its poses |
| RenderTowers.PlaceBannerTowers | src/updateThreeScene.ts:300-311 | each cache's in-use poses gain its side's towers in order |
| RenderTowers.ClearTowerCaches | src/updateThreeScene.ts:298-299 | both caches have nothing in use and keep their scenes |
| RenderTowers.AddTowerCachesToScene | src/updateThreeScene.ts:312-313 | the in-use scenes of the Azuki cache, then the Edamame cache, join the scene |
| RenderTowers.OldUpdateBannerTowers | src/updateThreeScene.ts:293-314 | both caches hold exactly their side's towers, upright and in order, so their counts add up to the number of active towers, and their scenes are added |
| RenderTowers.CountOfTowers | src/updateThreeScene.ts:293-314 | a side has as many active towers as its cache receives poses |
| RenderTowers.SortByDistanceSpec | src/updateThreeScene/main.ts:386-399 | the sorted towers are in nondecreasing distance from the origin (the Azuki king in the game) and are a permutation of the input |
| RenderTowers.CountOfSort | src/updateThreeScene/main.ts:386-399 | sorting keeps the number of towers of each side |
| RenderTowers.SafezoneItemsFromTowers | src/updateThreeScene/main.ts:401-417 | every marker belongs to a tower of a warned side, at x and z of that tower and height -0.3 + 0.05·(its sorted index), on its side's mesh |
| RenderTowers.SafezoneItemsCount | src/updateThreeScene/main.ts:401-417 | a side's mesh receives one marker per tower of that side when warned, none otherwise |
| RenderTowers.DrawSafezoneMarker | src/updateThreeScene/main.ts:402-416 | the tower at sorted index i gets a marker exactly when its side is warned |
| RenderTowers.DrawSafezoneMarkers | src/updateThreeScene/main.ts:401-417 | the loop appends exactly the planned markers |
| RenderTowers.UpdateBannerTowerSafezoneMarkers | src/updateThreeScene/main.ts:378-418 | the markers of the sorted towers, filtered by each side's warning flag, are appended and nothing else changes |
| RenderMarkers.TentativeItemsSpec | src/updateThreeScene/updateThreeSceneAfterTicking.ts:481-508 | one marker per soldier of the unit under the cursor, on the tentative mesh, over the soldier; none without such a unit |
| RenderMarkers.UpdateTentativelySelectedSoldierMarkers | src/updateThreeScene/updateThreeSceneAfterTicking.ts:481-508 | with no unit nothing changes; otherwise the tentative mesh alone receives the markers |
| RenderMarkers.PlannedPreviewSlots | src/updateThreeScene/updateThreeSceneAfterPlannedDeployment.ts:9-28 | with no planned unit nothing changes; otherwise the count grows by the number of planned soldiers, and slots old count … old count + n - 1 take their matrices in soldier order |
| RenderMarkers.UpdateThreeSceneAfterPlannedDeployment | src/updateThreeScene/updateThreeSceneAfterPlannedDeployment.ts:5-29 | walk frame 0 alone is changed: the planned soldiers are appended in order |
| BlenderExport.Format04RoundTrip | export_after_baking_particle_system_modifier.py:26 | what `"%04d"` prints reads back as the number printed |
| BlenderExport.Format04Injective | export_after_baking_particle_system_modifier.py:26 | different numbers print differently |
| BlenderExport.Format04Width | export_after_baking_particle_system_modifier.py:26 | 0 to 9999 print as exactly four digits |
| BlenderExport.OutputPathInjective | export_after_baking_particle_system_modifier.py:26 | two paths of one base name are equal only for the same number |
| BlenderExport.DistinctNumbersDistinctPaths | export_after_baking_particle_system_modifier.py:26 | exports whose paths carry pairwise distinct numbers have pairwise distinct paths |
| BlenderExport.OddFrameMapsExactly | export_after_baking_explode_modifier_and_particle_system_modifier.py:16-17 | frame 2k+1 maps to exactly k+1 |
| BlenderExport.OddFramesMapOntoOutputs | export_after_baking_explode_modifier_and_particle_system_modifier.py:16-17 | the odd frames map one to one and increasingly onto 1..n; an even frame falls halfway |
| BlenderExport.Host.FrameSet | export_after_baking_particle_system_modifier.py:22 | only the current frame changes |
| BlenderExport.Host.ModifierApply | export_after_baking_particle_system_modifier.py:23-24 | fails exactly when the modifier is missing; otherwise bakes it at the current frame and pushes the old document on the undo stack |
| BlenderExport.Host.Undo | export_after_baking_particle_system_modifier.py:31-32 | fails exactly on an empty stack; otherwise restores the last pushed document |
| BlenderExport.Host.ExportGltf | export_after_baking_particle_system_modifier.py:25-30 | appends an export with the given arguments and the current frame and document |
| BlenderExport.ParticleExportsAt | export_after_baking_particle_system_modifier.py:21-396 | export i is frame i+1 under its own number, both modifiers baked at that frame, no animations, no skins, current frame only |
| BlenderExport.ParticleExportsSpec | export_after_baking_particle_system_modifier.py:21-396 | frames strictly increase and no two files collide |
| BlenderExport.OddFrameExportsAt | export_after_baking_explode_modifier_and_particle_system_modifier.py:24-275 | export i is frame 2i+1 written as output i+1 |
| BlenderExport.OddFrameExportsSpec | export_after_baking_explode_modifier_and_particle_system_modifier.py:24-275 | frames strictly increase and no two files collide |
| BlenderExport.ArmatureExportsAt | export_after_baking_armature_modifier.py:26-314 | export i is frame i+1 under its own number, the armature baked at that frame |
| BlenderExport.ArmatureExportsSpec | export_after_baking_armature_modifier.py:26-314 | frames strictly increase and no two files collide |
| BlenderExport.RangeExportsAt | export_blender_frame_by_frame.py:12-18 | export i is frame start+i under its raw number, the document untouched, `export_skins` unset |
| BlenderExport.RangeExportsSpec | export_blender_frame_by_frame.py:12-18 | frames strictly increase and no two files collide |
| BlenderExport.BakeExplodeAndParticleFrame | export_after_baking_particle_system_modifier.py:21-32 | one block appends one export of the exploded document at frame f and restores the document and undo stack |
| BlenderExport.BakeArmatureFrame | export_after_baking_armature_modifier.py:26-35 | one block appends one export with the armature baked at frame f and restores the document and undo stack |
| BlenderExport.ParticleScriptFrame | export_after_baking_particle_system_modifier.py:21-32 | frame f extends the particle exports so far by one |
| BlenderExport.OddScriptFrame | export_after_baking_explode_modifier_and_particle_system_modifier.py:24-35 | the k-th odd frame, numbered by `blender_frame_to_output_frame`, extends the exports so far by one |
| BlenderExport.ArmatureScriptFrame | export_after_baking_armature_modifier.py:26-35 | frame f extends the armature exports so far by one |
| BlenderExport.ExportAfterBakingParticleSystemModifier | export_after_baking_particle_system_modifier.py:21-396 | the 29 blocks append exactly the 29 particle exports; the document and undo stack end as they began |
| BlenderExport.ExportAfterBakingExplodeModifierAndParticleSystemModifier | export_after_baking_explode_modifier_and_particle_system_modifier.py:24-275 | the 21 blocks append exactly the 21 odd-frame exports; the document and undo stack end as they began |
| BlenderExport.ExportAfterBakingArmatureModifier | export_after_baking_armature_modifier.py:26-314 | the 29 blocks append exactly the 29 armature exports; the document and undo stack end as they began |
| BlenderExport.ExportBlenderFrameByFrame | export_blender_frame_by_frame.py:12-18 | the loop appends the range exports of start..end, none when end < start, and touches no modifier or undo step |
| BlenderExport.ExportBlenderFrameByFrameScript | export_blender_frame_by_frame.py:4-18 | with the script's bounds, 29 exports of frames 1 to 29 |

## Left out

- Three.js transforms: `translateZ`, `setFromAxisAngle` and `applyAxisAngle` are function parameters. A `Transform` value stands for the matrix `setMatrixAt` receives. The flush's `computeBoundingBox` and `computeBoundingSphere` calls are left out: they only refresh three.js culling bounds. getUnit's cell positions come from a `Placement` parameter.
- Raycasting and the cursor: the unit under the cursor is a parameter of the drawing methods.
- The camera, the king and dragonfly animation mixers, the flashing opacity and the cursor and cylinder markers are left out. They are three.js state with no logic the pools depend on.
- main.ts `updateBannerTowers` is not modelled as a whole. Only its tower loop is modelled: it is `PlaceBannerTowers`' loop, taking each scene with `GltfCache.Take` in place of the older cache write. Unlike the older function, it neither zeroes the cache counts nor adds the caches to the scene: resetThreeScene.ts and the flush do those steps, modelled as `ResetThreeScene` and `AddInstancedMeshesToSceneAndFlagForUpdate`. Its closing call to `updateBannerTowerSafezoneMarkers` is modelled as `UpdateBannerTowerSafezoneMarkers`.
- main.ts `updateTentativelySelectedUnitMarkers` is modelled only through its updateThreeSceneAfterTicking.ts counterpart.
- main.ts `updatePlannedDeploymentUnit` is modelled only through its updateThreeSceneAfterPlannedDeployment.ts counterpart. It differs in two ways. First, it reads the planned unit from the pending Deploy command, or derives it from the deployment start. The counterpart reads `battle.data.plannedDeployment.plannedUnit`, which the model takes as a parameter. Second, for each soldier it also appends a `flashingBlueSphere` marker one unit higher (main.ts:553-559), and the model does not append that marker.
- src/updateThreeScene/index.ts (reset, then draw, then flush) is not composed into one method. Each of the three steps is modelled on its own.
- `tick` itself and the tick rules outside the core are left out: dragonflies, advance and storm orders, slash damage, king boundaries and planned deployment.
- Aliasing of arrays: positions and other triples are values. The copy `getSoldierExplosion` makes of a soldier's position is therefore the position itself, and the sharing that the copy prevents is not modelled. The explosion shares the soldier's orientation object rather than copying it, and the model does not track that sharing either.
- TickTowers.TickBannerTower: the tower tick that the rest of the model (`TickTower`, `TowersTicked`, `TickBannerTowers`) is built on uses the corrected `continue` scan, not the `break` scan the game runs. The game's tick is modelled separately as `TickTowerAsWritten` and `TickBannerTowerAsWritten`, and the two ticks differ only in who takes the tower.
- TickTowerCapture: states the capture rule of the corrected tick. The game's `break` scan can hand a contested tower to one side (`TickTowers.AsWrittenTickTakesContestedTower`), and `TickTowers.TickTowerAsWrittenCapture` states the capture rule of the tick as written.
- The Blender scripts are modelled only on a correctly selected mesh: their methods require the explode, particle system or armature modifier they apply to be present. `Host.ModifierApply` models the error a missing modifier raises, but the scripts themselves, which would abort there, are not modelled on that path.
- The older renderer reads a soldier's facing from `yRot` (src/updateThreeScene.ts:129), a field of an earlier revision of the soldier record. The model reads it from `orientation.yaw`, the field that holds the same angle in the revision modelled here.
- `alertOnceAfterDelay` is I/O. `Math.random` is a parameter in [0, 1).
- Floating point: times, positions and angles are reals. `Math.PI` is the exact value of the double nearest π. `atan2` is a parameter. The speed decays are left out.
- The safezone warning range is a parameter. Its constant is not among the game constants this model draws on.
- RenderTowers.SortByDistanceSpec: the sort is modelled as a stable insertion sort. The engine's actual algorithm, and its behaviour on a NaN distance, are not modelled.
- The safezone flags are computed with `TickSearch.KingDistanceSquaredToNearestBannerTower`, the function the tower search is proved equal to, rather than by calling the search method.
- The older renderer's four `setCountsToZero` calls and its six `addNonEmpty…` calls are each modelled as one pass over the concatenated arrays. The writes are independent, so the order makes no difference.
- RenderPools.InstancedMesh.Push: the pool capacity `MAX_SOLDIER_LIMIT` is not a precondition. As in the game, nothing checks it: a write past the buffer is dropped while the count still grows.
- The poses of cache entries that are not in use this frame are not tracked.
- The planned unit is a parameter holding only its soldiers. Its record comes from a revision of the data types that is not part of this model.
- Blender internals: the document is abstract. A modifier apply is recorded as a bake at a frame. `frame_set` records no undo step. The glTF file itself is not modelled.
- The hard-coded output base names of the four scripts are a parameter.
- The armature script's `frame_start` and `frame_end` are never read. Its 29 blocks are written out as in the script.

## Findings

| source | as written | input that shows it | evidently intended | confidence | as-written member | corrected member |
|---|---|---|---|---|---|---|
| src/tick.ts:1000-1006 | the unit scan of `tickBannerTower` uses `break` on a unit that cannot change the occupancy, so it stops scanning | units [Azuki with a soldier in territory, a second Azuki unit, Edamame with a soldier in territory]: the tower reads as Azuki's instead of contested, and an Edamame tower passes to Azuki | `continue` | high, not executed | TickTowers.AsWrittenTickTakesContestedTower | TickTowers.OccupierSpec |
| src/updateThreeScene.ts:195-217 | the older spear lookup clamps the frame number from above only | a stab started early at src/tick.ts:154 with a negative time gives index -1, and `setMatrixAt` on `undefined` throws | `Math.max(0, …)`, as src/updateThreeScene/main.ts:245-270 has | high, not executed | RenderFrames.EarlyStabBeforeFirstFrame | RenderFrames.SpearFrameNumberBeforeClip |
| src/tick.ts:1062-1069 | after `splice(i, 1)` the loop goes on with `++i` and skips the next explosion | two explosions that both pass the clip end on one tick: the second is kept, unadvanced | `--i` after the splice, as the culling loop at src/tick.ts:541-542 does | medium, not executed | TickExplosions.AsWrittenKeepsExpiredExplosion | TickExplosions.TickedSpec |
