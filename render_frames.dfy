// Choosing the animation frame a soldier or an explosion is drawn with. Each
// walk, stab and explosion clip is pre-baked into one instanced mesh per
// frame; the renderer maps the animation time to a frame number and picks
// the mesh of that number from the array of the right side
// (src/updateThreeScene/main.ts:228-291 and 324-342, the same functions at
// src/updateThreeScene/updateThreeSceneAfterTicking.ts:221-335, and the older
// src/updateThreeScene.ts:179-234).

module RenderFrames {
  import opened Prelude
  import opened BattleData
  import opened TickAnimation

  /** The frame a time falls in when a clip of `duration` seconds is cut into `frameCount` frames. */
  function RawFrameNumber(t: real, duration: real, frameCount: nat): int
    requires duration > 0.0
  {
    ((t / duration) * (frameCount as real)).Floor
  }

  /** `Math.max(0, Math.min(Math.floor(t / duration * n), n - 1))`: the frame number, clamped into the array. */
  function SpearFrameNumber(t: real, duration: real, frameCount: nat): (i: int)
    requires duration > 0.0 && frameCount > 0
    ensures 0 <= i < frameCount
    ensures 0 <= RawFrameNumber(t, duration, frameCount) < frameCount ==> i == RawFrameNumber(t, duration, frameCount)
  {
    Max(0, Min(RawFrameNumber(t, duration, frameCount), frameCount - 1))
  }

  /** `Math.min(Math.floor(t / duration * n), n - 1)`: clamped from above only, as the explosion and the older spear lookups do. */
  function UpperClampedFrameNumber(t: real, duration: real, frameCount: nat): (i: int)
    requires duration > 0.0 && frameCount > 0
    ensures i <= frameCount - 1
    ensures RawFrameNumber(t, duration, frameCount) < frameCount ==> i == RawFrameNumber(t, duration, frameCount)
  {
    Min(RawFrameNumber(t, duration, frameCount), frameCount - 1)
  }

  lemma DivMulNonNegative(t: real, duration: real, n: real)
    requires t >= 0.0 && duration > 0.0 && n >= 0.0
    ensures (t / duration) * n >= 0.0
  {
  }

  lemma DivMulNegative(t: real, duration: real, n: real)
    requires t < 0.0 && duration > 0.0 && n > 0.0
    ensures (t / duration) * n < 0.0
  {
    assert t / duration < 0.0;
  }

  lemma DivMulMono(t1: real, t2: real, duration: real, n: real)
    requires t1 <= t2 && duration > 0.0 && n >= 0.0
    ensures (t1 / duration) * n <= (t2 / duration) * n
  {
    assert t1 / duration <= t2 / duration;
    assert (t2 / duration) * n - (t1 / duration) * n == (t2 / duration - t1 / duration) * n;
  }

  /** Within the clip the clamp never bites: the frame is the raw frame. */
  lemma {:induction false} SpearFrameNumberWithinClip(t: real, duration: real, frameCount: nat)
    requires duration > 0.0 && frameCount > 0 && 0.0 <= t < duration
    ensures SpearFrameNumber(t, duration, frameCount) == RawFrameNumber(t, duration, frameCount)
  {
    var n := frameCount as real;
    var q := t / duration;
    DivBelowOne(t, duration);
    DivMulNonNegative(t, duration, n);
    assert q * n < n by { MulMonoStrict(n, q, 1.0); }
    assert 0 <= RawFrameNumber(t, duration, frameCount) < frameCount;
  }

  /** A later time never shows an earlier frame. */
  lemma {:induction false} SpearFrameNumberMonotone(t1: real, t2: real, duration: real, frameCount: nat)
    requires duration > 0.0 && frameCount > 0 && t1 <= t2
    ensures SpearFrameNumber(t1, duration, frameCount) <= SpearFrameNumber(t2, duration, frameCount)
  {
    DivMulMono(t1, t2, duration, frameCount as real);
  }

  /** A time before the clip starts shows frame 0. */
  lemma {:induction false} SpearFrameNumberBeforeClip(t: real, duration: real, frameCount: nat)
    requires duration > 0.0 && frameCount > 0 && t < 0.0
    ensures SpearFrameNumber(t, duration, frameCount) == 0
  {
    DivMulNegative(t, duration, frameCount as real);
  }

  /** An explosion's frame is in the array as long as its time is not negative, which the tick rules keep. */
  lemma {:induction false} UpperClampedFrameNumberInRange(t: real, duration: real, frameCount: nat)
    requires duration > 0.0 && frameCount > 0 && t >= 0.0
    ensures 0 <= UpperClampedFrameNumber(t, duration, frameCount) < frameCount
  {
    DivMulNonNegative(t, duration, frameCount as real);
  }

  /** Once the clip is over the last frame is shown. */
  lemma {:induction false} UpperClampedFrameNumberAfterClip(t: real, duration: real, frameCount: nat)
    requires duration > 0.0 && frameCount > 0 && t >= duration
    ensures UpperClampedFrameNumber(t, duration, frameCount) == frameCount - 1
    ensures SpearFrameNumber(t, duration, frameCount) == frameCount - 1
  {
    var n := frameCount as real;
    assert t / duration >= 1.0;
    assert (t / duration) * n >= n by { MulMono(n, 1.0, t / duration); }
  }

  /** The older lookup's frame number for a time before the clip starts lies before the array. */
  lemma {:induction false} UpperClampedFrameNumberBeforeClip(t: real, duration: real, frameCount: nat)
    requires duration > 0.0 && frameCount > 0 && t < 0.0
    ensures UpperClampedFrameNumber(t, duration, frameCount) < 0
  {
    DivMulNegative(t, duration, frameCount as real);
    assert RawFrameNumber(t, duration, frameCount) < 0;
  }

  /**
   * The stab the tick rules start early (src/tick.ts:154) has a negative
   * time, so the older spear lookup, which leaves out the lower clamp, asks
   * for a frame before frame 0 of the stab array; the clamped lookup shows
   * frame 0.
   */
  lemma {:induction false} EarlyStabBeforeFirstFrame(elapsed: real, a: SoldierAnimationState, walkClipDuration: real,
                                                     random: real, stabClipDuration: real, frameCount: nat)
    requires walkClipDuration > 0.0 && stabClipDuration > 0.0 && frameCount > 0 && 0.0 < random < 1.0
    requires a.kind == Walk && WalkReachesStopPoint(elapsed, a.timeInSeconds, walkClipDuration)
    ensures var s := StopWalkingAndStartStabAnimation(elapsed, a, 1.0, walkClipDuration, random);
      s.kind == Stab
      && UpperClampedFrameNumber(s.timeInSeconds, stabClipDuration, frameCount) < 0
      && SpearFrameNumber(s.timeInSeconds, stabClipDuration, frameCount) == 0
  {
    var s := StopWalkingAndStartStabAnimation(elapsed, a, 1.0, walkClipDuration, random);
    assert walkClipDuration / 1.0 == walkClipDuration;
    assert s.timeInSeconds == -random * MAX_STAB_DELAY < 0.0;
    UpperClampedFrameNumberBeforeClip(s.timeInSeconds, stabClipDuration, frameCount);
    SpearFrameNumberBeforeClip(s.timeInSeconds, stabClipDuration, frameCount);
  }

  /** Which pre-baked clip a spearman is drawn from. */
  datatype SpearClip = WalkFrames | StabFrames

  /** The mesh a spearman is drawn with: a side, a clip, and a frame of it. */
  datatype SpearFrame = SpearFrame(allegiance: Allegiance, clip: SpearClip, frame: nat)

  /**
   * `getSpearFrameInstancedMesh`: walks and stabs by clamped frame number,
   * idle soldiers on walk frame 0, and an error for a slash, which spearmen
   * do not have. Both sides' arrays are indexed with the frame counts of the
   * Azuki arrays.
   */
  function SpearFrameOf(a: SoldierAnimationState, allegiance: Allegiance, m: ModelConstants,
                        walkFrameCount: nat, stabFrameCount: nat): (r: Result<SpearFrame>)
    requires ValidModelConstants(m) && walkFrameCount > 0 && stabFrameCount > 0
    ensures r.Failure? <==> a.kind == Slash
    ensures r.Success? ==> r.value.allegiance == allegiance
    ensures r.Success? && r.value.clip == WalkFrames ==> r.value.frame < walkFrameCount
    ensures r.Success? && r.value.clip == StabFrames ==> r.value.frame < stabFrameCount
    ensures a.kind == Idle ==> r == Success(SpearFrame(allegiance, WalkFrames, 0))
    ensures a.kind == Walk ==>
      r.Success? && r.value.clip == WalkFrames
      && r.value.frame == SpearFrameNumber(a.timeInSeconds, m.azukiSpearWalkClipDuration, walkFrameCount)
    ensures a.kind == Stab ==>
      r.Success? && r.value.clip == StabFrames
      && r.value.frame == SpearFrameNumber(a.timeInSeconds, m.azukiSpearStabClipDuration, stabFrameCount)
  {
    match a.kind
    case Walk => Success(SpearFrame(allegiance, WalkFrames, SpearFrameNumber(a.timeInSeconds, m.azukiSpearWalkClipDuration, walkFrameCount)))
    case Stab => Success(SpearFrame(allegiance, StabFrames, SpearFrameNumber(a.timeInSeconds, m.azukiSpearStabClipDuration, stabFrameCount)))
    case Idle => Success(SpearFrame(allegiance, WalkFrames, 0))
    case Slash => Failure("Spearmen cannot slash.")
  }

  /** The older `getSpearFrameInstancedMesh` (src/updateThreeScene.ts:179-234): the same choice without the lower clamp. */
  function SpearFrameNumberAsWritten(a: SoldierAnimationState, m: ModelConstants, walkFrameCount: nat, stabFrameCount: nat)
    : (r: Option<int>)
    requires ValidModelConstants(m) && walkFrameCount > 0 && stabFrameCount > 0
    ensures r.None? <==> a.kind == Slash
    ensures a.kind == Idle ==> r == Some(0)
    ensures a.kind == Walk ==> r == Some(UpperClampedFrameNumber(a.timeInSeconds, m.azukiSpearWalkClipDuration, walkFrameCount))
    ensures a.kind == Stab ==> r == Some(UpperClampedFrameNumber(a.timeInSeconds, m.azukiSpearStabClipDuration, stabFrameCount))
  {
    match a.kind
    case Walk => Some(UpperClampedFrameNumber(a.timeInSeconds, m.azukiSpearWalkClipDuration, walkFrameCount))
    case Stab => Some(UpperClampedFrameNumber(a.timeInSeconds, m.azukiSpearStabClipDuration, stabFrameCount))
    case Idle => Some(0)
    case Slash => None
  }

  /** The two lookups agree exactly on the animations whose time is not negative. */
  lemma {:induction false} AsWrittenAgreesFromClipStart(a: SoldierAnimationState, allegiance: Allegiance, m: ModelConstants,
                                                      walkFrameCount: nat, stabFrameCount: nat)
    requires ValidModelConstants(m) && walkFrameCount > 0 && stabFrameCount > 0
    requires a.kind != Slash
    ensures a.timeInSeconds >= 0.0 ==>
      SpearFrameNumberAsWritten(a, m, walkFrameCount, stabFrameCount)
      == Some(SpearFrameOf(a, allegiance, m, walkFrameCount, stabFrameCount).value.frame as int)
    ensures a.timeInSeconds < 0.0 && a.kind != Idle ==>
      SpearFrameNumberAsWritten(a, m, walkFrameCount, stabFrameCount).value < 0
      && SpearFrameOf(a, allegiance, m, walkFrameCount, stabFrameCount).value.frame == 0
  {
    var t := a.timeInSeconds;
    if a.kind == Walk {
      var d := m.azukiSpearWalkClipDuration;
      if t >= 0.0 { DivMulNonNegative(t, d, walkFrameCount as real); }
      else { DivMulNegative(t, d, walkFrameCount as real); }
    } else if a.kind == Stab {
      var d := m.azukiSpearStabClipDuration;
      if t >= 0.0 { DivMulNonNegative(t, d, stabFrameCount as real); }
      else { DivMulNegative(t, d, stabFrameCount as real); }
    }
  }

  /** `getExplosionFrameInstancedMesh`: the frame number of an explosion's time, clamped from above only. */
  function ExplosionFrameNumber(e: SoldierExplosion, m: ModelConstants, frameCount: nat): (i: int)
    requires ValidModelConstants(m) && frameCount > 0
    ensures i <= frameCount - 1
    ensures e.timeInSeconds >= 0.0 ==> 0 <= i
  {
    var i := UpperClampedFrameNumber(e.timeInSeconds, m.soldierExplosionClipDuration, frameCount);
    assert e.timeInSeconds >= 0.0 ==> 0 <= i by {
      if e.timeInSeconds >= 0.0 {
        UpperClampedFrameNumberInRange(e.timeInSeconds, m.soldierExplosionClipDuration, frameCount);
      }
    }
    i
  }
}
