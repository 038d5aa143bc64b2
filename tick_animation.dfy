// The soldier animation state machines of the battle tick (src/tick.ts:68-210).
// The game mutates the animation record it is handed; here each helper returns
// the new record, together with the "crossed the damage point this tick" flag
// where the game returns one. `Math.random()` is the parameter `random`, a
// value in [0, 1).

module TickAnimation {
  import opened Prelude
  import opened BattleData

  /** The new animation record and whether this tick crossed the damage point. */
  datatype AnimationStep = AnimationStep(animation: SoldierAnimationState, crossesDamagePoint: bool)

  /** Slash damage falls on frame 18 of 30. */
  const SLASH_DAMAGE_POINT_LOCATION_FACTOR: real := 18.0 / 30.0
  /** Stab damage falls on frame 10 of 24. */
  const STAB_DAMAGE_POINT_LOCATION_FACTOR: real := 10.0 / 24.0

  function SlashDamageTime(slashClipDuration: real): real
  {
    slashClipDuration * SLASH_DAMAGE_POINT_LOCATION_FACTOR
  }

  function StabDamageTime(stabClipDuration: real): real
  {
    stabClipDuration * STAB_DAMAGE_POINT_LOCATION_FACTOR
  }

  /**
   * Enters Walk at time 0, or advances a walk and wraps it around the clip
   * (JavaScript `%`, so the wrapped time stays in [0, clip) for non-negative times).
   */
  function StartOrContinueWalkingAnimation(elapsed: real, a: SoldierAnimationState, walkClipDuration: real)
    : (r: SoldierAnimationState)
    requires walkClipDuration > 0.0
    ensures r.kind == Walk
    ensures a.kind != Walk ==> r.timeInSeconds == 0.0
    ensures a.kind == Walk ==>
      var turns := (a.timeInSeconds + elapsed - r.timeInSeconds) / walkClipDuration;
      turns == turns.Floor as real
      && (0.0 <= a.timeInSeconds + elapsed ==> turns >= 0.0) && (a.timeInSeconds + elapsed < 0.0 ==> turns <= 0.0)
    ensures a.kind == Walk && 0.0 <= a.timeInSeconds + elapsed ==> 0.0 <= r.timeInSeconds < walkClipDuration
    ensures a.kind == Walk && 0.0 <= a.timeInSeconds + elapsed < walkClipDuration
      ==> r.timeInSeconds == a.timeInSeconds + elapsed
  {
    if a.kind != Walk then
      SoldierAnimationState(Walk, 0.0)
    else
      var t := a.timeInSeconds + elapsed;
      JsRemainderTakesMultiples(t, walkClipDuration);
      assert 0.0 <= t ==> 0.0 <= JsRemainder(t, walkClipDuration) < walkClipDuration by {
        if 0.0 <= t { JsRemainderBounds(t, walkClipDuration); }
      }
      assert 0.0 <= t < walkClipDuration ==> JsRemainder(t, walkClipDuration) == t by {
        if 0.0 <= t < walkClipDuration { JsRemainderOfSmaller(t, walkClipDuration); }
      }
      SoldierAnimationState(Walk, JsRemainder(t, walkClipDuration))
  }

  /**
   * Enters Slash at time 0 without damage, or advances a slash, reporting
   * whether it passed the damage time, and wraps it around the clip.
   */
  function StartOrContinueSlashAnimation(elapsed: real, a: SoldierAnimationState, slashClipDuration: real)
    : (r: AnimationStep)
    requires slashClipDuration > 0.0
    ensures r.animation.kind == Slash
    ensures a.kind != Slash ==> r.animation.timeInSeconds == 0.0 && !r.crossesDamagePoint
    ensures a.kind == Slash ==>
      (r.crossesDamagePoint <==>
        a.timeInSeconds < SlashDamageTime(slashClipDuration) <= a.timeInSeconds + elapsed)
    ensures a.kind == Slash ==>
      var turns := (a.timeInSeconds + elapsed - r.animation.timeInSeconds) / slashClipDuration;
      turns == turns.Floor as real
      && (0.0 <= a.timeInSeconds + elapsed ==> turns >= 0.0) && (a.timeInSeconds + elapsed < 0.0 ==> turns <= 0.0)
    ensures a.kind == Slash && 0.0 <= a.timeInSeconds + elapsed ==>
      0.0 <= r.animation.timeInSeconds < slashClipDuration
  {
    if a.kind != Slash then
      AnimationStep(SoldierAnimationState(Slash, 0.0), false)
    else
      var damageTime := SlashDamageTime(slashClipDuration);
      var finishes := a.timeInSeconds < damageTime && a.timeInSeconds + elapsed >= damageTime;
      var t := a.timeInSeconds + elapsed;
      JsRemainderTakesMultiples(t, slashClipDuration);
      assert 0.0 <= t ==> 0.0 <= JsRemainder(t, slashClipDuration) < slashClipDuration by {
        if 0.0 <= t { JsRemainderBounds(t, slashClipDuration); }
      }
      AnimationStep(SoldierAnimationState(Slash, JsRemainder(t, slashClipDuration)), finishes)
  }

  /**
   * So the wrapped walking time is pinned down: whenever advancing a walk by
   * `k` whole clips lands in [0, clip), that is the new time.
   */
  lemma ContinuedWalkTime(elapsed: real, a: SoldierAnimationState, walkClipDuration: real, k: int)
    requires walkClipDuration > 0.0 && a.kind == Walk && 0.0 <= a.timeInSeconds + elapsed
    requires 0.0 <= LessMultiples(a.timeInSeconds + elapsed, walkClipDuration, k) < walkClipDuration
    ensures StartOrContinueWalkingAnimation(elapsed, a, walkClipDuration)
      == SoldierAnimationState(Walk, LessMultiples(a.timeInSeconds + elapsed, walkClipDuration, k))
  {
    JsRemainderUnique(a.timeInSeconds + elapsed, walkClipDuration, k);
  }

  /** Likewise for a slash: the wrapped time is the one in [0, clip) a whole number of clips below. */
  lemma ContinuedSlashTime(elapsed: real, a: SoldierAnimationState, slashClipDuration: real, k: int)
    requires slashClipDuration > 0.0 && a.kind == Slash && 0.0 <= a.timeInSeconds + elapsed
    requires 0.0 <= LessMultiples(a.timeInSeconds + elapsed, slashClipDuration, k) < slashClipDuration
    ensures StartOrContinueSlashAnimation(elapsed, a, slashClipDuration).animation
      == SoldierAnimationState(Slash, LessMultiples(a.timeInSeconds + elapsed, slashClipDuration, k))
  {
    JsRemainderUnique(a.timeInSeconds + elapsed, slashClipDuration, k);
  }

  /** A walk may only be cut off at the middle or at the end of its clip. */
  predicate WalkReachesStopPoint(elapsed: real, t: real, scaledWalkClipDuration: real)
  {
    var halfwayPoint := 0.5 * scaledWalkClipDuration;
    (t < halfwayPoint && t + elapsed >= halfwayPoint) || t + elapsed >= scaledWalkClipDuration
  }

  /**
   * Leaves any non-walking animation alone; a walk goes to Idle when this tick
   * reaches the middle or the end of the clip, and otherwise keeps walking.
   */
  function StopWalkingAnimation(elapsed: real, a: SoldierAnimationState, walkClipDuration: real)
    : (r: SoldierAnimationState)
    requires walkClipDuration > 0.0
    ensures a.kind != Walk ==> r == a
    ensures a.kind == Walk ==> r.kind == Walk || r == SoldierAnimationState(Idle, 0.0)
    ensures a.kind == Walk ==>
      (r == SoldierAnimationState(Idle, 0.0) <==>
         a.timeInSeconds < 0.5 * walkClipDuration <= a.timeInSeconds + elapsed
         || a.timeInSeconds + elapsed >= walkClipDuration)
    ensures a.kind == Walk && r.kind == Walk ==>
      r.timeInSeconds == a.timeInSeconds + elapsed < walkClipDuration
      && (a.timeInSeconds < 0.5 * walkClipDuration ==> r.timeInSeconds < 0.5 * walkClipDuration)
  {
    if a.kind == Walk then
      if WalkReachesStopPoint(elapsed, a.timeInSeconds, walkClipDuration) then
        SoldierAnimationState(Idle, 0.0)
      else
        a.(timeInSeconds := a.timeInSeconds + elapsed)
    else
      a
  }

  /**
   * Like `StopWalkingAnimation`, but the walk goes to Stab, started up to
   * MAX_STAB_DELAY seconds early (a negative time) so that soldiers stab out of step.
   */
  function StopWalkingAndStartStabAnimation(elapsed: real, a: SoldierAnimationState, timeScale: real,
                                            walkClipDuration: real, random: real)
    : (r: SoldierAnimationState)
    requires timeScale > 0.0 && walkClipDuration > 0.0 && 0.0 <= random < 1.0
    ensures a.kind != Walk ==> r == a
    ensures a.kind == Walk ==> r.kind == Walk || r.kind == Stab
    ensures a.kind == Walk ==>
      (r.kind == Stab <==>
         a.timeInSeconds < 0.5 * (walkClipDuration / timeScale) <= a.timeInSeconds + elapsed
         || a.timeInSeconds + elapsed >= walkClipDuration / timeScale)
    ensures r.kind == Stab && a.kind == Walk ==>
      r.timeInSeconds == -random * MAX_STAB_DELAY && -MAX_STAB_DELAY < r.timeInSeconds <= 0.0
    ensures a.kind == Walk && r.kind == Walk ==>
      r.timeInSeconds == a.timeInSeconds + elapsed < walkClipDuration / timeScale
  {
    var scaledWalkClipDuration := walkClipDuration / timeScale;
    if a.kind == Walk then
      if WalkReachesStopPoint(elapsed, a.timeInSeconds, scaledWalkClipDuration) then
        SoldierAnimationState(Stab, -random * MAX_STAB_DELAY)
      else
        a.(timeInSeconds := a.timeInSeconds + elapsed)
    else
      a
  }

  /** At the game's time scale of 1, stopping to idle and stopping to stab happen on the same tick. */
  lemma StopWalkingAgreesWithStartStab(elapsed: real, a: SoldierAnimationState, walkClipDuration: real, random: real)
    requires walkClipDuration > 0.0 && 0.0 <= random < 1.0
    ensures var idle := StopWalkingAnimation(elapsed, a, walkClipDuration);
            var stab := StopWalkingAndStartStabAnimation(elapsed, a, 1.0, walkClipDuration, random);
            (idle.kind == Walk <==> stab.kind == Walk) && (idle.kind == Walk ==> idle == stab)
  {
    assert walkClipDuration / 1.0 == walkClipDuration;
  }

  /**
   * Advances a stab at STAB_TIME_SCALE, reporting whether the damage time was
   * crossed; past the end of the clip it goes to Idle and keeps the overrun,
   * scaled back to real seconds.
   */
  function ContinueStabThenIdleAnimation(elapsed: real, a: SoldierAnimationState, stabClipDuration: real)
    : (r: AnimationStep)
    requires stabClipDuration > 0.0
    ensures r.crossesDamagePoint <==>
      a.timeInSeconds < StabDamageTime(stabClipDuration) <= a.timeInSeconds + elapsed * STAB_TIME_SCALE
    ensures a.timeInSeconds + elapsed * STAB_TIME_SCALE >= stabClipDuration ==>
      r.animation == SoldierAnimationState(Idle,
        (a.timeInSeconds + elapsed * STAB_TIME_SCALE - stabClipDuration) / STAB_TIME_SCALE)
      && r.animation.timeInSeconds >= 0.0
    ensures a.timeInSeconds + elapsed * STAB_TIME_SCALE < stabClipDuration ==>
      r.animation == a.(timeInSeconds := a.timeInSeconds + elapsed * STAB_TIME_SCALE)
  {
    var damageTime := StabDamageTime(stabClipDuration);
    var newTime := a.timeInSeconds + elapsed * STAB_TIME_SCALE;
    var dealsDamage := a.timeInSeconds < damageTime && newTime >= damageTime;
    if newTime >= stabClipDuration then
      AnimationStep(SoldierAnimationState(Idle, (newTime - stabClipDuration) / STAB_TIME_SCALE), dealsDamage)
    else
      AnimationStep(SoldierAnimationState(a.kind, newTime), dealsDamage)
  }

  /**
   * Advances the idle pause after a stab; once STAB_COOLDOWN has passed it
   * starts the next stab, carrying the overrun at the stab time scale minus a
   * random delay, and reports damage if that already reaches the damage time.
   */
  function ContinueIdleThenStabAnimation(elapsed: real, a: SoldierAnimationState, stabClipDuration: real,
                                         random: real)
    : (r: AnimationStep)
    requires stabClipDuration > 0.0 && 0.0 <= random < 1.0
    ensures a.timeInSeconds + elapsed < STAB_COOLDOWN ==>
      r == AnimationStep(a.(timeInSeconds := a.timeInSeconds + elapsed), false)
    ensures a.timeInSeconds + elapsed >= STAB_COOLDOWN ==>
      r.animation.kind == Stab
      && (a.timeInSeconds + elapsed - STAB_COOLDOWN) * STAB_TIME_SCALE - MAX_STAB_DELAY < r.animation.timeInSeconds
      && r.animation.timeInSeconds <= (a.timeInSeconds + elapsed - STAB_COOLDOWN) * STAB_TIME_SCALE
    ensures a.timeInSeconds + elapsed >= STAB_COOLDOWN ==>
      (r.crossesDamagePoint <==> r.animation.timeInSeconds >= StabDamageTime(stabClipDuration))
  {
    var t := a.timeInSeconds + elapsed;
    if t >= STAB_COOLDOWN then
      var stabTime := (t - STAB_COOLDOWN) * STAB_TIME_SCALE - random * MAX_STAB_DELAY;
      AnimationStep(SoldierAnimationState(Stab, stabTime), stabTime >= StabDamageTime(stabClipDuration))
    else
      AnimationStep(a.(timeInSeconds := t), false)
  }

  /**
   * A stab that already dealt its damage on the tick that started it does not
   * deal it again on the next stab tick.
   */
  lemma NoSecondDamageAfterStabStart(e1: real, e2: real, a: SoldierAnimationState, stabClipDuration: real,
                                     random: real)
    requires stabClipDuration > 0.0 && 0.0 <= random < 1.0
    requires ContinueIdleThenStabAnimation(e1, a, stabClipDuration, random).crossesDamagePoint
    ensures !ContinueStabThenIdleAnimation(e2, ContinueIdleThenStabAnimation(e1, a, stabClipDuration, random).animation,
                                           stabClipDuration).crossesDamagePoint
  {
  }

  /**
   * Damage reported by the stab ticks applied to `a` one elapsed time after
   * another, for as long as the animation stays a stab.
   */
  function StabRunDamage(a: SoldierAnimationState, elapsed: seq<real>, stabClipDuration: real): nat
    requires stabClipDuration > 0.0
    decreases |elapsed|
  {
    if |elapsed| == 0 || a.kind != Stab then 0
    else
      var step := ContinueStabThenIdleAnimation(elapsed[0], a, stabClipDuration);
      (if step.crossesDamagePoint then 1 else 0) + StabRunDamage(step.animation, elapsed[1..], stabClipDuration)
  }

  /**
   * With time moving forward, one stab deals damage at most once, and not at
   * all once it is past its damage point.
   */
  lemma {:induction false} StabDealsDamageAtMostOnce(a: SoldierAnimationState, elapsed: seq<real>,
                                                     stabClipDuration: real)
    requires stabClipDuration > 0.0
    requires forall i | 0 <= i < |elapsed| :: elapsed[i] >= 0.0
    ensures StabRunDamage(a, elapsed, stabClipDuration) <= 1
    ensures a.timeInSeconds >= StabDamageTime(stabClipDuration) ==> StabRunDamage(a, elapsed, stabClipDuration) == 0
    decreases |elapsed|
  {
    if |elapsed| > 0 && a.kind == Stab {
      var step := ContinueStabThenIdleAnimation(elapsed[0], a, stabClipDuration);
      StabDealsDamageAtMostOnce(step.animation, elapsed[1..], stabClipDuration);
      assert step.animation.kind == Stab ==> step.animation.timeInSeconds >= a.timeInSeconds;
    }
  }

  /** A stab started from a walk begins before its damage point, so its damage is still to come. */
  lemma StartedStabIsBeforeDamagePoint(elapsed: real, a: SoldierAnimationState, timeScale: real,
                                       m: ModelConstants, random: real)
    requires ValidModelConstants(m) && timeScale > 0.0 && 0.0 <= random < 1.0
    requires a.kind == Walk
    requires StopWalkingAndStartStabAnimation(elapsed, a, timeScale, m.azukiSpearWalkClipDuration, random).kind == Stab
    ensures StopWalkingAndStartStabAnimation(elapsed, a, timeScale, m.azukiSpearWalkClipDuration, random).timeInSeconds
      < StabDamageTime(m.azukiSpearStabClipDuration)
  {
  }
}
