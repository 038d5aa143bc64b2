// Soldier explosions: creation (src/tick.ts:1144-1155) and the per-tick
// expiry pass (src/tick.ts:1055-1071).
//
// The game advances each explosion and splices out the ones past the end of
// the clip, but it does not step the index back after `splice`, so the
// explosion that slides into the freed slot is skipped for that tick. Both
// the loop as written and the loop with the index stepped back are modelled.

module TickExplosions {
  import opened Prelude
  import opened GeoUtils
  import opened BattleData

  /**
   * A new explosion where a soldier died, at time 0. The game copies the three
   * coordinates into a new array so that the explosion does not share the
   * soldier's; a Dafny sequence is a value, so the position itself is that copy.
   * The orientation is not copied: the explosion shares the soldier's record,
   * which as a value here carries the same angles.
   */
  function GetSoldierExplosion(allegiance: Allegiance, position: Triple, orientation: Orientation)
    : (e: SoldierExplosion)
    ensures e.timeInSeconds == 0.0
    ensures e.allegiance == allegiance && e.position == position && e.orientation == orientation
  {
    SoldierExplosion(allegiance, position, orientation, 0.0)
  }

  function Advance(e: SoldierExplosion, elapsed: real): SoldierExplosion
  {
    e.(timeInSeconds := e.timeInSeconds + elapsed)
  }

  predicate Expired(e: SoldierExplosion, clipDuration: real)
  {
    e.timeInSeconds > clipDuration
  }

  /** The intended pass: every explosion advanced, and the expired ones dropped. */
  function Ticked(xs: seq<SoldierExplosion>, elapsed: real, clipDuration: real): seq<SoldierExplosion>
    decreases |xs|
  {
    if |xs| == 0 then []
    else
      var e := Advance(xs[0], elapsed);
      (if Expired(e, clipDuration) then [] else [e]) + Ticked(xs[1..], elapsed, clipDuration)
  }

  /** The pass as the game writes it: the explosion after a dropped one is kept as it was. */
  function TickedAsWritten(xs: seq<SoldierExplosion>, elapsed: real, clipDuration: real): seq<SoldierExplosion>
    decreases |xs|
  {
    if |xs| == 0 then []
    else
      var e := Advance(xs[0], elapsed);
      if Expired(e, clipDuration) then
        if |xs| == 1 then [] else [xs[1]] + TickedAsWritten(xs[2..], elapsed, clipDuration)
      else
        [e] + TickedAsWritten(xs[1..], elapsed, clipDuration)
  }

  /** The intended pass works element by element, so it keeps the order of the list. */
  lemma {:induction false} TickedAppend(xs: seq<SoldierExplosion>, ys: seq<SoldierExplosion>, elapsed: real,
                                        clipDuration: real)
    ensures Ticked(xs + ys, elapsed, clipDuration) == Ticked(xs, elapsed, clipDuration) + Ticked(ys, elapsed, clipDuration)
    decreases |xs|
  {
    if |xs| > 0 {
      assert (xs + ys)[1..] == xs[1..] + ys;
      TickedAppend(xs[1..], ys, elapsed, clipDuration);
    } else {
      assert xs + ys == ys;
    }
  }

  /**
   * After the intended pass no explosion is past its clip, and an explosion
   * is kept, advanced, exactly when it is not past the clip after advancing.
   */
  lemma {:induction false} TickedSpec(xs: seq<SoldierExplosion>, elapsed: real, clipDuration: real)
    ensures forall e | e in Ticked(xs, elapsed, clipDuration) :: !Expired(e, clipDuration)
    ensures forall i | 0 <= i < |xs| && !Expired(Advance(xs[i], elapsed), clipDuration) ::
      Advance(xs[i], elapsed) in Ticked(xs, elapsed, clipDuration)
    ensures forall e | e in Ticked(xs, elapsed, clipDuration) :: exists i | 0 <= i < |xs| :: e == Advance(xs[i], elapsed)
    decreases |xs|
  {
    if |xs| > 0 {
      TickedSpec(xs[1..], elapsed, clipDuration);
      forall i | 0 <= i < |xs| && !Expired(Advance(xs[i], elapsed), clipDuration)
        ensures Advance(xs[i], elapsed) in Ticked(xs, elapsed, clipDuration)
      {
        if i > 0 {
          assert xs[1..][i - 1] == xs[i];
        }
      }
      forall e | e in Ticked(xs, elapsed, clipDuration)
        ensures exists i | 0 <= i < |xs| :: e == Advance(xs[i], elapsed)
      {
        if e in Ticked(xs[1..], elapsed, clipDuration) {
          var i :| 0 <= i < |xs[1..]| && e == Advance(xs[1..][i], elapsed);
          assert e == Advance(xs[i + 1], elapsed);
        } else {
          assert e == Advance(xs[0], elapsed);
        }
      }
    }
  }

  /** A new explosion survives its first tick exactly when the tick is no longer than the clip. */
  lemma NewExplosionSurvivesShortTick(allegiance: Allegiance, position: Triple, orientation: Orientation,
                                      elapsed: real, clipDuration: real)
    ensures var e := GetSoldierExplosion(allegiance, position, orientation);
      Ticked([e], elapsed, clipDuration) == (if elapsed <= clipDuration then [Advance(e, elapsed)] else [])
  {
    var e := GetSoldierExplosion(allegiance, position, orientation);
    assert [e][1..] == [];
  }

  /** As written, the explosion behind a dropped one is carried over unadvanced and unchecked. */
  lemma AsWrittenSkipsAfterDrop(xs: seq<SoldierExplosion>, elapsed: real, clipDuration: real)
    requires |xs| >= 2 && Expired(Advance(xs[0], elapsed), clipDuration)
    ensures TickedAsWritten(xs, elapsed, clipDuration)[0] == xs[1]
  {
  }

  /**
   * Two explosions expiring on the same tick: the intended pass drops both,
   * the pass as written keeps the second one.
   */
  lemma AsWrittenKeepsExpiredExplosion()
    ensures var e := SoldierExplosion(Azuki, [0.0, 0.0, 0.0], Orientation(0.0, 0.0, 0.0), 0.5);
      TickedAsWritten([e, e], 1.0, 1.0) == [e] && Ticked([e, e], 1.0, 1.0) == []
      && Expired(Advance(e, 1.0), 1.0)
  {
    var e := SoldierExplosion(Azuki, [0.0, 0.0, 0.0], Orientation(0.0, 0.0, 0.0), 0.5);
    assert [e, e][1..] == [e];
    assert [e, e][2..] == [];
    assert [e][1..] == [];
    assert Ticked([e], 1.0, 1.0) == [];
  }

  lemma AsWrittenUnfold(xs: seq<SoldierExplosion>, j: int, elapsed: real, clipDuration: real)
    requires 0 <= j < |xs|
    ensures !Expired(Advance(xs[j], elapsed), clipDuration) ==>
      TickedAsWritten(xs[j..], elapsed, clipDuration)
        == [Advance(xs[j], elapsed)] + TickedAsWritten(xs[j + 1..], elapsed, clipDuration)
    ensures Expired(Advance(xs[j], elapsed), clipDuration) && j + 1 < |xs| ==>
      TickedAsWritten(xs[j..], elapsed, clipDuration) == [xs[j + 1]] + TickedAsWritten(xs[j + 2..], elapsed, clipDuration)
    ensures Expired(Advance(xs[j], elapsed), clipDuration) && j + 1 == |xs| ==>
      TickedAsWritten(xs[j..], elapsed, clipDuration) == []
  {
    assert xs[j..][1..] == xs[j + 1..];
    if j + 1 < |xs| {
      assert xs[j..][2..] == xs[j + 2..];
    }
  }

  /**
   * The state of the loop as written: `out` is what the pass has settled so
   * far, the list from `i` on is the original from `j` on, and `i` runs one
   * past the end when the last explosion was spliced out.
   */
  predicate AsWrittenLoop(orig: seq<SoldierExplosion>, elapsed: real, clipDuration: real, j: int,
                          out: seq<SoldierExplosion>, xs: seq<SoldierExplosion>, i: int)
  {
    && 0 <= j <= |orig| && 0 <= i <= |xs| + 1
    && (i <= |xs| ==> out == xs[..i] && xs[i..] == orig[j..])
    && (i == |xs| + 1 ==> out == xs && j == |orig|)
    && TickedAsWritten(orig, elapsed, clipDuration) == out + TickedAsWritten(orig[j..], elapsed, clipDuration)
  }

  /** Splicing out an expired explosion, after which the loop steps over the next one. */
  lemma AsWrittenLoopDrop(orig: seq<SoldierExplosion>, elapsed: real, clipDuration: real, j: int,
                          out: seq<SoldierExplosion>, xs: seq<SoldierExplosion>, i: int)
    requires AsWrittenLoop(orig, elapsed, clipDuration, j, out, xs, i) && i < |xs|
    requires Expired(Advance(xs[i], elapsed), clipDuration)
    ensures var ys := xs[..i] + xs[i + 1..];
      if i < |ys| then AsWrittenLoop(orig, elapsed, clipDuration, j + 2, out + [orig[j + 1]], ys, i + 1)
      else AsWrittenLoop(orig, elapsed, clipDuration, j + 1, out, ys, i + 1)
  {
    AsWrittenUnfold(orig, j, elapsed, clipDuration);
    SpliceShape(xs, i, orig, j);
    var ys := xs[..i] + xs[i + 1..];
    if i < |ys| {
      assert out + ([orig[j + 1]] + TickedAsWritten(orig[j + 2..], elapsed, clipDuration))
        == (out + [orig[j + 1]]) + TickedAsWritten(orig[j + 2..], elapsed, clipDuration);
    } else {
      assert orig[j + 1..] == [];
      assert out + [] == out;
    }
  }

  /** Advancing an explosion that is still within its clip, in place. */
  lemma AsWrittenLoopKeep(orig: seq<SoldierExplosion>, elapsed: real, clipDuration: real, j: int,
                          out: seq<SoldierExplosion>, xs: seq<SoldierExplosion>, i: int)
    requires AsWrittenLoop(orig, elapsed, clipDuration, j, out, xs, i) && i < |xs|
    requires !Expired(Advance(xs[i], elapsed), clipDuration)
    ensures var e := Advance(xs[i], elapsed);
      AsWrittenLoop(orig, elapsed, clipDuration, j + 1, out + [e], xs[i := e], i + 1)
  {
    AsWrittenUnfold(orig, j, elapsed, clipDuration);
    var e := Advance(xs[i], elapsed);
    AdvanceShape(xs, i, orig, j, e);
    assert out + ([e] + TickedAsWritten(orig[j + 1..], elapsed, clipDuration))
      == (out + [e]) + TickedAsWritten(orig[j + 1..], elapsed, clipDuration);
  }

  /** The loop state at the start, and what it has computed once the index is past the end. */
  lemma AsWrittenLoopBounds(orig: seq<SoldierExplosion>, elapsed: real, clipDuration: real, j: int,
                            out: seq<SoldierExplosion>, xs: seq<SoldierExplosion>, i: int)
    ensures AsWrittenLoop(orig, elapsed, clipDuration, 0, [], orig, 0)
    ensures AsWrittenLoop(orig, elapsed, clipDuration, j, out, xs, i) && i < |xs| ==> j < |orig| && xs[i] == orig[j]
    ensures AsWrittenLoop(orig, elapsed, clipDuration, j, out, xs, i) && i >= |xs| ==>
      xs == TickedAsWritten(orig, elapsed, clipDuration)
  {
    assert orig[0..] == orig && orig[..0] == [] && [] + TickedAsWritten(orig, elapsed, clipDuration) == TickedAsWritten(orig, elapsed, clipDuration);
    if AsWrittenLoop(orig, elapsed, clipDuration, j, out, xs, i) && i < |xs| {
      assert xs[i..][0] == orig[j..][0];
    }
    if AsWrittenLoop(orig, elapsed, clipDuration, j, out, xs, i) && i >= |xs| {
      if i == |xs| {
        assert xs[..i] == xs;
        assert |orig[j..]| == 0;
      }
      assert orig[j..] == [];
      assert out + [] == out;
    }
  }

  /** What `splice(i, 1)` leaves around the index, when the list from `i` on is `orig` from `j` on. */
  lemma SpliceShape(xs: seq<SoldierExplosion>, i: int, orig: seq<SoldierExplosion>, j: int)
    requires 0 <= i < |xs| && 0 <= j <= |orig| && xs[i..] == orig[j..]
    ensures var ys := xs[..i] + xs[i + 1..];
      |ys| == |xs| - 1 && ys[..i] == xs[..i]
      && (i < |ys| ==> ys[..i + 1] == xs[..i] + [orig[j + 1]] && ys[i + 1..] == orig[j + 2..])
  {
    var ys := xs[..i] + xs[i + 1..];
    if i < |ys| {
      assert xs[i + 1] == orig[j + 1];
      assert ys[i + 1..] == xs[i + 2..];
      assert xs[i + 2..] == xs[i..][2..];
    }
  }

  /** The list after advancing index `i` in place, when the list from `i` on is `orig` from `j` on. */
  lemma AdvanceShape(xs: seq<SoldierExplosion>, i: int, orig: seq<SoldierExplosion>, j: int, e: SoldierExplosion)
    requires 0 <= i < |xs| && 0 <= j <= |orig| && xs[i..] == orig[j..]
    ensures var ys := xs[i := e];
      ys[..i + 1] == xs[..i] + [e] && ys[i + 1..] == orig[j + 1..]
  {
    assert xs[i + 1..] == xs[i..][1..];
  }

  /** The game's loop: advance in place, `splice` the expired one, and go on with the next index. */
  method TickSoldierExplosionsAsWritten(elapsed: real, clipDuration: real, battle: BattleState)
    modifies battle
    ensures battle.data == old(battle.data).(soldierExplosions :=
      TickedAsWritten(old(battle.data.soldierExplosions), elapsed, clipDuration))
  {
    var d := battle.data;
    var xs := d.soldierExplosions;
    ghost var orig := xs;
    ghost var j := 0;
    ghost var out: seq<SoldierExplosion> := [];
    AsWrittenLoopBounds(orig, elapsed, clipDuration, j, out, xs, 0);
    var i := 0;
    while i < |xs|
      invariant AsWrittenLoop(orig, elapsed, clipDuration, j, out, xs, i)
      decreases |orig| - j
    {
      AsWrittenLoopBounds(orig, elapsed, clipDuration, j, out, xs, i);
      var explosion := Advance(xs[i], elapsed);
      if explosion.timeInSeconds > clipDuration {
        AsWrittenLoopDrop(orig, elapsed, clipDuration, j, out, xs, i);
        xs := xs[..i] + xs[i + 1..];
        if i < |xs| {
          out := out + [orig[j + 1]];
          j := j + 2;
        } else {
          j := j + 1;
        }
      } else {
        AsWrittenLoopKeep(orig, elapsed, clipDuration, j, out, xs, i);
        xs := xs[i := explosion];
        out := out + [explosion];
        j := j + 1;
      }
      i := i + 1;
    }
    AsWrittenLoopBounds(orig, elapsed, clipDuration, j, out, xs, i);
    battle.data := d.(soldierExplosions := xs);
  }

  /** The state of the intended loop: the list before `i` is the pass over the first `j` of the original. */
  predicate TickedLoop(orig: seq<SoldierExplosion>, elapsed: real, clipDuration: real, j: int,
                       xs: seq<SoldierExplosion>, i: int)
  {
    && 0 <= j <= |orig| && 0 <= i <= |xs|
    && xs[i..] == orig[j..]
    && xs[..i] == Ticked(orig[..j], elapsed, clipDuration)
  }

  /** One turn of the intended loop: advance in place, then splice out or step past. */
  lemma TickedLoopStep(orig: seq<SoldierExplosion>, elapsed: real, clipDuration: real, j: int,
                       xs: seq<SoldierExplosion>, i: int)
    requires TickedLoop(orig, elapsed, clipDuration, j, xs, i) && i < |xs|
    ensures var e := Advance(xs[i], elapsed);
      var ys := xs[i := e];
      if e.timeInSeconds > clipDuration then TickedLoop(orig, elapsed, clipDuration, j + 1, ys[..i] + ys[i + 1..], i)
      else TickedLoop(orig, elapsed, clipDuration, j + 1, ys, i + 1)
  {
    assert xs[i] == orig[j] by { assert xs[i..][0] == orig[j..][0]; }
    assert orig[..j + 1] == orig[..j] + [orig[j]];
    TickedAppend(orig[..j], [orig[j]], elapsed, clipDuration);
    assert [orig[j]][1..] == [];
    var e := Advance(xs[i], elapsed);
    var ys := xs[i := e];
    assert xs[i + 1..] == xs[i..][1..];
    if e.timeInSeconds > clipDuration {
      var zs := ys[..i] + ys[i + 1..];
      assert zs[..i] == xs[..i];
      assert zs[i..] == xs[i + 1..];
      assert Ticked(orig[..j + 1], elapsed, clipDuration) == Ticked(orig[..j], elapsed, clipDuration) + [];
    } else {
      assert ys[..i + 1] == xs[..i] + [e];
    }
  }

  /** The intended loop's state at the start, and what it has computed at the end. */
  lemma TickedLoopBounds(orig: seq<SoldierExplosion>, elapsed: real, clipDuration: real, j: int,
                         xs: seq<SoldierExplosion>, i: int)
    ensures TickedLoop(orig, elapsed, clipDuration, 0, orig, 0)
    ensures TickedLoop(orig, elapsed, clipDuration, j, xs, i) && i >= |xs| ==> xs == Ticked(orig, elapsed, clipDuration)
  {
    assert orig[0..] == orig && orig[..0] == [];
    if TickedLoop(orig, elapsed, clipDuration, j, xs, i) && i >= |xs| {
      assert |orig[j..]| == 0;
      assert orig[..j] == orig;
      assert xs[..i] == xs;
    }
  }

  /** The loop with the index stepped back after `splice`, which the pass evidently intends. */
  method TickSoldierExplosions(elapsed: real, clipDuration: real, battle: BattleState)
    modifies battle
    ensures battle.data == old(battle.data).(soldierExplosions :=
      Ticked(old(battle.data.soldierExplosions), elapsed, clipDuration))
  {
    var d := battle.data;
    var xs := d.soldierExplosions;
    ghost var orig := xs;
    ghost var j := 0;
    TickedLoopBounds(orig, elapsed, clipDuration, j, xs, 0);
    var i := 0;
    while i < |xs|
      invariant TickedLoop(orig, elapsed, clipDuration, j, xs, i)
      decreases |orig| - j
    {
      TickedLoopStep(orig, elapsed, clipDuration, j, xs, i);
      var explosion := Advance(xs[i], elapsed);
      xs := xs[i := explosion];
      if explosion.timeInSeconds > clipDuration {
        xs := xs[..i] + xs[i + 1..];
        j := j + 1;
        continue;
      }
      i := i + 1;
      j := j + 1;
    }
    TickedLoopBounds(orig, elapsed, clipDuration, j, xs, i);
    battle.data := d.(soldierExplosions := xs);
  }
}
