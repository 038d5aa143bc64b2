// Angle wrapping in the battle tick: `limitTurn` (src/tick.ts:952-970) and
// `normalizeAngleBetweenNegPiAndPosPi` (src/tick.ts:1133-1142). Both work by
// adding or subtracting whole turns in `while` loops; each method is proved
// equal to a closed form that says how many turns the loops take.

module TickAngles {
  import opened Prelude

  /** `a` moved by `k` whole turns. */
  function Turned(a: real, k: int): real
  {
    a - TWO_PI * (k as real)
  }

  /** A turn more or less is the angle moved by one more or one less turn. */
  lemma TurnedStep(a: real, k: int)
    ensures Turned(a, k) - TWO_PI == Turned(a, k + 1)
    ensures Turned(a, k) + TWO_PI == Turned(a, k - 1)
  {
  }

  /** Two turn counts whose results lie less than a whole turn apart are the same count. */
  lemma SameTurns(a: real, k1: int, k2: int)
    requires -TWO_PI < Turned(a, k1) - Turned(a, k2) < TWO_PI
    ensures k1 == k2
  {
    var j := k2 - k1;
    MulIntDifference(TWO_PI, k2, k1);
    if j >= 1 {
      MulIntLowerBound(TWO_PI, j);
      assert false;
    } else if j <= -1 {
      MulIntUpperBound(TWO_PI, j);
      assert false;
    }
  }

  /** Turns left above PI: the measure the lowering loops decrease. */
  function TurnsAbovePi(v: real): int
  {
    Ceil((v - PI) / TWO_PI)
  }

  /** Turns left below -PI (or, shifted by one turn, below PI): the measure the raising loops decrease. */
  function TurnsBelow(bound: real, v: real): int
  {
    Ceil((bound - v) / TWO_PI)
  }

  lemma LowerOneTurn(v: real)
    requires v > PI
    ensures TurnsAbovePi(v) >= 1
    ensures TurnsAbovePi(v - TWO_PI) == TurnsAbovePi(v) - 1
  {
    CeilBounds((v - PI) / TWO_PI);
    DivSub(v - PI, TWO_PI);
    CeilShift((v - PI) / TWO_PI);
  }

  lemma RaiseOneTurn(bound: real, v: real)
    requires v < bound
    ensures TurnsBelow(bound, v) >= 1
    ensures TurnsBelow(bound, v + TWO_PI) == TurnsBelow(bound, v) - 1
  {
    CeilBounds((bound - v) / TWO_PI);
    DivSub(bound - v, TWO_PI);
    CeilShift((bound - v) / TWO_PI);
  }

  /** The whole turns to take off `a` to land in (-PI, PI]. */
  function TurnsDown(a: real): int
  {
    TurnsAbovePi(a)
  }

  /** The representative of `a` in (-PI, PI]. */
  function NormalizedAngle(a: real): real
  {
    Turned(a, TurnsDown(a))
  }

  lemma {:induction false} NormalizedAngleInRange(a: real)
    ensures -PI < NormalizedAngle(a) <= PI
  {
    var x := (a - PI) / TWO_PI;
    var n := TurnsDown(a);
    CeilBounds(x);
    assert TWO_PI * x == a - PI;
    MulMono(TWO_PI, x, n as real);
    MulMonoStrict(TWO_PI, n as real, x + 1.0);
    assert TWO_PI * (x + 1.0) == a - PI + TWO_PI;
  }

  /** Any whole number of turns that lands in (-PI, PI] is the one NormalizedAngle takes. */
  lemma {:induction false} NormalizedAngleUnique(a: real, k: int)
    requires -PI < Turned(a, k) <= PI
    ensures k == TurnsDown(a) && Turned(a, k) == NormalizedAngle(a)
  {
    NormalizedAngleInRange(a);
    SameTurns(a, k, TurnsDown(a));
  }

  lemma NormalizedAngleOfRepresentative(a: real)
    requires -PI < a <= PI
    ensures NormalizedAngle(a) == a
  {
    NormalizedAngleUnique(a, 0);
  }

  lemma NormalizedAngleIdempotent(a: real)
    ensures NormalizedAngle(NormalizedAngle(a)) == NormalizedAngle(a)
  {
    NormalizedAngleInRange(a);
    NormalizedAngleOfRepresentative(NormalizedAngle(a));
  }

  lemma NormalizedAnglePeriodic(a: real, j: int)
    ensures NormalizedAngle(Turned(a, j)) == NormalizedAngle(a)
  {
    var b := Turned(a, j);
    NormalizedAngleInRange(a);
    assert Turned(b, TurnsDown(a) - j) == NormalizedAngle(a);
    NormalizedAngleUnique(b, TurnsDown(a) - j);
  }

  /** `normalizeAngleBetweenNegPiAndPosPi`: first lift the angle to PI or above, then lower it turn by turn. */
  method NormalizeAngleBetweenNegPiAndPosPi(angle: real) returns (out: real)
    ensures -PI < out <= PI
    ensures out == NormalizedAngle(angle)
  {
    out := angle;
    ghost var k: int := 0;
    while out < PI
      invariant out == Turned(angle, k)
      decreases TurnsBelow(PI, out)
    {
      RaiseOneTurn(PI, out);
      TurnedStep(angle, k);
      out := out + TWO_PI;
      k := k - 1;
    }
    ghost var lifted := out;
    while out > PI
      invariant out == Turned(angle, k)
      invariant out == lifted || out > -PI
      invariant lifted >= PI
      decreases TurnsAbovePi(out)
    {
      LowerOneTurn(out);
      TurnedStep(angle, k);
      out := out - TWO_PI;
      k := k + 1;
    }
    NormalizedAngleUnique(angle, k);
  }

  /** The whole turns to add to `d` (below -PI) to land in [-PI, PI). */
  function TurnsUp(d: real): int
  {
    TurnsBelow(-PI, d)
  }

  /**
   * `limitTurn`'s wrapped difference: brought down into (-PI, PI] when above PI,
   * brought up into [-PI, PI) when below -PI, untouched otherwise.
   */
  function WrappedDifference(d: real): real
  {
    if d > PI then NormalizedAngle(d)
    else if d < -PI then Turned(d, -TurnsUp(d))
    else d
  }

  lemma {:induction false} TurnsUpInRange(d: real)
    ensures -PI <= Turned(d, -TurnsUp(d)) < PI
  {
    var x := (-PI - d) / TWO_PI;
    var m := TurnsUp(d);
    CeilBounds(x);
    assert TWO_PI * x == -PI - d;
    MulMono(TWO_PI, x, m as real);
    MulMonoStrict(TWO_PI, m as real, x + 1.0);
    assert TWO_PI * (x + 1.0) == -PI - d + TWO_PI;
    assert TWO_PI * ((-m) as real) == -(TWO_PI * (m as real));
    assert TWO_PI * (m as real) >= -PI - d;
    assert TWO_PI * (m as real) < PI - d;
    assert Turned(d, -m) == d + TWO_PI * (m as real);
  }

  lemma WrappedDifferenceInRange(d: real)
    ensures -PI <= WrappedDifference(d) <= PI
  {
    NormalizedAngleInRange(d);
    TurnsUpInRange(d);
  }

  /** The whole turns WrappedDifference takes off. */
  function WrapTurns(d: real): int
  {
    if d > PI then TurnsDown(d) else if d < -PI then -TurnsUp(d) else 0
  }

  lemma WrappedDifferenceIsTurned(d: real)
    ensures WrappedDifference(d) == Turned(d, WrapTurns(d))
  {
  }

  /** The wrapped difference agrees with NormalizedAngle except that it may keep -PI where the other gives PI. */
  lemma WrappedDifferenceVersusNormalized(d: real)
    ensures WrappedDifference(d) == NormalizedAngle(d)
         || (WrappedDifference(d) == -PI && NormalizedAngle(d) == PI)
  {
    WrappedDifferenceInRange(d);
    NormalizedAngleInRange(d);
    if WrappedDifference(d) != -PI {
      NormalizedAngleUnique(d, WrapTurns(d));
    } else {
      NormalizedAngleUnique(d, WrapTurns(d) - 1);
    }
  }

  /** A turn of `d` strictly inside (-PI, PI) is its wrapped difference. */
  lemma WrappedDifferenceUnique(d: real, j: int)
    requires -PI < Turned(d, j) < PI
    ensures WrappedDifference(d) == Turned(d, j)
  {
    WrappedDifferenceInRange(d);
    SameTurns(d, j, WrapTurns(d));
  }

  /** What the two loops of limitTurn leave behind is the wrapped difference. */
  lemma {:induction false} LoopsGiveWrappedDifference(d: real, k: int, lowered: real, m: int, v: real)
    requires lowered == Turned(d, k) && k >= 0 && lowered <= PI && (k > 0 ==> lowered > -PI)
    requires v == Turned(lowered, -m) && m >= 0 && v >= -PI && (m > 0 ==> v < PI)
    ensures v == WrappedDifference(d)
  {
    if k > 0 {
      NormalizedAngleUnique(d, k);
      assert m == 0;
    } else if m > 0 {
      TurnsUpInRange(d);
      SameTurns(d, -m, -TurnsUp(d));
    }
  }

  /** The angle `limitTurn` returns. */
  function LimitedTurn(current: real, desired: real, maxChange: real): real
  {
    var w := WrappedDifference(desired - current);
    if Abs(w) <= maxChange then desired else current + maxChange * Sign(w)
  }

  method LimitTurn(currentAngle: real, desiredAngle: real, maxChange: real) returns (r: real)
    ensures r == LimitedTurn(currentAngle, desiredAngle, maxChange)
  {
    ghost var d := desiredAngle - currentAngle;
    var difference := desiredAngle - currentAngle;
    ghost var k: int := 0;
    while difference > PI
      invariant difference == Turned(d, k) && k >= 0
      invariant k > 0 ==> difference > -PI
      decreases TurnsAbovePi(difference)
    {
      LowerOneTurn(difference);
      TurnedStep(d, k);
      difference := difference - TWO_PI;
      k := k + 1;
    }
    ghost var lowered := difference;
    ghost var m: int := 0;
    while difference < -PI
      invariant difference == Turned(lowered, -m) && m >= 0
      invariant m > 0 ==> difference < PI
      decreases TurnsBelow(-PI, difference)
    {
      RaiseOneTurn(-PI, difference);
      TurnedStep(lowered, -m);
      difference := difference + TWO_PI;
      m := m + 1;
    }
    LoopsGiveWrappedDifference(d, k, lowered, m, difference);

    var absDifference := Abs(difference);
    if absDifference <= maxChange {
      return desiredAngle;
    }
    return currentAngle + maxChange * Sign(difference);
  }

  /**
   * With a non-negative step, limitTurn lands exactly on the desired angle
   * precisely when the wrapped difference is within the step.
   */
  lemma {:induction false} LimitTurnReachesDesiredIff(current: real, desired: real, maxChange: real)
    requires maxChange >= 0.0
    ensures LimitedTurn(current, desired, maxChange) == desired
        <==> Abs(WrappedDifference(desired - current)) <= maxChange
  {
    var d := desired - current;
    var w := WrappedDifference(d);
    WrappedDifferenceInRange(d);
    if Abs(w) > maxChange {
      var k := WrapTurns(d);
      assert d == w + TWO_PI * (k as real);
      var step := maxChange * Sign(w);
      assert Abs(step) == maxChange;
      if k == 0 {
        assert d == w;
      } else if k >= 1 {
        MulIntLowerBound(TWO_PI, k);
        assert d >= PI;
      } else {
        MulIntLowerBound(TWO_PI, -k);
        assert TWO_PI * ((-k) as real) == -(TWO_PI * (k as real));
        assert d <= -PI;
      }
      assert d != step;
    }
  }

  /**
   * When limitTurn stops short, the remaining wrapped difference has shrunk by
   * exactly the step: the turn goes the short way round.
   */
  lemma {:induction false} LimitTurnProgress(current: real, desired: real, maxChange: real)
    requires maxChange >= 0.0
    requires Abs(WrappedDifference(desired - current)) > maxChange
    ensures var r := LimitedTurn(current, desired, maxChange);
      Abs(WrappedDifference(desired - r))
        == Abs(WrappedDifference(desired - current)) - maxChange
  {
    var d := desired - current;
    var w := WrappedDifference(d);
    WrappedDifferenceInRange(d);
    var r := LimitedTurn(current, desired, maxChange);
    if maxChange == 0.0 {
      assert r == current;
    } else {
      var w2 := w - maxChange * Sign(w);
      assert -PI < w2 < PI;
      assert Abs(w2) == Abs(w) - maxChange;
      var k := WrapTurns(d);
      assert desired - r == Turned(w2, -k);
      assert Turned(desired - r, k) == w2;
      WrappedDifferenceUnique(desired - r, k);
    }
  }
}
