// Shared vocabulary: optional values, real-number helpers that stand in for
// the JavaScript and Python numeric operators the game relies on, and the
// value of `Math.PI`.

module Prelude {

  datatype Option<T> = None | Some(value: T)

  /** The outcome of an operation that can throw: its value, or the message it throws. */
  datatype Result<T> = Success(value: T) | Failure(error: string)

  /** `Math.PI`: the double nearest to pi, written out exactly. */
  const PI: real := 3.141592653589793115997963468544185161590576171875
  const TWO_PI: real := 2.0 * PI

  /** A 3-component position or direction (`Triple` in the game). */
  type Triple = t: seq<real> | |t| == 3 witness [0.0, 0.0, 0.0]

  function Abs(x: real): (r: real)
    ensures r >= 0.0 && (r == x || r == -x)
  {
    if x < 0.0 then -x else x
  }

  /** `Math.sign`: -1, 0 or 1. */
  function Sign(x: real): (r: real)
    ensures x > 0.0 ==> r == 1.0
    ensures x < 0.0 ==> r == -1.0
    ensures x == 0.0 ==> r == 0.0
  {
    if x > 0.0 then 1.0 else if x < 0.0 then -1.0 else 0.0
  }

  function Min(a: int, b: int): int { if a < b then a else b }
  function Max(a: int, b: int): int { if a < b then b else a }

  /** `Math.ceil`. */
  function Ceil(x: real): int
  {
    -((-x).Floor)
  }

  lemma CeilBounds(x: real)
    ensures x <= Ceil(x) as real < x + 1.0
  {
  }

  lemma CeilShift(x: real)
    ensures Ceil(x - 1.0) == Ceil(x) - 1
  {
  }

  /** `Math.trunc`, as Python's `int()` and `%d` also round a float toward zero. */
  function Trunc(x: real): (r: int)
    ensures x >= 0.0 ==> r == x.Floor
    ensures x < 0.0 ==> r == Ceil(x)
  {
    if x >= 0.0 then x.Floor else Ceil(x)
  }

  /** JavaScript's `%` on numbers: the remainder of a division truncated toward zero. */
  function JsRemainder(a: real, b: real): real
    requires b != 0.0
  {
    a - b * (Trunc(a / b) as real)
  }

  lemma JsRemainderOfSmaller(a: real, b: real)
    requires 0.0 <= a < b
    ensures JsRemainder(a, b) == a
  {
    assert 0.0 <= a / b < 1.0 by { DivBelowOne(a, b); }
  }

  /** JavaScript's `%` of a non-negative number by a positive one lies in [0, b). */
  lemma {:induction false} JsRemainderBounds(a: real, b: real)
    requires a >= 0.0 && b > 0.0
    ensures 0.0 <= JsRemainder(a, b) < b
  {
    var q := a / b;
    DivNonNegative(a, b);
    var f := Trunc(q);
    assert f as real <= q < f as real + 1.0;
    RemainderBounds(a, b, q, f as real);
  }

  /** `a` less `k` whole multiples of `b`. */
  function LessMultiples(a: real, b: real, k: int): real
  {
    a - b * (k as real)
  }

  /**
   * JavaScript's `%` takes whole multiples of the divisor off the dividend:
   * none or more from a non-negative number, none or fewer from a negative one.
   */
  lemma JsRemainderTakesMultiples(a: real, b: real)
    requires b > 0.0
    ensures JsRemainder(a, b) == LessMultiples(a, b, Trunc(a / b))
    ensures a >= 0.0 ==> Trunc(a / b) >= 0
    ensures a < 0.0 ==> Trunc(a / b) <= 0
    ensures (a - JsRemainder(a, b)) / b == Trunc(a / b) as real
  {
    assert a - JsRemainder(a, b) == b * (Trunc(a / b) as real);
    if a >= 0.0 {
      DivNonNegative(a, b);
    } else {
      DivNonNegative(-a, b);
      assert a / b == -((-a) / b);
    }
  }

  /**
   * Of a non-negative number, JavaScript's `%` is the one value in [0, b)
   * that lies a whole number of multiples of `b` below it.
   */
  lemma JsRemainderUnique(a: real, b: real, k: int)
    requires a >= 0.0 && b > 0.0 && 0.0 <= LessMultiples(a, b, k) < b
    ensures JsRemainder(a, b) == LessMultiples(a, b, k)
  {
    JsRemainderBounds(a, b);
    JsRemainderTakesMultiples(a, b);
    MultiplesBelowUnique(a, b, k, Trunc(a / b));
  }

  /** At most one whole number of multiples of `b` brings `a` into [0, b). */
  lemma MultiplesBelowUnique(a: real, b: real, k: int, f: int)
    requires b > 0.0
    requires 0.0 <= LessMultiples(a, b, k) < b && 0.0 <= LessMultiples(a, b, f) < b
    ensures k == f
  {
    MulIntDifference(b, k, f);
    DifferenceBelowWidth(a, b, b * (k as real), b * (f as real), b * ((k - f) as real));
    MulIntSmall(b, k - f);
  }

  /** Two values that both bring `a` into [0, b) differ by less than b. */
  lemma DifferenceBelowWidth(a: real, b: real, x: real, y: real, z: real)
    requires x - y == z && 0.0 <= a - x < b && 0.0 <= a - y < b
    ensures -b < z < b
  {
  }

  /** A whole multiple of `b` strictly between -b and b is zero. */
  lemma MulIntSmall(b: real, n: int)
    requires b > 0.0 && -b < b * (n as real) < b
    ensures n == 0
  {
    if n >= 1 {
      MulIntLowerBound(b, n);
      assert false;
    } else if n <= -1 {
      MulIntUpperBound(b, n);
      assert false;
    }
  }

  lemma DivNonNegative(a: real, b: real)
    requires a >= 0.0 && b > 0.0
    ensures a / b >= 0.0 && b * (a / b) == a
  {
  }

  lemma RemainderBounds(a: real, b: real, q: real, f: real)
    requires b > 0.0 && b * q == a && f <= q < f + 1.0
    ensures 0.0 <= a - b * f < b
  {
    var r := q - f;
    MulSubDistributes(b, q, f);
    assert b * q - b * f == b * r;
    MulPositiveBelowOne(b, r);
    assert 0.0 <= b * r < b;
    assert a - b * f == b * r;
  }

  lemma MulSubDistributes(t: real, x: real, y: real)
    ensures t * x - t * y == t * (x - y)
  {
  }

  lemma MulPositiveBelowOne(t: real, r: real)
    requires t > 0.0 && 0.0 <= r < 1.0
    ensures 0.0 <= t * r < t
  {
    assert t - t * r == t * (1.0 - r);
  }

  lemma MulMono(t: real, x: real, y: real)
    requires t > 0.0 && x <= y
    ensures t * x <= t * y
  {
    assert t * y - t * x == t * (y - x);
  }

  lemma MulMonoStrict(t: real, x: real, y: real)
    requires t > 0.0 && x < y
    ensures t * x < t * y
  {
    assert t * y - t * x == t * (y - x);
  }

  lemma DivBelowOne(a: real, b: real)
    requires 0.0 <= a < b
    ensures 0.0 <= a / b < 1.0
  {
  }

  lemma MulCancel(x: real, y: real, t: real)
    requires t != 0.0 && x * t == y * t
    ensures x == y
  {
    assert (x - y) * t == 0.0;
  }

  lemma DivSub(a: real, t: real)
    requires t > 0.0
    ensures (a - t) / t == a / t - 1.0
  {
    var q := a / t;
    var u := (a - t) / t;
    assert q * t == a;
    assert u * t == a - t;
    assert (q - 1.0) * t == a - t;
    MulCancel(u, q - 1.0, t);
  }

  lemma DivAdd(a: real, t: real)
    requires t > 0.0
    ensures (a + t) / t == a / t + 1.0
  {
    DivSub(a + t, t);
  }

  /** A product of an integer and a positive real is at least the real when the integer is positive. */
  lemma MulIntLowerBound(t: real, k: int)
    requires t > 0.0 && k >= 1
    ensures t * (k as real) >= t
  {
    assert t * (k as real) - t == t * ((k - 1) as real);
  }

  lemma MulIntDifference(t: real, x: int, y: int)
    ensures t * (x as real) - t * (y as real) == t * ((x - y) as real)
  {
  }

  lemma MulIntUpperBound(t: real, k: int)
    requires t > 0.0 && k <= -1
    ensures t * (k as real) <= -t
  {
    MulIntLowerBound(t, -k);
    assert t * ((-k) as real) == -(t * (k as real));
  }
}
