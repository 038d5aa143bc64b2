// Triple and orientation helpers of the game (src/geoUtils.ts).
// Triples the game reads are plain values; the ones it writes into (`out`
// parameters) are arrays of length 3, and a mutable orientation is an object
// with three fields.

module GeoUtils {
  import opened Prelude

  /** Orientation as a value: yaw about Y, then pitch about X, then roll about Z. */
  datatype Orientation = Orientation(yaw: real, pitch: real, roll: real)

  /** A mutable orientation record, as the game's `out` parameters are. */
  class OrientationRecord {
    var yaw: real
    var pitch: real
    var roll: real

    constructor(o: Orientation)
      ensures Value() == o
    {
      yaw, pitch, roll := o.yaw, o.pitch, o.roll;
    }

    function Value(): Orientation
      reads this
    {
      Orientation(yaw, pitch, roll)
    }
  }

  function Add(a: Triple, b: Triple): (r: Triple)
    ensures forall i | 0 <= i < 3 :: r[i] == a[i] + b[i]
  {
    [a[0] + b[0], a[1] + b[1], a[2] + b[2]]
  }

  function Sub(minuend: Triple, subtrahend: Triple): (r: Triple)
    ensures forall i | 0 <= i < 3 :: r[i] == minuend[i] - subtrahend[i]
  {
    [minuend[0] - subtrahend[0], minuend[1] - subtrahend[1], minuend[2] - subtrahend[2]]
  }

  function LengthSquared(a: Triple): (r: real)
    ensures r >= 0.0
  {
    a[0] * a[0] + a[1] * a[1] + a[2] * a[2]
  }

  function DistanceToSquared(self: Triple, other: Triple): (r: real)
    ensures r >= 0.0
    ensures r == LengthSquared(Sub(self, other))
  {
    var dx := self[0] - other[0];
    var dy := self[1] - other[1];
    var dz := self[2] - other[2];
    dx * dx + dy * dy + dz * dz
  }

  /** Only the X and Z components take part. */
  function XzDistanceToSquared(self: Triple, other: Triple): (r: real)
    ensures 0.0 <= r <= DistanceToSquared(self, other)
  {
    var dx := self[0] - other[0];
    var dz := self[2] - other[2];
    dx * dx + dz * dz
  }

  lemma DistanceToSquaredSymmetric(a: Triple, b: Triple)
    ensures DistanceToSquared(a, b) == DistanceToSquared(b, a)
  {
    assert Sub(a, b)[0] * Sub(a, b)[0] == Sub(b, a)[0] * Sub(b, a)[0];
  }

  lemma DistanceToSquaredToSelf(a: Triple)
    ensures DistanceToSquared(a, a) == 0.0
  {
  }

  lemma XzDistanceIgnoresY(a: Triple, b: Triple, y1: real, y2: real)
    ensures XzDistanceToSquared(a[1 := y1], b[1 := y2]) == XzDistanceToSquared(a, b)
  {
  }

  lemma SubAddCancels(a: Triple, b: Triple)
    ensures Sub(Add(a, b), b) == a
  {
  }

  lemma AddCommutes(a: Triple, b: Triple)
    ensures Add(a, b) == Add(b, a)
  {
  }

  /** A fresh copy of `x`. */
  method CloneTriple(x: array<real>) returns (r: array<real>)
    requires x.Length == 3
    ensures fresh(r) && r[..] == x[..]
  {
    r := new real[3];
    r[0], r[1], r[2] := x[0], x[1], x[2];
  }

  /** Copies `source` into `out` component by component; `source` and `out` may be the same array. */
  method SetTriple(out: array<real>, source: array<real>)
    requires out.Length == 3 && source.Length == 3
    modifies out
    ensures out[..] == old(source[..])
    ensures source[..] == old(source[..])
  {
    out[0] := source[0];
    out[1] := source[1];
    out[2] := source[2];
  }

  method SetOrientation(out: OrientationRecord, source: OrientationRecord)
    modifies out
    ensures out.Value() == old(source.Value())
    ensures source.Value() == old(source.Value())
  {
    out.yaw := source.yaw;
    out.pitch := source.pitch;
    out.roll := source.roll;
  }

  method CloneOrientation(source: OrientationRecord) returns (r: OrientationRecord)
    ensures fresh(r) && r.Value() == source.Value()
  {
    r := new OrientationRecord(source.Value());
  }

  /**
   * Moves `out` by `amount` along the local Z axis of `orientation`. The rotation
   * and translation are computed by the rendering library, given here as `move`;
   * the game's part is that all three components of `out` are overwritten.
   */
  method TranslateZ(out: array<real>, orientation: Orientation, amount: real,
                    move: (Triple, Orientation, real) -> Triple)
    requires out.Length == 3
    modifies out
    ensures out[..] == move(old(out[..]), orientation, amount)
  {
    var p := move(out[..], orientation, amount);
    out[0] := p[0];
    out[1] := p[1];
    out[2] := p[2];
  }
}
