// A wrapper that owns one position array and updates it in place (src/tripleManager.ts).

module TripleManagers {
  import opened Prelude
  import GeoUtils

  class TripleManager {
    const raw: array<real>

    predicate Valid()
    {
      raw.Length == 3
    }

    constructor(raw: array<real>)
      requires raw.Length == 3
      ensures this.raw == raw && Valid()
    {
      this.raw := raw;
    }

    /** Overwrites all three components of `raw`; the geometry comes from `move`. */
    method TranslateZ(orientation: GeoUtils.Orientation, amount: real,
                      move: (Triple, GeoUtils.Orientation, real) -> Triple)
      requires Valid()
      modifies raw
      ensures raw[..] == move(old(raw[..]), orientation, amount)
    {
      var p := move(raw[..], orientation, amount);
      raw[0] := p[0];
      raw[1] := p[1];
      raw[2] := p[2];
    }

    /** Squared distance from the managed position; it only reads `raw`. */
    function DistanceToSquared(other: Triple): (d: real)
      requires Valid()
      reads raw
      ensures d >= 0.0
      ensures d == GeoUtils.DistanceToSquared(raw[..], other)
      ensures other == raw[..] ==> d == 0.0
    {
      var dx := raw[0] - other[0];
      var dy := raw[1] - other[1];
      var dz := raw[2] - other[2];
      dx * dx + dy * dy + dz * dz
    }
  }
}
