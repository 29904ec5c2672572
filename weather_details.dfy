/** The weather details card: a wind bearing in degrees named as one of eight compass points. */
module WeatherDetails {
  import opened JsValues

  const Directions: seq<string> := ["N", "NE", "E", "SE", "S", "SW", "W", "NW"]

  /** JavaScript `a % b` for `b > 0`: truncating division, so the remainder has the sign of `a`. */
  function JsRem(a: int, b: int): (r: int)
    requires b > 0
  {
    if a >= 0 then a % b else -((-a) % b)
  }

  /** `Math.round(n / d)` for whole `n` and `d > 0`: `floor(n / d + 1/2)`, halves round up. */
  function RoundDiv(n: int, d: int): (r: int)
    requires d > 0
    ensures 2 * d * r <= 2 * n + d < 2 * d * (r + 1)
  {
    (2 * n + d) / (2 * d)
  }

  /** `(degrees %= 360) < 0 ? degrees + 360 : degrees`. */
  function Normalize(degrees: int): (r: int)
    ensures 0 <= r < 360
  {
    var d := JsRem(degrees, 360);
    if d < 0 then d + 360 else d
  }

  /** `Math.round(normalized / 45) % 8`. */
  function WindIndex(degrees: int): (r: int)
    ensures 0 <= r < 8
  {
    JsRem(RoundDiv(Normalize(degrees), 45), 8)
  }

  /** `directions[i]`: `undefined` outside the array. */
  function DirectionAt(i: int): Option<string> {
    if 0 <= i < |Directions| then Some(Directions[i]) else None
  }

  /** `getWindDirection`: always one of the eight labels. */
  function WindDirection(degrees: int): (r: Option<string>)
    ensures r.Some? && r.value in Directions
  {
    var index := WindIndex(degrees);
    if index < 0 then DirectionAt(8 + index) else DirectionAt(index)
  }

  /** JavaScript's truncating quotient, the partner of `JsRem`. */
  function JsQuot(a: int, b: int): int
    requires b > 0
  {
    if a >= 0 then a / b else -((-a) / b)
  }

  /** Truncating division: `a == b * quotient + remainder`, the remainder between `-b` and `b` with the sign of `a`. */
  lemma JsRemBounds(a: int, b: int)
    requires b > 0
    ensures -b < JsRem(a, b) < b
    ensures a >= 0 ==> JsRem(a, b) >= 0
    ensures a < 0 ==> JsRem(a, b) <= 0
    ensures a == b * JsQuot(a, b) + JsRem(a, b)
  {
  }

  /** The normalised bearing lies in [0, 360), negative inputs included, and is the Euclidean remainder. */
  lemma NormalizeIsMod(degrees: int)
    ensures 0 <= Normalize(degrees) < 360
    ensures Normalize(degrees) == degrees % 360
  {
    JsRemBounds(degrees, 360);
    var n := Normalize(degrees);
    var k := if JsRem(degrees, 360) < 0 then JsQuot(degrees, 360) - 1 else JsQuot(degrees, 360);
    assert degrees == 360 * k + n;
  }

  /** The index is always in 0..7, so the `8 + index` branch is never taken. */
  lemma WindIndexInRange(degrees: int)
    ensures 0 <= WindIndex(degrees) < 8
    ensures WindDirection(degrees) == Some(Directions[WindIndex(degrees)])
  {
    NormalizeIsMod(degrees);
    var n := Normalize(degrees);
    var q := RoundDiv(n, 45);
    assert q >= 0;
    JsRemBounds(q, 8);
  }

  /** The index is the nearest multiple of 45 degrees (halves up), counted modulo 8. */
  lemma WindIndexIsNearestPoint(degrees: int)
    ensures WindIndex(degrees) == RoundDiv(degrees % 360, 45) % 8
  {
    NormalizeIsMod(degrees);
    var q := RoundDiv(Normalize(degrees), 45);
    assert q >= 0;
  }

  /** Adding or removing a full turn does not change the direction. */
  lemma FullTurnInvariant(degrees: int)
    ensures WindDirection(degrees + 360) == WindDirection(degrees)
    ensures WindDirection(degrees - 360) == WindDirection(degrees)
  {
    NormalizeIsMod(degrees);
    NormalizeIsMod(degrees + 360);
    NormalizeIsMod(degrees - 360);
    assert (degrees + 360) % 360 == degrees % 360;
    assert (degrees - 360) % 360 == degrees % 360;
  }

  /** The four cardinal points. */
  lemma CardinalBearings()
    ensures WindDirection(0) == Some("N") && WindDirection(90) == Some("E")
    ensures WindDirection(180) == Some("S") && WindDirection(270) == Some("W")
  {
    assert WindIndex(0) == 0 && WindIndex(90) == 2;
    assert WindIndex(180) == 4 && WindIndex(270) == 6;
  }

  /** Bucket edges: 22 is still north, 23 is already north-east, 337 north-west; -90 is west. */
  lemma BucketEdges()
    ensures WindDirection(45) == Some("NE")
    ensures WindDirection(22) == Some("N") && WindDirection(23) == Some("NE")
    ensures WindDirection(337) == Some("NW") && WindDirection(-90) == Some("W")
  {
    assert WindIndex(45) == 1 && WindIndex(22) == 0 && WindIndex(23) == 1;
    assert WindIndex(337) == 7;
    assert Normalize(-90) == 270;
    assert WindIndex(-90) == 6;
  }

  /** Bearings from 338 up to 359 wrap round to north. */
  lemma NorthWraps(degrees: int)
    requires 338 <= degrees < 360
    ensures WindDirection(degrees) == Some("N")
  {
    assert Normalize(degrees) == degrees;
    assert RoundDiv(degrees, 45) == 8;
  }
}
