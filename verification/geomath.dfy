/** Geographic primitives that the map view adds to Leaflet's `L.LatLng`:
    the forward bearing between two points and its eight-word compass name.

    The trigonometric functions (`Math.sin`, `Math.cos`, `Math.atan2`) and
    Leaflet's own `distanceTo` are foreign, floating-point code. They are
    modelled as arbitrary functions, carried in a `Numerics` value, and only
    the few laws a property needs are stated (as predicates that lemmas
    require), never assumed. */
module GeoMath {

  datatype Option<+T> = None | Some(value: T)

  /** An `L.LatLng`: latitude and longitude in degrees. */
  datatype LatLng = LatLng(lat: real, lng: real)

  /** The foreign numeric functions the engine calls. `distanceTo(a, b)` is
      `a.distanceTo(b)` in meters; argument order is kept as in the source
      because nothing promises symmetry. */
  datatype Numerics = Numerics(
    sin: real -> real,
    cos: real -> real,
    atan2: (real, real) -> real,
    distanceTo: (LatLng, LatLng) -> real)

  /** `Math.PI`: the exact value of the double. */
  const PI: real := 3.141592653589793115997963468544185161590576171875

  /** Degrees to radians by Leaflet's `L.LatLng.DEG_TO_RAD`, the double
      nearest to `Math.PI / 180`. */
  function ToRadians(deg: real): real {
    deg * 0.0174532925199432954743716805978692718781530857086181640625
  }

  /** Radians to degrees by Leaflet's `L.LatLng.RAD_TO_DEG`, the double
      nearest to `180 / Math.PI`. */
  function ToDegrees(rad: real): real {
    rad * 57.29577951308232286464772187173366546630859375
  }

  /** `Math.atan2` returns an angle in [-PI, PI]. */
  ghost predicate Atan2Bounded(n: Numerics) {
    forall y, x :: -PI <= n.atan2(y, x) <= PI
  }

  /** The two metric facts the tracker's properties use: a point is at
      distance zero from itself, and distances are never negative. */
  ghost predicate DistanceLaws(n: Numerics) {
    (forall a :: n.distanceTo(a, a) == 0.0) &&
    (forall a, b :: n.distanceTo(a, b) >= 0.0)
  }

  /** Truncation toward zero, as JavaScript's `%` uses it. */
  function Trunc(r: real): (t: int)
    ensures r >= 0.0 ==> 0.0 <= t as real <= r < t as real + 1.0
    ensures r < 0.0 ==> t as real - 1.0 < r <= t as real <= 0.0
  {
    if r >= 0.0 then r.Floor else -((-r).Floor)
  }

  /** JavaScript's `x % m` on numbers (the exact `fmod`): the remainder
      takes the sign of the dividend, unlike Dafny's Euclidean `%`. */
  function JsRem(x: real, m: real): real
    requires m > 0.0
  {
    x - Trunc(x / m) as real * m
  }

  /** The remainder has the sign of the dividend and is smaller than the
      divisor in magnitude. */
  lemma JsRemRange(x: real, m: real)
    requires m > 0.0
    ensures x >= 0.0 ==> 0.0 <= JsRem(x, m) < m
    ensures x < 0.0 ==> -m < JsRem(x, m) <= 0.0
  {
    TruncScaled(x, m, Trunc(x / m));
  }

  lemma TruncScaled(x: real, m: real, q: int)
    requires m > 0.0 && q == Trunc(x / m)
    ensures x >= 0.0 ==> q as real * m <= x < q as real * m + m
    ensures x < 0.0 ==> q as real * m - m < x <= q as real * m
  {
    var f := x / m;
    var qr := q as real;
    assert x == f * m;
    if x >= 0.0 {
      ScaleMonotone(qr, f, m);
      ScaleStrict(f, qr + 1.0, m);
      calc {
        x;
      ==
        f * m;
      <
        (qr + 1.0) * m;
      ==
        qr * m + m;
      }
    } else {
      ScaleStrict(qr - 1.0, f, m);
      ScaleMonotone(f, qr, m);
      calc {
        qr * m - m;
      ==
        (qr - 1.0) * m;
      <
        f * m;
      ==
        x;
      }
    }
  }

  lemma ScaleMonotone(a: real, b: real, m: real)
    requires a <= b && m >= 0.0
    ensures a * m <= b * m
  {
  }

  lemma ScaleStrict(a: real, b: real, m: real)
    requires a < b && m > 0.0
    ensures a * m < b * m
  {
  }

  /** Normalises an angle in degrees the way `bearingTo` does:
      `(brng + 360) % 360`. */
  function NormaliseDegrees(brng: real): real {
    JsRem(brng + 360.0, 360.0)
  }

  /** For every angle `atan2` can yield (in degrees, [-180, 180]) the
      normalised bearing lies in [0, 360), is the same direction, and is
      the angle itself when non-negative, the angle plus 360 otherwise. */
  lemma NormaliseDegreesRange(brng: real)
    requires -180.0 <= brng <= 180.0
    ensures 0.0 <= NormaliseDegrees(brng) < 360.0
    ensures NormaliseDegrees(brng) == if brng < 0.0 then brng + 360.0 else brng
  {
    var x := brng + 360.0;
    var q := Trunc(x / 360.0);
    TruncScaled(x, 360.0, q);
    if brng < 0.0 {
      assert q == 0;
    } else {
      assert q == 1;
    }
  }

  /** Below -360 the normalisation can fail: JavaScript's `%` keeps the
      sign of the dividend, so -450 gives -90. `atan2` never yields such an
      angle, which is why the source's promise holds. */
  lemma NormaliseDegreesNeedsAtan2Range()
    ensures NormaliseDegrees(-450.0) == -90.0
  {
    assert Trunc(-90.0 / 360.0) == 0;
  }

  /** `L.LatLng.prototype.bearingTo`: the forward azimuth from `from` to
      `other`, in degrees clockwise from North. */
  function BearingTo(n: Numerics, from: LatLng, other: LatLng): real {
    var lat1 := ToRadians(from.lat);
    var lat2 := ToRadians(other.lat);
    var dLon := ToRadians(other.lng - from.lng);
    var y := n.sin(dLon) * n.cos(lat2);
    var x := n.cos(lat1) * n.sin(lat2) - n.sin(lat1) * n.cos(lat2) * n.cos(dLon);
    var brng := n.atan2(y, x);
    NormaliseDegrees(ToDegrees(brng))
  }

  /** The comment on `bearingTo` promises a value in [0, 360). */
  lemma BearingToRange(n: Numerics, from: LatLng, other: LatLng)
    requires Atan2Bounded(n)
    ensures 0.0 <= BearingTo(n, from, other) < 360.0
  {
    var lat1 := ToRadians(from.lat);
    var lat2 := ToRadians(other.lat);
    var dLon := ToRadians(other.lng - from.lng);
    var y := n.sin(dLon) * n.cos(lat2);
    var x := n.cos(lat1) * n.sin(lat2) - n.sin(lat1) * n.cos(lat2) * n.cos(dLon);
    var a := n.atan2(y, x);
    assert -PI <= a <= PI;
    NormaliseDegreesRange(ToDegrees(a));
  }

  /** The eight compass words. */
  const CompassWords: set<string> := {"N", "NE", "E", "SE", "S", "SW", "W", "NW"}

  /** `L.LatLng.prototype.bearingWordTo`: the compass word for the bearing
      to `other`. Sectors overlap at their inclusive bounds and the first
      test wins; "N" is tested last. */
  function BearingWordTo(n: Numerics, from: LatLng, other: LatLng): (word: string)
    ensures word in CompassWords
  {
    var bearing := BearingTo(n, from, other);
    if bearing >= 22.0 && bearing <= 67.0 then "NE"
    else if bearing >= 67.0 && bearing <= 112.0 then "E"
    else if bearing >= 112.0 && bearing <= 157.0 then "SE"
    else if bearing >= 157.0 && bearing <= 202.0 then "S"
    else if bearing >= 202.0 && bearing <= 247.0 then "SW"
    else if bearing >= 247.0 && bearing <= 292.0 then "W"
    else if bearing >= 292.0 && bearing <= 337.0 then "NW"
    else if bearing >= 337.0 || bearing <= 22.0 then "N"
    else ""
  }

  /** The word for the bearing to `other` names the sector, with every
      shared bound going to the sector tested first: "N" exactly when the
      bearing is below 22 or above 337. */
  lemma BearingWordToSectors(n: Numerics, from: LatLng, other: LatLng)
    ensures var b := BearingTo(n, from, other);
      var w := BearingWordTo(n, from, other);
      (w == "NE" <==> 22.0 <= b <= 67.0) &&
      (w == "E" <==> 67.0 < b <= 112.0) &&
      (w == "SE" <==> 112.0 < b <= 157.0) &&
      (w == "S" <==> 157.0 < b <= 202.0) &&
      (w == "SW" <==> 202.0 < b <= 247.0) &&
      (w == "W" <==> 247.0 < b <= 292.0) &&
      (w == "NW" <==> 292.0 < b <= 337.0) &&
      (w == "N" <==> b < 22.0 || b > 337.0)
  {
  }
}
