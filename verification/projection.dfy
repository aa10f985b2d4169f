/** Nearest point on a path: the projection of a location onto one segment
    (`LocationToSegment`) and the search over all consecutive segments of
    the current path (`FindNearestPointOnGeoPath`).

    The projection is planar: the along-segment distance is
    `dLoc * cos(phi)` with `phi` the difference of two bearings, and the
    interpolated point is a per-axis linear mix of the endpoints. */
module PathProjection {
  import opened GeoMath

  /** The outcome of projecting onto one segment. `Undefined` is the
      interpolation branch with a zero-length segment and a zero
      projection: the source divides 0 by 0 there, so the point's
      coordinates and the distance are NaN. */
  datatype SegmentHit = Hit(at: LatLng, d: real) | Undefined

  /** The search result `{llAt, d}`. `NoPoint` is `llAt` null with `d` 0;
      `AtNaN` is a point with NaN coordinates and a NaN distance, which no
      later `<` comparison can replace. */
  datatype Nearest = NoPoint | At(at: LatLng, d: real) | AtNaN

  /** `phi`: the absolute difference of two bearings, in radians. */
  function Phi(hdSeg: real, hdLoc: real): (phi: real)
    ensures 0.0 <= phi
    ensures phi == 0.0 <==> hdSeg == hdLoc
  {
    var diff := if hdSeg - hdLoc < 0.0 then -(hdSeg - hdLoc) else hdSeg - hdLoc;
    ToRadians(diff)
  }

  /** The angle does not depend on which bearing comes first, and for two
      normalised bearings it is below a full turn. */
  lemma PhiSymmetricAndBounded(a: real, b: real)
    ensures Phi(a, b) == Phi(b, a)
    ensures 0.0 <= a < 360.0 && 0.0 <= b < 360.0 ==> Phi(a, b) < ToRadians(360.0)
  {
  }

  /** `dOnSeg`: the signed distance from `seg0` along the segment's heading
      to the foot of the perpendicular from `loc`. */
  function AlongSegment(n: Numerics, loc: LatLng, seg0: LatLng, seg1: LatLng): real {
    var hdLoc := BearingTo(n, seg0, loc);
    var dLoc := n.distanceTo(seg0, loc);
    var hdSeg := BearingTo(n, seg0, seg1);
    dLoc * n.cos(Phi(hdSeg, hdLoc))
  }

  /** The point at fraction `f` of the way from `a` to `b`, axis by axis. */
  function PointAt(a: LatLng, b: LatLng, f: real): LatLng {
    LatLng(a.lat + f * (b.lat - a.lat), a.lng + f * (b.lng - a.lng))
  }

  /** `LocationToSegment`: the point of segment `seg0`-`seg1` nearest to
      `loc` under the planar approximation, and the distance to it. */
  function LocationToSegment(n: Numerics, loc: LatLng, seg0: LatLng, seg1: LatLng): SegmentHit {
    var dSeg := n.distanceTo(seg0, seg1);
    var dOnSeg := AlongSegment(n, loc, seg0, seg1);
    if dOnSeg < 0.0 then
      // Projects before the start: clamp to the start point.
      Hit(seg0, n.distanceTo(loc, seg0))
    else if dOnSeg > dSeg then
      // Projects beyond the end: clamp to the end point.
      Hit(seg1, n.distanceTo(loc, seg1))
    else if dSeg == 0.0 then
      // fraction = 0 / 0 is NaN in the source.
      Undefined
    else
      var at := PointAt(seg0, seg1, dOnSeg / dSeg);
      Hit(at, n.distanceTo(loc, at))
  }

  /** The three branches of the projection: clamped to the start when the
      projection falls before it, to the end when it falls beyond, else the
      point at fraction `dOnSeg / dSeg`, which is undefined exactly when the
      segment has length 0 and the projection is 0. Every defined result is
      at a fraction in [0, 1] of the segment, and its distance is measured
      from `loc` to that point. */
  lemma LocationToSegmentCases(n: Numerics, loc: LatLng, seg0: LatLng, seg1: LatLng)
    ensures var r := LocationToSegment(n, loc, seg0, seg1);
      var dOnSeg := AlongSegment(n, loc, seg0, seg1);
      var dSeg := n.distanceTo(seg0, seg1);
      (dOnSeg < 0.0 ==> r.Hit? && r.at == seg0) &&
      (0.0 <= dOnSeg && dSeg < dOnSeg ==> r.Hit? && r.at == seg1) &&
      (0.0 <= dOnSeg <= dSeg && dSeg != 0.0 ==> r.Hit? && r.at == PointAt(seg0, seg1, dOnSeg / dSeg)) &&
      (r.Undefined? <==> dOnSeg == 0.0 && dSeg == 0.0) &&
      (r.Hit? ==> r.d == n.distanceTo(loc, r.at)) &&
      (r.Hit? ==> exists f :: 0.0 <= f <= 1.0 && r.at == PointAt(seg0, seg1, f))
  {
    var dSeg := n.distanceTo(seg0, seg1);
    var dOnSeg := AlongSegment(n, loc, seg0, seg1);
    if dOnSeg < 0.0 {
      assert seg0 == PointAt(seg0, seg1, 0.0);
    } else if dOnSeg > dSeg {
      assert seg1 == PointAt(seg0, seg1, 1.0);
    } else if dSeg != 0.0 {
      FractionInUnitRange(dOnSeg, dSeg);
    }
  }

  lemma FractionInUnitRange(dOnSeg: real, dSeg: real)
    requires 0.0 <= dOnSeg <= dSeg && dSeg != 0.0
    ensures 0.0 <= dOnSeg / dSeg <= 1.0
  {
  }

  /** `min(a, b) <= x <= max(a, b)`. */
  predicate Between(a: real, x: real, b: real) {
    (a <= x <= b) || (b <= x <= a)
  }

  /** Every point a segment projection returns lies within the segment's
      bounding box and on the straight line through its endpoints (in
      plain latitude/longitude terms). */
  lemma SegmentPointOnSegment(n: Numerics, loc: LatLng, seg0: LatLng, seg1: LatLng)
    ensures var r := LocationToSegment(n, loc, seg0, seg1);
      r.Hit? ==>
        Between(seg0.lat, r.at.lat, seg1.lat) && Between(seg0.lng, r.at.lng, seg1.lng) &&
        (r.at.lat - seg0.lat) * (seg1.lng - seg0.lng) == (r.at.lng - seg0.lng) * (seg1.lat - seg0.lat)
  {
    var r := LocationToSegment(n, loc, seg0, seg1);
    LocationToSegmentCases(n, loc, seg0, seg1);
    if r.Hit? {
      var f :| 0.0 <= f <= 1.0 && r.at == PointAt(seg0, seg1, f);
      PointAtOnSegment(seg0, seg1, f);
    }
  }

  lemma PointAtOnSegment(a: LatLng, b: LatLng, f: real)
    requires 0.0 <= f <= 1.0
    ensures var p := PointAt(a, b, f);
      Between(a.lat, p.lat, b.lat) && Between(a.lng, p.lng, b.lng) &&
      (p.lat - a.lat) * (b.lng - a.lng) == (p.lng - a.lng) * (b.lat - a.lat)
  {
    FractionStaysBetween(a.lat, b.lat, f);
    FractionStaysBetween(a.lng, b.lng, f);
    var dLat, dLng := b.lat - a.lat, b.lng - a.lng;
    assert (f * dLat) * dLng == (f * dLng) * dLat;
  }

  lemma FractionStaysBetween(a: real, b: real, f: real)
    requires 0.0 <= f <= 1.0
    ensures Between(a, a + f * (b - a), b)
  {
    var w := b - a;
    UnitScale(f, w);
    var x := f * w;
    assert Between(0.0, x, w);
    assert a + f * (b - a) == a + x;
  }

  lemma UnitScale(f: real, w: real)
    requires 0.0 <= f <= 1.0
    ensures Between(0.0, f * w, w)
  {
    if w < 0.0 {
      assert f * w == -(f * -w);
    }
  }

  /** One step of the search loop: the first candidate is taken as it is
      (a NaN one included); a later one replaces the current best only when
      its distance is strictly smaller, which never holds against NaN. */
  function Absorb(found: Nearest, h: SegmentHit): Nearest {
    match found
    case NoPoint => if h.Hit? then At(h.at, h.d) else AtNaN
    case At(_, minD) => if h.Hit? && h.d < minD then At(h.at, h.d) else found
    case AtNaN => AtNaN
  }

  /** The search over a sequence of candidates, left to right. */
  function Pick(c: seq<SegmentHit>): Nearest
    decreases |c|
  {
    if c == [] then NoPoint else Absorb(Pick(c[..|c| - 1]), c[|c| - 1])
  }

  /** The candidates of the n - 1 consecutive pairs (i, i + 1). */
  function Candidates(n: Numerics, loc: LatLng, path: seq<LatLng>): seq<SegmentHit> {
    if |path| < 2 then []
    else seq(|path| - 1, i requires 0 <= i < |path| - 1 => LocationToSegment(n, loc, path[i], path[i + 1]))
  }

  /** What `FindNearestPointOnGeoPath` returns for `path`: nothing for an
      empty path; the only point at distance 0 for a one-point path (the
      distance to it is never computed); otherwise the search over the
      segment candidates. */
  function NearestOnPath(n: Numerics, loc: LatLng, path: seq<LatLng>): Nearest {
    if |path| == 0 then NoPoint
    else if |path| == 1 then At(path[0], 0.0)
    else Pick(Candidates(n, loc, path))
  }

  /** A NaN first candidate decides the whole search. */
  lemma {:induction false} PickNaNFirst(c: seq<SegmentHit>)
    requires |c| >= 1 && c[0].Undefined?
    ensures Pick(c) == AtNaN
  {
    if |c| > 1 {
      var p := c[..|c| - 1];
      assert p[0] == c[0];
      PickNaNFirst(p);
    }
  }

  /** The index the search settles on when the first candidate is a number. */
  ghost function PickIndex(c: seq<SegmentHit>): (k: nat)
    requires |c| >= 1 && c[0].Hit?
    ensures k < |c| && c[k].Hit?
    decreases |c|
  {
    if |c| == 1 then 0
    else
      var p := c[..|c| - 1];
      assert p[0] == c[0];
      var k := PickIndex(p);
      assert c[k] == p[k];
      if c[|c| - 1].Hit? && c[|c| - 1].d < c[k].d then |c| - 1 else k
  }

  /** When the first candidate is a number, the search returns the first
      candidate whose distance is the smallest of all numeric candidates:
      every earlier one is strictly farther, no later one is nearer. */
  lemma {:induction false} PickFirstMinimum(c: seq<SegmentHit>)
    requires |c| >= 1 && c[0].Hit?
    ensures var k := PickIndex(c);
      Pick(c) == At(c[k].at, c[k].d) &&
      (forall j :: 0 <= j < |c| && c[j].Hit? ==> c[k].d <= c[j].d) &&
      (forall j :: 0 <= j < k && c[j].Hit? ==> c[k].d < c[j].d)
  {
    if |c| == 1 {
      assert Pick(c) == Absorb(Pick([]), c[0]);
    } else {
      var p := c[..|c| - 1];
      assert p[0] == c[0];
      PickFirstMinimum(p);
      var k := PickIndex(p);
      assert forall j :: 0 <= j < |p| ==> p[j] == c[j];
      assert Pick(c) == Absorb(At(c[k].at, c[k].d), c[|c| - 1]);
    }
  }

  /** Candidate j is the projection onto segment (j, j + 1): there is one
      candidate for each of the n - 1 consecutive pairs and no other. */
  lemma CandidateIsSegment(n: Numerics, loc: LatLng, path: seq<LatLng>, j: int)
    requires 0 <= j < |path| - 1
    ensures |Candidates(n, loc, path)| == |path| - 1
    ensures Candidates(n, loc, path)[j] == LocationToSegment(n, loc, path[j], path[j + 1])
  {
  }

  /** The search on a path with at least two points looks only at its
      n - 1 consecutive segments: a NaN first segment yields `AtNaN`;
      otherwise the result is the hit of the first segment at the minimum
      distance (ties go to the earlier segment). */
  lemma NearestIsFirstClosestSegment(n: Numerics, loc: LatLng, path: seq<LatLng>)
    requires |path| >= 2
    ensures var c := Candidates(n, loc, path);
      |c| == |path| - 1 &&
      (c[0].Undefined? ==> NearestOnPath(n, loc, path) == AtNaN) &&
      (c[0].Hit? ==>
        exists k :: (0 <= k < |c| && c[k].Hit? && NearestOnPath(n, loc, path) == At(c[k].at, c[k].d) &&
          (forall j :: 0 <= j < |c| && c[j].Hit? ==> c[k].d <= c[j].d) &&
          (forall j :: 0 <= j < k && c[j].Hit? ==> c[k].d < c[j].d)))
  {
    var c := Candidates(n, loc, path);
    if c[0].Undefined? {
      PickNaNFirst(c);
    } else {
      PickFirstMinimum(c);
      var k := PickIndex(c);
      assert NearestOnPath(n, loc, path) == At(c[k].at, c[k].d);
    }
  }

  /** `FindNearestPointOnGeoPath`, with the current path passed in. The loop
      visits every index; index i contributes the segment (i, i + 1) when
      there is one, and a one-point path yields its point with `d` left at
      its initial 0. */
  method FindNearestPointOnGeoPath(n: Numerics, llLoc: LatLng, path: seq<LatLng>) returns (found: Nearest)
    ensures found == NearestOnPath(n, llLoc, path)
    ensures |path| == 0 ==> found == NoPoint
    ensures |path| == 1 ==> found == At(path[0], 0.0)
  {
    found := NoPoint;
    ghost var c := Candidates(n, llLoc, path);
    for i := 0 to |path|
      invariant |path| == 0 ==> found == NoPoint
      invariant |path| == 1 ==> found == if i == 0 then NoPoint else At(path[0], 0.0)
      invariant |path| >= 2 ==> found == Pick(c[..if i < |path| - 1 then i else |path| - 1])
    {
      var llSeg0 := path[i];
      if |path| == 1 {
        found := At(llSeg0, 0.0);
      } else if i < |path| - 1 {
        var llSeg1 := path[i + 1];
        var result := LocationToSegment(n, llLoc, llSeg0, llSeg1);
        assert c[..i + 1][..i] == c[..i] && c[i] == result;
        match found {
          case NoPoint =>
            found := if result.Hit? then At(result.at, result.d) else AtNaN;
          case At(_, minD) =>
            if result.Hit? && result.d < minD {
              found := At(result.at, result.d);
            }
          case AtNaN =>
        }
      }
    }
    if |path| == 0 {
      assert found == NoPoint;
    } else if |path| == 1 {
      assert found == At(path[0], 0.0);
    } else {
      assert c[..|path| - 1] == c;
      assert found == Pick(c);
    }
  }
}
