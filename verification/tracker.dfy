/** The off-path tracker of the geo path map view (`wigo_ws_GeoPathMap`).

    On each location fix it reports whether the observer is farther than a
    given distance from the current path, the distance and the bearing back
    to the path, and a reference bearing from an anchor (an earlier fix)
    to the current fix. The anchor is kept with hysteresis: it moves only
    when the fix is farther from it than `dPrevGeoLocThres`.

    Map layers are modelled only by what they leave behind that later calls
    read: the centre of the current-location circle (`geolocCircle`) and of
    the previous-location circle (`prevGeoLocCircle`), whose centre is the
    anchor of the last reference line. */
module GeoPathMap {
  import opened GeoMath
  import opened PathProjection

  /** The result object of `SetGeoLocationUpdate`. */
  datatype UpdateResult = UpdateResult(
    bToPath: bool,
    bearingToPath: real,
    dToPath: real,
    bRefLine: bool,
    bearingRefLine: real)

  /** The result as first built, returned unchanged when nothing is
      reported. */
  const NoReport := UpdateResult(false, 0.0, 0.0, false, 0.0)

  /** The closure state of one map view that the tracker reads or writes.
      A null `curPath` is the empty sequence: the search treats both alike. */
  datatype MapState = MapState(
    mapLoaded: bool,
    curPath: seq<LatLng>,
    geolocCircle: Option<LatLng>,
    prevGeoLoc: Option<LatLng>,
    prevGeoLocCircle: Option<LatLng>,
    dPrevGeoLocThres: real)

  /** A fresh view: no map yet, no path, no circles, the default 10 m
      hysteresis threshold. */
  const Initial := MapState(false, [], None, None, None, 10.0)

  /** Both anchors are set: every update after the first. */
  predicate Anchored(s: MapState) {
    s.prevGeoLoc.Some? && s.prevGeoLocCircle.Some?
  }

  datatype Outcome = Outcome(result: UpdateResult, next: MapState)

  /** `ExtendLine`: the end point and heading of the reference line. The
      extension by `delta` is not applied, so the end point is `llTo`. */
  datatype Dest = Dest(at: LatLng, bearing: real)

  function ExtendLine(n: Numerics, llFrom: LatLng, llTo: LatLng, delta: real): Dest {
    Dest(llTo, BearingTo(n, llFrom, llTo))
  }

  /** The line's end point and heading do not depend on `delta`: the end
      point is `llTo` itself and the heading is a normalised bearing. */
  lemma ExtendLineIgnoresDelta(n: Numerics, llFrom: LatLng, llTo: LatLng, d1: real, d2: real)
    requires Atan2Bounded(n)
    ensures ExtendLine(n, llFrom, llTo, d1) == ExtendLine(n, llFrom, llTo, d2)
    ensures ExtendLine(n, llFrom, llTo, d1).at == llTo
    ensures 0.0 <= ExtendLine(n, llFrom, llTo, d1).bearing < 360.0
  {
    BearingToRange(n, llFrom, llTo);
  }

  /** The object's `BearingWordTo(bearing)`: the same compass chain as
      `bearingWordTo`, applied to a given bearing. */
  function BearingWordTo(bearing: real): (word: string)
    ensures word in CompassWords
  {
    if bearing >= 22.0 && bearing <= 67.0 then "NE"
    else if bearing >= 67.0 && bearing <= 112.0 then "E"
    else if bearing >= 112.0 && bearing <= 157.0 then "SE"
    else if bearing >= 157.0 && bearing <= 202.0 then "S"
    else if bearing >= 202.0 && bearing <= 247.0 then "SW"
    else if bearing >= 247.0 && bearing <= 292.0 then "W"
    else if bearing >= 292.0 && bearing <= 337.0 then "NW"
    else if bearing >= 337.0 || bearing <= 22.0 then "N"
    else ""
  }

  /** The two copies of the compass chain agree: the word for the bearing
      between two points is the object's word for that bearing. Boundary
      values go to the sector tested first. */
  lemma CompassCopiesAgree(n: Numerics, from: LatLng, other: LatLng)
    ensures GeoMath.BearingWordTo(n, from, other) == BearingWordTo(BearingTo(n, from, other))
    ensures BearingWordTo(22.0) == "NE" && BearingWordTo(67.0) == "NE"
    ensures BearingWordTo(337.0) == "NW" && BearingWordTo(0.0) == "N"
  {
  }

  /** The part of `SetGeoLocationUpdate` that follows the path search, for
      a loaded map and the search's result `atPath`. The anchor is
      initialised on the first call, the move test uses the anchor before
      the call, the reference line is drawn from the anchor (if the fix
      moved) or from the previous circle's centre (if not), and the anchor
      moves to the fix last. */
  function Respond(n: Numerics, s: MapState, location: LatLng, dOffPath: real, atPath: Nearest): Outcome {
    var bInitialUpdate := s.prevGeoLoc.None? || s.prevGeoLocCircle.None?;
    var prev := if s.prevGeoLoc.Some? then s.prevGeoLoc.value else location;
    var circle := if s.prevGeoLocCircle.Some? then s.prevGeoLocCircle.value else location;
    var beyond := n.distanceTo(location, prev) > s.dPrevGeoLocThres;
    var nextPrev := Some(if beyond then location else prev);
    if atPath.At? && atPath.d > dOffPath then
      var anchor := if !beyond then circle else prev;
      Outcome(
        UpdateResult(true, BearingTo(n, location, atPath.at), atPath.d,
                     !bInitialUpdate, BearingTo(n, anchor, location)),
        s.(geolocCircle := Some(location), prevGeoLoc := nextPrev, prevGeoLocCircle := Some(anchor)))
    else
      Outcome(NoReport,
        s.(geolocCircle := Some(location), prevGeoLoc := nextPrev, prevGeoLocCircle := Some(circle)))
  }

  /** `SetGeoLocationUpdate` as a function of the state before the call:
      its result and the state after. Nothing happens before the map is
      loaded; otherwise the nearest point of the current path decides the
      report. */
  function Update(n: Numerics, s: MapState, location: LatLng, dOffPath: real): Outcome {
    if !s.mapLoaded then Outcome(NoReport, s)
    else Respond(n, s, location, dOffPath, NearestOnPath(n, location, s.curPath))
  }

  /** The calls a view receives that touch the modelled state. */
  datatype Event =
    | InitializeMap
    | DrawPath(path: seq<LatLng>)
    | ClearPath
    | ClearGeoLocationUpdate
    | GeoLocationUpdate(location: LatLng, dOffPath: real)

  /** The state after one call. */
  function Step(n: Numerics, s: MapState, e: Event): MapState {
    match e
    case InitializeMap => s.(mapLoaded := true)
    case DrawPath(path) => if s.mapLoaded then s.(curPath := path) else s
    case ClearPath => if s.mapLoaded then s.(curPath := []) else s
    case ClearGeoLocationUpdate => s
    case GeoLocationUpdate(location, dOffPath) => Update(n, s, location, dOffPath).next
  }

  /** The state after a sequence of calls. */
  function Run(n: Numerics, s: MapState, events: seq<Event>): MapState
    decreases |events|
  {
    if events == [] then s else Run(n, Step(n, s, events[0]), events[1..])
  }

  /** Before the map is loaded an update reports nothing and changes
      nothing. */
  lemma UpdateBeforeMapLoaded(n: Numerics, s: MapState, location: LatLng, dOffPath: real)
    requires !s.mapLoaded
    ensures Update(n, s, location, dOffPath) == Outcome(NoReport, s)
  {
  }

  /** The off-path report: `bToPath` holds exactly when the search found a
      numeric point farther than `dOffPath`; then the distance is the
      search's and the bearing points from the fix to that point. Otherwise
      the result is the unchanged default, with no reference line. */
  lemma UpdateReportsOffPath(n: Numerics, s: MapState, location: LatLng, dOffPath: real)
    requires s.mapLoaded
    ensures var r := Update(n, s, location, dOffPath).result;
      var atPath := NearestOnPath(n, location, s.curPath);
      (r.bToPath <==> atPath.At? && atPath.d > dOffPath) &&
      (r.bToPath ==> r.dToPath == atPath.d && r.bearingToPath == BearingTo(n, location, atPath.at)) &&
      (!r.bToPath ==> r == NoReport)
  {
  }

  /** Hysteresis: after an update the anchor is the fix if the fix was
      farther than the threshold from the anchor held before (the fix itself
      on the first call), and that earlier anchor otherwise. The search, the
      path and the threshold do not affect this. */
  lemma UpdateRetainsAnchor(n: Numerics, s: MapState, location: LatLng, dOffPath: real)
    requires s.mapLoaded
    ensures var prev := if s.prevGeoLoc.Some? then s.prevGeoLoc.value else location;
      var t := Update(n, s, location, dOffPath).next;
      t.prevGeoLoc == Some(if n.distanceTo(location, prev) > s.dPrevGeoLocThres then location else prev) &&
      t.curPath == s.curPath && t.dPrevGeoLocThres == s.dPrevGeoLocThres && t.mapLoaded
  {
  }

  /** The reference line: reported exactly when both anchors were already
      set; drawn from the anchor held before the call when the fix moved
      beyond the threshold, else from the previous circle's centre (the fix
      itself on the first call); that start point becomes the new circle
      centre. */
  lemma UpdateReferenceLine(n: Numerics, s: MapState, location: LatLng, dOffPath: real)
    requires s.mapLoaded
    requires Update(n, s, location, dOffPath).result.bToPath
    ensures var o := Update(n, s, location, dOffPath);
      var prev := if s.prevGeoLoc.Some? then s.prevGeoLoc.value else location;
      var circle := if s.prevGeoLocCircle.Some? then s.prevGeoLocCircle.value else location;
      var anchor := if n.distanceTo(location, prev) > s.dPrevGeoLocThres then prev else circle;
      (o.result.bRefLine <==> Anchored(s)) &&
      o.result.bearingRefLine == BearingTo(n, anchor, location) &&
      o.next.prevGeoLocCircle == Some(anchor)
  {
  }

  /** The first update on a view (neither anchor set yet) suppresses the
      reference line, whatever the path, the threshold and the fix, even
      when the fix is off the path; afterwards both anchors are set. */
  lemma FirstUpdateHasNoReferenceLine(n: Numerics, s: MapState, location: LatLng, dOffPath: real)
    requires s.mapLoaded && s.prevGeoLoc.None? && s.prevGeoLocCircle.None?
    ensures !Update(n, s, location, dOffPath).result.bRefLine
    ensures Anchored(Update(n, s, location, dOffPath).next)
  {
  }

  /** Every call keeps the anchors once they are set: nothing resets them
      to null, neither `ClearPath` nor `ClearGeoLocationUpdate`. */
  lemma StepKeepsAnchored(n: Numerics, s: MapState, e: Event)
    requires Anchored(s)
    ensures Anchored(Step(n, s, e))
  {
  }

  /** Once anchored, a view stays anchored through any sequence of calls,
      so every later off-path report carries a reference line. */
  lemma {:induction false} RunKeepsAnchored(n: Numerics, s: MapState, events: seq<Event>)
    requires Anchored(s)
    ensures Anchored(Run(n, s, events))
    decreases |events|
  {
    if events != [] {
      StepKeepsAnchored(n, s, events[0]);
      RunKeepsAnchored(n, Step(n, s, events[0]), events[1..]);
    }
  }

  /** `bRefLine` is false only on the first call: once both anchors are
      set, after any sequence of calls an update reports a reference line
      exactly when it reports the way back to the path. */
  lemma {:induction false} AnchoredUpdatesReportReferenceLine(n: Numerics, s: MapState, events: seq<Event>,
                                                              location: LatLng, dOffPath: real)
    requires Anchored(s)
    ensures var r := Update(n, Run(n, s, events), location, dOffPath).result;
      r.bRefLine <==> r.bToPath
  {
    var t := Run(n, s, events);
    RunKeepsAnchored(n, s, events);
    if t.mapLoaded {
      UpdateReportsOffPath(n, t, location, dOffPath);
      if Update(n, t, location, dOffPath).result.bToPath {
        UpdateReferenceLine(n, t, location, dOffPath);
      }
    }
  }

  /** After an update at `location`, the anchor is within the threshold of
      `location` (for a non-negative threshold and a distance that is zero
      from a point to itself). */
  lemma UpdateLeavesAnchorNear(n: Numerics, s: MapState, location: LatLng, dOffPath: real)
    requires DistanceLaws(n) && s.mapLoaded && s.dPrevGeoLocThres >= 0.0
    ensures var t := Update(n, s, location, dOffPath).next;
      t.prevGeoLoc.Some? && n.distanceTo(location, t.prevGeoLoc.value) <= s.dPrevGeoLocThres
  {
    assert n.distanceTo(location, location) == 0.0;
  }

  /** Calls whose location fixes are all at `location`. */
  predicate AllUpdatesAt(events: seq<Event>, location: LatLng) {
    forall i :: 0 <= i < |events| && events[i].GeoLocationUpdate? ==> events[i].location == location
  }

  /** Hysteresis idempotence: when the anchor is within the threshold of
      `location`, no sequence of calls whose fixes are all at `location`
      moves it, whatever the paths drawn or cleared in between. */
  lemma {:induction false} RepeatedFixesKeepAnchor(n: Numerics, s: MapState, location: LatLng, events: seq<Event>)
    requires s.prevGeoLoc.Some? && n.distanceTo(location, s.prevGeoLoc.value) <= s.dPrevGeoLocThres
    requires AllUpdatesAt(events, location)
    ensures Run(n, s, events).prevGeoLoc == s.prevGeoLoc
    decreases |events|
  {
    if events != [] {
      var t := Step(n, s, events[0]);
      assert t.prevGeoLoc == s.prevGeoLoc && t.dPrevGeoLocThres == s.dPrevGeoLocThres;
      assert AllUpdatesAt(events[1..], location) by {
        forall i | 0 <= i < |events[1..]| && events[1..][i].GeoLocationUpdate?
          ensures events[1..][i].location == location
        {
          assert events[1..][i] == events[i + 1];
        }
      }
      RepeatedFixesKeepAnchor(n, t, location, events[1..]);
    }
  }

  /** Repeated updates at one location, from any state with a loaded map:
      after the first of them the anchor never moves again. */
  lemma SameFixNeverMovesAnchor(n: Numerics, s: MapState, location: LatLng, dOffPath: real, events: seq<Event>)
    requires DistanceLaws(n) && s.mapLoaded && s.dPrevGeoLocThres >= 0.0
    requires AllUpdatesAt(events, location)
    ensures var t := Update(n, s, location, dOffPath).next;
      Run(n, t, events).prevGeoLoc == t.prevGeoLoc
  {
    UpdateLeavesAnchorNear(n, s, location, dOffPath);
    RepeatedFixesKeepAnchor(n, Update(n, s, location, dOffPath).next, location, events);
  }

  /** The map view object, holding the closure state in fields. */
  class GeoPathMapView {
    const num: Numerics
    var mapLoaded: bool
    var curPath: seq<LatLng>
    var geolocCircle: Option<LatLng>
    var prevGeoLoc: Option<LatLng>
    var prevGeoLocCircle: Option<LatLng>
    var dPrevGeoLocThres: real

    /** The abstract value of the object. */
    function State(): MapState
      reads this
    {
      MapState(mapLoaded, curPath, geolocCircle, prevGeoLoc, prevGeoLocCircle, dPrevGeoLocThres)
    }

    constructor (num: Numerics)
      ensures this.num == num && State() == Initial
    {
      this.num := num;
      mapLoaded := false;
      curPath := [];
      geolocCircle := None;
      prevGeoLoc := None;
      prevGeoLocCircle := None;
      dPrevGeoLocThres := 10.0;
    }

    /** `InitializeMap`, only as far as it creates the map object. */
    method InitializeMap()
      modifies this
      ensures State() == Step(num, old(State()), Event.InitializeMap)
    {
      mapLoaded := true;
    }

    /** `DrawPath`: clears the previous path and keeps the new one. */
    method DrawPath(path: seq<LatLng>)
      modifies this
      ensures State() == Step(num, old(State()), Event.DrawPath(path))
    {
      if !mapLoaded {
        return;
      }
      ClearPath();
      curPath := path;
    }

    /** `ClearPath`: forgets the path; the layers it removes are not
      modelled, and neither anchor is reset. */
    method ClearPath()
      modifies this
      ensures State() == Step(num, old(State()), Event.ClearPath)
    {
      if !mapLoaded {
        return;
      }
      curPath := [];
    }

    /** `ClearGeoLocationUpdate`: removes layers only, so no modelled state
      changes and neither anchor is reset. */
    method ClearGeoLocationUpdate()
      modifies this
      ensures State() == Step(num, old(State()), Event.ClearGeoLocationUpdate)
    {
    }

    /** `SetGeoLocationCircle`: the current-location circle is centred at
      `latlng`. */
    method SetGeoLocationCircle(latlng: LatLng)
      modifies this
      ensures State() == old(State()).(geolocCircle := Some(latlng))
    {
      geolocCircle := Some(latlng);
    }

    /** `SetPrevGeoLocRefLine`: with no current-location circle it returns
      0; otherwise it centres the previous-location circle at
      `prevLocation` and returns the bearing of the line from there to the
      current circle's centre. */
    method SetPrevGeoLocRefLine(prevLocation: LatLng) returns (bearing: real)
      modifies this
      ensures geolocCircle.None? ==> bearing == 0.0 && State() == old(State())
      ensures geolocCircle.Some? ==>
        bearing == BearingTo(num, prevLocation, geolocCircle.value) &&
        State() == old(State()).(prevGeoLocCircle := Some(prevLocation))
    {
      ClearPrevGeoLocRefLine();
      if geolocCircle.None? {
        return 0.0;
      }
      prevGeoLocCircle := Some(prevLocation);
      var llTo := geolocCircle.value;
      var dest := ExtendLine(num, prevLocation, llTo, 30.0);
      bearing := dest.bearing;
    }

    /** `ClearPrevGeoLocRefLine` only removes layers from the map. */
    method ClearPrevGeoLocRefLine()
      ensures State() == old(State())
    {
    }

    /** The off-path branch of `SetGeoLocationUpdate`: centres the
      current-location circle at the fix, reports the bearing and distance
      to the nearest point, and draws the reference line from the previous
      circle's centre (the fix has not moved) or from the anchor (it has). */
    method ReportOffPath(location: LatLng, at: LatLng, d: real, bInitialUpdate: bool, beyond: bool)
      returns (result: UpdateResult)
      requires prevGeoLoc.Some? && prevGeoLocCircle.Some?
      modifies this
      ensures var anchor := if !beyond then old(prevGeoLocCircle.value) else old(prevGeoLoc.value);
        result == UpdateResult(true, BearingTo(num, location, at), d, !bInitialUpdate, BearingTo(num, anchor, location)) &&
        State() == old(State()).(geolocCircle := Some(location), prevGeoLocCircle := Some(anchor))
    {
      result := NoReport;
      SetGeoLocationCircle(location);
      if geolocCircle.Some? {
        result := result.(bearingToPath := BearingTo(num, location, at), dToPath := d, bToPath := true);
      }
      var bearingRefLine;
      if !beyond {
        bearingRefLine := SetPrevGeoLocRefLine(prevGeoLocCircle.value);
      } else {
        bearingRefLine := SetPrevGeoLocRefLine(prevGeoLoc.value);
      }
      result := result.(bearingRefLine := bearingRefLine, bRefLine := !bInitialUpdate);
    }

    /** `SetGeoLocationUpdate`: the update step on the object's state. */
    method SetGeoLocationUpdate(location: LatLng, dOffPath: real) returns (result: UpdateResult)
      modifies this
      ensures result == Update(num, old(State()), location, dOffPath).result
      ensures State() == Update(num, old(State()), location, dOffPath).next
    {
      result := NoReport;
      if !mapLoaded {
        return;
      }
      var atPath := FindNearestPointOnGeoPath(num, location, curPath);
      result := RespondToFix(location, dOffPath, atPath);
    }

    /** The body of `SetGeoLocationUpdate` once the map is loaded, given the
      result of the path search (which reads only `curPath`, so it may be
      done first). */
    method RespondToFix(location: LatLng, dOffPath: real, atPath: Nearest) returns (result: UpdateResult)
      modifies this
      ensures result == Respond(num, old(State()), location, dOffPath, atPath).result
      ensures State() == Respond(num, old(State()), location, dOffPath, atPath).next
    {
      var bInitialUpdate := prevGeoLoc.None? || prevGeoLocCircle.None?;
      if prevGeoLoc.None? {
        prevGeoLoc := Some(location);
      }
      if prevGeoLocCircle.None? {
        prevGeoLocCircle := Some(location);
      }
      var bCurGeoLocBeyondPrevGeoLoc := num.distanceTo(location, prevGeoLoc.value) > dPrevGeoLocThres;

      if atPath.At? && atPath.d > dOffPath {
        result := ReportOffPath(location, atPath.at, atPath.d, bInitialUpdate, bCurGeoLocBeyondPrevGeoLoc);
      } else {
        result := NoReport;
        ClearGeoLocationUpdate();
        SetGeoLocationCircle(location);
      }

      // Save the fix as the anchor for the next update only if it moved enough.
      if bCurGeoLocBeyondPrevGeoLoc {
        prevGeoLoc := Some(location);
      }
    }
  }
}
