# geotrail off-path tracker, modelled in Dafny

This project models the geometry and tracking engine inside the Leaflet map
view of geotrail (`wigo_ws_GeoPathMap` in `GeoPathMapView2.js`). The engine
has three parts:

- **Bearings.** `bearingTo` gives the forward azimuth between two points,
  normalised with JavaScript's `(brng + 360) % 360`. Two identical if/else
  chains (`bearingWordTo`, `BearingWordTo`) turn a bearing into one of eight
  compass words.
- **Nearest point on a path.** `LocationToSegment` projects a location onto
  one segment with a planar approximation. The projection is clamped to the
  segment's ends, or interpolated axis by axis between them.
  `FindNearestPointOnGeoPath` scans the consecutive pairs of the current
  path. It keeps the first candidate with the strictly smallest distance.
- **Off-path tracker.** `SetGeoLocationUpdate` reports whether a location
  fix is farther than `dOffPath` from the path. It also reports the bearing
  and distance back to the path. It draws a reference line from an anchor
  to the fix. Two pieces of closure state keep the anchor across calls:
  `prevGeoLoc` and the centre of `prevGeoLocCircle`. `prevGeoLoc` moves
  only when the fix is farther from it than `dPrevGeoLocThres` (10 m by
  default).

Files:

- `geomath.dfy` (module `GeoMath`): points, the foreign numeric functions,
  JavaScript's remainder, `bearingTo` and `bearingWordTo`.
- `projection.dfy` (module `PathProjection`): `LocationToSegment`, the
  search specification `NearestOnPath`, and the loop
  `FindNearestPointOnGeoPath`, proved against that specification.
- `tracker.dfy` (module `GeoPathMap`): the tracker as a pure transition
  function, `Update` (built on `Respond`).
  - The events a view receives, and `Run` over a sequence of events.
  - The lemmas about hysteresis and the reference line.
  - Class `GeoPathMapView`, whose fields are the closure variables. Its
    methods are proved to produce exactly `Update`'s result and next state.

`Math.sin`, `Math.cos`, `Math.atan2` and Leaflet's `distanceTo` are
foreign floating-point code. They are function values carried in a
`Numerics` parameter, so nothing is assumed about them. A lemma that needs
a law requires it as a predicate:

- `Atan2Bounded`: atan2 lies in [-PI, PI];
- `DistanceLaws`: distance from a point to itself is zero, and distances
  are never negative.

A null `curPath` is the empty sequence, because the search treats both
alike. A drawn circle is modelled by its centre.

The model follows the code in four places where a natural reading
suggests otherwise:

- A one-point path yields that point with distance 0, not the distance
  to the fix.
- When the fix has not moved beyond the threshold, the reference line
  starts at the previous circle's centre, not at `prevGeoLoc`.
- A zero-length segment whose projection is exactly 0 divides 0 by 0.
  The result is NaN. It is modelled as `Undefined`, and as `AtNaN` when
  it is the search's first candidate. No later `<` can replace it, and
  `NaN > dOffPath` is false, so the tracker takes its on-path branch.
- `(brng + 360) % 360` keeps the dividend's sign. The range promised in
  the comment holds only because `atan2` stays within [-PI, PI].

## Model

| member | source | states |
|---|---|---|
| GeoMath.JsRemRange | platforms/android/assets/www/js/GeoPathMapView2.js:23 | JavaScript's `%`: the remainder takes the dividend's sign and is smaller than the divisor in magnitude |
| GeoMath.NormaliseDegreesRange | platforms/android/assets/www/js/GeoPathMapView2.js:22-23 | every angle in [-180, 180] normalises into [0, 360): itself when non-negative, itself plus 360 otherwise |
| GeoMath.NormaliseDegreesNeedsAtan2Range | platforms/android/assets/www/js/GeoPathMapView2.js:23 | below -360 the normalisation can go negative (-450 gives -90), so the promised range depends on atan2's range |
| GeoMath.BearingToRange | platforms/android/assets/www/js/GeoPathMapView2.js:12-25 | `bearingTo` lies in [0, 360) whenever atan2 lies in [-PI, PI], as its comment promises |
| GeoMath.BearingWordTo | platforms/android/assets/www/js/GeoPathMapView2.js:32-44 | the word for the bearing between two points is always one of the eight compass words |
| GeoMath.BearingWordToSectors | platforms/android/assets/www/js/GeoPathMapView2.js:35-42 | each word holds exactly on its sector, with shared bounds going to the sector tested first: NE on [22, 67], E on (67, 112], …, and N exactly below 22 or above 337 |
| GeoPathMap.BearingWordTo | platforms/android/assets/www/js/GeoPathMapView2.js:328-339 | the object's compass word for any bearing is one of the eight words |
| GeoPathMap.CompassCopiesAgree | platforms/android/assets/www/js/GeoPathMapView2.js:330-337 | both copies of the chain give the same word for the bearing between two points; 22 and 67 give NE, 337 gives NW |
| PathProjection.Phi | platforms/android/assets/www/js/GeoPathMapView2.js:576-579 | the angle between the two headings is non-negative and zero exactly when the headings are equal |
| PathProjection.PhiSymmetricAndBounded | platforms/android/assets/www/js/GeoPathMapView2.js:576-579 | the angle ignores which heading comes first, and is below a full turn for two normalised bearings |
| PathProjection.LocationToSegmentCases | platforms/android/assets/www/js/GeoPathMapView2.js:569-605 | clamps to `llSeg0` when the projection is negative and to `llSeg1` when it exceeds the segment. Otherwise it interpolates at `dOnSeg/dSeg`, which is undefined exactly for 0/0. Every defined point is at a fraction in [0, 1], and `d` is the distance from the location to it |
| PathProjection.SegmentPointOnSegment | platforms/android/assets/www/js/GeoPathMapView2.js:584-598 | every returned point lies between the endpoints on each axis and on the straight line through them |
| PathProjection.PickNaNFirst | platforms/android/assets/www/js/GeoPathMapView2.js:547-554 | a NaN first candidate is never replaced, because every `<` against NaN is false |
| PathProjection.PickFirstMinimum | platforms/android/assets/www/js/GeoPathMapView2.js:547-554 | with a numeric first candidate, the search returns a candidate whose distance is the minimum of all numeric candidates, and every earlier candidate is strictly farther: the first one at the minimum |
| PathProjection.CandidateIsSegment | platforms/android/assets/www/js/GeoPathMapView2.js:538-546 | there are n - 1 candidates, and candidate j is the projection onto the consecutive pair (j, j + 1) |
| PathProjection.NearestIsFirstClosestSegment | platforms/android/assets/www/js/GeoPathMapView2.js:536-557 | on a path of two or more points, the result is the first segment at the minimum distance, or NaN when the first segment is 0/0 |
| PathProjection.FindNearestPointOnGeoPath | platforms/android/assets/www/js/GeoPathMapView2.js:532-559 | the loop computes the search specification: null with `d` 0 for an empty path, the only point with `d` 0 for one point, else the first closest segment |
| GeoPathMap.ExtendLineIgnoresDelta | platforms/android/assets/www/js/GeoPathMapView2.js:501-504 | the end point is `llTo` itself, the end point and heading do not depend on `delta`, and the heading lies in [0, 360) |
| GeoPathMap.UpdateBeforeMapLoaded | platforms/android/assets/www/js/GeoPathMapView2.js:167-170 | before the map is loaded, an update returns the all-false, all-zero default and changes no state |
| GeoPathMap.UpdateReportsOffPath | platforms/android/assets/www/js/GeoPathMapView2.js:186-219 | `bToPath` holds exactly when a numeric nearest point is farther than `dOffPath`. Then `dToPath` is its distance and `bearingToPath` the bearing from the fix to it. Otherwise the result is the default |
| GeoPathMap.UpdateRetainsAnchor | platforms/android/assets/www/js/GeoPathMapView2.js:179-224 | the anchor becomes the fix only if the fix is beyond the threshold from the anchor held before. The path, the threshold and the loaded map are kept |
| GeoPathMap.UpdateReferenceLine | platforms/android/assets/www/js/GeoPathMapView2.js:200-208 | when off the path, `bRefLine` holds exactly when both anchors were set. The line starts at `prevGeoLoc` if the fix moved beyond the threshold, else at the previous circle's centre. That start becomes the new circle centre |
| GeoPathMap.FirstUpdateHasNoReferenceLine | platforms/android/assets/www/js/GeoPathMapView2.js:174-182 | the first update on a view (neither anchor set) reports no reference line, whatever the path, threshold and fix, and leaves both anchors set |
| GeoPathMap.StepKeepsAnchored | platforms/android/assets/www/js/GeoPathMapView2.js:448-453 | no call, including `ClearPath` and `ClearGeoLocationUpdate`, resets a set anchor to null |
| GeoPathMap.RunKeepsAnchored | platforms/android/assets/www/js/GeoPathMapView2.js:174 | once both anchors are set, they stay set through any sequence of calls, so every later off-path report carries a reference line |
| GeoPathMap.AnchoredUpdatesReportReferenceLine | platforms/android/assets/www/js/GeoPathMapView2.js:174-208 | once both anchors are set, after any sequence of calls every update reports a reference line exactly when it reports the way back to the path, so an off-path report lacks the reference line only on the first update of a view |
| GeoPathMap.UpdateLeavesAnchorNear | platforms/android/assets/www/js/GeoPathMapView2.js:223-224 | after an update, the anchor is within the threshold of the fix |
| GeoPathMap.RepeatedFixesKeepAnchor | platforms/android/assets/www/js/GeoPathMapView2.js:223-224 | an anchor within the threshold of a location never moves under calls whose fixes are all at that location |
| GeoPathMap.SameFixNeverMovesAnchor | platforms/android/assets/www/js/GeoPathMapView2.js:179-224 | repeated updates at one location move the anchor at most once, on the first of them |
| GeoPathMap.GeoPathMapView.constructor | platforms/android/assets/www/js/GeoPathMapView2.js:343 | a new view has no map, no path, no circles, no anchors, and the 10 m threshold |
| GeoPathMap.GeoPathMapView.InitializeMap | platforms/android/assets/www/js/GeoPathMapView2.js:70-75 | the map becomes loaded |
| GeoPathMap.GeoPathMapView.DrawPath | platforms/android/assets/www/js/GeoPathMapView2.js:100-127 | with a loaded map, the path becomes the current path; otherwise nothing changes |
| GeoPathMap.GeoPathMapView.ClearPath | platforms/android/assets/www/js/GeoPathMapView2.js:265-276 | with a loaded map, the current path is cleared; the anchors are kept |
| GeoPathMap.GeoPathMapView.ClearGeoLocationUpdate | platforms/android/assets/www/js/GeoPathMapView2.js:230-236 | no modelled state changes, so the anchors are kept |
| GeoPathMap.GeoPathMapView.SetGeoLocationCircle | platforms/android/assets/www/js/GeoPathMapView2.js:382-393 | the current-location circle is centred at the given point, and nothing else changes |
| GeoPathMap.GeoPathMapView.ClearPrevGeoLocRefLine | platforms/android/assets/www/js/GeoPathMapView2.js:448-453 | only layers are removed, and the previous circle's centre survives |
| GeoPathMap.GeoPathMapView.SetPrevGeoLocRefLine | platforms/android/assets/www/js/GeoPathMapView2.js:461-489 | with no current circle it returns 0 and changes nothing. Otherwise it centres the previous circle at `prevLocation` and returns the bearing from there to the current circle's centre |
| GeoPathMap.GeoPathMapView.ReportOffPath | platforms/android/assets/www/js/GeoPathMapView2.js:186-211 | the off-path branch reports the path's bearing and distance and draws the reference line from the chosen anchor, which becomes the previous circle's centre |
| GeoPathMap.GeoPathMapView.RespondToFix | platforms/android/assets/www/js/GeoPathMapView2.js:174-224 | after the search, the result and the new state are those of `Respond` |
| GeoPathMap.GeoPathMapView.SetGeoLocationUpdate | platforms/android/assets/www/js/GeoPathMapView2.js:167-227 | the returned result and the new fields are exactly `Update`'s for the state before the call |

## Left out

- Rendering is left out, because it is a visual side effect on a library
  that is not part of this model. It includes drawing and removing layers,
  the path-to-fix arrow (`DrawGeoLocToPathArrow`), `map.panTo`, `fitBounds`,
  `PanTo` and `PanToPathCenter`. Circles are kept only as their centres.
- `Math.sin`, `Math.cos`, `Math.atan2` and `L.LatLng.distanceTo` are
  arbitrary functions. No metric fact (symmetry, the triangle inequality)
  is stated, because the code promises none.
- Numbers are reals, not IEEE doubles. Rounding is not modelled. NaN is
  modelled only where the code can produce it from finite inputs: the 0/0
  interpolation. `DEG_TO_RAD`, `RAD_TO_DEG` and `Math.PI` are the exact
  values of their doubles.
- `InitializeMap` is modelled only as the map handle becoming non-null.
  The tile layer, its callback and the click listener are left out.
- `DrawPath` takes the path's points directly. The conversion from
  `arGeoPt` and the bounds and zoom bookkeeping are not modelled.
- The commented-out extension in `ExtendLine` is left out, because it is
  dead code after `return dest`.
- `NewTileLayer`, `CacheLayer`, `GoOffline`, `getMap`, `onMapClick` and
  `SetGeoLocationCircleAndArrow` are left out. They are timers,
  asynchronous tile downloads, dialogs and UI wiring.
- `www/js/PebbleAdapter.js` is left out. It is asynchronous message
  transport to a watch.
- GeoPathMap.GeoPathMapView.SetGeoLocationUpdate runs the path search
  before it initialises the anchors, while the code runs it after. The
  search reads only `curPath`, so the order is not observable.
