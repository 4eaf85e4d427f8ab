/** The live map: which geofences it draws and how, whether it draws the
    recent trail of the selected vehicle, and the status label of the
    selected vehicle's info card. Map tiles, camera moves and the rest of the
    rendering are the view's business. */
module FleetMap {
  import opened Wrappers
  import opened Seqs
  import opened Schema

  /** The outline colour of a geofence without a colour of its own. */
  const DefaultOverlayColor: string := "#3b82f6"

  /** `geofence.color || "#3b82f6"`: an absent or empty colour falls back
      to the default blue. */
  function OverlayColor(g: Geofence): (r: string)
    ensures g.color.Some? && g.color.value != "" ==> r == g.color.value
    ensures g.color.None? || g.color.value == "" ==> r == DefaultOverlayColor
    ensures r != ""
  {
    match g.color
    case Some(c) => if c != "" then c else DefaultOverlayColor
    case None => DefaultOverlayColor
  }

  /** A drawn geofence: a circle or a polygon, outlined and filled in one
      colour. */
  datatype Overlay =
    | CircleOverlay(center: LatLng, radius: int, color: string)
    | PolygonOverlay(positions: seq<LatLng>, color: string)

  /** `GeofenceOverlay`: a circle needs its centre and a non-zero radius, a
      polygon at least three points; a geofence whose shape data does not
      fit its type is not drawn at all. */
  function GeofenceOverlay(g: Geofence): (r: Option<Overlay>)
    ensures (r.Some? && r.value.CircleOverlay?) <==>
            g.geofenceType == Circle && g.center.Some? && g.radius.Some? && g.radius.value != 0
    ensures (r.Some? && r.value.PolygonOverlay?) <==>
            g.geofenceType == Polygon && g.points.Some? && |g.points.value| >= 3
    ensures r.Some? && r.value.CircleOverlay? ==>
            r.value.center == g.center.value && r.value.radius == g.radius.value
    ensures r.Some? && r.value.PolygonOverlay? ==> r.value.positions == g.points.value
    ensures r.Some? ==> r.value.color == OverlayColor(g)
  {
    if g.geofenceType == Circle && g.center.Some? && g.radius.Some? && g.radius.value != 0 then
      Some(CircleOverlay(g.center.value, g.radius.value, OverlayColor(g)))
    else if g.geofenceType == Polygon && g.points.Some? && |g.points.value| >= 3 then
      Some(PolygonOverlay(g.points.value, OverlayColor(g)))
    else None
  }

  /** The schema accepts a circle without a centre, but the map cannot draw
      it: such a geofence is stored and listed yet invisible on the map. */
  lemma AcceptedCircleWithoutCenterIsNotDrawn(raw: RawGeofence)
    requires raw.typeName == "circle" && raw.center.None? && ParseRules(raw.rules).Some?
    ensures ParseGeofence(raw).Some? && GeofenceOverlay(ParseGeofence(raw).value).None?
  {
  }

  /** `geofences.filter(g => g.active)`. */
  function ActiveGeofences(gs: seq<Geofence>): (r: seq<Geofence>)
    ensures forall g :: g in r <==> g in gs && g.active
    ensures IsSubsequence(r, gs)
    ensures forall g :: multiset(r)[g] == if g.active then multiset(gs)[g] else 0
  {
    FilterIsSubsequence(gs, (g: Geofence) => g.active);
    FilterMultiset(gs, (g: Geofence) => g.active);
    Filter(gs, (g: Geofence) => g.active)
  }

  predicate IsDrawn(g: Geofence) {
    g.active && GeofenceOverlay(g).Some?
  }

  /** The overlays on the map: one per active geofence whose shape can be
      drawn, in the order of the geofence list. */
  function DrawnOverlays(gs: seq<Geofence>): (r: seq<Overlay>)
    ensures |r| <= |gs|
    decreases |gs|
  {
    if |gs| == 0 then []
    else if IsDrawn(gs[0]) then [GeofenceOverlay(gs[0]).value] + DrawnOverlays(gs[1..])
    else DrawnOverlays(gs[1..])
  }

  /** Every active, drawable geofence appears on the map, and everything on
      the map comes from one. */
  lemma {:induction false} DrawnOverlaysExactly(gs: seq<Geofence>)
    ensures forall g :: g in gs && IsDrawn(g) ==> GeofenceOverlay(g).value in DrawnOverlays(gs)
    ensures forall o :: o in DrawnOverlays(gs) ==>
              exists g :: g in gs && IsDrawn(g) && GeofenceOverlay(g) == Some(o)
    decreases |gs|
  {
    if |gs| > 0 {
      DrawnOverlaysExactly(gs[1..]);
      forall g | g in gs ensures g == gs[0] || g in gs[1..] {
        var i :| 0 <= i < |gs| && gs[i] == g;
        if i > 0 {
          assert gs[1..][i - 1] == g;
        }
      }
      forall o | o in DrawnOverlays(gs)
        ensures exists g :: g in gs && IsDrawn(g) && GeofenceOverlay(g) == Some(o)
      {
        if IsDrawn(gs[0]) && o == GeofenceOverlay(gs[0]).value {
          assert gs[0] in gs;
        } else {
          assert o in DrawnOverlays(gs[1..]);
          var g :| g in gs[1..] && IsDrawn(g) && GeofenceOverlay(g) == Some(o);
          assert g in gs;
        }
      }
    }
  }

  /** The map never draws more overlays than there are active geofences. */
  lemma {:induction false} DrawnAtMostActive(gs: seq<Geofence>)
    ensures |DrawnOverlays(gs)| <= |ActiveGeofences(gs)|
    decreases |gs|
  {
    if |gs| > 0 {
      DrawnAtMostActive(gs[1..]);
    }
  }

  /** The polyline of the selected vehicle's recent positions. */
  datatype TrailLine = TrailLine(positions: seq<LatLng>, color: string, weight: int)

  /** The trail's line colour and width in pixels. */
  const TrailColor: string := "#3b82f6"
  const TrailWeight: int := 4

  /** `recentTrail && recentTrail.length > 1 && <Polyline …/>`: the trail is
      drawn from two points on, through every point in the order given. */
  function DrawnTrail(trail: Option<seq<LatLng>>): (r: Option<TrailLine>)
    ensures r.Some? <==> trail.Some? && |trail.value| >= 2
    ensures r.Some? ==> r.value.positions == trail.value
    ensures r.Some? ==> r.value.color == TrailColor && r.value.weight == TrailWeight
  {
    if trail.Some? && |trail.value| > 1 then Some(TrailLine(trail.value, TrailColor, TrailWeight))
    else None
  }

  /** A point added to a trail of at least one point leaves a drawn trail
      whose line ends at the new point; no trail, an empty one or a single
      point is never drawn. */
  lemma TrailGrows(points: seq<LatLng>, p: LatLng)
    ensures |points| >= 1 ==> DrawnTrail(Some(points + [p])).Some?
    ensures |points| >= 1 ==>
            var line := DrawnTrail(Some(points + [p])).value.positions;
            line[|line| - 1] == p
    ensures DrawnTrail(None).None? && DrawnTrail(Some([])).None? && DrawnTrail(Some([p])).None?
  {
  }

  /** The status label of the info card: every status other than moving
      and stopped, idle included, reads "Offline". */
  function InfoLabel(s: VehicleStatus): (r: string)
    ensures r == "Movimento" <==> s == Moving
    ensures r == "Parado" <==> s == Stopped
    ensures r == "Offline" <==> s == Idle || s == Offline
  {
    match s
    case Moving => "Movimento"
    case Stopped => "Parado"
    case _ => "Offline"
  }

  /** `hasSpeedAlert` of the info card: a vehicle is selected and it runs
      faster than its limit. */
  predicate CardSpeedAlert(selected: Option<Vehicle>) {
    selected.Some? && selected.value.currentSpeed > selected.value.speedLimit
  }
}
