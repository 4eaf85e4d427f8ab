/** The vehicle detail panel: the alerts it lists for the selected vehicle,
    the count on its alerts tab, the style of its status badge, the icon and
    colour of each alert, and its speed warning. */
module DetailPanel {
  import opened Wrappers
  import opened Seqs
  import opened Schema
  import opened FleetLists

  /** `vehicleAlerts`: the alerts of the selected vehicle, in their order. */
  function VehicleAlerts(alerts: seq<Alert>, v: Vehicle): (r: seq<Alert>)
    ensures forall a :: a in r <==> a in alerts && a.vehicleId == v.id
    ensures IsSubsequence(r, alerts)
    ensures forall a :: multiset(r)[a] == if a.vehicleId == v.id then multiset(alerts)[a] else 0
  {
    FilterIsSubsequence(alerts, (a: Alert) => a.vehicleId == v.id);
    FilterMultiset(alerts, (a: Alert) => a.vehicleId == v.id);
    Filter(alerts, (a: Alert) => a.vehicleId == v.id)
  }

  predicate UnreadOf(a: Alert, v: Vehicle) {
    a.vehicleId == v.id && !a.read
  }

  /** `unreadAlerts`: the unread ones among them. Filtering the vehicle's
      alerts is the same as filtering all alerts once for both conditions. */
  function UnreadAlerts(alerts: seq<Alert>, v: Vehicle): (r: seq<Alert>)
    ensures forall a :: a in r <==> a in alerts && a.vehicleId == v.id && !a.read
    ensures r == Filter(alerts, (a: Alert) => UnreadOf(a, v))
    ensures |r| <= |VehicleAlerts(alerts, v)|
  {
    FilterTwice(alerts, (a: Alert) => a.vehicleId == v.id, (a: Alert) => !a.read, (a: Alert) => UnreadOf(a, v));
    Filter(VehicleAlerts(alerts, v), (a: Alert) => !a.read)
  }

  /** The number on the alerts tab: shown exactly when the vehicle has an
      unread alert, and then the number of its unread alerts. */
  function TabBadge(alerts: seq<Alert>, v: Vehicle): (r: Option<nat>)
    ensures r.Some? <==> exists a :: a in alerts && a.vehicleId == v.id && !a.read
    ensures r.Some? ==> r.value == |UnreadAlerts(alerts, v)| && r.value >= 1
  {
    var unread := UnreadAlerts(alerts, v);
    if |unread| > 0 then
      assert unread[0] in unread;
      Some(|unread|)
    else None
  }

  // ---------------------------------------------------------------------------
  // Styles
  // ---------------------------------------------------------------------------

  datatype StatusStyle = StatusStyle(color: string, title: string, textColor: string, bgColor: string)

  /** `getStatusConfig`. */
  function StatusConfig(s: VehicleStatus): StatusStyle {
    match s
    case Moving => StatusStyle("bg-green-500", "Em Movimento", "text-green-600 dark:text-green-400",
                               "bg-green-50 dark:bg-green-950/30")
    case Stopped => StatusStyle("bg-amber-500", "Parado", "text-amber-600 dark:text-amber-400",
                                "bg-amber-50 dark:bg-amber-950/30")
    case Idle => StatusStyle("bg-amber-500", "Ocioso", "text-amber-600 dark:text-amber-400",
                             "bg-amber-50 dark:bg-amber-950/30")
    case Offline => StatusStyle("bg-slate-400 dark:bg-slate-600", "Offline", "text-muted-foreground",
                                "bg-muted/50")
  }

  /** A stopped and an idle vehicle are painted alike and told apart only by
      the label; every status has its own label, and no other two statuses
      share a colour. */
  lemma StatusConfigDistinguishes(s: VehicleStatus, t: VehicleStatus)
    ensures StatusConfig(Stopped).(title := StatusConfig(Idle).title) == StatusConfig(Idle)
    ensures StatusConfig(s).title == StatusConfig(t).title ==> s == t
    ensures StatusConfig(s).color == StatusConfig(t).color <==>
            s == t || (s in {Stopped, Idle} && t in {Stopped, Idle})
  {
  }

  datatype AlertIcon = Gauge | Shield | Bell

  predicate IsGeofenceAlert(t: AlertType) {
    t == GeofenceEntry || t == GeofenceExit || t == GeofenceDwell
  }

  /** `getAlertIcon`: a gauge for speed, a shield for the three geofence
      alerts, a bell for anything else (the system alerts). */
  function AlertIconOf(t: AlertType): (r: AlertIcon)
    ensures r == Gauge <==> t == Speed
    ensures r == Shield <==> IsGeofenceAlert(t)
    ensures r == Bell <==> !IsGeofenceAlert(t) && t != Speed
  {
    match t
    case Speed => Gauge
    case GeofenceEntry => Shield
    case GeofenceExit => Shield
    case GeofenceDwell => Shield
    case _ => Bell
  }

  /** `getAlertColor`: red for critical, amber for warning, the primary
      colour for the rest (informational). */
  function AlertColor(p: AlertPriority): (r: string)
    ensures p == Critical ==> r == "text-red-500"
    ensures p == Warning ==> r == "text-amber-500"
    ensures p != Critical && p != Warning ==> r == "text-primary"
  {
    match p
    case Critical => "text-red-500"
    case Warning => "text-amber-500"
    case _ => "text-primary"
  }

  /** Distinct priorities get distinct colours. */
  lemma AlertColorInjective(p: AlertPriority, q: AlertPriority)
    ensures AlertColor(p) == AlertColor(q) ==> p == q
  {
  }

  /** `hasSpeedAlert`: the panel warns about speed exactly for the vehicles
      the sidebar lists under its "alerts" key. */
  lemma SpeedAlertMatchesAlertsList(vs: seq<Vehicle>, v: Vehicle)
    requires v in vs
    ensures OverLimit(v) <==> v in SidebarFilter(vs, "", AlertsKey)
  {
    EmptyTermMatches(v.name);
  }
}
