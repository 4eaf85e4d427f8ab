/** The shared data model of the fleet dashboard: closed enumerations with
    their wire names, the application records, and the insert shapes that
    are the records without their `id`. */
module Schema {
  import opened Wrappers

  // ---------------------------------------------------------------------------
  // Enumerations and their wire names
  // ---------------------------------------------------------------------------

  datatype VehicleStatus = Moving | Stopped | Idle | Offline
  datatype Ignition = IgnitionOn | IgnitionOff
  datatype AlertType = Speed | GeofenceEntry | GeofenceExit | GeofenceDwell | System
  datatype AlertPriority = Critical | Warning | Info
  datatype GeofenceType = Circle | Polygon
  datatype GeofenceRuleType = Entry | Exit | Dwell | TimeViolation

  function StatusName(s: VehicleStatus): string {
    match s
    case Moving => "moving"
    case Stopped => "stopped"
    case Idle => "idle"
    case Offline => "offline"
  }

  /** `z.enum(["moving", "stopped", "idle", "offline"])`: exactly those four
      names are accepted, each as the status it names. */
  function ParseStatus(name: string): (r: Option<VehicleStatus>)
    ensures r.Some? <==> name in {"moving", "stopped", "idle", "offline"}
    ensures r.Some? ==> StatusName(r.value) == name
  {
    if name == "moving" then Some(Moving)
    else if name == "stopped" then Some(Stopped)
    else if name == "idle" then Some(Idle)
    else if name == "offline" then Some(Offline)
    else None
  }

  function IgnitionName(i: Ignition): string {
    match i
    case IgnitionOn => "on"
    case IgnitionOff => "off"
  }

  function ParseIgnition(name: string): (r: Option<Ignition>)
    ensures r.Some? <==> name in {"on", "off"}
    ensures r.Some? ==> IgnitionName(r.value) == name
  {
    if name == "on" then Some(IgnitionOn)
    else if name == "off" then Some(IgnitionOff)
    else None
  }

  function AlertTypeName(t: AlertType): string {
    match t
    case Speed => "speed"
    case GeofenceEntry => "geofence_entry"
    case GeofenceExit => "geofence_exit"
    case GeofenceDwell => "geofence_dwell"
    case System => "system"
  }

  function ParseAlertType(name: string): (r: Option<AlertType>)
    ensures r.Some? <==> name in {"speed", "geofence_entry", "geofence_exit", "geofence_dwell", "system"}
    ensures r.Some? ==> AlertTypeName(r.value) == name
  {
    if name == "speed" then Some(Speed)
    else if name == "geofence_entry" then Some(GeofenceEntry)
    else if name == "geofence_exit" then Some(GeofenceExit)
    else if name == "geofence_dwell" then Some(GeofenceDwell)
    else if name == "system" then Some(System)
    else None
  }

  function PriorityName(p: AlertPriority): string {
    match p
    case Critical => "critical"
    case Warning => "warning"
    case Info => "info"
  }

  function ParsePriority(name: string): (r: Option<AlertPriority>)
    ensures r.Some? <==> name in {"critical", "warning", "info"}
    ensures r.Some? ==> PriorityName(r.value) == name
  {
    if name == "critical" then Some(Critical)
    else if name == "warning" then Some(Warning)
    else if name == "info" then Some(Info)
    else None
  }

  function GeofenceTypeName(t: GeofenceType): string {
    match t
    case Circle => "circle"
    case Polygon => "polygon"
  }

  function ParseGeofenceType(name: string): (r: Option<GeofenceType>)
    ensures r.Some? <==> name in {"circle", "polygon"}
    ensures r.Some? ==> GeofenceTypeName(r.value) == name
  {
    if name == "circle" then Some(Circle)
    else if name == "polygon" then Some(Polygon)
    else None
  }

  function RuleTypeName(t: GeofenceRuleType): string {
    match t
    case Entry => "entry"
    case Exit => "exit"
    case Dwell => "dwell"
    case TimeViolation => "time_violation"
  }

  function ParseRuleType(name: string): (r: Option<GeofenceRuleType>)
    ensures r.Some? <==> name in {"entry", "exit", "dwell", "time_violation"}
    ensures r.Some? ==> RuleTypeName(r.value) == name
  {
    if name == "entry" then Some(Entry)
    else if name == "exit" then Some(Exit)
    else if name == "dwell" then Some(Dwell)
    else if name == "time_violation" then Some(TimeViolation)
    else None
  }

  /** Every enumeration value survives the trip through its wire name. */
  lemma EnumNamesRoundTrip(s: VehicleStatus, i: Ignition, t: AlertType, p: AlertPriority,
                           g: GeofenceType, u: GeofenceRuleType)
    ensures ParseStatus(StatusName(s)) == Some(s)
    ensures ParseIgnition(IgnitionName(i)) == Some(i)
    ensures ParseAlertType(AlertTypeName(t)) == Some(t)
    ensures ParsePriority(PriorityName(p)) == Some(p)
    ensures ParseGeofenceType(GeofenceTypeName(g)) == Some(g)
    ensures ParseRuleType(RuleTypeName(u)) == Some(u)
  {
  }

  // ---------------------------------------------------------------------------
  // Records
  // ---------------------------------------------------------------------------

  datatype LatLng = LatLng(latitude: real, longitude: real)

  datatype Vehicle = Vehicle(
    id: string,
    name: string,
    licensePlate: string,
    model: Option<string>,
    status: VehicleStatus,
    ignition: Ignition,
    currentSpeed: int,
    speedLimit: int,
    heading: int,
    latitude: real,
    longitude: real,
    accuracy: int,
    lastUpdate: string,
    batteryLevel: Option<int>)

  /** `vehicleSchema.omit({ id: true })`. */
  datatype InsertVehicle = InsertVehicle(
    name: string,
    licensePlate: string,
    model: Option<string>,
    status: VehicleStatus,
    ignition: Ignition,
    currentSpeed: int,
    speedLimit: int,
    heading: int,
    latitude: real,
    longitude: real,
    accuracy: int,
    lastUpdate: string,
    batteryLevel: Option<int>)

  /** A geofence rule: every parameter is optional and none depends on the
      rule's type. */
  datatype GeofenceRule = GeofenceRule(
    ruleType: GeofenceRuleType,
    enabled: bool,
    dwellTimeMinutes: Option<int>,
    startTime: Option<string>,
    endTime: Option<string>,
    toleranceSeconds: Option<int>)

  /** A geofence: `center`, `radius` and `points` are optional whatever the
      `geofenceType` is. */
  datatype Geofence = Geofence(
    id: string,
    name: string,
    description: Option<string>,
    geofenceType: GeofenceType,
    active: bool,
    center: Option<LatLng>,
    radius: Option<int>,
    points: Option<seq<LatLng>>,
    rules: seq<GeofenceRule>,
    vehicleIds: seq<string>,
    lastTriggered: Option<string>,
    color: Option<string>)

  /** `geofenceSchema.omit({ id: true })`. */
  datatype InsertGeofence = InsertGeofence(
    name: string,
    description: Option<string>,
    geofenceType: GeofenceType,
    active: bool,
    center: Option<LatLng>,
    radius: Option<int>,
    points: Option<seq<LatLng>>,
    rules: seq<GeofenceRule>,
    vehicleIds: seq<string>,
    lastTriggered: Option<string>,
    color: Option<string>)

  datatype Alert = Alert(
    id: string,
    alertType: AlertType,
    priority: AlertPriority,
    vehicleId: string,
    vehicleName: string,
    message: string,
    timestamp: string,
    read: bool,
    latitude: Option<real>,
    longitude: Option<real>,
    speed: Option<int>,
    speedLimit: Option<int>,
    geofenceName: Option<string>)

  /** `alertSchema.omit({ id: true })`. */
  datatype InsertAlert = InsertAlert(
    alertType: AlertType,
    priority: AlertPriority,
    vehicleId: string,
    vehicleName: string,
    message: string,
    timestamp: string,
    read: bool,
    latitude: Option<real>,
    longitude: Option<real>,
    speed: Option<int>,
    speedLimit: Option<int>,
    geofenceName: Option<string>)

  datatype SpeedViolation = SpeedViolation(
    id: string,
    vehicleId: string,
    vehicleName: string,
    speed: int,
    speedLimit: int,
    excessSpeed: int,
    timestamp: string,
    latitude: real,
    longitude: real,
    duration: int)

  // ---------------------------------------------------------------------------
  // Insert shapes: the record without its id
  // ---------------------------------------------------------------------------

  function VehicleWithoutId(v: Vehicle): InsertVehicle {
    InsertVehicle(v.name, v.licensePlate, v.model, v.status, v.ignition, v.currentSpeed,
                  v.speedLimit, v.heading, v.latitude, v.longitude, v.accuracy,
                  v.lastUpdate, v.batteryLevel)
  }

  /** Giving an insert shape an id yields the vehicle whose insert shape it
      is: dropping the id loses nothing else. */
  function VehicleWithId(ins: InsertVehicle, id: string): (v: Vehicle)
    ensures v.id == id
    ensures VehicleWithoutId(v) == ins
  {
    Vehicle(id, ins.name, ins.licensePlate, ins.model, ins.status, ins.ignition,
            ins.currentSpeed, ins.speedLimit, ins.heading, ins.latitude, ins.longitude,
            ins.accuracy, ins.lastUpdate, ins.batteryLevel)
  }

  function GeofenceWithoutId(g: Geofence): InsertGeofence {
    InsertGeofence(g.name, g.description, g.geofenceType, g.active, g.center, g.radius,
                   g.points, g.rules, g.vehicleIds, g.lastTriggered, g.color)
  }

  function GeofenceWithId(ins: InsertGeofence, id: string): (g: Geofence)
    ensures g.id == id
    ensures GeofenceWithoutId(g) == ins
  {
    Geofence(id, ins.name, ins.description, ins.geofenceType, ins.active, ins.center,
             ins.radius, ins.points, ins.rules, ins.vehicleIds, ins.lastTriggered, ins.color)
  }

  function AlertWithoutId(a: Alert): InsertAlert {
    InsertAlert(a.alertType, a.priority, a.vehicleId, a.vehicleName, a.message, a.timestamp,
                a.read, a.latitude, a.longitude, a.speed, a.speedLimit, a.geofenceName)
  }

  function AlertWithId(ins: InsertAlert, id: string): (a: Alert)
    ensures a.id == id
    ensures AlertWithoutId(a) == ins
  {
    Alert(id, ins.alertType, ins.priority, ins.vehicleId, ins.vehicleName, ins.message,
          ins.timestamp, ins.read, ins.latitude, ins.longitude, ins.speed, ins.speedLimit,
          ins.geofenceName)
  }

  /** The id is the only field an insert shape lacks: a record is its insert
      shape plus its id. */
  lemma {:induction false} InsertShapesOmitOnlyId(v: Vehicle, g: Geofence, a: Alert)
    ensures VehicleWithId(VehicleWithoutId(v), v.id) == v
    ensures GeofenceWithId(GeofenceWithoutId(g), g.id) == g
    ensures AlertWithId(AlertWithoutId(a), a.id) == a
  {
  }

  // ---------------------------------------------------------------------------
  // Validation of untyped records
  // ---------------------------------------------------------------------------

  /** A rule as it arrives in a request body: its type is a bare string. */
  datatype RawRule = RawRule(
    typeName: string,
    enabled: bool,
    dwellTimeMinutes: Option<int>,
    startTime: Option<string>,
    endTime: Option<string>,
    toleranceSeconds: Option<int>)

  /** `geofenceRuleSchema.parse`: a rule is accepted exactly when its type
      name is one of the four rule types; the optional parameters are taken
      over as they are, with no constraint between them. */
  function ParseRule(raw: RawRule): (r: Option<GeofenceRule>)
    ensures r.Some? <==> raw.typeName in {"entry", "exit", "dwell", "time_violation"}
    ensures r.Some? ==> RuleTypeName(r.value.ruleType) == raw.typeName
    ensures r.Some? ==> r.value.enabled == raw.enabled
    ensures r.Some? ==> r.value.dwellTimeMinutes == raw.dwellTimeMinutes
    ensures r.Some? ==> r.value.startTime == raw.startTime && r.value.endTime == raw.endTime
    ensures r.Some? ==> r.value.toleranceSeconds == raw.toleranceSeconds
  {
    match ParseRuleType(raw.typeName)
    case None => None
    case Some(t) =>
      Some(GeofenceRule(t, raw.enabled, raw.dwellTimeMinutes, raw.startTime, raw.endTime,
                        raw.toleranceSeconds))
  }

  /** A geofence as it arrives in a request body. */
  datatype RawGeofence = RawGeofence(
    id: string,
    name: string,
    description: Option<string>,
    typeName: string,
    active: bool,
    center: Option<LatLng>,
    radius: Option<int>,
    points: Option<seq<LatLng>>,
    rules: seq<RawRule>,
    vehicleIds: seq<string>,
    lastTriggered: Option<string>,
    color: Option<string>)

  function ParseRules(raws: seq<RawRule>): (r: Option<seq<GeofenceRule>>)
    ensures r.Some? <==> forall i :: 0 <= i < |raws| ==> ParseRule(raws[i]).Some?
    ensures r.Some? ==> |r.value| == |raws|
    ensures r.Some? ==> forall i :: 0 <= i < |raws| ==> r.value[i] == ParseRule(raws[i]).value
  {
    if |raws| == 0 then Some([])
    else match (ParseRule(raws[0]), ParseRules(raws[1..]))
      case (Some(first), Some(rest)) => Some([first] + rest)
      case _ => None
  }

  /** `geofenceSchema.parse`: the geofence is accepted exactly when its type
      name and all its rules are; then it holds the parsed rules, in order,
      and every other field as sent, the shape fields whatever the type
      says. */
  function ParseGeofence(raw: RawGeofence): (r: Option<Geofence>)
    ensures r.Some? <==> raw.typeName in {"circle", "polygon"} && ParseRules(raw.rules).Some?
    ensures r.Some? ==> GeofenceTypeName(r.value.geofenceType) == raw.typeName
    ensures r.Some? ==> r.value.rules == ParseRules(raw.rules).value
    ensures r.Some? ==> r.value.center == raw.center && r.value.radius == raw.radius
                        && r.value.points == raw.points
    ensures r.Some? ==> r.value.id == raw.id && r.value.name == raw.name
                        && r.value.description == raw.description && r.value.active == raw.active
    ensures r.Some? ==> r.value.vehicleIds == raw.vehicleIds && r.value.lastTriggered == raw.lastTriggered
                        && r.value.color == raw.color
  {
    match (ParseGeofenceType(raw.typeName), ParseRules(raw.rules))
    case (Some(t), Some(rules)) =>
      Some(Geofence(raw.id, raw.name, raw.description, t, raw.active, raw.center, raw.radius,
                    raw.points, rules, raw.vehicleIds, raw.lastTriggered, raw.color))
    case _ => None
  }

  /** Whether a geofence is accepted never depends on its shape fields: a
      circle without a center or a polygon with a radius passes just the
      same. */
  lemma ShapeFieldsDoNotAffectAcceptance(raw: RawGeofence, center: Option<LatLng>,
                                         radius: Option<int>, points: Option<seq<LatLng>>)
    ensures ParseGeofence(raw.(center := center, radius := radius, points := points)).Some?
            == ParseGeofence(raw).Some?
  {
  }
}
