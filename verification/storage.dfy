/** The storage layer's pure part: database rows (snake_case columns,
    nullable columns as `Option`), the row/record mappers, the defaults the
    database applies to an insert, and the partial update `updateVehicle`
    sends. The database itself is a parameter: a stored row is given, and
    an insert or update is applied by the functions below. */
module Storage {
  import opened Wrappers
  import opened Schema

  // ---------------------------------------------------------------------------
  // Vehicles
  // ---------------------------------------------------------------------------

  datatype VehicleRow = VehicleRow(
    id: string,
    name: string,
    license_plate: string,
    model: Option<string>,
    status: VehicleStatus,
    ignition: Ignition,
    current_speed: int,
    speed_limit: int,
    heading: int,
    latitude: real,
    longitude: real,
    accuracy: int,
    last_update: string,
    battery_level: Option<int>,
    created_at: string,
    updated_at: string)

  /** The insert payload: `None` is a key left out, so the column default
      (or NULL) applies. */
  datatype VehicleInsertRow = VehicleInsertRow(
    name: string,
    license_plate: string,
    model: Option<string>,
    status: Option<VehicleStatus>,
    ignition: Option<Ignition>,
    current_speed: Option<int>,
    speed_limit: Option<int>,
    heading: Option<int>,
    latitude: real,
    longitude: real,
    accuracy: Option<int>,
    last_update: Option<string>,
    battery_level: Option<int>)

  const DefaultSpeedLimit: int := 80
  const DefaultAccuracy: int := 5

  /** The row the database stores for an insert at time `now`: every column
      left out takes its default (status offline, ignition off, speed 0,
      limit 80, heading 0, accuracy 5, last update now, model and battery
      NULL); every column given is stored as given. */
  function StoreVehicle(ins: VehicleInsertRow, id: string, now: string): (row: VehicleRow)
    ensures row.id == id && row.created_at == now && row.updated_at == now
    ensures row.name == ins.name && row.license_plate == ins.license_plate
    ensures row.model == ins.model && row.battery_level == ins.battery_level
    ensures row.latitude == ins.latitude && row.longitude == ins.longitude
    ensures ins.status.None? ==> row.status == Offline
    ensures ins.ignition.None? ==> row.ignition == IgnitionOff
    ensures ins.current_speed.None? ==> row.current_speed == 0
    ensures ins.speed_limit.None? ==> row.speed_limit == 80
    ensures ins.heading.None? ==> row.heading == 0
    ensures ins.accuracy.None? ==> row.accuracy == 5
    ensures ins.last_update.None? ==> row.last_update == now
    ensures ins.status.Some? ==> row.status == ins.status.value
    ensures ins.ignition.Some? ==> row.ignition == ins.ignition.value
    ensures ins.current_speed.Some? ==> row.current_speed == ins.current_speed.value
    ensures ins.speed_limit.Some? ==> row.speed_limit == ins.speed_limit.value
    ensures ins.heading.Some? ==> row.heading == ins.heading.value
    ensures ins.accuracy.Some? ==> row.accuracy == ins.accuracy.value
    ensures ins.last_update.Some? ==> row.last_update == ins.last_update.value
  {
    VehicleRow(id, ins.name, ins.license_plate, ins.model, ins.status.GetOr(Offline),
               ins.ignition.GetOr(IgnitionOff), ins.current_speed.GetOr(0),
               ins.speed_limit.GetOr(DefaultSpeedLimit), ins.heading.GetOr(0),
               ins.latitude, ins.longitude, ins.accuracy.GetOr(DefaultAccuracy),
               ins.last_update.GetOr(now), ins.battery_level, now, now)
  }

  /** The row holding vehicle `v`, with the given bookkeeping timestamps. */
  function VehicleRowOf(v: Vehicle, createdAt: string, updatedAt: string): VehicleRow {
    VehicleRow(v.id, v.name, v.licensePlate, v.model, v.status, v.ignition, v.currentSpeed,
               v.speedLimit, v.heading, v.latitude, v.longitude, v.accuracy, v.lastUpdate,
               v.batteryLevel, createdAt, updatedAt)
  }

  /** `dbVehicleToVehicle`: a column-for-field renaming in which a NULL
      model or battery level becomes an absent field. The record keeps
      every column but the two timestamps. */
  function DbVehicleToVehicle(row: VehicleRow): (v: Vehicle)
    ensures VehicleRowOf(v, row.created_at, row.updated_at) == row
  {
    Vehicle(row.id, row.name, row.license_plate, row.model, row.status, row.ignition,
            row.current_speed, row.speed_limit, row.heading, row.latitude, row.longitude,
            row.accuracy, row.last_update, row.battery_level)
  }

  /** `vehicleToDbInsert`: every field of the insert shape goes into the
      payload under its column name; an absent model or battery level is a
      key left out. Whatever id and time the database picks, the stored row
      reads back as the vehicle sent: no column default overrides a value. */
  function VehicleToDbInsert(v: InsertVehicle): (ins: VehicleInsertRow)
    ensures forall id, now :: DbVehicleToVehicle(StoreVehicle(ins, id, now)) == VehicleWithId(v, id)
  {
    VehicleInsertRow(v.name, v.licensePlate, v.model, Some(v.status), Some(v.ignition),
                     Some(v.currentSpeed), Some(v.speedLimit), Some(v.heading), v.latitude,
                     v.longitude, Some(v.accuracy), Some(v.lastUpdate), v.batteryLevel)
  }

  /** Creating a vehicle and reading it back returns the vehicle that was
      sent, with the id the database chose: the two mappers are inverse on
      the shared fields, and no default overrides a value that was sent. */
  lemma CreateThenReadVehicle(v: InsertVehicle, id: string, now: string)
    ensures DbVehicleToVehicle(StoreVehicle(VehicleToDbInsert(v), id, now)) == VehicleWithId(v, id)
  {
  }

  /** Reading a row and inserting what was read stores the same row again,
      apart from the bookkeeping timestamps. */
  lemma ReadThenStoreVehicle(row: VehicleRow, now: string)
    ensures StoreVehicle(VehicleToDbInsert(VehicleWithoutId(DbVehicleToVehicle(row))), row.id, now)
            == row.(created_at := now, updated_at := now)
  {
  }

  // ---------------------------------------------------------------------------
  // The partial update of `updateVehicle`
  // ---------------------------------------------------------------------------

  /** `Partial<Vehicle>` as the JSON body of a request delivers it: every
      field may be absent. The battery level may also be `null`
      (`Some(None)`), which is what a `NaN` level becomes in JSON. */
  datatype VehiclePatch = VehiclePatch(
    id: Option<string>,
    name: Option<string>,
    licensePlate: Option<string>,
    model: Option<string>,
    status: Option<VehicleStatus>,
    ignition: Option<Ignition>,
    currentSpeed: Option<int>,
    speedLimit: Option<int>,
    heading: Option<int>,
    latitude: Option<real>,
    longitude: Option<real>,
    accuracy: Option<int>,
    lastUpdate: Option<string>,
    batteryLevel: Option<Option<int>>)

  /** The update payload: `None` leaves the column alone; for a nullable
      column `Some(None)` would write NULL. */
  datatype VehicleUpdateRow = VehicleUpdateRow(
    id: Option<string>,
    name: Option<string>,
    license_plate: Option<string>,
    model: Option<Option<string>>,
    status: Option<VehicleStatus>,
    ignition: Option<Ignition>,
    current_speed: Option<int>,
    speed_limit: Option<int>,
    heading: Option<int>,
    latitude: Option<real>,
    longitude: Option<real>,
    accuracy: Option<int>,
    last_update: Option<string>,
    battery_level: Option<Option<int>>,
    created_at: Option<string>,
    updated_at: Option<string>)

  function SomeOf<T>(o: Option<T>): Option<Option<T>> {
    match o
    case None => None
    case Some(x) => Some(Some(x))
  }

  /** The payload `updateVehicle` builds: each field present in the patch,
      under its column name, plus `updated_at` set to `now`. The id,
      `created_at` and any field absent from the patch are not set; an
      absent model or battery level never clears its column, while a
      `null` battery level does. */
  function BuildVehicleUpdate(u: VehiclePatch, now: string): (r: VehicleUpdateRow)
    ensures r.id.None? && r.created_at.None?
    ensures r.updated_at == Some(now)
    ensures r.name == u.name && r.license_plate == u.licensePlate
    ensures r.model.Some? <==> u.model.Some?
    ensures r.model.Some? ==> r.model.value == u.model
    ensures r.status == u.status && r.ignition == u.ignition
    ensures r.current_speed == u.currentSpeed && r.speed_limit == u.speedLimit
    ensures r.heading == u.heading
    ensures r.latitude == u.latitude && r.longitude == u.longitude
    ensures r.accuracy == u.accuracy && r.last_update == u.lastUpdate
    ensures r.battery_level == u.batteryLevel
  {
    VehicleUpdateRow(None, u.name, u.licensePlate, SomeOf(u.model), u.status, u.ignition,
                     u.currentSpeed, u.speedLimit, u.heading, u.latitude, u.longitude,
                     u.accuracy, u.lastUpdate, u.batteryLevel, None, Some(now))
  }

  /** What the database does with an update payload: each column present in
      the payload takes its value, every other column keeps its own. */
  function ApplyVehicleUpdate(row: VehicleRow, upd: VehicleUpdateRow): VehicleRow {
    VehicleRow(upd.id.GetOr(row.id), upd.name.GetOr(row.name),
               upd.license_plate.GetOr(row.license_plate), upd.model.GetOr(row.model),
               upd.status.GetOr(row.status), upd.ignition.GetOr(row.ignition),
               upd.current_speed.GetOr(row.current_speed), upd.speed_limit.GetOr(row.speed_limit),
               upd.heading.GetOr(row.heading), upd.latitude.GetOr(row.latitude),
               upd.longitude.GetOr(row.longitude), upd.accuracy.GetOr(row.accuracy),
               upd.last_update.GetOr(row.last_update), upd.battery_level.GetOr(row.battery_level),
               upd.created_at.GetOr(row.created_at), upd.updated_at.GetOr(row.updated_at))
  }

  /** The record-level meaning of a patch: the fields it carries replace the
      vehicle's, except the id, which a patch never changes. */
  function PatchVehicle(v: Vehicle, u: VehiclePatch): Vehicle {
    Vehicle(v.id, u.name.GetOr(v.name), u.licensePlate.GetOr(v.licensePlate),
            if u.model.Some? then u.model else v.model, u.status.GetOr(v.status),
            u.ignition.GetOr(v.ignition), u.currentSpeed.GetOr(v.currentSpeed),
            u.speedLimit.GetOr(v.speedLimit), u.heading.GetOr(v.heading),
            u.latitude.GetOr(v.latitude), u.longitude.GetOr(v.longitude),
            u.accuracy.GetOr(v.accuracy), u.lastUpdate.GetOr(v.lastUpdate),
            u.batteryLevel.GetOr(v.batteryLevel))
  }

  /** Updating a stored vehicle and reading it back yields the old vehicle
      with the patch applied; the row keeps its id and creation time and its
      `updated_at` becomes `now`. */
  lemma UpdateThenReadVehicle(row: VehicleRow, u: VehiclePatch, now: string)
    ensures DbVehicleToVehicle(ApplyVehicleUpdate(row, BuildVehicleUpdate(u, now)))
            == PatchVehicle(DbVehicleToVehicle(row), u)
    ensures ApplyVehicleUpdate(row, BuildVehicleUpdate(u, now)).id == row.id
    ensures ApplyVehicleUpdate(row, BuildVehicleUpdate(u, now)).created_at == row.created_at
    ensures ApplyVehicleUpdate(row, BuildVehicleUpdate(u, now)).updated_at == now
  {
  }

  /** A patch that carries no field changes nothing but `updated_at`. */
  lemma EmptyPatchOnlyTouchesUpdatedAt(row: VehicleRow, now: string)
    ensures ApplyVehicleUpdate(row, BuildVehicleUpdate(
              VehiclePatch(None, None, None, None, None, None, None, None, None, None, None,
                           None, None, None), now))
            == row.(updated_at := now)
  {
  }

  // ---------------------------------------------------------------------------
  // Geofences
  // ---------------------------------------------------------------------------

  datatype GeofenceRow = GeofenceRow(
    id: string,
    name: string,
    description: Option<string>,
    geofence_type: GeofenceType,
    active: bool,
    center: Option<LatLng>,
    radius: Option<int>,
    points: Option<seq<LatLng>>,
    rules: seq<GeofenceRule>,
    vehicle_ids: seq<string>,
    last_triggered: Option<string>,
    color: Option<string>,
    created_at: string,
    updated_at: string)

  datatype GeofenceInsertRow = GeofenceInsertRow(
    name: string,
    description: Option<string>,
    geofence_type: GeofenceType,
    active: Option<bool>,
    center: Option<LatLng>,
    radius: Option<int>,
    points: Option<seq<LatLng>>,
    rules: Option<seq<GeofenceRule>>,
    vehicle_ids: Option<seq<string>>,
    last_triggered: Option<string>,
    color: Option<string>)

  /** The stored row for a geofence insert: a geofence left without
      `active` is active, and one left without rules or vehicle ids gets
      empty lists. */
  function StoreGeofence(ins: GeofenceInsertRow, id: string, now: string): (row: GeofenceRow)
    ensures row.id == id && row.created_at == now && row.updated_at == now
    ensures row.name == ins.name && row.geofence_type == ins.geofence_type
    ensures ins.active.None? ==> row.active
    ensures ins.rules.None? ==> row.rules == []
    ensures ins.vehicle_ids.None? ==> row.vehicle_ids == []
    ensures ins.active.Some? ==> row.active == ins.active.value
    ensures ins.rules.Some? ==> row.rules == ins.rules.value
    ensures ins.vehicle_ids.Some? ==> row.vehicle_ids == ins.vehicle_ids.value
    ensures row.center == ins.center && row.radius == ins.radius && row.points == ins.points
  {
    GeofenceRow(id, ins.name, ins.description, ins.geofence_type, ins.active.GetOr(true),
                ins.center, ins.radius, ins.points, ins.rules.GetOr([]),
                ins.vehicle_ids.GetOr([]), ins.last_triggered, ins.color, now, now)
  }

  /** The row holding geofence `g`, with the given bookkeeping timestamps. */
  function GeofenceRowOf(g: Geofence, createdAt: string, updatedAt: string): GeofenceRow {
    GeofenceRow(g.id, g.name, g.description, g.geofenceType, g.active, g.center, g.radius,
                g.points, g.rules, g.vehicleIds, g.lastTriggered, g.color, createdAt, updatedAt)
  }

  /** `dbGeofenceToGeofence`: NULL optional columns become absent fields;
      the record keeps every column but the two timestamps. */
  function DbGeofenceToGeofence(row: GeofenceRow): (g: Geofence)
    ensures GeofenceRowOf(g, row.created_at, row.updated_at) == row
  {
    Geofence(row.id, row.name, row.description, row.geofence_type, row.active, row.center,
             row.radius, row.points, row.rules, row.vehicle_ids, row.last_triggered, row.color)
  }

  /** `geofenceToDbInsert`: the stored row reads back as the geofence
      sent; `active`, the rules and the vehicle ids are always given, so
      their defaults never apply. */
  function GeofenceToDbInsert(g: InsertGeofence): (ins: GeofenceInsertRow)
    ensures forall id, now :: DbGeofenceToGeofence(StoreGeofence(ins, id, now)) == GeofenceWithId(g, id)
  {
    GeofenceInsertRow(g.name, g.description, g.geofenceType, Some(g.active), g.center,
                      g.radius, g.points, Some(g.rules), Some(g.vehicleIds), g.lastTriggered,
                      g.color)
  }

  lemma CreateThenReadGeofence(g: InsertGeofence, id: string, now: string)
    ensures DbGeofenceToGeofence(StoreGeofence(GeofenceToDbInsert(g), id, now)) == GeofenceWithId(g, id)
  {
  }

  lemma ReadThenStoreGeofence(row: GeofenceRow, now: string)
    ensures StoreGeofence(GeofenceToDbInsert(GeofenceWithoutId(DbGeofenceToGeofence(row))), row.id, now)
            == row.(created_at := now, updated_at := now)
  {
  }

  // ---------------------------------------------------------------------------
  // Alerts
  // ---------------------------------------------------------------------------

  datatype AlertRow = AlertRow(
    id: string,
    alert_type: AlertType,
    priority: AlertPriority,
    vehicle_id: string,
    vehicle_name: string,
    message: string,
    timestamp: string,
    read: bool,
    latitude: Option<real>,
    longitude: Option<real>,
    speed: Option<int>,
    speed_limit: Option<int>,
    geofence_name: Option<string>,
    created_at: string)

  datatype AlertInsertRow = AlertInsertRow(
    alert_type: AlertType,
    priority: AlertPriority,
    vehicle_id: string,
    vehicle_name: string,
    message: string,
    timestamp: Option<string>,
    read: Option<bool>,
    latitude: Option<real>,
    longitude: Option<real>,
    speed: Option<int>,
    speed_limit: Option<int>,
    geofence_name: Option<string>)

  /** The stored row for an alert insert: an alert left without `read` is
      unread, and one left without a timestamp is stamped `now`. */
  function StoreAlert(ins: AlertInsertRow, id: string, now: string): (row: AlertRow)
    ensures row.id == id && row.created_at == now
    ensures ins.read.None? ==> !row.read
    ensures ins.read.Some? ==> row.read == ins.read.value
    ensures ins.timestamp.None? ==> row.timestamp == now
    ensures ins.timestamp.Some? ==> row.timestamp == ins.timestamp.value
    ensures row.vehicle_id == ins.vehicle_id && row.alert_type == ins.alert_type
  {
    AlertRow(id, ins.alert_type, ins.priority, ins.vehicle_id, ins.vehicle_name, ins.message,
             ins.timestamp.GetOr(now), ins.read.GetOr(false), ins.latitude, ins.longitude,
             ins.speed, ins.speed_limit, ins.geofence_name, now)
  }

  /** The row holding alert `a`, with the given creation time. */
  function AlertRowOf(a: Alert, createdAt: string): AlertRow {
    AlertRow(a.id, a.alertType, a.priority, a.vehicleId, a.vehicleName, a.message, a.timestamp,
             a.read, a.latitude, a.longitude, a.speed, a.speedLimit, a.geofenceName, createdAt)
  }

  /** `dbAlertToAlert`: NULL optional columns become absent fields; the
      record keeps every column but `created_at`. */
  function DbAlertToAlert(row: AlertRow): (a: Alert)
    ensures AlertRowOf(a, row.created_at) == row
  {
    Alert(row.id, row.alert_type, row.priority, row.vehicle_id, row.vehicle_name, row.message,
          row.timestamp, row.read, row.latitude, row.longitude, row.speed, row.speed_limit,
          row.geofence_name)
  }

  /** `alertToDbInsert`: the stored row reads back as the alert sent; the
      timestamp and the read flag are always given, so their defaults never
      apply. */
  function AlertToDbInsert(a: InsertAlert): (ins: AlertInsertRow)
    ensures forall id, now :: DbAlertToAlert(StoreAlert(ins, id, now)) == AlertWithId(a, id)
  {
    AlertInsertRow(a.alertType, a.priority, a.vehicleId, a.vehicleName, a.message,
                   Some(a.timestamp), Some(a.read), a.latitude, a.longitude, a.speed,
                   a.speedLimit, a.geofenceName)
  }

  lemma CreateThenReadAlert(a: InsertAlert, id: string, now: string)
    ensures DbAlertToAlert(StoreAlert(AlertToDbInsert(a), id, now)) == AlertWithId(a, id)
  {
  }

  lemma ReadThenStoreAlert(row: AlertRow, now: string)
    ensures StoreAlert(AlertToDbInsert(AlertWithoutId(DbAlertToAlert(row))), row.id, now)
            == row.(created_at := now)
  {
  }

  // ---------------------------------------------------------------------------
  // Speed violations
  // ---------------------------------------------------------------------------

  datatype SpeedViolationRow = SpeedViolationRow(
    id: string,
    vehicle_id: string,
    vehicle_name: string,
    speed: int,
    speed_limit: int,
    excess_speed: int,
    timestamp: string,
    latitude: real,
    longitude: real,
    duration: int,
    created_at: string)

  /** The row holding violation `v`, with the given creation time. */
  function SpeedViolationRowOf(v: SpeedViolation, createdAt: string): SpeedViolationRow {
    SpeedViolationRow(v.id, v.vehicleId, v.vehicleName, v.speed, v.speedLimit, v.excessSpeed,
                      v.timestamp, v.latitude, v.longitude, v.duration, createdAt)
  }

  /** `dbSpeedViolationToSpeedViolation`: the record keeps every column but
      `created_at`. */
  function DbSpeedViolationToSpeedViolation(row: SpeedViolationRow): (v: SpeedViolation)
    ensures SpeedViolationRowOf(v, row.created_at) == row
  {
    SpeedViolation(row.id, row.vehicle_id, row.vehicle_name, row.speed, row.speed_limit,
                   row.excess_speed, row.timestamp, row.latitude, row.longitude, row.duration)
  }

  /** Distinct rows that share a creation time map to distinct violations:
      the mapping drops nothing but `created_at`. */
  lemma SpeedViolationMappingLosesOnlyCreatedAt(a: SpeedViolationRow, b: SpeedViolationRow)
    requires a.created_at == b.created_at
    ensures DbSpeedViolationToSpeedViolation(a) == DbSpeedViolationToSpeedViolation(b) <==> a == b
  {
  }
}
