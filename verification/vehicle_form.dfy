/** The vehicle form of the vehicles page: its default contents, the
    numeric inputs with their fallbacks, the form filled from a vehicle
    being edited, and `handleSubmit`, which validates and normalises the
    form and then chooses between creating and updating.

    The clock is a parameter (`now`, the ISO text `lastUpdate` receives);
    `parseInt`/`parseFloat` are given as their outcome, `None` standing
    for `NaN`. */
module VehicleForm {
  import opened Wrappers
  import opened Text
  import opened Schema
  import opened Storage

  /** The battery level the form holds: none (the input is blank), a
      number, or `NaN` (text that `parseInt` rejects). */
  datatype BatteryEntry = NoLevel | Level(n: int) | NotANumber

  datatype FormData = FormData(
    name: string,
    licensePlate: string,
    model: string,
    status: VehicleStatus,
    ignition: Ignition,
    currentSpeed: int,
    speedLimit: int,
    heading: int,
    latitude: real,
    longitude: real,
    accuracy: int,
    batteryLevel: BatteryEntry)

  /** `defaultFormData`: an empty, offline vehicle in São Paulo. */
  const DefaultForm: FormData :=
    FormData("", "", "", Offline, IgnitionOff, 0, 80, 0, -23.5505, -46.6333, 5, NoLevel)

  // ---------------------------------------------------------------------------
  // Numeric inputs
  // ---------------------------------------------------------------------------

  /** `parseInt(text) || fallback`: a parse that fails (`NaN`) or gives 0 is
      falsy, so the fallback is used. */
  function ParsedOr(parsed: Option<int>, fallback: int): (r: int)
    ensures parsed.Some? && parsed.value != 0 ==> r == parsed.value
    ensures parsed.None? || parsed.value == 0 ==> r == fallback
  {
    match parsed
    case Some(n) => if n != 0 then n else fallback
    case None => fallback
  }

  /** With a non-zero fallback the input never produces 0. */
  lemma ParsedOrNeverZero(parsed: Option<int>, fallback: int)
    requires fallback != 0
    ensures ParsedOr(parsed, fallback) != 0
    ensures ParsedOr(parsed, fallback) == fallback || Some(ParsedOr(parsed, fallback)) == parsed
  {
  }

  /** The integer inputs of the form, each with its fallback. */
  datatype NumericField = CurrentSpeedField | SpeedLimitField | HeadingField | AccuracyField

  function Fallback(field: NumericField): int {
    match field
    case CurrentSpeedField => 0
    case SpeedLimitField => 80
    case HeadingField => 0
    case AccuracyField => 5
  }

  /** The `onChange` of an integer input: only that field changes. */
  function EnterNumber(f: FormData, field: NumericField, parsed: Option<int>): (g: FormData)
    ensures field == CurrentSpeedField ==> g == f.(currentSpeed := ParsedOr(parsed, 0))
    ensures field == SpeedLimitField ==> g == f.(speedLimit := ParsedOr(parsed, 80))
    ensures field == HeadingField ==> g == f.(heading := ParsedOr(parsed, 0))
    ensures field == AccuracyField ==> g == f.(accuracy := ParsedOr(parsed, 5))
  {
    var n := ParsedOr(parsed, Fallback(field));
    match field
    case CurrentSpeedField => f.(currentSpeed := n)
    case SpeedLimitField => f.(speedLimit := n)
    case HeadingField => f.(heading := n)
    case AccuracyField => f.(accuracy := n)
  }

  /** Starting from the default form, no sequence of inputs can leave the
      speed limit or the accuracy at 0. */
  lemma {:induction false} InputsKeepLimitAndAccuracy(inputs: seq<(NumericField, Option<int>)>)
    ensures var f := EnterAll(DefaultForm, inputs); f.speedLimit != 0 && f.accuracy != 0
    decreases |inputs|
  {
    if |inputs| > 0 {
      var n := |inputs| - 1;
      InputsKeepLimitAndAccuracy(inputs[..n]);
      ParsedOrNeverZero(inputs[n].1, 80);
      ParsedOrNeverZero(inputs[n].1, 5);
    }
  }

  function EnterAll(f: FormData, inputs: seq<(NumericField, Option<int>)>): FormData
    decreases |inputs|
  {
    if |inputs| == 0 then f
    else
      var n := |inputs| - 1;
      EnterNumber(EnterAll(f, inputs[..n]), inputs[n].0, inputs[n].1)
  }

  /** The `onChange` of the latitude or longitude input:
      `parseFloat(text) || 0`. */
  function EnterCoordinate(parsed: Option<real>): (r: real)
    ensures parsed.Some? ==> r == parsed.value
    ensures parsed.None? ==> r == 0.0
  {
    match parsed
    case Some(x) => if x != 0.0 then x else 0.0
    case None => 0.0
  }

  /** The `onChange` of the battery input: an empty text clears the level,
      any other text sets what `parseInt` makes of it, `NaN` included. */
  function EnterBattery(text: string, parsed: Option<int>): (r: BatteryEntry)
    ensures r == NoLevel <==> text == ""
    ensures r == NotANumber <==> text != "" && parsed.None?
    ensures r.Level? <==> text != "" && parsed.Some?
    ensures r.Level? ==> r.n == parsed.value
  {
    if text == "" then NoLevel
    else match parsed
      case Some(n) => Level(n)
      case None => NotANumber
  }

  /** The entry showing a stored level. */
  function EntryOf(level: Option<int>): BatteryEntry {
    match level
    case Some(n) => Level(n)
    case None => NoLevel
  }

  /** The level a typed record holds for an entry; `NaN` is no number it
      can hold. */
  function LevelOf(b: BatteryEntry): Option<int> {
    match b
    case Level(n) => Some(n)
    case _ => None
  }

  /** The `batteryLevel` key of the JSON body: dropped when undefined,
      `null` for `NaN`, else the number. */
  function JsonBattery(b: BatteryEntry): (r: Option<Option<int>>)
    ensures r.None? <==> b == NoLevel
    ensures r == Some(None) <==> b == NotANumber
    ensures r.Some? && r.value.Some? <==> b.Level?
    ensures b.Level? ==> r == Some(Some(b.n))
  {
    match b
    case NoLevel => None
    case NotANumber => Some(None)
    case Level(n) => Some(Some(n))
  }

  /** A stored level shown in the form and sent back unchanged is the same
      level. */
  lemma StoredLevelRoundTrip(level: Option<int>)
    ensures LevelOf(EntryOf(level)) == level
    ensures JsonBattery(EntryOf(level)) == if level.Some? then Some(level) else None
  {
  }

  /** The `onChange` of the plate input upper-cases what is typed. */
  function EnterPlate(f: FormData, text: string): (g: FormData)
    ensures g.licensePlate == Upper(text) && g.(licensePlate := f.licensePlate) == f
  {
    f.(licensePlate := Upper(text))
  }

  // ---------------------------------------------------------------------------
  // Editing
  // ---------------------------------------------------------------------------

  /** `openEditDialog`: the form filled from a vehicle, every field copied,
      with an absent model shown as the empty text and the stored battery
      level (never `NaN`) as the entry. */
  function EditForm(v: Vehicle): (f: FormData)
    ensures v.model.None? ==> f.model == ""
    ensures v.model.Some? ==> f.model == v.model.value
    ensures f.name == v.name && f.licensePlate == v.licensePlate
    ensures f.status == v.status && f.ignition == v.ignition
    ensures f.currentSpeed == v.currentSpeed && f.speedLimit == v.speedLimit && f.heading == v.heading
    ensures f.latitude == v.latitude && f.longitude == v.longitude && f.accuracy == v.accuracy
    ensures f.batteryLevel != NotANumber && LevelOf(f.batteryLevel) == v.batteryLevel
  {
    FormData(v.name, v.licensePlate, v.model.GetOr(""), v.status, v.ignition, v.currentSpeed,
             v.speedLimit, v.heading, v.latitude, v.longitude, v.accuracy, EntryOf(v.batteryLevel))
  }

  // ---------------------------------------------------------------------------
  // Submitting
  // ---------------------------------------------------------------------------

  /** What `handleSubmit` does: refuse with a message, or send a create or an
      update. */
  datatype Submission =
    | MissingName
    | MissingPlate
    | Create(data: InsertVehicle)
    | Update(id: string, data: InsertVehicle)

  /** The `vehicleData` built from a form: name trimmed, plate trimmed and
      upper-cased, a blank model dropped, the clock as last update, every
      other field as entered; a level that is `NaN` is no level. */
  function VehicleData(f: FormData, now: string): (d: InsertVehicle)
    ensures d.name == Trim(f.name)
    ensures d.licensePlate == Upper(Trim(f.licensePlate))
    ensures d.model.None? <==> AllSpace(f.model)
    ensures d.model.Some? ==> d.model.value == Trim(f.model)
    ensures d.lastUpdate == now
    ensures d.status == f.status && d.ignition == f.ignition
    ensures d.currentSpeed == f.currentSpeed && d.speedLimit == f.speedLimit
    ensures d.heading == f.heading && d.accuracy == f.accuracy
    ensures d.latitude == f.latitude && d.longitude == f.longitude
    ensures d.batteryLevel.Some? <==> f.batteryLevel.Level?
    ensures d.batteryLevel.Some? ==> d.batteryLevel.value == f.batteryLevel.n
  {
    var model := Trim(f.model);
    InsertVehicle(Trim(f.name), Upper(Trim(f.licensePlate)), if model == "" then None else Some(model),
                  f.status, f.ignition, f.currentSpeed, f.speedLimit, f.heading, f.latitude,
                  f.longitude, f.accuracy, now, LevelOf(f.batteryLevel))
  }

  /** The vehicle data a submission sends is normalised: a non-blank
      trimmed name, a non-blank trimmed upper-case plate, and a model that
      is absent or non-blank and trimmed. */
  predicate Normalised(d: InsertVehicle) {
    && d.name != "" && IsTrimmed(d.name)
    && d.licensePlate != "" && IsTrimmed(d.licensePlate) && IsUpper(d.licensePlate)
    && (d.model.Some? ==> d.model.value != "" && IsTrimmed(d.model.value))
  }

  /** `handleSubmit`: a blank name is refused first, then a blank plate;
      otherwise the normalised data is sent as an update of the vehicle
      being edited, or as a create when none is. */
  function Submit(f: FormData, editing: Option<Vehicle>, now: string): (r: Submission)
    ensures r == MissingName <==> AllSpace(f.name)
    ensures r == MissingPlate <==> !AllSpace(f.name) && AllSpace(f.licensePlate)
    ensures r.Create? <==> !AllSpace(f.name) && !AllSpace(f.licensePlate) && editing.None?
    ensures r.Update? <==> !AllSpace(f.name) && !AllSpace(f.licensePlate) && editing.Some?
    ensures r.Update? ==> r.id == editing.value.id
    ensures r.Create? || r.Update? ==> r.data == VehicleData(f, now) && Normalised(r.data)
  {
    if Trim(f.name) == "" then MissingName
    else if Trim(f.licensePlate) == "" then MissingPlate
    else
      var d := VehicleData(f, now);
      UpperOfTrimmedIsTrimmed(Trim(f.licensePlate));
      UpperIsUpper(Trim(f.licensePlate));
      match editing
      case Some(v) => Update(v.id, d)
      case None => Create(d)
  }

  /** The body of the update request as `updateVehicle` receives it: the
      `vehicleData` after a JSON round trip, so that a blank model
      (`undefined`) is dropped and the battery level is dropped, `null` or a
      number as `JsonBattery` says. */
  function UpdateBody(f: FormData, now: string): (u: VehiclePatch)
    ensures u.id.None? && u.lastUpdate == Some(now)
    ensures u.model.None? <==> AllSpace(f.model)
    ensures u.batteryLevel == JsonBattery(f.batteryLevel)
  {
    var d := VehicleData(f, now);
    VehiclePatch(None, Some(d.name), Some(d.licensePlate), d.model, Some(d.status),
                 Some(d.ignition), Some(d.currentSpeed), Some(d.speedLimit), Some(d.heading),
                 Some(d.latitude), Some(d.longitude), Some(d.accuracy), Some(d.lastUpdate),
                 JsonBattery(f.batteryLevel))
  }

  /** What an update from the form does to the vehicle: every field takes
      the submitted value, except that a blank model keeps the stored model,
      a blank battery input keeps the stored level, and a battery text that
      is `NaN` clears it. */
  lemma UpdateFromForm(v: Vehicle, f: FormData, now: string)
    ensures var w, d := PatchVehicle(v, UpdateBody(f, now)), VehicleData(f, now);
      && w.id == v.id && w.name == d.name && w.licensePlate == d.licensePlate
      && w.status == d.status && w.ignition == d.ignition
      && w.currentSpeed == d.currentSpeed && w.speedLimit == d.speedLimit
      && w.heading == d.heading && w.latitude == d.latitude && w.longitude == d.longitude
      && w.accuracy == d.accuracy && w.lastUpdate == now
      && w.model == (if d.model.Some? then d.model else v.model)
    ensures var w := PatchVehicle(v, UpdateBody(f, now));
      && (f.batteryLevel == NoLevel ==> w.batteryLevel == v.batteryLevel)
      && (f.batteryLevel == NotANumber ==> w.batteryLevel.None?)
      && (f.batteryLevel.Level? ==> w.batteryLevel == Some(f.batteryLevel.n))
  {
  }

  /** The stored row after an update from the form: its battery level is
      kept for a blank input, set for a number and cleared (NULL) for a
      text that is `NaN`. */
  lemma StoredBatteryAfterUpdate(row: VehicleRow, f: FormData, now: string, stamp: string)
    ensures var after := ApplyVehicleUpdate(row, BuildVehicleUpdate(UpdateBody(f, now), stamp));
      && (f.batteryLevel == NoLevel ==> after.battery_level == row.battery_level)
      && (f.batteryLevel == NotANumber ==> after.battery_level.None?)
      && (f.batteryLevel.Level? ==> after.battery_level == Some(f.batteryLevel.n))
  {
    UpdateThenReadVehicle(row, UpdateBody(f, now), stamp);
    UpdateFromForm(DbVehicleToVehicle(row), f, now);
  }

  /** The form filled from vehicle data that was sent (what editing the
      just-created vehicle shows). */
  function FormOf(d: InsertVehicle): FormData {
    FormData(d.name, d.licensePlate, d.model.GetOr(""), d.status, d.ignition, d.currentSpeed,
             d.speedLimit, d.heading, d.latitude, d.longitude, d.accuracy, EntryOf(d.batteryLevel))
  }

  /** Normalisation is idempotent: submitting again the data a submission
      sent sends the same data (with the new clock). */
  lemma {:induction false} NormaliseIdempotent(d: InsertVehicle, now: string)
    requires Normalised(d)
    ensures VehicleData(FormOf(d), now) == d.(lastUpdate := now)
  {
    UpperOfUpper(d.licensePlate);
    if d.model.Some? {
      assert !AllSpace(d.model.value) by {
        assert !IsSpace(d.model.value[0]);
      }
    }
  }

  /** Opening a stored, normalised vehicle for editing and submitting it
      unchanged updates that vehicle with the same data, apart from the
      clock. */
  lemma EditThenSubmit(v: Vehicle, now: string)
    requires Normalised(VehicleWithoutId(v))
    ensures Submit(EditForm(v), Some(v), now) == Update(v.id, VehicleWithoutId(v).(lastUpdate := now))
  {
    NormaliseIdempotent(VehicleWithoutId(v), now);
    assert EditForm(v) == FormOf(VehicleWithoutId(v));
    assert !AllSpace(v.name) by { assert !IsSpace(v.name[0]); }
    assert !AllSpace(v.licensePlate) by { assert !IsSpace(v.licensePlate[0]); }
  }

  /** Opening a stored, normalised vehicle for editing and sending the
      update unchanged leaves the vehicle as it was, apart from the clock;
      in particular its battery level, present or not, survives. */
  lemma EditThenUpdateKeepsVehicle(v: Vehicle, now: string)
    requires Normalised(VehicleWithoutId(v))
    ensures PatchVehicle(v, UpdateBody(EditForm(v), now)) == v.(lastUpdate := now)
  {
    NormaliseIdempotent(VehicleWithoutId(v), now);
    assert EditForm(v) == FormOf(VehicleWithoutId(v));
    StoredLevelRoundTrip(v.batteryLevel);
  }

  /** Typing the plate already upper-cases it; the submitted plate is the
      same as if it had been typed as is. */
  lemma PlateInputDoesNotChangeSubmission(f: FormData, text: string, now: string)
    ensures VehicleData(EnterPlate(f, text), now) == VehicleData(f.(licensePlate := text), now)
  {
    TrimUpper(text);
    UpperIdempotent(Trim(text));
  }
}
