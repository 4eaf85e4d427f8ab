/** The marker of a vehicle on the map: the icon `createVehicleIcon` builds
    (its size, anchors, colours, rings and the geometry of the drawn
    circles and heading arrow) and the facts its popup shows. The SVG text
    itself is not built; the numbers written into it are. */
module VehicleMarker {
  import opened Wrappers
  import opened Schema
  import opened FleetLists
  import opened DetailPanel
  import opened FleetMap

  datatype Palette = Palette(main: string, ring: string)

  /** The `colors` table: stopped and idle share the amber palette. */
  function MarkerColors(s: VehicleStatus): Palette {
    match s
    case Moving => Palette("#22c55e", "#86efac")
    case Stopped => Palette("#f59e0b", "#fcd34d")
    case Idle => Palette("#f59e0b", "#fcd34d")
    case Offline => Palette("#94a3b8", "#cbd5e1")
  }

  /** The numbers and colours of a marker icon. `pulse` is the animated ring
      of a moving vehicle, `selectionRing` the dashed ring of the selected
      one; the radii are those of the drawn circles, and `arrowTip` is how
      far above the icon's centre the heading arrow ends. */
  datatype Icon = Icon(
    size: int,
    anchorX: int,
    anchorY: int,
    popupX: int,
    popupY: int,
    rotation: int,
    palette: Palette,
    ringOpacity: string,
    pulse: bool,
    selectionRing: bool,
    outerRadius: int,
    pulseLow: int,
    pulseHigh: int,
    bodyRadius: int,
    arrowTip: int)

  /** `createVehicleIcon(heading, status, isSelected)`. */
  function MarkerIcon(heading: int, s: VehicleStatus, selected: bool): (icon: Icon)
    ensures icon.size == (if selected then 48 else 40)
    ensures 2 * icon.anchorX == icon.size && icon.anchorX == icon.anchorY
    ensures icon.popupX == 0 && icon.popupY == 4 - icon.anchorY
    ensures icon.rotation == heading
    ensures icon.palette == MarkerColors(s)
    ensures icon.pulse <==> s == Moving
    ensures icon.ringOpacity == "0.4" <==> s == Moving
    ensures icon.ringOpacity != "0.4" ==> icon.ringOpacity == "0.2"
    ensures icon.selectionRing <==> selected
    // every drawn circle and the arrow stay inside the square icon
    ensures 0 < icon.bodyRadius == icon.pulseLow < icon.outerRadius < icon.pulseHigh < icon.anchorX
    ensures 0 < icon.arrowTip < icon.bodyRadius
  {
    var size := if selected then 48 else 40;
    var half := size / 2;
    Icon(size, half, half, 0, -half + 4, heading, MarkerColors(s),
         if s == Moving then "0.4" else "0.2",
         s == Moving, selected,
         half - 4, half - 8, half - 2, half - 8, half - (size / 4 + 2))
  }

  /** A stopped and an idle vehicle get the same icon. */
  lemma StoppedAndIdleLookAlike(heading: int, selected: bool)
    ensures MarkerIcon(heading, Stopped, selected) == MarkerIcon(heading, Idle, selected)
  {
  }

  /** Selecting a vehicle only enlarges its icon and adds the dashed ring:
      colours, rotation and pulse stay. */
  lemma SelectionKeepsLook(heading: int, s: VehicleStatus)
    ensures var a, b := MarkerIcon(heading, s, false), MarkerIcon(heading, s, true);
            a.palette == b.palette && a.rotation == b.rotation && a.pulse == b.pulse
            && a.ringOpacity == b.ringOpacity && a.size < b.size && !a.selectionRing && b.selectionRing
  {
  }

  // ---------------------------------------------------------------------------
  // The popup
  // ---------------------------------------------------------------------------

  datatype StatusInfo = StatusInfo(title: string, color: string)

  /** The `statusLabels` table of the popup. */
  function PopupStatus(s: VehicleStatus): StatusInfo {
    match s
    case Moving => StatusInfo("Em Movimento", "#22c55e")
    case Stopped => StatusInfo("Parado", "#f59e0b")
    case Idle => StatusInfo("Ocioso", "#f59e0b")
    case Offline => StatusInfo("Offline", "#94a3b8")
  }

  /** The popup names a status as the detail panel does, in the main colour
      of the marker's icon. */
  lemma PopupAgreesWithIconAndPanel(s: VehicleStatus)
    ensures PopupStatus(s).title == StatusConfig(s).title
    ensures PopupStatus(s).color == MarkerColors(s).main
  {
    match s
    case Moving =>
    case Stopped =>
    case Idle =>
    case Offline =>
  }

  /** The red warning of the popup: the vehicle runs faster than its
      limit. */
  predicate PopupSpeedWarning(v: Vehicle) {
    v.currentSpeed > v.speedLimit
  }

  /** The popup, the map's info card and the detail panel warn about speed
      for the same vehicles, and these are the vehicles the sidebar lists
      under its "alerts" key; with nothing selected the card shows no
      warning. */
  lemma SpeedWarningsAgree(vs: seq<Vehicle>, v: Vehicle)
    requires v in vs
    ensures PopupSpeedWarning(v) <==> CardSpeedAlert(Some(v))
    ensures PopupSpeedWarning(v) <==> OverLimit(v)
    ensures PopupSpeedWarning(v) <==> v in SidebarFilter(vs, "", AlertsKey)
    ensures !CardSpeedAlert(None)
  {
    SpeedAlertMatchesAlertsList(vs, v);
  }
}
