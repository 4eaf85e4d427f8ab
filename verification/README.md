# Fleet dashboard — a Dafny model of its pure computations

The fleet dashboard tracks vehicles on a map. It also keeps geofences and
alerts as records in a hosted database and reports speed violations. It has
no telemetry or geofence engine. The server forwards CRUD calls to the
database, and the browser renders lists, a map and forms. What the program
computes for itself is a set of small, total functions over plain records.
This project models those functions and proves what they promise:

- **Speed statistics** (`getSpeedStats`):
  - grouping violations by vehicle (count, summed excess, latest timestamp, first-seen name);
  - grouping them by day key and sorting the days;
  - ranking vehicles by number of violations and keeping the top ten;
  - the overall average excess speed.
- **Storage mapping:**
  - the row ↔ record mappers for vehicles, geofences, alerts and speed violations;
  - the column defaults the table declarations give an insert;
  - the partial update `updateVehicle` builds.
- **The vehicle form:**
  - default contents and numeric inputs with their `|| fallback`;
  - the form filled for editing;
  - `handleSubmit`: validation, normalisation, and the choice between create and update.
- **The two fleet lists:** the vehicles-page table and the sidebar, with their search, filters and counters.
- **The small classifiers:**
  - the three "time since update" formats;
  - the strict over-speed test;
  - the detail panel's alerts, tab badge, status style, alert icon and colour;
  - the header's unread badge with its "99+" cap, active-item matching and test ids;
  - the map's geofence overlays, active filter, trail condition and info-card label;
  - the marker icon's size, anchors, colours and rings.
- **The shared data model:** closed enumerations with their names, records, and insert shapes that omit `id`. It also covers validation of untyped geofences and rules.

Modules follow the program's files:

- `Schema` covers `shared/schema.ts`.
- `Storage` and `SpeedStats` cover `server/supabase-storage.ts`.
- `VehicleForm` and `FleetLists` cover the vehicles page and `vehicle-list.tsx`.
- `Elapsed`, `DetailPanel`, `Navigation`, `FleetMap` and `VehicleMarker` cover the remaining components.
- `Text`, `Seqs` and `Wrappers` hold the string, sequence and `Option` helpers these share.

Modelling choices:

- A timestamp is a string. The one place that compares timestamps as dates, the latest violation of a vehicle, takes the parse as a parameter `epochOf: string -> int`.
- The day key is the text before the first `T`. `localeCompare` is taken as code-point (lexicographic) order, which agrees with it on these keys.
- `toLowerCase`/`toUpperCase` are ASCII case folding. `trim` removes the ECMAScript white-space and line-terminator characters.
- A `parseInt`/`parseFloat` result is an `Option`, with `None` for `NaN`. The `|| fallback` of an input applies to `None` and to `0`.
- The battery input has no fallback, so its `NaN` is kept apart: the form holds no level, a number, or `NaN` (`BatteryEntry`). The request body is the JSON form of the data. JSON drops an undefined key and writes `NaN` as `null`, so an update leaves the stored level alone for a blank input and clears it for a `NaN`, provided the update route passes the body on to `updateVehicle` without validating it. The typed record (`VehicleData`) holds no level for `NaN`, since it cannot hold `NaN`.
- A JavaScript `Map` is a sequence in first-insertion order. Averages are exact `real` divisions.
- `Array.prototype.sort` is stable, so the ranking keeps first-seen order among equal counts.
- The "seconds since" of the age formats is an integer parameter, and so is the clock text of a submission.

## Model

| member | source | states |
|---|---|---|
| Text.Trim | client/src/pages/vehicles.tsx:196-216 | `trim`: the result is a slice of the input with only white space before and after it, has no white space at either end, is empty exactly when the input is all white space, and leaves an already trimmed text unchanged |
| Text.TrimIsTheTrimmedSlice | client/src/pages/vehicles.tsx:196-216 | any non-empty slice with only white space around it and none at its ends is the trimmed text, so the trimmed text is unique |
| Text.TrimIdempotent | client/src/pages/vehicles.tsx:214-216 | trimming a trimmed text changes nothing |
| Text.TrimUpper | client/src/pages/vehicles.tsx:215 | trimming and upper-casing commute, so trimming before or after upper-casing the plate gives the same plate |
| Text.UpperIdempotent | client/src/pages/vehicles.tsx:572 | upper-casing twice is upper-casing once |
| Text.UpperOfTrimmedIsTrimmed | client/src/pages/vehicles.tsx:215 | upper-casing a trimmed text leaves it trimmed |
| Text.ContainsAt | client/src/components/vehicle-list.tsx:42-43 | `includes` holds whenever the pattern occurs at some offset |
| Text.ContainsOccurs | client/src/components/vehicle-list.tsx:42-43 | `includes` holds only when the pattern occurs at some offset |
| Text.ContainsIffOccurs | client/src/components/vehicle-list.tsx:42-43 | `includes` holds exactly when the pattern occurs at some offset |
| Text.BeforeFirst | server/supabase-storage.ts:686 | `split("T")[0]`: a prefix of the timestamp without any `T`, followed in the timestamp by the first `T` when shorter than it |
| Text.LexTotal | server/supabase-storage.ts:711 | the date order used to sort the days is total |
| Seqs.FilterTwice | client/src/components/vehicle-detail-panel.tsx:24-25 | filtering a filtered list is filtering once with both conditions |
| Seqs.FilterStricterCount | client/src/App.tsx:36 | a stricter filter keeps no more elements |
| Seqs.FilterLengthIsCount | client/src/App.tsx:36 | `filter(...).length` is the number of positions whose element satisfies the condition |
| Seqs.FilterMultiset | client/src/components/vehicle-list.tsx:41-59 | `filter` keeps every copy of an element that satisfies the condition and no copy of one that does not |
| Schema.ParseStatus | shared/schema.ts:209 | exactly the four names moving, stopped, idle, offline are accepted, each as the status it names |
| Schema.ParseIgnition | shared/schema.ts:210 | exactly "on" and "off" are accepted |
| Schema.ParseAlertType | shared/schema.ts:308 | exactly the five alert type names are accepted |
| Schema.ParsePriority | shared/schema.ts:309 | exactly critical, warning and info are accepted |
| Schema.ParseGeofenceType | shared/schema.ts:284 | exactly circle and polygon are accepted |
| Schema.ParseRuleType | shared/schema.ts:270 | exactly entry, exit, dwell and time_violation are accepted |
| Schema.EnumNamesRoundTrip | shared/schema.ts:197-202 | every enumeration value's name parses back to that value |
| Schema.VehicleWithId | shared/schema.ts:223 | giving a vehicle insert shape an id yields a vehicle whose insert shape is the one given |
| Schema.GeofenceWithId | shared/schema.ts:303 | the same for geofences |
| Schema.AlertWithId | shared/schema.ts:324 | the same for alerts |
| Schema.InsertShapesOmitOnlyId | shared/schema.ts:204-325 | a vehicle, geofence or alert is exactly its insert shape plus its id |
| Schema.ParseRule | shared/schema.ts:269-276 | a rule is accepted exactly when its type name is one of the four; every optional parameter is carried over unconstrained |
| Schema.ParseRules | shared/schema.ts:295 | a rule list is accepted exactly when every rule is, and then element by element |
| Schema.ParseGeofence | shared/schema.ts:280-299 | a geofence is accepted exactly when its type name and all its rules are; it then holds the parsed rules in order, and id, name, description, active flag, centre, radius, points, vehicle ids, last trigger and colour as given |
| Schema.ShapeFieldsDoNotAffectAcceptance | shared/schema.ts:284-294 | whether a geofence is accepted never depends on its centre, radius or points |
| Storage.StoreVehicle | shared/schema.ts:18-36 | an inserted row takes status offline, ignition off, speed 0, limit 80, heading 0, accuracy 5 and last update now for each column left out, and the given value otherwise (a timestamp column keeps the text given; see Left out) |
| Storage.CreateThenReadVehicle | server/supabase-storage.ts:254-269 | creating a vehicle and mapping the stored row back returns the vehicle sent, with its new id, up to the database's rendering of the last-update timestamp |
| Storage.DbVehicleToVehicle | server/supabase-storage.ts:22-39 | reading a vehicle row loses only its two timestamps: the row is the one the read vehicle maps back to under the row's own timestamps |
| Storage.VehicleToDbInsert | server/supabase-storage.ts:44-60 | inserting the mapped values under any id and time and reading the row back gives the submitted vehicle with that id |
| Storage.ReadThenStoreVehicle | server/supabase-storage.ts:22-62 | `vehicleToDbInsert` undoes `dbVehicleToVehicle`: storing what was read reproduces the row, apart from its timestamps |
| Storage.BuildVehicleUpdate | server/supabase-storage.ts:276-290 | the update payload holds exactly the patch's present fields under their column names, plus `updated_at`; id and `created_at` are never set; a `null` battery level is passed on, so it writes NULL |
| Storage.UpdateThenReadVehicle | server/supabase-storage.ts:272-290 | applying the payload and reading back yields the old vehicle with the patch's fields replaced; id and `created_at` stay, and `updated_at` becomes now |
| Storage.EmptyPatchOnlyTouchesUpdatedAt | server/supabase-storage.ts:290 | an empty patch changes only `updated_at` |
| Storage.StoreGeofence | shared/schema.ts:38-60 | an inserted geofence defaults to active with no rules and no vehicles; the shape columns are stored as given |
| Storage.CreateThenReadGeofence | server/supabase-storage.ts:371-385 | creating a geofence and reading it back returns the geofence sent, with its new id, up to the database's rendering of the last-triggered timestamp |
| Storage.DbGeofenceToGeofence | server/supabase-storage.ts:65-80 | reading a geofence row loses only its two timestamps |
| Storage.GeofenceToDbInsert | server/supabase-storage.ts:85-99 | inserting the mapped values under any id and time and reading the row back gives the submitted geofence with that id |
| Storage.ReadThenStoreGeofence | server/supabase-storage.ts:65-102 | `geofenceToDbInsert` undoes `dbGeofenceToGeofence` on the stored columns |
| Storage.StoreAlert | shared/schema.ts:63-78 | a new alert defaults to unread and to the current time |
| Storage.CreateThenReadAlert | server/supabase-storage.ts:475-489 | creating an alert and reading it back returns the alert sent, with its new id, up to the database's rendering of the alert timestamp |
| Storage.DbAlertToAlert | server/supabase-storage.ts:104-120 | reading an alert row loses only its creation time |
| Storage.AlertToDbInsert | server/supabase-storage.ts:125-140 | inserting the mapped values under any id and time and reading the row back gives the submitted alert with that id |
| Storage.ReadThenStoreAlert | server/supabase-storage.ts:104-142 | `alertToDbInsert` undoes `dbAlertToAlert` on the stored columns |
| Storage.DbSpeedViolationToSpeedViolation | server/supabase-storage.ts:145-160 | reading a violation row loses only its creation time |
| Storage.SpeedViolationMappingLosesOnlyCreatedAt | server/supabase-storage.ts:145-160 | the violation mapper loses only the creation time: rows with the same creation time map to equal violations exactly when they are equal |
| SpeedStats.ViolationsOfMembers | server/supabase-storage.ts:665-681 | the reference list of a vehicle's violations holds exactly the input violations with that vehicle id |
| SpeedStats.LatestSnoc | server/supabase-storage.ts:670-672 | replacing the latest timestamp only on a strictly later one keeps the first-seen latest timestamp of the vehicle's violations |
| SpeedStats.RecordKeepsFaithful | server/supabase-storage.ts:665-681 | one step of the per-vehicle grouping keeps every entry equal to its reference (count, summed excess, first name, latest timestamp), ids distinct and equal to the violators, and counts summing to the violations seen |
| SpeedStats.TallyByVehicle | server/supabase-storage.ts:660-681 | the per-vehicle grouping: one entry per distinct vehicle id, each with that vehicle's violation count, summed excess, first-seen name and latest timestamp; the counts sum to the number of violations |
| SpeedStats.TallySize | server/supabase-storage.ts:704 | the grouping has as many entries as there are distinct vehicle ids |
| SpeedStats.TallyCountsPositive | server/supabase-storage.ts:674-675 | every grouped vehicle has at least one violation, so its average divides by a positive count |
| SpeedStats.DayKey | server/supabase-storage.ts:686 | the day key is the longest prefix of the timestamp without a `T`: it is followed by a `T` or is the whole timestamp |
| SpeedStats.CountDayKeepsFaithful | server/supabase-storage.ts:685-688 | one step of the per-day count keeps each date's count equal to its number of occurrences among the keys seen, dates distinct, and the counts summing to the keys seen |
| SpeedStats.TallyByDay | server/supabase-storage.ts:684-688 | the per-day count: one entry per distinct day key, its count the number of occurrences, counts summing to the number of keys |
| SpeedStats.SortByDate | server/supabase-storage.ts:709-711 | the day list sorted by date is a permutation of it with the same total |
| SpeedStats.StrictlyAscending | server/supabase-storage.ts:709-711 | a sorted list of distinct dates is strictly ascending |
| SpeedStats.ToViolator | server/supabase-storage.ts:692-698 | a ranking entry carries the vehicle's id, name, count and latest timestamp, and its average times its count is its summed excess |
| SpeedStats.InsertRanked | server/supabase-storage.ts:699 | inserting into a ranked list keeps it ranked and adds exactly that entry |
| SpeedStats.RankByViolations | server/supabase-storage.ts:699 | sorting by descending count yields a ranked permutation of the entries |
| SpeedStats.RankedIsNonIncreasing | server/supabase-storage.ts:699 | in a ranked list every earlier entry has at least as many violations as every later one |
| SpeedStats.PrefixDominates | server/supabase-storage.ts:699-700 | every entry cut off by `slice` has no more violations than any entry kept |
| SpeedStats.TopViolators | server/supabase-storage.ts:691-700 | the top list has `min(n, 10)` entries, all taken from the candidates, in non-increasing order, and no candidate left out outranks one kept |
| SpeedStats.ViolationsByDay | server/supabase-storage.ts:684-711 | `violationsByDay` sums to the number of violations, is strictly ascending by date, gives each date its number of occurrences (at least 1), and lists the day key of every violation |
| SpeedStats.OmittedDominated | server/supabase-storage.ts:699-700 | a violating vehicle missing from the top list has no more violations than any vehicle in it |
| SpeedStats.CandidatesDistinct | server/supabase-storage.ts:691-698 | the entries built from the per-vehicle map, one per map key, name each vehicle at most once |
| SpeedStats.SubRankingDistinct | server/supabase-storage.ts:699-700 | sorting and slicing entries with distinct vehicles cannot repeat a vehicle |
| SpeedStats.Ranking | server/supabase-storage.ts:690-700 | `topViolators` holds `min(vehicles, 10)` entries in non-increasing order, no vehicle twice; each agrees with its vehicle's violations (count, average excess, the first violation's vehicle name, latest timestamp), and every vehicle left out has no more violations than any listed |
| SpeedStats.AverageExcess | server/supabase-storage.ts:705-708 | the average excess is 0 for no violations, and otherwise times the number of violations equals their summed excess |
| SpeedStats.GetSpeedStats | server/supabase-storage.ts:656-714 | the total is the number of violations and the vehicle count is the number of distinct vehicle ids; the day list sums to the total; the top list has at most 10 entries, no more than the vehicles, and no vehicle twice |
| VehicleForm.ParsedOr | client/src/pages/vehicles.tsx:634 | a non-zero parse is kept; a failed parse or 0 gives the fallback |
| VehicleForm.ParsedOrNeverZero | client/src/pages/vehicles.tsx:646 | with a non-zero fallback the input never yields 0, and yields either the parse or the fallback |
| VehicleForm.EnterNumber | client/src/pages/vehicles.tsx:634-700 | each integer input changes only its own field, with fallbacks 0, 80, 0 and 5 |
| VehicleForm.InputsKeepLimitAndAccuracy | client/src/pages/vehicles.tsx:646-700 | starting from the default form, no sequence of inputs leaves the speed limit or the accuracy at 0 |
| VehicleForm.EnterCoordinate | client/src/pages/vehicles.tsx:663-674 | a coordinate input takes the parsed number, or 0 when the parse fails |
| VehicleForm.EnterBattery | client/src/pages/vehicles.tsx:712-715 | an empty battery input leaves no level; any other text sets the parsed number, or `NaN` exactly when the parse fails |
| VehicleForm.JsonBattery | client/src/pages/vehicles.tsx:130-133 | in the JSON body the battery key is dropped exactly for no level, `null` exactly for `NaN`, and the number otherwise |
| VehicleForm.StoredLevelRoundTrip | client/src/pages/vehicles.tsx:188 | a stored level shown in the edit form comes back as the same level, and is sent as that number or not at all |
| VehicleForm.EnterPlate | client/src/pages/vehicles.tsx:572 | the plate input stores the upper-cased text and changes nothing else |
| VehicleForm.EditForm | client/src/pages/vehicles.tsx:177-193 | the edit form copies every field of the vehicle; it shows an absent model as the empty text and the stored battery level as a level entry, never `NaN` |
| VehicleForm.VehicleData | client/src/pages/vehicles.tsx:213-227 | the data sent has the name trimmed and the plate trimmed and upper-cased; the model is absent exactly when blank, otherwise trimmed; the clock is the last update; the battery level is present exactly when the form holds a number, and then it is that number; every other field is as entered |
| VehicleForm.Submit | client/src/pages/vehicles.tsx:195-234 | a blank name is refused first, then a blank plate; otherwise normalised data is sent, as an update of the edited vehicle's id exactly when one is being edited, else as a create |
| VehicleForm.NormaliseIdempotent | client/src/pages/vehicles.tsx:213-227 | normalising already normalised data changes nothing but the clock |
| VehicleForm.EditThenSubmit | client/src/pages/vehicles.tsx:177-234 | opening a normalised vehicle and submitting it unchanged updates that vehicle with the same data and a new clock |
| VehicleForm.UpdateBody | client/src/pages/vehicles.tsx:130-133 | the update body never carries the id, carries the clock as last update, drops the model exactly when it is blank, and carries the battery key as JSON writes it |
| VehicleForm.UpdateFromForm | client/src/pages/vehicles.tsx:213-230 | an update from the form gives every field its submitted value, but a blank model keeps the stored model, a blank battery input keeps the stored level and a `NaN` level clears it |
| VehicleForm.StoredBatteryAfterUpdate | server/supabase-storage.ts:289 | after an update from the form the stored battery level is kept for a blank input, set for a number and set to NULL for `NaN` |
| VehicleForm.EditThenUpdateKeepsVehicle | client/src/pages/vehicles.tsx:176-230 | opening a normalised vehicle and sending its update unchanged leaves the vehicle as it was apart from the clock, its battery level included |
| VehicleForm.PlateInputDoesNotChangeSubmission | client/src/pages/vehicles.tsx:572 | upper-casing at input time does not change what a submission sends |
| FleetLists.EmptyTermMatches | client/src/components/vehicle-list.tsx:42-43 | every text includes the empty search term, whatever its case |
| FleetLists.PageFilter | client/src/pages/vehicles.tsx:236-245 | the page keeps a vehicle exactly when name, plate or model matches the search case-insensitively and the status select admits it; order is kept, and every kept vehicle appears as often as in the fleet |
| FleetLists.PageFilterShowsAllByDefault | client/src/pages/vehicles.tsx:236-245 | an empty search with all statuses shows the whole fleet |
| FleetLists.PageCounters | client/src/pages/vehicles.tsx:257-263 | each status counter is the length of the list that status shows, and the four counters sum to the total |
| FleetLists.StatusCountsPartition | client/src/pages/vehicles.tsx:257-263 | the four status counts partition the fleet |
| FleetLists.SidebarFilter | client/src/components/vehicle-list.tsx:41-59 | the sidebar keeps a vehicle exactly when name or plate matches and the filter key admits it; order is kept, and every kept vehicle appears as often as in the fleet |
| FleetLists.SearchMissHidesEverywhere | client/src/components/vehicle-list.tsx:42-45 | a vehicle whose name and plate miss the search is hidden under every key, whatever its model |
| FleetLists.SidebarCounters | client/src/components/vehicle-list.tsx:25-39 | the count on each key is the length of the list that key shows with an empty search, and moving, stopped and offline sum to the total |
| FleetLists.KeyCountIsListLength | client/src/components/vehicle-list.tsx:33-59 | a key's counter equals the length of its unsearched list |
| FleetLists.SidebarCountsPartition | client/src/components/vehicle-list.tsx:25-31 | moving, stopped-or-idle and offline partition the fleet |
| FleetLists.StoppedKeyCountsIdle | client/src/components/vehicle-list.tsx:28 | the sidebar's stopped count is the page's stopped count plus its idle count |
| Elapsed.ShortAge | client/src/components/vehicle-list.tsx:61-69 | below 60 seconds the age is in seconds; below an hour it is in whole minutes (1 to 59, rounded down); from an hour on it is in whole hours, with no day bucket |
| Elapsed.DetailAge | client/src/components/vehicle-detail-panel.tsx:27-36 | the detail panel's age has seconds, minutes, whole hours (1 to 23) below a day, and a calendar date exactly from one day on |
| Elapsed.DetailAgreesBelowOneDay | client/src/components/vehicle-marker.tsx:67-75 | the marker and sidebar age agrees with the detail panel's below one day; from one day on it shows 24 hours or more |
| Elapsed.ShortAgeMonotone | client/src/components/vehicle-marker.tsx:67-75 | a longer elapsed time never shows a finer bucket, nor a smaller number in the same bucket |
| DetailPanel.VehicleAlerts | client/src/components/vehicle-detail-panel.tsx:24 | the panel lists exactly the alerts of the selected vehicle, in their order and with every copy |
| DetailPanel.UnreadAlerts | client/src/components/vehicle-detail-panel.tsx:25 | the unread alerts are exactly the vehicle's alerts not yet read; no more than its alerts |
| DetailPanel.TabBadge | client/src/components/vehicle-detail-panel.tsx:137-139 | the alerts tab shows a number exactly when the vehicle has an unread alert, and the number is the unread count |
| DetailPanel.StatusConfigDistinguishes | client/src/components/vehicle-detail-panel.tsx:38-69 | stopped and idle are styled alike except for the label; every status has its own label; no other two statuses share a colour |
| DetailPanel.AlertIconOf | client/src/components/vehicle-detail-panel.tsx:71-79 | a gauge exactly for speed alerts, a shield exactly for the three geofence alerts, a bell for the rest |
| DetailPanel.AlertColor | client/src/components/vehicle-detail-panel.tsx:81-87 | red for critical, amber for warning, and the default colour for every other priority |
| DetailPanel.AlertColorInjective | client/src/components/vehicle-detail-panel.tsx:81-87 | distinct priorities get distinct colours |
| DetailPanel.SpeedAlertMatchesAlertsList | client/src/components/vehicle-detail-panel.tsx:90 | the panel's speed warning is strict and holds for exactly the vehicles the sidebar lists under "alerts" |
| Navigation.IsActiveByPrefix | client/src/App.tsx:69-70 | the dashboard item is active only on "/"; any other item is active exactly when its path is a prefix of the location |
| Navigation.AtMostOneActive | client/src/App.tsx:37-44 | for any location at most one navigation item is active |
| Navigation.SubpageHighlightsItem | client/src/App.tsx:69-70 | a location below an item's path activates that item |
| Navigation.UnreadCount | client/src/App.tsx:36 | the unread count is the number of positions in the alert list whose alert has `read` false (counted by the independent recursive `Seqs.CountWhere`); it is 0 exactly when every alert is read and never exceeds the number of alerts |
| Navigation.HeaderCountCoversPanel | client/src/App.tsx:36 | the header's unread count is never below the detail panel's count for any vehicle |
| Navigation.AlertsBadge | client/src/App.tsx:43 | the alerts item has a badge exactly when some alert is unread, and then it shows the unread count |
| Navigation.BadgeLabel | client/src/App.tsx:97 | the badge reads "99+" exactly past 99, and the exact count otherwise |
| Navigation.RemoveFirst | client/src/App.tsx:85 | `replace("/", "")` removes the first slash only, if there is one |
| Navigation.RemoveFirstSplits | client/src/App.tsx:85 | the character removed is the first occurrence: the result is the text before it followed by the text after it |
| Navigation.NavTestId | client/src/App.tsx:85 | the root item's test id is "nav-dashboard"; any other is "nav-" and the path without its leading slash |
| Navigation.NavTestIdsDistinct | client/src/App.tsx:37-44 | the six items carry six distinct test ids |
| FleetMap.OverlayColor | client/src/components/fleet-map.tsx:98 | a geofence's own non-empty colour is used; otherwise the default blue |
| FleetMap.GeofenceOverlay | client/src/components/fleet-map.tsx:97-134 | a circle is drawn exactly for type circle with a centre and a non-zero radius, a polygon exactly for type polygon with at least 3 points, nothing otherwise; the drawn shape uses the geofence's data and colour |
| FleetMap.AcceptedCircleWithoutCenterIsNotDrawn | client/src/components/fleet-map.tsx:101 | a circle geofence without a centre passes the schema yet is never drawn |
| FleetMap.ActiveGeofences | client/src/components/fleet-map.tsx:208 | exactly the active geofences are considered, in their order and with every copy |
| FleetMap.DrawnOverlays | client/src/components/fleet-map.tsx:208-210 | the map draws at most one overlay per geofence |
| FleetMap.DrawnOverlaysExactly | client/src/components/fleet-map.tsx:208-210 | every active, drawable geofence is on the map, and everything on the map comes from one |
| FleetMap.DrawnAtMostActive | client/src/components/fleet-map.tsx:208-210 | the map draws no more overlays than there are active geofences |
| FleetMap.DrawnTrail | client/src/components/fleet-map.tsx:212-223 | the trail is drawn exactly when there is one with at least two points; the line runs through every point in the order given, blue and 4 wide |
| FleetMap.TrailGrows | client/src/components/fleet-map.tsx:212 | a point added to a trail of one point or more gives a drawn line ending at that point; no trail, an empty one or a single point is not drawn |
| FleetMap.InfoLabel | client/src/components/fleet-map.tsx:295-296 | the info card reads "Movimento" exactly for moving and "Parado" exactly for stopped; idle and offline both read "Offline" |
| VehicleMarker.MarkerIcon | client/src/components/vehicle-marker.tsx:5-55 | the icon is 48 wide when selected and 40 otherwise, anchored at its centre, with its popup 4 below the top; it carries the status palette and heading; the ring opacity is "0.4" and the pulse is present exactly when moving; the dashed ring appears exactly when selected; every circle and the arrow stay inside the icon |
| VehicleMarker.StoppedAndIdleLookAlike | client/src/components/vehicle-marker.tsx:6-11 | a stopped and an idle vehicle get the same icon |
| VehicleMarker.SelectionKeepsLook | client/src/components/vehicle-marker.tsx:14-15 | selecting only enlarges the icon and adds the dashed ring |
| VehicleMarker.PopupAgreesWithIconAndPanel | client/src/components/vehicle-marker.tsx:77-82 | the popup labels each status as the detail panel does, in the icon's main colour |
| VehicleMarker.SpeedWarningsAgree | client/src/components/vehicle-marker.tsx:128 | the popup's speed warning, the map info card's `hasSpeedAlert` (fleet-map.tsx, line 190) and the detail panel's warning hold for the same vehicles, exactly those the sidebar lists under "alerts"; with no vehicle selected the card shows none |

## Left out

- Database and network access: the hosted database client, its queries, errors and error messages. A fetched or stored row is an input, and inserts and updates are applied by pure functions over rows.
- The three-second polling loop and the change callbacks: these are timer and callback plumbing.
- Rendering: React components, hooks, toasts, dialogs, routing, Leaflet map control, SVG and markup text, and CSS classes beyond the values the decisions choose.
- Date parsing, the clock and locale formatting: elapsed seconds, the submission clock and timestamp order are parameters, and the calendar-date text is not built.
- The `Math.floor` of elapsed milliseconds: the elapsed seconds are taken as already whole.
- Timestamp rendering: the `timestamp with time zone` columns (`last_update`, `last_triggered`, the alert `timestamp`; shared/schema.ts:31,56,70) are taken to return the text sent. The database stores an instant and answers in its own format (`+00:00` for `Z`), so the create round trips hold up to that rendering.
- Collation: `localeCompare` is taken as code-point order. This agrees with locale collation on the uniform `YYYY-MM-DD` day keys it sorts, not on general text.
- Floating point: averages and coordinates are exact `real`s, with no rounding and no `-0`. Excess speeds, speeds and limits are integers, and so are the geofence rule parameters (`dwellTimeMinutes`, `toleranceSeconds`, kept in a JSON column where any number is accepted).
- Unicode case mapping: upper- and lower-casing fold ASCII letters only.
- `parseInt`/`parseFloat` text parsing: only the parse's outcome and the fallback rule are modelled.
- `getSpeedViolations`' date-range query and its descending order: the violation list is an input in the order given.
- What the server does with a create request whose battery level is `null`: the routes that would validate the body are not part of this model, and `apiRequest` (which writes the JSON body) is not part of it either.
- `updateGeofence`, `updateAlert` and the trip, location-point and route-event mappings: they are outside the modelled core.
- Drizzle table declarations beyond their column defaults, the migration config, and the duplicated database types.
- Geofence evaluation, distances, point-in-polygon, dwell and time windows, and trip segmentation: the program implements none of them.
- VehicleForm.UpdateFromForm: the update route in server/routes is not part of this model; the body is taken to reach `updateVehicle` unvalidated. A route that validated it against `insertVehicleSchema` (`batteryLevel` optional number, shared/schema.ts:219-223) would refuse a `null` level rather than clear it.
- VehicleForm.StoredBatteryAfterUpdate: its `NaN` case rests on the same reading of the update route, which is not part of this model.
- FleetMap.DrawnOverlays: its own contract gives only the length bound; which geofences are drawn is stated by FleetMap.DrawnOverlaysExactly.
- SpeedStats.TopViolators: it states that the kept entries come from the candidates, in non-increasing order, and that no left-out candidate outranks a kept one. It does not state which of several equally ranked candidates the stable sort keeps.
- SpeedStats.GetSpeedStats: it states the average through `AverageExcess` rather than as a product, to keep real arithmetic out of the composite contract.
- Elapsed.ShortAge: it gives the bucket and its number, not the rendered text, which differs only in its suffix between the sidebar and the marker.
