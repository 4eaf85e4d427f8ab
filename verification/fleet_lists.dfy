/** The two fleet lists: the table of the vehicles page, filtered by a
    search term and a status, with its status counters; and the sidebar
    list, filtered by a search term and one of five filter keys, with the
    count shown on each key. */
module FleetLists {
  import opened Text
  import opened Seqs
  import opened Schema

  /** The strict over-speed test shared by the sidebar, the detail panel
      and the map marker: a speed equal to the limit is not an alert. */
  predicate OverLimit(v: Vehicle) {
    v.currentSpeed > v.speedLimit
  }

  /** `a.toLowerCase().includes(b.toLowerCase())`. */
  predicate MatchesText(a: string, term: string) {
    Contains(Lower(a), Lower(term))
  }

  lemma EmptyTermMatches(a: string)
    ensures MatchesText(a, "")
  {
    assert Lower("") == "";
    ContainsEmpty(Lower(a));
  }

  // ---------------------------------------------------------------------------
  // The vehicles page
  // ---------------------------------------------------------------------------

  /** The status select: every status, or one. */
  datatype StatusFilter = AllStatuses | OnlyStatus(status: VehicleStatus)

  /** The search of the vehicles page looks at name, plate and model. */
  predicate PageSearchHit(v: Vehicle, term: string) {
    || MatchesText(v.name, term)
    || MatchesText(v.licensePlate, term)
    || (v.model.Some? && MatchesText(v.model.value, term))
  }

  predicate PageKeeps(v: Vehicle, term: string, filter: StatusFilter) {
    PageSearchHit(v, term) && (filter.AllStatuses? || v.status == filter.status)
  }

  /** `filteredVehicles` of the vehicles page: the vehicles that match the
      search and the status select, in their order. */
  function PageFilter(vs: seq<Vehicle>, term: string, filter: StatusFilter): (r: seq<Vehicle>)
    ensures forall v :: v in r <==> v in vs && PageSearchHit(v, term)
                                    && (filter.AllStatuses? || v.status == filter.status)
    ensures IsSubsequence(r, vs)
    ensures forall v :: multiset(r)[v] == if PageKeeps(v, term, filter) then multiset(vs)[v] else 0
  {
    FilterIsSubsequence(vs, v => PageKeeps(v, term, filter));
    FilterMultiset(vs, v => PageKeeps(v, term, filter));
    Filter(vs, v => PageKeeps(v, term, filter))
  }

  /** An empty search with every status selected shows the whole fleet. */
  lemma PageFilterShowsAllByDefault(vs: seq<Vehicle>)
    ensures PageFilter(vs, "", AllStatuses) == vs
  {
    forall i | 0 <= i < |vs| ensures PageKeeps(vs[i], "", AllStatuses) {
      EmptyTermMatches(vs[i].name);
    }
    FilterKeepsAll(vs, v => PageKeeps(v, "", AllStatuses));
  }

  predicate HasStatus(v: Vehicle, s: VehicleStatus) {
    v.status == s
  }

  function CountStatus(vs: seq<Vehicle>, s: VehicleStatus): nat {
    |Filter(vs, v => HasStatus(v, s))|
  }

  datatype PageStats = PageStats(total: nat, moving: nat, stopped: nat, idle: nat, offline: nat)

  /** `vehicleStats`: the size of the fleet and how many vehicles have each
      status; the four status counts partition the fleet. */
  function PageCounters(vs: seq<Vehicle>): (r: PageStats)
    ensures r.total == |vs|
    ensures r.moving == |PageFilter(vs, "", OnlyStatus(Moving))|
    ensures r.stopped == |PageFilter(vs, "", OnlyStatus(Stopped))|
    ensures r.idle == |PageFilter(vs, "", OnlyStatus(Idle))|
    ensures r.offline == |PageFilter(vs, "", OnlyStatus(Offline))|
    ensures r.moving + r.stopped + r.idle + r.offline == r.total
  {
    StatusCountsPartition(vs);
    forall s: VehicleStatus ensures CountStatus(vs, s) == |PageFilter(vs, "", OnlyStatus(s))| {
      forall i | 0 <= i < |vs|
        ensures (vs[i].status == s) == PageKeeps(vs[i], "", OnlyStatus(s))
      {
        EmptyTermMatches(vs[i].name);
      }
      FilterAgree(vs, v => HasStatus(v, s), v => PageKeeps(v, "", OnlyStatus(s)));
    }
    PageStats(|vs|, CountStatus(vs, Moving), CountStatus(vs, Stopped), CountStatus(vs, Idle),
              CountStatus(vs, Offline))
  }

  /** Every vehicle has exactly one of the four statuses. */
  lemma {:induction false} StatusCountsPartition(vs: seq<Vehicle>)
    ensures CountStatus(vs, Moving) + CountStatus(vs, Stopped) + CountStatus(vs, Idle)
            + CountStatus(vs, Offline) == |vs|
    decreases |vs|
  {
    if |vs| > 0 {
      StatusCountsPartition(vs[1..]);
    }
  }

  // ---------------------------------------------------------------------------
  // The sidebar
  // ---------------------------------------------------------------------------

  /** `FilterType`. */
  datatype FilterKey = All | MovingKey | StoppedKey | AlertsKey | OfflineKey

  /** The sidebar search looks at name and plate only. */
  predicate SidebarSearchHit(v: Vehicle, term: string) {
    MatchesText(v.name, term) || MatchesText(v.licensePlate, term)
  }

  /** The `switch` of the sidebar filter: "stopped" admits idle vehicles
      too, "alerts" admits the vehicles over their limit. */
  predicate KeyAdmits(key: FilterKey, v: Vehicle) {
    match key
    case All => true
    case MovingKey => v.status == Moving
    case StoppedKey => v.status == Stopped || v.status == Idle
    case AlertsKey => OverLimit(v)
    case OfflineKey => v.status == Offline
  }

  predicate SidebarKeeps(v: Vehicle, term: string, key: FilterKey) {
    SidebarSearchHit(v, term) && KeyAdmits(key, v)
  }

  /** `filteredVehicles` of the sidebar. */
  function SidebarFilter(vs: seq<Vehicle>, term: string, key: FilterKey): (r: seq<Vehicle>)
    ensures forall v :: v in r <==> v in vs && SidebarSearchHit(v, term) && KeyAdmits(key, v)
    ensures IsSubsequence(r, vs)
    ensures forall v :: multiset(r)[v] == if SidebarKeeps(v, term, key) then multiset(vs)[v] else 0
  {
    FilterIsSubsequence(vs, v => SidebarKeeps(v, term, key));
    FilterMultiset(vs, v => SidebarKeeps(v, term, key));
    Filter(vs, v => SidebarKeeps(v, term, key))
  }

  /** A vehicle the search misses is hidden under every filter key, whatever
      its model. */
  lemma SearchMissHidesEverywhere(vs: seq<Vehicle>, term: string, v: Vehicle)
    requires !MatchesText(v.name, term) && !MatchesText(v.licensePlate, term)
    ensures forall key :: v !in SidebarFilter(vs, term, key)
  {
  }

  datatype SidebarStats = SidebarStats(total: nat, moving: nat, stopped: nat, alerts: nat, offline: nat)

  function CountKey(vs: seq<Vehicle>, key: FilterKey): nat {
    |Filter(vs, v => KeyAdmits(key, v))|
  }

  /** The count shown on a filter key. */
  function KeyCount(st: SidebarStats, key: FilterKey): nat {
    match key
    case All => st.total
    case MovingKey => st.moving
    case StoppedKey => st.stopped
    case AlertsKey => st.alerts
    case OfflineKey => st.offline
  }

  /** `stats` of the sidebar: with an empty search, the count shown on each
      key is the length of the list that key shows; moving, stopped (with
      idle) and offline partition the fleet. */
  function SidebarCounters(vs: seq<Vehicle>): (r: SidebarStats)
    ensures r.total == |vs|
    ensures forall key :: KeyCount(r, key) == |SidebarFilter(vs, "", key)|
    ensures r.moving + r.stopped + r.offline == r.total
  {
    var r := SidebarStats(|vs|, CountKey(vs, MovingKey), CountKey(vs, StoppedKey),
                          CountKey(vs, AlertsKey), CountKey(vs, OfflineKey));
    forall key: FilterKey ensures KeyCount(r, key) == |SidebarFilter(vs, "", key)| {
      if key == All {
        AllKeyShowsAll(vs);
      } else {
        KeyCountIsListLength(vs, key);
      }
    }
    SidebarCountsPartition(vs);
    r
  }

  /** With an empty search the "all" key shows the whole fleet. */
  lemma AllKeyShowsAll(vs: seq<Vehicle>)
    ensures SidebarFilter(vs, "", All) == vs
  {
    forall i | 0 <= i < |vs| ensures SidebarKeeps(vs[i], "", All) {
      EmptyTermMatches(vs[i].name);
    }
    FilterKeepsAll(vs, v => SidebarKeeps(v, "", All));
  }

  lemma KeyCountIsListLength(vs: seq<Vehicle>, key: FilterKey)
    ensures CountKey(vs, key) == |SidebarFilter(vs, "", key)|
  {
    forall i | 0 <= i < |vs| ensures KeyAdmits(key, vs[i]) == SidebarKeeps(vs[i], "", key) {
      EmptyTermMatches(vs[i].name);
    }
    FilterAgree(vs, v => KeyAdmits(key, v), v => SidebarKeeps(v, "", key));
  }

  /** Moving, stopped-or-idle and offline split the fleet. */
  lemma {:induction false} SidebarCountsPartition(vs: seq<Vehicle>)
    ensures CountKey(vs, MovingKey) + CountKey(vs, StoppedKey) + CountKey(vs, OfflineKey) == |vs|
    decreases |vs|
  {
    if |vs| > 0 {
      SidebarCountsPartition(vs[1..]);
      CountKeyStep(vs, MovingKey);
      CountKeyStep(vs, StoppedKey);
      CountKeyStep(vs, OfflineKey);
    }
  }

  /** A key's count over a non-empty list: the first vehicle, then the rest. */
  lemma CountKeyStep(vs: seq<Vehicle>, key: FilterKey)
    requires |vs| > 0
    ensures CountKey(vs, key) == (if KeyAdmits(key, vs[0]) then 1 else 0) + CountKey(vs[1..], key)
  {
  }

  /** The sidebar's "stopped" list is the page's stopped list and idle list
      together: its count is their sum. */
  lemma StoppedKeyCountsIdle(vs: seq<Vehicle>)
    ensures CountKey(vs, StoppedKey) == CountStatus(vs, Stopped) + CountStatus(vs, Idle)
  {
    FilterDisjointCount(vs, v => HasStatus(v, Stopped), v => HasStatus(v, Idle), v => KeyAdmits(StoppedKey, v));
  }
}
