/** The aggregation of `getSpeedStats`: once the violations of a period are
    fetched, they are tallied per vehicle and per day, the vehicles are
    ranked by number of violations and the first ten kept, and the excess
    speeds are averaged.

    Timestamps stay strings. Their comparison as dates is a parameter
    `epochOf` (the instant a timestamp denotes); the day of a timestamp is
    its text before the first "T". JavaScript's `Map` keeps keys in
    insertion order, so each tally is a sequence in first-seen order. */
module SpeedStats {
  import opened Wrappers
  import opened Text
  import opened Schema
  import opened Seqs

  // ---------------------------------------------------------------------------
  // Reference definitions over the input
  // ---------------------------------------------------------------------------

  /** The violations of vehicle `id`, in input order. */
  function ViolationsOf(vs: seq<SpeedViolation>, id: string): (r: seq<SpeedViolation>)
    ensures |r| <= |vs|
    decreases |vs|
  {
    if |vs| == 0 then []
    else
      var last := vs[|vs| - 1];
      ViolationsOf(vs[..|vs| - 1], id) + (if last.vehicleId == id then [last] else [])
  }

  /** The violations of `id` are exactly the violations in `vs` whose
      vehicle is `id`. */
  lemma {:induction false} ViolationsOfMembers(vs: seq<SpeedViolation>, id: string)
    ensures forall v :: v in ViolationsOf(vs, id) <==> v in vs && v.vehicleId == id
    decreases |vs|
  {
    if |vs| > 0 {
      var n := |vs| - 1;
      ViolationsOfMembers(vs[..n], id);
      assert vs == vs[..n] + [vs[n]];
    }
  }

  lemma ViolationsOfSnoc(vs: seq<SpeedViolation>, x: SpeedViolation, id: string)
    ensures ViolationsOf(vs + [x], id)
            == ViolationsOf(vs, id) + (if x.vehicleId == id then [x] else [])
  {
    assert (vs + [x])[..|vs|] == vs;
  }

  /** Sum of the excess speeds. */
  function SumExcess(vs: seq<SpeedViolation>): int
    decreases |vs|
  {
    if |vs| == 0 then 0 else SumExcess(vs[..|vs| - 1]) + vs[|vs| - 1].excessSpeed
  }

  lemma SumExcessSnoc(vs: seq<SpeedViolation>, x: SpeedViolation)
    ensures SumExcess(vs + [x]) == SumExcess(vs) + x.excessSpeed
  {
    assert (vs + [x])[..|vs|] == vs;
  }

  /** The vehicles that have at least one violation. */
  function ViolatorIds(vs: seq<SpeedViolation>): set<string> {
    set v | v in vs :: v.vehicleId
  }

  lemma ViolatorIdsSnoc(vs: seq<SpeedViolation>, x: SpeedViolation)
    ensures ViolatorIds(vs + [x]) == ViolatorIds(vs) + {x.vehicleId}
  {
    assert x in vs + [x];
    forall v | v in vs ensures v in vs + [x] { }
  }

  /** A vehicle with violations is among the violating vehicles. */
  lemma ViolationsOfInIds(vs: seq<SpeedViolation>, id: string)
    ensures ViolationsOf(vs, id) != [] ==> id in ViolatorIds(vs)
  {
    var ws := ViolationsOf(vs, id);
    if ws != [] {
      ViolationsOfMembers(vs, id);
      assert ws[0] in ws;
    }
  }

  /** `ws[k]` is the first violation at the latest instant among `ws`. */
  predicate IsFirstLatestAt(ws: seq<SpeedViolation>, k: nat, epochOf: string -> int)
    requires k < |ws|
  {
    && (forall j :: 0 <= j < |ws| ==> epochOf(ws[j].timestamp) <= epochOf(ws[k].timestamp))
    && (forall j :: 0 <= j < k ==> epochOf(ws[j].timestamp) < epochOf(ws[k].timestamp))
  }

  /** `t` is the timestamp of the latest violation in `ws`, and among
      violations at that same instant, of the first one. */
  ghost predicate IsLatest(ws: seq<SpeedViolation>, t: string, epochOf: string -> int) {
    exists k: nat :: k < |ws| && IsFirstLatestAt(ws, k, epochOf) && ws[k].timestamp == t
  }

  lemma {:induction false} LatestSnoc(ws: seq<SpeedViolation>, x: SpeedViolation, t: string,
                                      epochOf: string -> int)
    requires IsLatest(ws, t, epochOf)
    ensures IsLatest(ws + [x], if epochOf(x.timestamp) > epochOf(t) then x.timestamp else t, epochOf)
  {
    var k: nat :| k < |ws| && IsFirstLatestAt(ws, k, epochOf) && ws[k].timestamp == t;
    var ws' := ws + [x];
    if epochOf(x.timestamp) > epochOf(t) {
      assert IsFirstLatestAt(ws', |ws|, epochOf);
    } else {
      assert IsFirstLatestAt(ws', k, epochOf);
    }
  }

  // ---------------------------------------------------------------------------
  // Grouping by vehicle
  // ---------------------------------------------------------------------------

  /** The per-vehicle entry of the grouping map. */
  datatype VehicleTally = VehicleTally(
    vehicleId: string,
    count: nat,
    totalExcess: int,
    lastViolation: string,
    name: string)

  predicate DistinctIds(ts: seq<VehicleTally>) {
    forall i, j :: 0 <= i < |ts| && 0 <= j < |ts| && i != j ==> ts[i].vehicleId != ts[j].vehicleId
  }

  function TallyIds(ts: seq<VehicleTally>): set<string> {
    set t | t in ts :: t.vehicleId
  }

  function SumCounts(ts: seq<VehicleTally>): int
    decreases |ts|
  {
    if |ts| == 0 then 0 else SumCounts(ts[..|ts| - 1]) + ts[|ts| - 1].count
  }

  lemma {:induction false} SumCountsBump(ts: seq<VehicleTally>, i: nat, e: VehicleTally)
    requires i < |ts| && e.count == ts[i].count + 1
    ensures SumCounts(ts[i := e]) == SumCounts(ts) + 1
    decreases |ts|
  {
    var n := |ts| - 1;
    if i < n {
      assert ts[i := e][..n] == ts[..n][i := e];
      SumCountsBump(ts[..n], i, e);
    } else {
      assert ts[i := e][..n] == ts[..n];
    }
  }

  lemma SumCountsSnoc(ts: seq<VehicleTally>, e: VehicleTally)
    ensures SumCounts(ts + [e]) == SumCounts(ts) + e.count
  {
    assert (ts + [e])[..|ts|] == ts;
  }

  /** The tally entry `t` agrees with the violations of its vehicle: it
      counts them, sums their excess, carries the name of the first one and
      the timestamp of the latest one. */
  ghost predicate TallyMatches(vs: seq<SpeedViolation>, t: VehicleTally, epochOf: string -> int) {
    var ws := ViolationsOf(vs, t.vehicleId);
    && |ws| >= 1
    && t.count == |ws|
    && t.totalExcess == SumExcess(ws)
    && t.name == ws[0].vehicleName
    && IsLatest(ws, t.lastViolation, epochOf)
  }

  /** `ts` is a faithful grouping of `vs`: one entry per violating vehicle,
      each agreeing with that vehicle's violations. */
  ghost predicate TallyFaithful(vs: seq<SpeedViolation>, ts: seq<VehicleTally>, epochOf: string -> int) {
    && DistinctIds(ts)
    && TallyIds(ts) == ViolatorIds(vs)
    && (forall i :: 0 <= i < |ts| ==> TallyMatches(vs, ts[i], epochOf))
  }

  /** Index of the entry for vehicle `id`, if there is one (`byVehicle.get`). */
  function FindTally(ts: seq<VehicleTally>, id: string): (r: Option<nat>)
    ensures r.Some? ==> r.value < |ts| && ts[r.value].vehicleId == id
    ensures r.None? ==> forall i :: 0 <= i < |ts| ==> ts[i].vehicleId != id
    decreases |ts|
  {
    if |ts| == 0 then None
    else if ts[|ts| - 1].vehicleId == id then Some(|ts| - 1)
    else FindTally(ts[..|ts| - 1], id)
  }

  /** The entry `e` after one more violation `v` of its vehicle: the latest
      timestamp is replaced only when the new one is strictly later. */
  function Bump(e: VehicleTally, v: SpeedViolation, epochOf: string -> int): VehicleTally {
    e.(count := e.count + 1,
       totalExcess := e.totalExcess + v.excessSpeed,
       lastViolation := if epochOf(v.timestamp) > epochOf(e.lastViolation)
                        then v.timestamp else e.lastViolation)
  }

  /** The entry created by a vehicle's first violation. */
  function NewTally(v: SpeedViolation): VehicleTally {
    VehicleTally(v.vehicleId, 1, v.excessSpeed, v.timestamp, v.vehicleName)
  }

  /** One step of the `forEach`: bump the entry of the violation's vehicle,
      or append a new entry. */
  function Record(ts: seq<VehicleTally>, v: SpeedViolation, epochOf: string -> int): seq<VehicleTally> {
    match FindTally(ts, v.vehicleId)
    case Some(i) => ts[i := Bump(ts[i], v, epochOf)]
    case None => ts + [NewTally(v)]
  }

  /** A violation of another vehicle leaves an entry's agreement intact. */
  lemma MatchesOther(vs: seq<SpeedViolation>, x: SpeedViolation, t: VehicleTally, epochOf: string -> int)
    requires TallyMatches(vs, t, epochOf) && t.vehicleId != x.vehicleId
    ensures TallyMatches(vs + [x], t, epochOf)
  {
    var ws := ViolationsOf(vs, t.vehicleId);
    ViolationsOfSnoc(vs, x, t.vehicleId);
    assert ws + [] == ws;
    assert ViolationsOf(vs + [x], t.vehicleId) == ws;
  }

  /** Bumping an entry with a violation of its vehicle keeps it agreeing. */
  lemma MatchesBump(vs: seq<SpeedViolation>, x: SpeedViolation, e: VehicleTally, epochOf: string -> int)
    requires TallyMatches(vs, e, epochOf) && e.vehicleId == x.vehicleId
    ensures TallyMatches(vs + [x], Bump(e, x, epochOf), epochOf)
  {
    var ws := ViolationsOf(vs, x.vehicleId);
    ViolationsOfSnoc(vs, x, x.vehicleId);
    SumExcessSnoc(ws, x);
    LatestSnoc(ws, x, e.lastViolation, epochOf);
    assert (ws + [x])[0] == ws[0];
  }

  /** The first violation of a vehicle yields an agreeing new entry. */
  lemma MatchesNew(vs: seq<SpeedViolation>, x: SpeedViolation, epochOf: string -> int)
    requires ViolationsOf(vs, x.vehicleId) == []
    ensures TallyMatches(vs + [x], NewTally(x), epochOf)
  {
    ViolationsOfSnoc(vs, x, x.vehicleId);
    assert [] + [x] == [x];
    assert ViolationsOf(vs + [x], x.vehicleId) == [x];
    SumExcessSnoc([], x);
    assert IsFirstLatestAt([x], 0, epochOf);
    assert IsLatest([x], x.timestamp, epochOf);
  }

  /** Replacing an entry by one with the same vehicle keeps the ids. */
  lemma TallyIdsUpdate(ts: seq<VehicleTally>, i: nat, e: VehicleTally)
    requires i < |ts| && e.vehicleId == ts[i].vehicleId
    ensures TallyIds(ts[i := e]) == TallyIds(ts)
    ensures DistinctIds(ts) ==> DistinctIds(ts[i := e])
  {
    var ts' := ts[i := e];
    assert forall j :: 0 <= j < |ts| ==> ts'[j].vehicleId == ts[j].vehicleId;
    forall t | t in ts' ensures t.vehicleId in TallyIds(ts) {
      var j :| 0 <= j < |ts'| && ts'[j] == t;
      assert ts[j] in ts;
    }
    forall t | t in ts ensures t.vehicleId in TallyIds(ts') {
      var j :| 0 <= j < |ts| && ts[j] == t;
      assert ts'[j] in ts';
    }
  }

  /** Appending an entry adds its vehicle to the ids. */
  lemma TallyIdsSnoc(ts: seq<VehicleTally>, e: VehicleTally)
    ensures TallyIds(ts + [e]) == TallyIds(ts) + {e.vehicleId}
  {
    assert e in ts + [e];
    forall t | t in ts ensures t in ts + [e] { }
  }

  lemma RecordExisting(vs: seq<SpeedViolation>, ts: seq<VehicleTally>, x: SpeedViolation, i: nat,
                       epochOf: string -> int)
    requires TallyFaithful(vs, ts, epochOf) && SumCounts(ts) == |vs|
    requires i < |ts| && ts[i].vehicleId == x.vehicleId
    ensures TallyFaithful(vs + [x], ts[i := Bump(ts[i], x, epochOf)], epochOf)
    ensures SumCounts(ts[i := Bump(ts[i], x, epochOf)]) == |vs| + 1
  {
    var e := Bump(ts[i], x, epochOf);
    var ts' := ts[i := e];
    BumpedIds(vs, ts, x, i, e);
    BumpedMatches(vs, ts, x, i, epochOf, ts');
    SumCountsBump(ts, i, e);
  }

  /** Bumping the entry of the violation's vehicle keeps the ids in step
      with the violating vehicles. */
  lemma BumpedIds(vs: seq<SpeedViolation>, ts: seq<VehicleTally>, x: SpeedViolation, i: nat, e: VehicleTally)
    requires DistinctIds(ts) && TallyIds(ts) == ViolatorIds(vs)
    requires i < |ts| && ts[i].vehicleId == x.vehicleId && e.vehicleId == x.vehicleId
    ensures DistinctIds(ts[i := e]) && TallyIds(ts[i := e]) == ViolatorIds(vs + [x])
  {
    ViolatorIdsSnoc(vs, x);
    TallyIdsUpdate(ts, i, e);
    assert x.vehicleId in TallyIds(ts) by { assert ts[i] in ts; }
  }

  lemma BumpedMatches(vs: seq<SpeedViolation>, ts: seq<VehicleTally>, x: SpeedViolation, i: nat,
                      epochOf: string -> int, ts': seq<VehicleTally>)
    requires forall j :: 0 <= j < |ts| ==> TallyMatches(vs, ts[j], epochOf)
    requires DistinctIds(ts) && i < |ts| && ts[i].vehicleId == x.vehicleId
    requires ts' == ts[i := Bump(ts[i], x, epochOf)]
    ensures forall j :: 0 <= j < |ts'| ==> TallyMatches(vs + [x], ts'[j], epochOf)
  {
    forall j | 0 <= j < |ts'| ensures TallyMatches(vs + [x], ts'[j], epochOf) {
      if j == i {
        MatchesBump(vs, x, ts[i], epochOf);
      } else {
        MatchesOther(vs, x, ts[j], epochOf);
      }
    }
  }

  lemma NewEntryIds(vs: seq<SpeedViolation>, ts: seq<VehicleTally>, x: SpeedViolation)
    requires DistinctIds(ts) && TallyIds(ts) == ViolatorIds(vs)
    requires forall i :: 0 <= i < |ts| ==> ts[i].vehicleId != x.vehicleId
    ensures DistinctIds(ts + [NewTally(x)])
    ensures TallyIds(ts + [NewTally(x)]) == ViolatorIds(vs + [x])
    ensures ViolationsOf(vs, x.vehicleId) == []
  {
    ViolatorIdsSnoc(vs, x);
    TallyIdsSnoc(ts, NewTally(x));
    forall t | t in ts ensures t.vehicleId != x.vehicleId {
      var k :| 0 <= k < |ts| && ts[k] == t;
    }
    ViolationsOfInIds(vs, x.vehicleId);
  }

  lemma NewEntryMatches(vs: seq<SpeedViolation>, ts: seq<VehicleTally>, x: SpeedViolation,
                        epochOf: string -> int)
    requires forall i :: 0 <= i < |ts| ==> TallyMatches(vs, ts[i], epochOf)
    requires forall i :: 0 <= i < |ts| ==> ts[i].vehicleId != x.vehicleId
    requires ViolationsOf(vs, x.vehicleId) == []
    ensures forall j :: 0 <= j < |ts| + 1 ==> TallyMatches(vs + [x], (ts + [NewTally(x)])[j], epochOf)
  {
    var ts' := ts + [NewTally(x)];
    forall j | 0 <= j < |ts'| ensures TallyMatches(vs + [x], ts'[j], epochOf) {
      if j < |ts| {
        MatchesOther(vs, x, ts[j], epochOf);
      } else {
        MatchesNew(vs, x, epochOf);
      }
    }
  }

  lemma RecordNew(vs: seq<SpeedViolation>, ts: seq<VehicleTally>, x: SpeedViolation,
                  epochOf: string -> int)
    requires TallyFaithful(vs, ts, epochOf) && SumCounts(ts) == |vs|
    requires forall i :: 0 <= i < |ts| ==> ts[i].vehicleId != x.vehicleId
    ensures TallyFaithful(vs + [x], ts + [NewTally(x)], epochOf)
    ensures SumCounts(ts + [NewTally(x)]) == |vs| + 1
  {
    NewEntryIds(vs, ts, x);
    NewEntryMatches(vs, ts, x, epochOf);
    SumCountsSnoc(ts, NewTally(x));
  }

  lemma RecordKeepsFaithful(vs: seq<SpeedViolation>, ts: seq<VehicleTally>,
                            x: SpeedViolation, epochOf: string -> int)
    requires TallyFaithful(vs, ts, epochOf) && SumCounts(ts) == |vs|
    ensures TallyFaithful(vs + [x], Record(ts, x, epochOf), epochOf)
    ensures SumCounts(Record(ts, x, epochOf)) == |vs| + 1
  {
    match FindTally(ts, x.vehicleId)
    case Some(i) => RecordExisting(vs, ts, x, i, epochOf);
    case None => RecordNew(vs, ts, x, epochOf);
  }

  /** The grouping by vehicle (`byVehicle`): one entry per vehicle that has
      violations, agreeing with that vehicle's violations, and the counts of
      all entries add up to the number of violations. */
  function TallyByVehicle(vs: seq<SpeedViolation>, epochOf: string -> int): (r: seq<VehicleTally>)
    ensures TallyFaithful(vs, r, epochOf)
    ensures SumCounts(r) == |vs|
    decreases |vs|
  {
    if |vs| == 0 then []
    else
      var prefix, last := vs[..|vs| - 1], vs[|vs| - 1];
      FrontAndLast(vs);
      var ts := TallyByVehicle(prefix, epochOf);
      RecordKeepsFaithful(prefix, ts, last, epochOf);
      Record(ts, last, epochOf)
  }

  /** Entries with distinct ids: as many entries as ids. */
  lemma {:induction false} DistinctIdsCount(ts: seq<VehicleTally>)
    requires DistinctIds(ts)
    ensures |TallyIds(ts)| == |ts|
    decreases |ts|
  {
    if |ts| > 0 {
      var n := |ts| - 1;
      var prefix := ts[..n];
      DistinctIdsCount(prefix);
      assert ts == prefix + [ts[n]];
      TallyIdsSnoc(prefix, ts[n]);
      forall t | t in prefix ensures t.vehicleId != ts[n].vehicleId {
        var j :| 0 <= j < n && prefix[j] == t;
        assert ts[j] == t;
      }
    }
  }

  /** The grouping has one entry per violating vehicle (`byVehicle.size`). */
  lemma TallySize(vs: seq<SpeedViolation>, epochOf: string -> int)
    ensures |TallyByVehicle(vs, epochOf)| == |ViolatorIds(vs)|
  {
    DistinctIdsCount(TallyByVehicle(vs, epochOf));
  }

  /** Every entry of the grouping has at least one violation, so each
      per-vehicle average divides by a positive count. */
  lemma TallyCountsPositive(vs: seq<SpeedViolation>, epochOf: string -> int)
    ensures forall t :: t in TallyByVehicle(vs, epochOf) ==> t.count >= 1
  {
    var ts := TallyByVehicle(vs, epochOf);
    forall t | t in ts ensures t.count >= 1 {
      var i :| 0 <= i < |ts| && ts[i] == t;
      assert TallyMatches(vs, ts[i], epochOf);
    }
  }

  // ---------------------------------------------------------------------------
  // Grouping by day
  // ---------------------------------------------------------------------------

  /** `timestamp.split("T")[0]`: the text of the timestamp up to its first
      `T`, or all of it when it has none. */
  function DayKey(timestamp: string): (r: string)
    ensures 'T' !in r && StartsWith(timestamp, r)
    ensures |r| < |timestamp| ==> timestamp[|r|] == 'T'
    ensures 'T' !in timestamp ==> r == timestamp
  {
    BeforeFirst(timestamp, 'T')
  }

  datatype DayCount = DayCount(date: string, count: nat)

  function DayKeys(vs: seq<SpeedViolation>): (r: seq<string>)
    ensures |r| == |vs|
    ensures forall i :: 0 <= i < |vs| ==> r[i] == DayKey(vs[i].timestamp)
  {
    seq(|vs|, i requires 0 <= i < |vs| => DayKey(vs[i].timestamp))
  }

  /** How often `k` occurs in `keys`. */
  function Occurrences(keys: seq<string>, k: string): nat
    decreases |keys|
  {
    if |keys| == 0 then 0
    else Occurrences(keys[..|keys| - 1], k) + (if keys[|keys| - 1] == k then 1 else 0)
  }

  lemma OccurrencesSnoc(keys: seq<string>, x: string, k: string)
    ensures Occurrences(keys + [x], k) == Occurrences(keys, k) + (if x == k then 1 else 0)
  {
    assert (keys + [x])[..|keys|] == keys;
  }

  lemma {:induction false} OccurrencesPositive(keys: seq<string>, k: string)
    requires k in keys
    ensures Occurrences(keys, k) >= 1
    decreases |keys|
  {
    var n := |keys| - 1;
    if keys[n] != k {
      assert k in keys[..n] by {
        var i :| 0 <= i < |keys| && keys[i] == k;
        assert keys[..n][i] == k;
      }
      OccurrencesPositive(keys[..n], k);
    }
  }

  function SumDays(ds: seq<DayCount>): int
    decreases |ds|
  {
    if |ds| == 0 then 0 else ds[0].count + SumDays(ds[1..])
  }

  lemma {:induction false} SumDaysSnoc(ds: seq<DayCount>, d: DayCount)
    ensures SumDays(ds + [d]) == SumDays(ds) + d.count
    decreases |ds|
  {
    if |ds| > 0 {
      assert (ds + [d])[1..] == ds[1..] + [d];
      SumDaysSnoc(ds[1..], d);
    }
  }

  lemma {:induction false} SumDaysBump(ds: seq<DayCount>, i: nat, d: DayCount)
    requires i < |ds| && d.count == ds[i].count + 1
    ensures SumDays(ds[i := d]) == SumDays(ds) + 1
    decreases |ds|
  {
    if i > 0 {
      assert ds[i := d][1..] == ds[1..][i - 1 := d];
      SumDaysBump(ds[1..], i - 1, d);
    } else {
      assert ds[i := d][1..] == ds[1..];
    }
  }

  predicate DistinctDates(ds: seq<DayCount>) {
    forall i, j :: 0 <= i < |ds| && 0 <= j < |ds| && i != j ==> ds[i].date != ds[j].date
  }

  function Dates(ds: seq<DayCount>): set<string> {
    set d | d in ds :: d.date
  }

  function KeySet(keys: seq<string>): set<string> {
    set k | k in keys
  }

  /** `ds` is a faithful count of `keys`: one entry per distinct key, each
      with the number of occurrences of its key. */
  ghost predicate DaysFaithful(keys: seq<string>, ds: seq<DayCount>) {
    && DistinctDates(ds)
    && Dates(ds) == KeySet(keys)
    && (forall i :: 0 <= i < |ds| ==> ds[i].count == Occurrences(keys, ds[i].date) >= 1)
  }

  function FindDay(ds: seq<DayCount>, day: string): (r: Option<nat>)
    ensures r.Some? ==> r.value < |ds| && ds[r.value].date == day
    ensures r.None? ==> forall i :: 0 <= i < |ds| ==> ds[i].date != day
    decreases |ds|
  {
    if |ds| == 0 then None
    else if ds[|ds| - 1].date == day then Some(|ds| - 1)
    else FindDay(ds[..|ds| - 1], day)
  }

  /** `byDay.set(day, (byDay.get(day) || 0) + 1)`. */
  function CountDay(ds: seq<DayCount>, day: string): seq<DayCount> {
    match FindDay(ds, day)
    case Some(i) => ds[i := DayCount(day, ds[i].count + 1)]
    case None => ds + [DayCount(day, 1)]
  }

  lemma KeySetSnoc(keys: seq<string>, day: string)
    ensures KeySet(keys + [day]) == KeySet(keys) + {day}
  {
    assert day in keys + [day];
    forall k | k in keys ensures k in keys + [day] { }
  }

  lemma CountExistingDay(keys: seq<string>, ds: seq<DayCount>, day: string, i: nat)
    requires DaysFaithful(keys, ds) && SumDays(ds) == |keys|
    requires i < |ds| && ds[i].date == day
    ensures DaysFaithful(keys + [day], ds[i := DayCount(day, ds[i].count + 1)])
    ensures SumDays(ds[i := DayCount(day, ds[i].count + 1)]) == |keys| + 1
  {
    var d := DayCount(day, ds[i].count + 1);
    var ds' := ds[i := d];
    KeySetSnoc(keys, day);
    DatesUpdate(ds, i, d);
    assert day in Dates(ds) by { assert ds[i] in ds; }
    BumpedDayCounts(keys, ds, day, i, ds');
    SumDaysBump(ds, i, d);
  }

  /** Replacing an entry by one with the same date keeps the dates. */
  lemma DatesUpdate(ds: seq<DayCount>, i: nat, d: DayCount)
    requires i < |ds| && d.date == ds[i].date
    ensures Dates(ds[i := d]) == Dates(ds)
    ensures DistinctDates(ds) ==> DistinctDates(ds[i := d])
  {
    var ds' := ds[i := d];
    assert forall j :: 0 <= j < |ds| ==> ds'[j].date == ds[j].date;
    forall e | e in ds' ensures e.date in Dates(ds) {
      var j :| 0 <= j < |ds'| && ds'[j] == e;
      assert ds[j] in ds;
    }
    forall e | e in ds ensures e.date in Dates(ds') {
      var j :| 0 <= j < |ds| && ds[j] == e;
      assert ds'[j] in ds';
    }
  }

  /** After one more occurrence of `day`, bumping its entry keeps every
      count equal to the occurrences of its date. */
  lemma BumpedDayCounts(keys: seq<string>, ds: seq<DayCount>, day: string, i: nat, ds': seq<DayCount>)
    requires forall j :: 0 <= j < |ds| ==> ds[j].count == Occurrences(keys, ds[j].date) >= 1
    requires DistinctDates(ds) && i < |ds| && ds[i].date == day
    requires ds' == ds[i := DayCount(day, ds[i].count + 1)]
    ensures forall j :: 0 <= j < |ds'| ==> ds'[j].count == Occurrences(keys + [day], ds'[j].date) >= 1
  {
    forall j | 0 <= j < |ds'| ensures ds'[j].count == Occurrences(keys + [day], ds'[j].date) >= 1 {
      OccurrencesSnoc(keys, day, ds'[j].date);
    }
  }

  lemma CountNewDay(keys: seq<string>, ds: seq<DayCount>, day: string)
    requires DaysFaithful(keys, ds) && SumDays(ds) == |keys|
    requires forall i :: 0 <= i < |ds| ==> ds[i].date != day
    ensures DaysFaithful(keys + [day], ds + [DayCount(day, 1)])
    ensures SumDays(ds + [DayCount(day, 1)]) == |keys| + 1
  {
    var d := DayCount(day, 1);
    var ds' := ds + [d];
    KeySetSnoc(keys, day);
    assert Dates(ds') == Dates(ds) + {day} by {
      assert d in ds';
      forall e | e in ds ensures e in ds' { }
    }
    forall e | e in ds ensures e.date != day {
      var k :| 0 <= k < |ds| && ds[k] == e;
    }
    assert day !in KeySet(keys);
    OccurrencesZero(keys, day);
    forall j | 0 <= j < |ds'| ensures ds'[j].count == Occurrences(keys + [day], ds'[j].date) >= 1 {
      OccurrencesSnoc(keys, day, ds'[j].date);
      if j < |ds| {
        assert ds'[j] == ds[j];
      }
    }
    SumDaysSnoc(ds, d);
  }

  lemma CountDayKeepsFaithful(keys: seq<string>, ds: seq<DayCount>, day: string)
    requires DaysFaithful(keys, ds) && SumDays(ds) == |keys|
    ensures DaysFaithful(keys + [day], CountDay(ds, day))
    ensures SumDays(CountDay(ds, day)) == |keys| + 1
  {
    match FindDay(ds, day)
    case Some(i) => CountExistingDay(keys, ds, day, i);
    case None => CountNewDay(keys, ds, day);
  }

  lemma {:induction false} OccurrencesZero(keys: seq<string>, k: string)
    requires k !in keys
    ensures Occurrences(keys, k) == 0
    decreases |keys|
  {
    if |keys| > 0 {
      var n := |keys| - 1;
      assert keys == keys[..n] + [keys[n]];
      OccurrencesZero(keys[..n], k);
    }
  }

  /** The grouping by day (`byDay`), in first-seen order. */
  function TallyByDay(keys: seq<string>): (r: seq<DayCount>)
    ensures DaysFaithful(keys, r)
    ensures SumDays(r) == |keys|
    decreases |keys|
  {
    if |keys| == 0 then []
    else
      var prefix, last := keys[..|keys| - 1], keys[|keys| - 1];
      FrontAndLast(keys);
      var ds := TallyByDay(prefix);
      CountDayKeepsFaithful(prefix, ds, last);
      CountDay(ds, last)
  }

  // ---------------------------------------------------------------------------
  // Sorting the days by date
  // ---------------------------------------------------------------------------

  predicate SortedByDate(ds: seq<DayCount>) {
    forall i :: 0 < i < |ds| ==> LexLe(ds[i - 1].date, ds[i].date)
  }

  /** Insert `d` into the date-sorted `ds`. */
  function InsertByDate(d: DayCount, ds: seq<DayCount>): (r: seq<DayCount>)
    requires SortedByDate(ds)
    ensures SortedByDate(r)
    ensures multiset(r) == multiset(ds) + multiset{d}
    ensures SumDays(r) == SumDays(ds) + d.count
    ensures |r| > 0 && (r[0] == d || (|ds| > 0 && r[0] == ds[0]))
    decreases |ds|
  {
    if |ds| == 0 || LexLe(d.date, ds[0].date) then
      assert ([d] + ds)[1..] == ds;
      [d] + ds
    else
      LexTotal(d.date, ds[0].date);
      var rest := InsertByDate(d, ds[1..]);
      assert ds == [ds[0]] + ds[1..];
      assert ([ds[0]] + rest)[1..] == rest;
      [ds[0]] + rest
  }

  /** `Array.from(byDay.entries()).sort((a, b) => a.date.localeCompare(b.date))`,
      with the locale collation taken as code-point order. */
  function SortByDate(ds: seq<DayCount>): (r: seq<DayCount>)
    ensures SortedByDate(r)
    ensures multiset(r) == multiset(ds)
    ensures SumDays(r) == SumDays(ds)
    decreases |ds|
  {
    if |ds| == 0 then []
    else
      assert ds == [ds[0]] + ds[1..];
      InsertByDate(ds[0], SortByDate(ds[1..]))
  }

  /** A permutation of entries with distinct dates has distinct dates. */
  lemma DistinctDatesPermutation(ds: seq<DayCount>, r: seq<DayCount>)
    requires DistinctDates(ds) && multiset(r) == multiset(ds)
    ensures DistinctDates(r)
  {
    forall i, j | 0 <= i < |r| && 0 <= j < |r| && i != j ensures r[i].date != r[j].date {
      if r[i].date == r[j].date {
        assert r[i] in multiset(ds) && r[j] in multiset(ds);
        var a :| 0 <= a < |ds| && ds[a] == r[i];
        var b :| 0 <= b < |ds| && ds[b] == r[j];
        assert a == b;
        // r[i] == r[j] occurs twice in r, hence twice in ds
        assert r[i] == r[j];
        TwoIndicesTwoCopies(r, i, j);
        assert forall k :: 0 <= k < |ds| && k != a ==> ds[k].date != ds[a].date;
        OneIndexOneCopy(ds, a);
        assert false;
      }
    }
  }

  /** Sorted with distinct dates means strictly ascending. */
  lemma StrictlyAscending(ds: seq<DayCount>)
    requires SortedByDate(ds) && DistinctDates(ds)
    ensures forall i :: 0 < i < |ds| ==> LexLess(ds[i - 1].date, ds[i].date)
  {
  }

  // ---------------------------------------------------------------------------
  // Ranking vehicles
  // ---------------------------------------------------------------------------

  datatype Violator = Violator(
    vehicleId: string,
    vehicleName: string,
    totalViolations: nat,
    averageExcessSpeed: real,
    lastViolation: string)

  /** One entry of the ranking: the average is the summed excess over a
      count that is at least one. */
  function ToViolator(t: VehicleTally): (r: Violator)
    requires t.count >= 1
    ensures r.vehicleId == t.vehicleId && r.vehicleName == t.name
    ensures r.totalViolations == t.count && r.lastViolation == t.lastViolation
    ensures r.averageExcessSpeed * (t.count as real) == t.totalExcess as real
  {
    Violator(t.vehicleId, t.name, t.count, t.totalExcess as real / t.count as real, t.lastViolation)
  }

  function ToViolators(ts: seq<VehicleTally>): (r: seq<Violator>)
    requires forall t :: t in ts ==> t.count >= 1
    ensures |r| == |ts|
    ensures forall i :: 0 <= i < |ts| ==> r[i] == ToViolator(ts[i])
  {
    seq(|ts|, i requires 0 <= i < |ts| => ToViolator(ts[i]))
  }

  /** Each entry has at least as many violations as the next. */
  predicate Ranked(rs: seq<Violator>) {
    forall i :: 0 < i < |rs| ==> rs[i - 1].totalViolations >= rs[i].totalViolations
  }

  /** No entry has more violations than any entry before it. */
  predicate NonIncreasing(rs: seq<Violator>) {
    forall i, j :: 0 <= i < j < |rs| ==> rs[i].totalViolations >= rs[j].totalViolations
  }

  lemma {:induction false} RankedPair(rs: seq<Violator>, i: nat, j: nat)
    requires Ranked(rs) && i <= j < |rs|
    ensures rs[i].totalViolations >= rs[j].totalViolations
    decreases j - i
  {
    if i < j {
      RankedPair(rs, i + 1, j);
    }
  }

  lemma RankedIsNonIncreasing(rs: seq<Violator>)
    requires Ranked(rs)
    ensures NonIncreasing(rs)
  {
    forall i, j | 0 <= i < j < |rs| ensures rs[i].totalViolations >= rs[j].totalViolations {
      RankedPair(rs, i, j);
    }
  }

  /** Insert `x` into the ranking `rs` before every entry with as many or
      fewer violations. */
  function InsertRanked(x: Violator, rs: seq<Violator>): (r: seq<Violator>)
    requires Ranked(rs)
    ensures Ranked(r)
    ensures |r| == |rs| + 1
    ensures multiset(r) == multiset(rs) + multiset{x}
    ensures r[0] == x || (|rs| > 0 && r[0] == rs[0])
    decreases |rs|
  {
    if |rs| == 0 || rs[0].totalViolations <= x.totalViolations then
      ConsRanked(x, rs);
      [x] + rs
    else
      assert rs == [rs[0]] + rs[1..];
      var rest := InsertRanked(x, rs[1..]);
      ConsRanked(rs[0], rest);
      [rs[0]] + rest
  }

  /** An entry with at least as many violations as the head of a ranking
      can go in front of it. */
  lemma ConsRanked(y: Violator, rs: seq<Violator>)
    requires Ranked(rs)
    requires |rs| == 0 || y.totalViolations >= rs[0].totalViolations
    ensures Ranked([y] + rs)
  {
    var r := [y] + rs;
    forall i | 0 < i < |r| ensures r[i - 1].totalViolations >= r[i].totalViolations {
      if i > 1 {
        assert r[i - 1] == rs[i - 2] && r[i] == rs[i - 1];
      }
    }
  }

  /** `.sort((a, b) => b.totalViolations - a.totalViolations)`. */
  function RankByViolations(rs: seq<Violator>): (r: seq<Violator>)
    ensures Ranked(r)
    ensures |r| == |rs|
    ensures multiset(r) == multiset(rs)
    decreases |rs|
  {
    if |rs| == 0 then []
    else
      assert rs == [rs[0]] + rs[1..];
      InsertRanked(rs[0], RankByViolations(rs[1..]))
  }

  const TopCount: nat := 10

  /** In a ranking, an entry outside the first `k` has no more violations
      than any entry among them. */
  lemma PrefixDominates(ranked: seq<Violator>, k: nat)
    requires Ranked(ranked) && k <= |ranked|
    ensures forall x, y :: x in ranked && x !in ranked[..k] && y in ranked[..k] ==>
              x.totalViolations <= y.totalViolations
  {
    forall x, y | x in ranked && x !in ranked[..k] && y in ranked[..k]
      ensures x.totalViolations <= y.totalViolations
    {
      var m :| 0 <= m < |ranked| && ranked[m] == x;
      var a :| 0 <= a < k && ranked[..k][a] == y;
      assert m >= k by {
        assert forall t :: 0 <= t < k ==> ranked[..k][t] == ranked[t];
      }
      RankedPair(ranked, a, m);
    }
  }

  /** `.slice(0, 10)` of the ranking: at most ten entries, non-increasing,
      drawn from the candidates, and no candidate left out has more
      violations than any entry kept. */
  function TopViolators(candidates: seq<Violator>): (r: seq<Violator>)
    ensures |r| == if |candidates| < TopCount then |candidates| else TopCount
    ensures NonIncreasing(r)
    ensures multiset(r) <= multiset(candidates)
    ensures forall x, y :: x in candidates && x !in r && y in r ==> x.totalViolations <= y.totalViolations
  {
    var ranked := RankByViolations(candidates);
    var k := if |ranked| < TopCount then |ranked| else TopCount;
    TopOfRanking(candidates, ranked, k);
    ranked[..k]
  }

  /** The first `k` entries of a ranking of the candidates. */
  lemma TopOfRanking(candidates: seq<Violator>, ranked: seq<Violator>, k: nat)
    requires Ranked(ranked) && multiset(ranked) == multiset(candidates) && k <= |ranked|
    ensures NonIncreasing(ranked[..k])
    ensures multiset(ranked[..k]) <= multiset(candidates)
    ensures forall x, y :: x in candidates && x !in ranked[..k] && y in ranked[..k] ==>
              x.totalViolations <= y.totalViolations
  {
    var top := ranked[..k];
    assert ranked == top + ranked[k..];
    assert Ranked(top);
    RankedIsNonIncreasing(top);
    PrefixDominates(ranked, k);
    forall x | x in candidates ensures x in ranked {
      assert x in multiset(ranked);
    }
  }

  // ---------------------------------------------------------------------------
  // The statistics
  // ---------------------------------------------------------------------------

  /** The days of the period with their violation counts, by ascending
      date: each count is the number of violations on that day, every
      violation's day is listed, and the counts add up to the total. */
  function ViolationsByDay(vs: seq<SpeedViolation>): (r: seq<DayCount>)
    ensures SumDays(r) == |vs|
    ensures forall i :: 0 < i < |r| ==> LexLess(r[i - 1].date, r[i].date)
    ensures forall d :: d in r ==> d.count == Occurrences(DayKeys(vs), d.date) >= 1
    ensures forall i :: 0 <= i < |vs| ==> DayKey(vs[i].timestamp) in Dates(r)
  {
    var keys := DayKeys(vs);
    var days := TallyByDay(keys);
    var sorted := SortByDate(days);
    DistinctDatesPermutation(days, sorted);
    StrictlyAscending(sorted);
    PermutedDaysFaithful(keys, days, sorted);
    sorted
  }

  /** Reordering a faithful day count keeps every count and every day. */
  lemma PermutedDaysFaithful(keys: seq<string>, days: seq<DayCount>, sorted: seq<DayCount>)
    requires DaysFaithful(keys, days) && multiset(sorted) == multiset(days)
    ensures forall d :: d in sorted ==> d.count == Occurrences(keys, d.date) >= 1
    ensures forall i :: 0 <= i < |keys| ==> keys[i] in Dates(sorted)
  {
    forall d | d in sorted ensures d.count == Occurrences(keys, d.date) >= 1 {
      assert d in multiset(days);
      var j :| 0 <= j < |days| && days[j] == d;
    }
    forall i | 0 <= i < |keys| ensures keys[i] in Dates(sorted) {
      assert keys[i] in KeySet(keys);
      var d :| d in days && d.date == keys[i];
      assert d in multiset(sorted);
    }
  }

  /** The ranking entry `x` agrees with the violations of its vehicle: it
      has some, `x` counts them, averages their excess, carries the vehicle
      name of the first one and the timestamp of the latest one. */
  ghost predicate ViolatorAgrees(vs: seq<SpeedViolation>, x: Violator, epochOf: string -> int) {
    var ws := ViolationsOf(vs, x.vehicleId);
    && x.vehicleId in ViolatorIds(vs)
    && |ws| >= 1
    && x.totalViolations == |ws|
    && x.averageExcessSpeed == SumExcess(ws) as real / |ws| as real
    && x.vehicleName == ws[0].vehicleName
    && IsLatest(ws, x.lastViolation, epochOf)
  }

  /** No vehicle has two entries. */
  predicate DistinctVehicles(rs: seq<Violator>) {
    forall i, j :: 0 <= i < j < |rs| ==> rs[i].vehicleId != rs[j].vehicleId
  }

  /** One ranking entry per tally entry keeps the vehicles distinct. */
  lemma CandidatesDistinct(ts: seq<VehicleTally>)
    requires DistinctIds(ts) && forall t :: t in ts ==> t.count >= 1
    ensures DistinctVehicles(ToViolators(ts))
  {
    var cs := ToViolators(ts);
    forall i, j | 0 <= i < j < |cs| ensures cs[i].vehicleId != cs[j].vehicleId {
      assert cs[i].vehicleId == ts[i].vehicleId && cs[j].vehicleId == ts[j].vehicleId;
    }
  }

  /** Entries drawn from candidates with distinct vehicles, no more often
      than the candidates hold them, have distinct vehicles. */
  lemma SubRankingDistinct(r: seq<Violator>, cs: seq<Violator>)
    requires DistinctVehicles(cs) && multiset(r) <= multiset(cs)
    ensures DistinctVehicles(r)
  {
    forall i, j | 0 <= i < j < |r| ensures r[i].vehicleId != r[j].vehicleId {
      if r[i].vehicleId == r[j].vehicleId {
        assert r[i] in multiset(cs) && r[j] in multiset(cs);
        var a :| 0 <= a < |cs| && cs[a] == r[i];
        var b :| 0 <= b < |cs| && cs[b] == r[j];
        assert a == b;
        TwoIndicesTwoCopies(r, i, j);
        assert forall k :: 0 <= k < |cs| && k != a ==> cs[k] != cs[a] by {
          forall k | 0 <= k < |cs| && k != a ensures cs[k].vehicleId != cs[a].vehicleId {
            if k < a { assert cs[k].vehicleId != cs[a].vehicleId; }
          }
        }
        OneIndexOneCopy(cs, a);
        assert false;
      }
    }
  }

  /** The ranking entry made from a faithful tally entry agrees with the
      violations of its vehicle. */
  lemma CandidateFaithful(vs: seq<SpeedViolation>, ts: seq<VehicleTally>, epochOf: string -> int, i: nat)
    requires TallyFaithful(vs, ts, epochOf) && i < |ts|
    ensures ts[i].count >= 1
    ensures ViolatorAgrees(vs, ToViolator(ts[i]), epochOf)
  {
    assert TallyMatches(vs, ts[i], epochOf);
    assert ts[i].vehicleId in TallyIds(ts) by { assert ts[i] in ts; }
    MatchesAgree(vs, ts[i], epochOf);
  }

  /** An agreeing tally entry of a violating vehicle gives an agreeing
      ranking entry. */
  lemma MatchesAgree(vs: seq<SpeedViolation>, t: VehicleTally, epochOf: string -> int)
    requires TallyMatches(vs, t, epochOf) && t.vehicleId in ViolatorIds(vs)
    ensures t.count >= 1
    ensures ViolatorAgrees(vs, ToViolator(t), epochOf)
  {
  }

  lemma CandidatesFaithful(vs: seq<SpeedViolation>, ts: seq<VehicleTally>, epochOf: string -> int,
                           top: seq<Violator>)
    requires TallyFaithful(vs, ts, epochOf)
    requires forall t :: t in ts ==> t.count >= 1
    requires multiset(top) <= multiset(ToViolators(ts))
    ensures forall x :: x in top ==> ViolatorAgrees(vs, x, epochOf)
  {
    var cs := ToViolators(ts);
    forall x | x in top ensures ViolatorAgrees(vs, x, epochOf) {
      assert x in multiset(cs);
      var i :| 0 <= i < |cs| && cs[i] == x;
      CandidateFaithful(vs, ts, epochOf, i);
    }
  }

  lemma OmittedDominated(vs: seq<SpeedViolation>, ts: seq<VehicleTally>, epochOf: string -> int,
                         top: seq<Violator>)
    requires TallyFaithful(vs, ts, epochOf)
    requires forall t :: t in ts ==> t.count >= 1
    requires forall x, y :: x in ToViolators(ts) && x !in top && y in top ==> x.totalViolations <= y.totalViolations
    ensures forall id :: id in ViolatorIds(vs) && (forall y :: y in top ==> y.vehicleId != id)
              ==> forall y :: y in top ==> |ViolationsOf(vs, id)| <= y.totalViolations
  {
    var cs := ToViolators(ts);
    forall id | id in ViolatorIds(vs) && (forall y :: y in top ==> y.vehicleId != id)
      ensures forall y :: y in top ==> |ViolationsOf(vs, id)| <= y.totalViolations
    {
      assert id in TallyIds(ts);
      var t :| t in ts && t.vehicleId == id;
      var i :| 0 <= i < |ts| && ts[i] == t;
      CandidateFaithful(vs, ts, epochOf, i);
      assert cs[i] in cs && cs[i] !in top;
    }
  }

  /** The ranked top violators: at most ten, by non-increasing count, one
      per vehicle, each agreeing with its vehicle's violations (count,
      average excess, name, latest timestamp), and no violating vehicle left out has more
      violations than any vehicle listed. */
  function Ranking(vs: seq<SpeedViolation>, epochOf: string -> int): (r: seq<Violator>)
    ensures |r| == if |ViolatorIds(vs)| < TopCount then |ViolatorIds(vs)| else TopCount
    ensures NonIncreasing(r)
    ensures DistinctVehicles(r)
    ensures forall x :: x in r ==> ViolatorAgrees(vs, x, epochOf)
    ensures forall id :: id in ViolatorIds(vs) && (forall y :: y in r ==> y.vehicleId != id)
              ==> forall y :: y in r ==> |ViolationsOf(vs, id)| <= y.totalViolations
  {
    var tallies := TallyByVehicle(vs, epochOf);
    DistinctIdsCount(tallies);
    TallyCountsPositive(vs, epochOf);
    var top := TopViolators(ToViolators(tallies));
    CandidatesDistinct(tallies);
    SubRankingDistinct(top, ToViolators(tallies));
    CandidatesFaithful(vs, tallies, epochOf, top);
    OmittedDominated(vs, tallies, epochOf, top);
    top
  }

  datatype Stats = Stats(
    totalViolations: nat,
    vehiclesWithViolations: nat,
    averageExcessSpeed: real,
    violationsByDay: seq<DayCount>,
    topViolators: seq<Violator>)

  /** The mean excess speed: 0 for no violations, else sum over count. */
  function AverageExcess(vs: seq<SpeedViolation>): (r: real)
    ensures |vs| == 0 ==> r == 0.0
    ensures |vs| > 0 ==> r * (|vs| as real) == SumExcess(vs) as real
  {
    if |vs| > 0 then SumExcess(vs) as real / |vs| as real else 0.0
  }

  /** `getSpeedStats` once the violations of the period are fetched. */
  function GetSpeedStats(vs: seq<SpeedViolation>, epochOf: string -> int): (r: Stats)
    ensures r.totalViolations == |vs|
    ensures r.vehiclesWithViolations == |ViolatorIds(vs)|
    ensures r.averageExcessSpeed == AverageExcess(vs)
    ensures r.violationsByDay == ViolationsByDay(vs)
    ensures r.topViolators == Ranking(vs, epochOf)
    ensures SumDays(r.violationsByDay) == r.totalViolations
    ensures |r.topViolators| <= TopCount
    ensures |r.topViolators| <= r.vehiclesWithViolations
    ensures DistinctVehicles(r.topViolators)
  {
    TallySize(vs, epochOf);
    Stats(|vs|, |TallyByVehicle(vs, epochOf)|, AverageExcess(vs), ViolationsByDay(vs), Ranking(vs, epochOf))
  }
}
