/** First-quarter comparisons between the 2024 baseline and the 2025 audit period:
    trip volume into the congestion zone, average speed inside it, and the change in
    drop-offs per zone (the border effect). */
module Comparative {
  import opened Wrappers
  import opened Calendar
  import opened Aggregates
  import opened Trips

  datatype Period = Q1Of2024 | Q1Of2025

  /** The `period` column text. */
  function PeriodLabel(p: Period): string {
    match p
    case Q1Of2024 => "2024 Q1"
    case Q1Of2025 => "2025 Q1"
  }

  /** The two periods are told apart by their `period` text. */
  lemma PeriodLabelsDistinct(a: Period, b: Period)
    ensures PeriodLabel(a) == PeriodLabel(b) <==> a == b
  {
    if a != b {
      assert PeriodLabel(a)[3] != PeriodLabel(b)[3];
    }
  }

  /** A query whose `IN (...)` list is rendered from an empty zone list is not valid SQL. */
  datatype QueryError = EmptyZoneList

  // ---------------------------------------------------------------------------------
  // Volume

  datatype VolumeRow = VolumeRow(period: Period, taxiType: TaxiType, tripCount: nat)

  /** First-quarter trips whose drop-off zone is in the zone list. */
  function ZoneBoundTrips(trips: seq<Trip>, zones: seq<int>): (r: seq<Trip>)
    ensures forall i :: 0 <= i < |r| ==> InFirstQuarter(r[i]) && r[i].doZone in zones
    ensures forall t :: t in trips && InFirstQuarter(t) && t.doZone in zones ==> t in r
    ensures forall t :: multiset(r)[t] == if InFirstQuarter(t) && t.doZone in zones then multiset(trips)[t] else 0
    ensures SubsequenceOf(r, trips)
  {
    var p := (t: Trip) => InFirstQuarter(t) && t.doZone in zones;
    FilterIsSubsequence(trips, p);
    forall t ensures multiset(Filter(trips, p))[t] == if p(t) then multiset(trips)[t] else 0 {
      FilterCounts(trips, p, t);
    }
    Filter(trips, p)
  }

  /** `count(*)` of one taxi type. */
  function CountOfType(ts: seq<Trip>, ty: TaxiType): nat {
    CountWhere(ts, (t: Trip) => t.taxiType == ty)
  }

  /** Every trip is either Yellow or Green. */
  lemma {:induction false} TypeCountsAddUp(ts: seq<Trip>)
    ensures CountOfType(ts, Yellow) + CountOfType(ts, Green) == |ts|
  {
    if |ts| > 0 {
      TypeCountsAddUp(ts[1..]);
    }
  }

  function TypesOf(rows: seq<VolumeRow>): seq<TaxiType>
  {
    seq(|rows|, i requires 0 <= i < |rows| => rows[i].taxiType)
  }

  function SumCounts(rows: seq<VolumeRow>): nat {
    if |rows| == 0 then 0 else rows[0].tripCount + SumCounts(rows[1..])
  }

  /** `SELECT period, taxi_type, count(*) ... WHERE DOLocationID IN zones GROUP BY taxi_type`
      for one period: a row for each taxi type that has zone-bound trips. */
  function PeriodVolume(period: Period, trips: seq<Trip>, zones: seq<int>): (r: seq<VolumeRow>)
    ensures |r| <= 2
    ensures forall i :: 0 <= i < |r| ==>
              && r[i].period == period
              && r[i].tripCount > 0
              && r[i].tripCount == CountOfType(ZoneBoundTrips(trips, zones), r[i].taxiType)
    ensures forall i, j :: 0 <= i < j < |r| ==> r[i].taxiType != r[j].taxiType
    ensures forall ty :: CountOfType(ZoneBoundTrips(trips, zones), ty) > 0 ==> ty in TypesOf(r)
    ensures SumCounts(r) == |ZoneBoundTrips(trips, zones)|
  {
    var bound := ZoneBoundTrips(trips, zones);
    TypeRowsCount(period, bound);
    TypeRows(period, bound)
  }

  /** The Yellow row, then the Green row, each only when its count is positive. */
  function TypeRows(period: Period, bound: seq<Trip>): seq<VolumeRow> {
    var yellow, green := CountOfType(bound, Yellow), CountOfType(bound, Green);
    (if yellow > 0 then [VolumeRow(period, Yellow, yellow)] else [])
      + (if green > 0 then [VolumeRow(period, Green, green)] else [])
  }

  /** `count(*) ... GROUP BY taxi_type` over the trips `bound`. */
  lemma TypeRowsCount(period: Period, bound: seq<Trip>)
    ensures var r := TypeRows(period, bound);
            && |r| <= 2
            && (forall i :: 0 <= i < |r| ==>
                  r[i].period == period && r[i].tripCount > 0 && r[i].tripCount == CountOfType(bound, r[i].taxiType))
            && (forall i, j :: 0 <= i < j < |r| ==> r[i].taxiType != r[j].taxiType)
            && (forall ty :: CountOfType(bound, ty) > 0 ==> ty in TypesOf(r))
            && SumCounts(r) == |bound|
  {
    var yellow, green := CountOfType(bound, Yellow), CountOfType(bound, Green);
    TypeCountsAddUp(bound);
    var ys := if yellow > 0 then [VolumeRow(period, Yellow, yellow)] else [];
    var gs := if green > 0 then [VolumeRow(period, Green, green)] else [];
    SumCountsAppend(ys, gs);
    var r := ys + gs;
    assert r == TypeRows(period, bound);
    assert TypesOf(r) == (if yellow > 0 then [Yellow] else []) + (if green > 0 then [Green] else []);
  }

  lemma {:induction false} SumCountsAppend(a: seq<VolumeRow>, b: seq<VolumeRow>)
    ensures SumCounts(a + b) == SumCounts(a) + SumCounts(b)
  {
    if |a| > 0 {
      assert (a + b)[1..] == a[1..] + b;
      SumCountsAppend(a[1..], b);
    } else {
      assert a + b == b;
    }
  }

  /** The volume comparison: the 2024 rows, then the 2025 rows. */
  function VolumeComparison(trips2024: seq<Trip>, trips2025: seq<Trip>, zones: seq<int>): (r: Result<seq<VolumeRow>, QueryError>)
    ensures r.Failure? <==> |zones| == 0
    ensures r.Success? ==> r.value == PeriodVolume(Q1Of2024, trips2024, zones) + PeriodVolume(Q1Of2025, trips2025, zones)
  {
    if |zones| == 0 then Failure(EmptyZoneList)
    else Success(PeriodVolume(Q1Of2024, trips2024, zones) + PeriodVolume(Q1Of2025, trips2025, zones))
  }

  // ---------------------------------------------------------------------------------
  // Velocity

  datatype SpeedRow = SpeedRow(period: Period, dow: int, hod: int, avgSpeed: real)

  /** SQL `x < c` on a NULL-able value is true only for a present value below `c`. */
  predicate Below(x: Option<real>, c: real) {
    x.Some? && x.value < c
  }

  /** The "plausible trip" filter of the velocity query. */
  predicate Plausible(t: Trip, zones: seq<int>) {
    && t.puZone in zones && t.doZone in zones
    && DurationSeconds(t) > 60
    && t.distance > 0.1
    && Below(NullableSpeed(t), 100.0)
    && InFirstQuarter(t)
  }

  /** The grouping key `(dayofweek(pickup), hour(pickup))`. */
  function SlotOf(t: Trip): (int, int) {
    (DayOfWeek(t.pickup), t.pickup.hour)
  }

  /** A plausible trip has a speed strictly between 0 and 100 mph. */
  lemma PlausibleSpeedBounds(t: Trip, zones: seq<int>)
    requires Plausible(t, zones)
    ensures 0.0 < NullableSpeed(t).value < 100.0
  {
    var h := DurationSeconds(t) as real / 3600.0;
    assert h > 0.0;
    assert t.distance / h * h == t.distance;
  }

  function PlausibleTrips(trips: seq<Trip>, zones: seq<int>): (r: seq<Trip>)
    ensures forall i :: 0 <= i < |r| ==> Plausible(r[i], zones)
    ensures forall t :: t in r <==> t in trips && Plausible(t, zones)
    ensures forall t :: multiset(r)[t] == if Plausible(t, zones) then multiset(trips)[t] else 0
    ensures SubsequenceOf(r, trips)
  {
    var p := (t: Trip) => Plausible(t, zones);
    FilterIsSubsequence(trips, p);
    forall t ensures multiset(Filter(trips, p))[t] == if p(t) then multiset(trips)[t] else 0 {
      FilterCounts(trips, p, t);
    }
    Filter(trips, p)
  }

  /** (slot, speed) for every plausible trip. */
  function SpeedSamples(trips: seq<Trip>, zones: seq<int>): (r: seq<((int, int), real)>)
    ensures |r| == |PlausibleTrips(trips, zones)|
    ensures forall i :: 0 <= i < |r| ==> r[i].0 == SlotOf(PlausibleTrips(trips, zones)[i]) && 0.0 < r[i].1 < 100.0
    ensures forall i :: 0 <= i < |r| ==> NullableSpeed(PlausibleTrips(trips, zones)[i]) == Some(r[i].1)
  {
    var ps := PlausibleTrips(trips, zones);
    var r := seq(|ps|, i requires 0 <= i < |ps| => (SlotOf(ps[i]), NullableSpeed(ps[i]).value));
    forall i | 0 <= i < |r| ensures 0.0 < r[i].1 < 100.0 {
      PlausibleSpeedBounds(ps[i], zones);
    }
    r
  }

  function SlotsOfTrips(ts: seq<Trip>): seq<(int, int)>
  {
    seq(|ts|, i requires 0 <= i < |ts| => SlotOf(ts[i]))
  }

  function SlotsOfRows(rows: seq<SpeedRow>): seq<(int, int)>
  {
    seq(|rows|, i requires 0 <= i < |rows| => (rows[i].dow, rows[i].hod))
  }

  /** One row per listed slot, carrying that slot's average speed. */
  function SlotRows(period: Period, samples: seq<((int, int), real)>, slots: seq<(int, int)>): (r: seq<SpeedRow>)
    requires forall i :: 0 <= i < |slots| ==> SqlAvg(samples, slots[i]).Some?
    ensures |r| == |slots|
    ensures forall i :: 0 <= i < |r| ==>
              r[i].period == period && (r[i].dow, r[i].hod) == slots[i] && SqlAvg(samples, slots[i]) == Some(r[i].avgSpeed)
  {
    seq(|slots|, i requires 0 <= i < |slots| => SpeedRow(period, slots[i].0, slots[i].1, SqlAvg(samples, slots[i]).value))
  }

  /** `AVG(speed) ... GROUP BY dayofweek, hour` over plausible trips of one period:
      one row per slot that has a plausible trip, each average strictly between 0 and 100 mph. */
  function PeriodVelocity(period: Period, trips: seq<Trip>, zones: seq<int>): (r: seq<SpeedRow>)
    ensures forall i :: 0 <= i < |r| ==>
              && r[i].period == period
              && 0 <= r[i].dow < 7 && 0 <= r[i].hod < 24
              && 0.0 < r[i].avgSpeed < 100.0
              && SqlAvg(SpeedSamples(trips, zones), (r[i].dow, r[i].hod)) == Some(r[i].avgSpeed)
    ensures Distinct(SlotsOfRows(r))
    ensures forall t :: t in trips && Plausible(t, zones) ==> SlotOf(t) in SlotsOfRows(r)
    ensures forall k :: k in SlotsOfRows(r) ==> k in SlotsOfTrips(PlausibleTrips(trips, zones))
  {
    var samples := SpeedSamples(trips, zones);
    var slots := Keys(SlotsOfTrips(PlausibleTrips(trips, zones)));
    forall i | 0 <= i < |slots|
      ensures 0 <= slots[i].0 < 7 && 0 <= slots[i].1 < 24
      ensures SqlAvg(samples, slots[i]).Some? && 0.0 < SqlAvg(samples, slots[i]).value < 100.0
    {
      SlotInRange(PlausibleTrips(trips, zones), slots[i]);
      SlotAverageWithin(trips, zones, slots[i]);
    }
    var r := SlotRows(period, samples, slots);
    assert SlotsOfRows(r) == slots;
    forall t | t in trips && Plausible(t, zones) ensures SlotOf(t) in slots {
      PlausibleSlotListed(trips, zones, t);
    }
    r
  }

  /** A slot with a plausible trip has a defined average strictly between 0 and 100 mph. */
  lemma SlotAverageWithin(trips: seq<Trip>, zones: seq<int>, k: (int, int))
    requires k in SlotsOfTrips(PlausibleTrips(trips, zones))
    ensures SqlAvg(SpeedSamples(trips, zones), k).Some?
    ensures 0.0 < SqlAvg(SpeedSamples(trips, zones), k).value < 100.0
  {
    var samples := SpeedSamples(trips, zones);
    var slots := SlotsOfTrips(PlausibleTrips(trips, zones));
    var j :| 0 <= j < |slots| && slots[j] == k;
    assert samples[j].0 == k;
    CountPositive(samples, k, j);
    AverageWithin(samples, k);
  }

  lemma SlotInRange(ts: seq<Trip>, k: (int, int))
    requires k in SlotsOfTrips(ts)
    ensures 0 <= k.0 < 7 && 0 <= k.1 < 24
  {
    var slots := SlotsOfTrips(ts);
    var j :| 0 <= j < |slots| && slots[j] == k;
    assert k == SlotOf(ts[j]);
  }

  lemma PlausibleSlotListed(trips: seq<Trip>, zones: seq<int>, t: Trip)
    requires t in trips && Plausible(t, zones)
    ensures SlotOf(t) in SlotsOfTrips(PlausibleTrips(trips, zones))
  {
    var ps := PlausibleTrips(trips, zones);
    var j :| 0 <= j < |ps| && ps[j] == t;
    assert SlotsOfTrips(ps)[j] == SlotOf(t);
  }

  lemma {:induction false} CountPositive<K>(xs: seq<(K, real)>, k: K, j: nat)
    requires j < |xs| && xs[j].0 == k
    ensures CountFor(xs, k) > 0
  {
    if j < |xs| - 1 {
      CountPositive(xs[..|xs| - 1], k, j);
    }
  }

  /** The velocity table: the 2024 rows, then the 2025 rows. */
  function VelocityMetrics(trips2024: seq<Trip>, trips2025: seq<Trip>, zones: seq<int>): (r: Result<seq<SpeedRow>, QueryError>)
    ensures r.Failure? <==> |zones| == 0
    ensures r.Success? ==> r.value == PeriodVelocity(Q1Of2024, trips2024, zones) + PeriodVelocity(Q1Of2025, trips2025, zones)
  {
    if |zones| == 0 then Failure(EmptyZoneList)
    else Success(PeriodVelocity(Q1Of2024, trips2024, zones) + PeriodVelocity(Q1Of2025, trips2025, zones))
  }

  // ---------------------------------------------------------------------------------
  // Border effect

  /** The drop-off zone of every first-quarter trip of a period, in input order. */
  function Q1DropoffZones(trips: seq<Trip>): (zs: seq<int>)
    ensures |zs| == CountWhere(trips, InFirstQuarter)
    ensures forall i :: 0 <= i < |zs| ==> zs[i] == Filter(trips, InFirstQuarter)[i].doZone
    ensures forall z :: z in zs <==> exists t :: t in trips && InFirstQuarter(t) && t.doZone == z
  {
    if |trips| == 0 then []
    else
      var init, t := trips[..|trips| - 1], trips[|trips| - 1];
      var rest := Q1DropoffZones(init);
      assert trips == init + [t];
      FilterAppend(init, t, InFirstQuarter);
      assert forall u :: u in trips <==> u in init || u == t;
      if InFirstQuarter(t) then rest + [t.doZone] else rest
  }

  /** Whether a trip is a first-quarter drop-off in zone `z`. */
  function DropsOffIn(z: int): Trip -> bool {
    (t: Trip) => InFirstQuarter(t) && t.doZone == z
  }

  /** A zone occurs in the drop-off list once per first-quarter trip that ends there:
      the `count(*) ... GROUP BY DOLocationID` of the border query. */
  lemma {:induction false} Q1DropoffCount(trips: seq<Trip>, z: int)
    ensures multiset(Q1DropoffZones(trips))[z] == CountWhere(trips, DropsOffIn(z))
  {
    if |trips| > 0 {
      var init, t := trips[..|trips| - 1], trips[|trips| - 1];
      assert trips == init + [t];
      Q1DropoffCount(init, z);
      FilterAppend(init, t, DropsOffIn(z));
      if InFirstQuarter(t) {
        assert Q1DropoffZones(trips) == Q1DropoffZones(init) + [t.doZone];
      } else {
        assert Q1DropoffZones(trips) == Q1DropoffZones(init);
      }
    }
  }

  /** Percentage change from `before` to `after` drop-offs; a zero baseline reports 0. */
  function PctChange(before: nat, after: nat): real {
    if before != 0 then (after as real - before as real) / before as real * 100.0 else 0.0
  }

  /** The change is a fraction of the baseline: `pct * before == (after - before) * 100`,
      it never drops below -100, and its sign is the sign of the growth. */
  lemma PctChangeMeaning(before: nat, after: nat)
    ensures before == 0 ==> PctChange(before, after) == 0.0
    ensures before > 0 ==> PctChange(before, after) * before as real == (after as real - before as real) * 100.0
    ensures PctChange(before, after) >= -100.0
    ensures PctChange(before, after) > 0.0 <==> before > 0 && after > before
    ensures PctChange(before, after) < 0.0 <==> after < before
    ensures PctChange(before, after) == -100.0 <==> before > 0 && after == 0
  {
    if before > 0 {
      var b, a := before as real, after as real;
      var q := (a - b) / b;
      assert q * b == a - b;
      assert PctChange(before, after) == q * 100.0;
      if a >= b { assert q >= 0.0; } else { assert q < 0.0; }
      assert q >= -1.0 by { assert (q + 1.0) * b == a; }
      assert (q + 1.0) * b == a;
      if a == 0.0 {
        assert (q + 1.0) * b == 0.0;
        assert q + 1.0 == 0.0;
      } else {
        assert q + 1.0 != 0.0;
      }
    }
  }

  datatype BorderRow = BorderRow(zone: int, count2024: nat, count2025: nat, pctChange: real)

  /** One row per zone of `keys`, counting the zone in each period's drop-offs. */
  function BorderRows(keys: seq<int>, z2024: seq<int>, z2025: seq<int>): (r: seq<BorderRow>)
    ensures |r| == |keys|
    ensures forall i :: 0 <= i < |r| ==>
              && r[i].zone == keys[i]
              && r[i].count2024 == multiset(z2024)[keys[i]]
              && r[i].count2025 == multiset(z2025)[keys[i]]
              && r[i].pctChange == PctChange(r[i].count2024, r[i].count2025)
  {
    if |keys| == 0 then []
    else
      var k := keys[|keys| - 1];
      var c24, c25 := multiset(z2024)[k], multiset(z2025)[k];
      BorderRows(keys[..|keys| - 1], z2024, z2025) + [BorderRow(k, c24, c25, PctChange(c24, c25))]
  }

  function ZonesOf(rows: seq<BorderRow>): seq<int>
  {
    seq(|rows|, i requires 0 <= i < |rows| => rows[i].zone)
  }

  /** Drop-offs per zone in each first quarter, outer-joined on the zone (a zone missing
      from one period counts 0 there), in ascending zone order, with the percentage change. */
  function BorderAnalysis(trips2024: seq<Trip>, trips2025: seq<Trip>): (r: seq<BorderRow>)
    ensures StrictlyIncreasing(ZonesOf(r))
    ensures forall z :: z in ZonesOf(r) <==> z in Q1DropoffZones(trips2024) || z in Q1DropoffZones(trips2025)
    ensures forall i :: 0 <= i < |r| ==>
              && r[i].count2024 == multiset(Q1DropoffZones(trips2024))[r[i].zone]
              && r[i].count2025 == multiset(Q1DropoffZones(trips2025))[r[i].zone]
              && r[i].count2024 + r[i].count2025 > 0
              && r[i].pctChange == PctChange(r[i].count2024, r[i].count2025)
  {
    var z24, z25 := Q1DropoffZones(trips2024), Q1DropoffZones(trips2025);
    var keys := SortedDistinct(z24 + z25);
    var r := BorderRows(keys, z24, z25);
    assert ZonesOf(r) == keys;
    forall i | 0 <= i < |r| ensures r[i].count2024 + r[i].count2025 > 0 {
      assert keys[i] in z24 + z25;
    }
    r
  }

  function Column2024(rows: seq<BorderRow>): nat {
    if |rows| == 0 then 0 else Column2024(rows[..|rows| - 1]) + rows[|rows| - 1].count2024
  }

  function Column2025(rows: seq<BorderRow>): nat {
    if |rows| == 0 then 0 else Column2025(rows[..|rows| - 1]) + rows[|rows| - 1].count2025
  }

  /** Occurrences in `xs` of the keys `ks`, added up. */
  function Occurrences(xs: seq<int>, ks: seq<int>): nat {
    if |ks| == 0 then 0 else Occurrences(xs, ks[..|ks| - 1]) + multiset(xs)[ks[|ks| - 1]]
  }

  lemma {:induction false} OccurrencesAppend(xs: seq<int>, e: int, ks: seq<int>)
    requires Distinct(ks)
    ensures Occurrences(xs + [e], ks) == Occurrences(xs, ks) + (if e in ks then 1 else 0)
  {
    if |ks| > 0 {
      var init := ks[..|ks| - 1];
      assert Distinct(init);
      OccurrencesAppend(xs, e, init);
      assert multiset(xs + [e]) == multiset(xs) + multiset{e};
      assert e in ks <==> e in init || e == ks[|ks| - 1];
      assert e == ks[|ks| - 1] ==> e !in init;
    }
  }

  /** Distinct keys covering every element count each element exactly once. */
  lemma {:induction false} OccurrencesCover(xs: seq<int>, ks: seq<int>)
    requires Distinct(ks)
    requires forall x :: x in xs ==> x in ks
    ensures Occurrences(xs, ks) == |xs|
  {
    if |xs| == 0 {
      OccurrencesOfNothing(xs, ks);
    } else {
      var init := xs[..|xs| - 1];
      assert xs == init + [xs[|xs| - 1]];
      OccurrencesCover(init, ks);
      OccurrencesAppend(init, xs[|xs| - 1], ks);
    }
  }

  lemma {:induction false} OccurrencesOfNothing(xs: seq<int>, ks: seq<int>)
    requires |xs| == 0
    ensures Occurrences(xs, ks) == 0
  {
    if |ks| > 0 {
      OccurrencesOfNothing(xs, ks[..|ks| - 1]);
    }
  }

  lemma {:induction false} ColumnsAreOccurrences(keys: seq<int>, z2024: seq<int>, z2025: seq<int>)
    ensures Column2024(BorderRows(keys, z2024, z2025)) == Occurrences(z2024, keys)
    ensures Column2025(BorderRows(keys, z2024, z2025)) == Occurrences(z2025, keys)
  {
    if |keys| > 0 {
      var rows := BorderRows(keys, z2024, z2025);
      assert rows[..|rows| - 1] == BorderRows(keys[..|keys| - 1], z2024, z2025);
      ColumnsAreOccurrences(keys[..|keys| - 1], z2024, z2025);
    }
  }

  /** The outer join loses no drop-off: each count column adds up to the period's
      number of first-quarter trips. */
  lemma BorderCountsAddUp(trips2024: seq<Trip>, trips2025: seq<Trip>)
    ensures Column2024(BorderAnalysis(trips2024, trips2025)) == |Q1DropoffZones(trips2024)|
    ensures Column2025(BorderAnalysis(trips2024, trips2025)) == |Q1DropoffZones(trips2025)|
  {
    var z24, z25 := Q1DropoffZones(trips2024), Q1DropoffZones(trips2025);
    var keys := SortedDistinct(z24 + z25);
    IncreasingIsDistinct(keys);
    assert BorderAnalysis(trips2024, trips2025) == BorderRows(keys, z24, z25);
    ColumnsAreOccurrences(keys, z24, z25);
    forall x | x in z24 ensures x in keys { assert x in z24 + z25; }
    forall x | x in z25 ensures x in keys { assert x in z24 + z25; }
    OccurrencesCover(z24, keys);
    OccurrencesCover(z25, keys);
  }
}
