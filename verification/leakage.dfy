/** The leakage and compliance audit over trips that enter the congestion zone from
    outside it on or after the policy start date ("eligible" trips). */
module Leakage {
  import opened Wrappers
  import opened Calendar
  import opened Aggregates
  import opened Ranking
  import opened Trips

  /** `'2025-01-05'` compared with a timestamp: midnight at the start of that day. */
  const PolicyStart: DateTime := Civil(2025, 1, 5, 0, 0, 0)

  /** Picked up on or after the policy start, outside the zone list, dropped off inside it. */
  predicate Eligible(t: Trip, zones: seq<int>) {
    OnOrAfter(t.pickup, PolicyStart) && t.puZone !in zones && t.doZone in zones
  }

  /** `congestion_surcharge IS NULL OR congestion_surcharge = 0`. */
  predicate MissingSurcharge(t: Trip) {
    t.surcharge.None? || t.surcharge.value == 0.0
  }

  /** `congestion_surcharge > 0`. */
  predicate PaidSurcharge(t: Trip) {
    Exceeds(t.surcharge, 0.0)
  }

  predicate Leaked(t: Trip, zones: seq<int>) {
    Eligible(t, zones) && MissingSurcharge(t)
  }

  /** The leaking trips, in input order. */
  function LeakageTrips(trips: seq<Trip>, zones: seq<int>): (r: seq<Trip>)
    ensures forall i :: 0 <= i < |r| ==>
              && OnOrAfter(r[i].pickup, PolicyStart)
              && r[i].puZone !in zones
              && r[i].doZone in zones
              && (r[i].surcharge.None? || r[i].surcharge.value == 0.0)
    ensures forall t :: t in trips && Leaked(t, zones) ==> t in r
    ensures forall t :: multiset(r)[t] == if Leaked(t, zones) then multiset(trips)[t] else 0
    ensures SubsequenceOf(r, trips)
  {
    var r := Filter(trips, t => Leaked(t, zones));
    FilterIsSubsequence(trips, t => Leaked(t, zones));
    forall t ensures multiset(r)[t] == if Leaked(t, zones) then multiset(trips)[t] else 0 {
      FilterCounts(trips, t => Leaked(t, zones), t);
    }
    r
  }

  function PickupZonesOf(trips: seq<Trip>): seq<int>
  {
    seq(|trips|, i requires 0 <= i < |trips| => trips[i].puZone)
  }

  /** The top-locations table: at most three pickup zones with their number of leaking trips,
      most first; no zone left out has more leaking trips than the last one listed. */
  function TopLeakageLocations(trips: seq<Trip>, zones: seq<int>): (r: seq<Tally>)
    ensures |r| <= 3
    ensures forall i, j :: 0 <= i < j < |r| ==> r[i].count >= r[j].count
    ensures DistinctKeys(r)
    ensures forall i :: 0 <= i < |r| ==>
              && r[i].key !in zones
              && r[i].count == multiset(PickupZonesOf(LeakageTrips(trips, zones)))[r[i].key] > 0
    ensures forall z :: z in PickupZonesOf(LeakageTrips(trips, zones)) && z !in KeysOf(r) ==>
              |r| == 3 && multiset(PickupZonesOf(LeakageTrips(trips, zones)))[z] <= r[2].count
  {
    var pickups := PickupZonesOf(LeakageTrips(trips, zones));
    var r := TopN(pickups, 3);
    forall i | 0 <= i < |r| ensures r[i].key !in zones {
      var j :| 0 <= j < |pickups| && pickups[j] == r[i].key;
    }
    r
  }

  /** The compliance statistics row. `complianceRate` is NULL when nothing is eligible. */
  datatype Compliance = Compliance(paidTrips: nat, totalEligibleTrips: nat, complianceRate: Option<real>)

  function EligibleTrips(trips: seq<Trip>, zones: seq<int>): seq<Trip> {
    Filter(trips, t => Eligible(t, zones))
  }

  lemma ScaledBelowHundred(q: real, p: real, w: real)
    requires 0.0 <= p <= w && 0.0 < w && q * w == p * 100.0
    ensures 0.0 <= q <= 100.0
    ensures q == 100.0 <==> p == w
    ensures q == 0.0 <==> p == 0.0
  {
    if q < 100.0 {
      assert q * w < 100.0 * w;
    }
  }

  /** `paid * 100.0 / NULLIF(total, 0)`: a percentage, NULL for a zero total. */
  function RatePercent(paid: nat, total: nat): (q: Option<real>)
    requires paid <= total
    ensures q.None? <==> total == 0
    ensures q.Some? ==> 0.0 <= q.value <= 100.0 && q.value * (total as real) == (paid as real) * 100.0
    ensures q.Some? ==> (q.value == 100.0 <==> paid == total) && (q.value == 0.0 <==> paid == 0)
  {
    if total == 0 then None
    else
      var p, w := paid as real, total as real;
      var q := p * 100.0 / w;
      assert q * w == p * 100.0;
      ScaledBelowHundred(q, p, w);
      Some(q)
  }

  /** `COUNT(*) FILTER (WHERE surcharge > 0)`, `COUNT(*)` and `paid * 100.0 / NULLIF(total, 0)`
      over the eligible trips. */
  function ComplianceStats(trips: seq<Trip>, zones: seq<int>): (c: Compliance)
    ensures c.totalEligibleTrips == |EligibleTrips(trips, zones)|
    ensures c.paidTrips == CountWhere(EligibleTrips(trips, zones), PaidSurcharge)
    ensures c.paidTrips <= c.totalEligibleTrips
    ensures c.complianceRate.None? <==> c.totalEligibleTrips == 0
    ensures c.complianceRate == RatePercent(c.paidTrips, c.totalEligibleTrips)
  {
    var eligible := EligibleTrips(trips, zones);
    var paid := |Filter(eligible, PaidSurcharge)|;
    Compliance(paid, |eligible|, RatePercent(paid, |eligible|))
  }

  predicate NegativeSurcharge(t: Trip) {
    t.surcharge.Some? && t.surcharge.value < 0.0
  }

  /** Every eligible trip is paid, leaking or carries a negative surcharge, and only one of them. */
  lemma {:induction false} EligibleTripsPartition(ts: seq<Trip>)
    ensures CountWhere(ts, PaidSurcharge) + CountWhere(ts, MissingSurcharge) + CountWhere(ts, NegativeSurcharge) == |ts|
  {
    if |ts| > 0 {
      EligibleTripsPartition(ts[1..]);
    }
  }

  /** Paid and leaking trips never overlap, so together they are at most the eligible trips;
      they make up all of them exactly when no eligible trip carries a negative surcharge. */
  lemma PaidAndLeakedWithinEligible(trips: seq<Trip>, zones: seq<int>)
    ensures ComplianceStats(trips, zones).paidTrips + |LeakageTrips(trips, zones)| + CountWhere(EligibleTrips(trips, zones), NegativeSurcharge)
              == ComplianceStats(trips, zones).totalEligibleTrips
    ensures forall t :: !(PaidSurcharge(t) && MissingSurcharge(t))
  {
    var eligible := EligibleTrips(trips, zones);
    EligibleTripsPartition(eligible);
    FilterOfFilter(trips, zones);
  }

  lemma {:induction false} FilterOfFilter(trips: seq<Trip>, zones: seq<int>)
    ensures Filter(EligibleTrips(trips, zones), MissingSurcharge) == LeakageTrips(trips, zones)
  {
    if |trips| > 0 {
      FilterOfFilter(trips[1..], zones);
    }
  }

  /** The leakage report, or nothing when the zone list is empty (the audit is skipped). */
  datatype LeakageReport = LeakageReport(topLocations: seq<Tally>, compliance: Compliance)

  function LeakageAudit(trips: seq<Trip>, zones: seq<int>): (r: Option<LeakageReport>)
    ensures r.None? <==> |zones| == 0
    ensures r.Some? ==> r.value.topLocations == TopLeakageLocations(trips, zones)
                        && r.value.compliance == ComplianceStats(trips, zones)
  {
    if |zones| == 0 then None
    else Some(LeakageReport(TopLeakageLocations(trips, zones), ComplianceStats(trips, zones)))
  }

  /** With zones {1, 2}: a trip from zone 9 into zone 1 after the start date with no surcharge
      leaks; the same trip with a $2.75 surcharge is paid; a day earlier it is not eligible. */
  lemma LeakageExamples()
    ensures Leaked(Trip(1, Civil(2025, 1, 5, 0, 0, 0), Civil(2025, 1, 5, 0, 20, 0), 3.0, Some(15.0), Some(18.0), Some(0.0), None, 9, 1, Yellow), [1, 2])
    ensures !Leaked(Trip(1, Civil(2025, 1, 5, 0, 0, 0), Civil(2025, 1, 5, 0, 20, 0), 3.0, Some(15.0), Some(18.0), Some(0.0), Some(2.75), 9, 1, Yellow), [1, 2])
    ensures PaidSurcharge(Trip(1, Civil(2025, 1, 5, 0, 0, 0), Civil(2025, 1, 5, 0, 20, 0), 3.0, Some(15.0), Some(18.0), Some(0.0), Some(2.75), 9, 1, Yellow))
    ensures !Eligible(Trip(1, Civil(2025, 1, 4, 23, 59, 59), Civil(2025, 1, 5, 0, 20, 0), 3.0, Some(15.0), Some(18.0), Some(0.0), None, 9, 1, Yellow), [1, 2])
  {
  }
}
