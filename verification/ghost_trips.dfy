/** The ghost-trip audit: every unified trip gets the first anomaly rule it breaks
    (impossible speed, teleporter, stationary) or `Valid`; the flagged trips form the
    audit table, and their vendors are ranked by how many flagged trips they have. */
module GhostTrips {
  import opened Wrappers
  import opened Calendar
  import opened Aggregates
  import opened Ranking
  import opened Trips

  datatype AuditStatus = ImpossibleSpeed | Teleporter | Stationary | Valid

  /** The `audit_status` text written to the audit table. */
  function StatusLabel(s: AuditStatus): string {
    match s
    case ImpossibleSpeed => "Impossible Speed"
    case Teleporter => "Teleporter"
    case Stationary => "Stationary"
    case Valid => "Valid"
  }

  /** The `audit_status` text determines the status: no two statuses share a label. */
  lemma StatusLabelsDistinct(a: AuditStatus, b: AuditStatus)
    ensures StatusLabel(a) == StatusLabel(b) <==> a == b
  {
    if a != b {
      assert StatusLabel(a)[0] != StatusLabel(b)[0];
    }
  }

  /** The `speed_mph` column: miles per hour for a positive duration, 0 otherwise. */
  function SpeedMph(t: Trip): real {
    var d := DurationSeconds(t);
    if d > 0 then t.distance / (d as real / 3600.0) else 0.0
  }

  /** Faster than 65 mph over a non-zero distance; a zero duration makes the speed NULL. */
  predicate ImpossibleSpeedRule(t: Trip) {
    t.distance > 0.0 && Exceeds(NullableSpeed(t), 65.0)
  }

  /** Under a minute long but with a fare above $20. */
  predicate TeleporterRule(t: Trip) {
    DurationSeconds(t) < 60 && Exceeds(t.fare, 20.0)
  }

  /** No distance covered but a positive fare. */
  predicate StationaryRule(t: Trip) {
    t.distance == 0.0 && Exceeds(t.fare, 0.0)
  }

  /** Whether the rule behind status `s` fires for `t`; `Valid` is the catch-all. */
  predicate Matches(t: Trip, s: AuditStatus) {
    match s
    case ImpossibleSpeed => ImpossibleSpeedRule(t)
    case Teleporter => TeleporterRule(t)
    case Stationary => StationaryRule(t)
    case Valid => true
  }

  /** Position of each status in the `CASE` expression. */
  function Priority(s: AuditStatus): nat {
    match s
    case ImpossibleSpeed => 0
    case Teleporter => 1
    case Stationary => 2
    case Valid => 3
  }

  /** The `WHERE` clause of the audit and vendor queries: some rule fires. */
  predicate Flagged(t: Trip) {
    ImpossibleSpeedRule(t) || TeleporterRule(t) || StationaryRule(t)
  }

  /** The `audit_status` `CASE`: the earliest rule that fires wins. */
  function Classify(t: Trip): (s: AuditStatus)
    ensures Matches(t, s)
    ensures forall s' :: Matches(t, s') ==> Priority(s) <= Priority(s')
    ensures s != Valid <==> Flagged(t)
  {
    if ImpossibleSpeedRule(t) then ImpossibleSpeed
    else if TeleporterRule(t) then Teleporter
    else if StationaryRule(t) then Stationary
    else Valid
  }

  /** For a positive duration `dd` in seconds, the speed exceeds `c` mph exactly when the
      distance covered in an hour exceeds `c` times the duration. */
  lemma SpeedAboveIffCross(dist: real, dd: real, c: real)
    requires dd > 0.0
    ensures dist / (dd / 3600.0) > c <==> dist * 3600.0 > c * dd
  {
    var h := dd / 3600.0;
    var s := dist / h;
    assert s * h == dist;
    assert s * dd == dist * 3600.0;
    ScaleCompare(s, dd, c);
  }

  lemma ScaleCompare(s: real, dd: real, c: real)
    requires dd > 0.0
    ensures s > c <==> s * dd > c * dd
  {
    assert s * dd - c * dd == (s - c) * dd;
  }

  /** A positive distance over a negative duration gives a negative speed. */
  lemma SpeedNegative(dist: real, dd: real)
    requires dd < 0.0 && dist > 0.0
    ensures dist / (dd / 3600.0) < 0.0
  {
    var h := dd / 3600.0;
    assert h < 0.0;
    assert dist / h == -(dist / -h);
    assert dist / -h > 0.0 / -h;
  }

  /** The speed rule needs a positive duration: at zero the speed is NULL, and below zero it is
      not positive. For a positive duration it is the cross-multiplied test distance·3600 > 65·duration. */
  lemma ImpossibleSpeedCrossMultiplied(t: Trip)
    ensures ImpossibleSpeedRule(t) <==>
              t.distance > 0.0 && DurationSeconds(t) > 0 && t.distance * 3600.0 > 65.0 * (DurationSeconds(t) as real)
  {
    var d := DurationSeconds(t);
    if d > 0 {
      SpeedAboveIffCross(t.distance, d as real, 65.0);
    } else if d < 0 && t.distance > 0.0 {
      SpeedNegative(t.distance, d as real);
    }
  }

  /** The `speed_mph` column agrees with the speed the rules test whenever the latter is defined
      and the duration is positive, and is 0 otherwise. */
  lemma SpeedColumnAgrees(t: Trip)
    ensures DurationSeconds(t) > 0 ==> NullableSpeed(t) == Some(SpeedMph(t))
    ensures DurationSeconds(t) <= 0 ==> SpeedMph(t) == 0.0
  {
  }

  /** A trip of zero or negative duration with a fare above $20 is a teleporter. */
  lemma NonPositiveDurationTeleports(t: Trip)
    requires DurationSeconds(t) <= 0
    requires Exceeds(t.fare, 20.0)
    ensures Classify(t) == Teleporter
  {
    ImpossibleSpeedCrossMultiplied(t);
  }

  /** One row of the audit table: the trip's columns plus the three computed ones. */
  datatype AuditRow = AuditRow(trip: Trip, durationSeconds: int, speedMph: real, status: AuditStatus)

  function TripsOf(rows: seq<AuditRow>): seq<Trip>
  {
    seq(|rows|, i requires 0 <= i < |rows| => rows[i].trip)
  }

  /** The audit row of one trip. */
  function AuditRowOf(t: Trip): AuditRow {
    AuditRow(t, DurationSeconds(t), SpeedMph(t), Classify(t))
  }

  function AuditRows(ts: seq<Trip>): (rows: seq<AuditRow>)
    ensures |rows| == |ts|
    ensures forall i :: 0 <= i < |ts| ==> rows[i] == AuditRowOf(ts[i])
    ensures TripsOf(rows) == ts
  {
    seq(|ts|, i requires 0 <= i < |ts| => AuditRowOf(ts[i]))
  }

  /** The ghost-trip audit table: every trip with a non-`Valid` status, with its duration,
      speed and status, in input order and with duplicates kept. */
  function GhostTripAudit(trips: seq<Trip>): (rows: seq<AuditRow>)
    ensures forall i :: 0 <= i < |rows| ==>
              && rows[i].status == Classify(rows[i].trip) != Valid
              && rows[i].durationSeconds == DurationSeconds(rows[i].trip)
              && rows[i].speedMph == SpeedMph(rows[i].trip)
    ensures forall t :: multiset(TripsOf(rows))[t] == if Classify(t) != Valid then multiset(trips)[t] else 0
    ensures SubsequenceOf(TripsOf(rows), trips)
  {
    var rows := AuditRows(Filter(trips, Flagged));
    FlaggedTrips(trips, rows);
    rows
  }

  /** The `WHERE` filter keeps each trip with a non-`Valid` status as often as it occurs,
      drops every other trip, and keeps input order. */
  lemma FlaggedTrips(trips: seq<Trip>, rows: seq<AuditRow>)
    requires rows == AuditRows(Filter(trips, Flagged))
    ensures forall i :: 0 <= i < |rows| ==>
              && rows[i].status == Classify(rows[i].trip) != Valid
              && rows[i].durationSeconds == DurationSeconds(rows[i].trip)
              && rows[i].speedMph == SpeedMph(rows[i].trip)
    ensures forall t :: multiset(TripsOf(rows))[t] == if Classify(t) != Valid then multiset(trips)[t] else 0
    ensures SubsequenceOf(TripsOf(rows), trips)
  {
    var flagged := Filter(trips, Flagged);
    assert TripsOf(rows) == flagged;
    FilterIsSubsequence(trips, Flagged);
    forall t ensures multiset(flagged)[t] == if Classify(t) != Valid then multiset(trips)[t] else 0 {
      FilterCounts(trips, Flagged, t);
    }
  }

  function VendorsOf(rows: seq<AuditRow>): seq<int>
  {
    seq(|rows|, i requires 0 <= i < |rows| => rows[i].trip.vendorId)
  }

  /** The suspicious-vendor table: at most five vendors with their number of flagged trips,
      most flagged first; no vendor left out has more flagged trips than the last one listed. */
  function SuspiciousVendors(trips: seq<Trip>): (r: seq<Tally>)
    ensures |r| <= 5
    ensures forall i, j :: 0 <= i < j < |r| ==> r[i].count >= r[j].count
    ensures DistinctKeys(r)
    ensures forall i :: 0 <= i < |r| ==> r[i].count == multiset(VendorsOf(GhostTripAudit(trips)))[r[i].key] > 0
    ensures forall v :: v in VendorsOf(GhostTripAudit(trips)) && v !in KeysOf(r) ==>
              |r| == 5 && multiset(VendorsOf(GhostTripAudit(trips)))[v] <= r[4].count
  {
    TopN(VendorsOf(GhostTripAudit(trips)), 5)
  }

  /** 10 miles in 300 s is 120 mph. */
  lemma ImpossibleSpeedExample()
    ensures Classify(Trip(1, Civil(2025, 2, 3, 8, 0, 0), Civil(2025, 2, 3, 8, 5, 0), 10.0, Some(30.0), Some(35.0), Some(0.0), Some(2.5), 10, 20, Yellow)) == ImpossibleSpeed
  {
    var t := Trip(1, Civil(2025, 2, 3, 8, 0, 0), Civil(2025, 2, 3, 8, 5, 0), 10.0, Some(30.0), Some(35.0), Some(0.0), Some(2.5), 10, 20, Yellow);
    assert DurationSeconds(t) == 300;
    ImpossibleSpeedCrossMultiplied(t);
  }

  /** 1 mile in 30 s is 120 mph: the speed rule wins over the teleporter rule a $25 fare also breaks. */
  lemma SpeedRuleComesFirstExample()
    ensures Classify(Trip(1, Civil(2025, 2, 3, 8, 0, 0), Civil(2025, 2, 3, 8, 0, 30), 1.0, Some(25.0), Some(30.0), Some(0.0), Some(2.5), 10, 20, Yellow)) == ImpossibleSpeed
  {
    var t := Trip(1, Civil(2025, 2, 3, 8, 0, 0), Civil(2025, 2, 3, 8, 0, 30), 1.0, Some(25.0), Some(30.0), Some(0.0), Some(2.5), 10, 20, Yellow);
    assert DurationSeconds(t) == 30;
    ImpossibleSpeedCrossMultiplied(t);
  }

  /** 0.5 miles in 30 s across midnight is 60 mph, so a $25 fare makes it a teleporter. */
  lemma TeleporterExample()
    ensures Classify(Trip(2, Civil(2025, 2, 3, 23, 59, 50), Civil(2025, 2, 4, 0, 0, 20), 0.5, Some(25.0), Some(30.0), Some(0.0), None, 10, 20, Green)) == Teleporter
  {
    var t := Trip(2, Civil(2025, 2, 3, 23, 59, 50), Civil(2025, 2, 4, 0, 0, 20), 0.5, Some(25.0), Some(30.0), Some(0.0), None, 10, 20, Green);
    SameMonthNextDay(2025, 2, 3);
    assert DurationSeconds(t) == 30;
    ImpossibleSpeedCrossMultiplied(t);
  }

  /** No distance with a $5 fare is stationary. */
  lemma StationaryExample()
    ensures Classify(Trip(2, Civil(2025, 2, 3, 8, 0, 0), Civil(2025, 2, 3, 8, 5, 0), 0.0, Some(5.0), Some(6.0), None, None, 10, 20, Green)) == Stationary
  {
    var t := Trip(2, Civil(2025, 2, 3, 8, 0, 0), Civil(2025, 2, 3, 8, 5, 0), 0.0, Some(5.0), Some(6.0), None, None, 10, 20, Green);
    assert DurationSeconds(t) == 300;
  }
}
