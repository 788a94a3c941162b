/** The canonical trip record and the schema unification that produces it from the two
    raw file layouts. Yellow files name their timestamps `tpep_pickup_datetime` and
    `tpep_dropoff_datetime`, Green files `lpep_...`; everything else is shared. */
module Trips {
  import opened Wrappers
  import opened Calendar

  datatype TaxiType = Yellow | Green

  /** One row of a Yellow trip file, restricted to the columns the analytics select. */
  datatype YellowRow = YellowRow(
    vendorId: int,
    tpepPickup: DateTime,
    tpepDropoff: DateTime,
    tripDistance: real,
    fareAmount: Option<real>,
    totalAmount: Option<real>,
    tipAmount: Option<real>,
    congestionSurcharge: Option<real>,
    puLocationId: int,
    doLocationId: int)

  /** One row of a Green trip file, restricted to the columns the analytics select. */
  datatype GreenRow = GreenRow(
    vendorId: int,
    lpepPickup: DateTime,
    lpepDropoff: DateTime,
    tripDistance: real,
    fareAmount: Option<real>,
    totalAmount: Option<real>,
    tipAmount: Option<real>,
    congestionSurcharge: Option<real>,
    puLocationId: int,
    doLocationId: int)

  /** A row of the unified view: NULL-able money columns stay NULL-able. */
  datatype Trip = Trip(
    vendorId: int,
    pickup: DateTime,
    dropoff: DateTime,
    distance: real,
    fare: Option<real>,
    total: Option<real>,
    tip: Option<real>,
    surcharge: Option<real>,
    puZone: int,
    doZone: int,
    taxiType: TaxiType)

  function FromYellow(y: YellowRow): (t: Trip)
    ensures t.taxiType == Yellow
  {
    Trip(y.vendorId, y.tpepPickup, y.tpepDropoff, y.tripDistance, y.fareAmount, y.totalAmount,
         y.tipAmount, y.congestionSurcharge, y.puLocationId, y.doLocationId, Yellow)
  }

  function FromGreen(g: GreenRow): (t: Trip)
    ensures t.taxiType == Green
  {
    Trip(g.vendorId, g.lpepPickup, g.lpepDropoff, g.tripDistance, g.fareAmount, g.totalAmount,
         g.tipAmount, g.congestionSurcharge, g.puLocationId, g.doLocationId, Green)
  }

  /** The Yellow row a unified Yellow trip came from. */
  function ToYellow(t: Trip): YellowRow
    requires t.taxiType == Yellow
  {
    YellowRow(t.vendorId, t.pickup, t.dropoff, t.distance, t.fare, t.total, t.tip, t.surcharge, t.puZone, t.doZone)
  }

  /** The Green row a unified Green trip came from. */
  function ToGreen(t: Trip): GreenRow
    requires t.taxiType == Green
  {
    GreenRow(t.vendorId, t.pickup, t.dropoff, t.distance, t.fare, t.total, t.tip, t.surcharge, t.puZone, t.doZone)
  }

  /** Unification renames columns and adds a tag but loses nothing: each raw row can be
      recovered from its unified row, and a unified row determines its raw row. */
  lemma UnificationLossless(y: YellowRow, g: GreenRow, t: Trip)
    ensures ToYellow(FromYellow(y)) == y
    ensures ToGreen(FromGreen(g)) == g
    ensures t.taxiType == Yellow ==> FromYellow(ToYellow(t)) == t
    ensures t.taxiType == Green ==> FromGreen(ToGreen(t)) == t
  {
  }

  /** The unified view: `<yellow rows> UNION ALL <green rows>`, each tagged with its type. */
  function UnifiedTrips(yellow: seq<YellowRow>, green: seq<GreenRow>): (r: seq<Trip>)
    ensures |r| == |yellow| + |green|
    ensures forall i :: 0 <= i < |yellow| ==> r[i].taxiType == Yellow && ToYellow(r[i]) == yellow[i]
    ensures forall i :: 0 <= i < |green| ==> r[|yellow| + i].taxiType == Green && ToGreen(r[|yellow| + i]) == green[i]
  {
    seq(|yellow|, i requires 0 <= i < |yellow| => FromYellow(yellow[i]))
      + seq(|green|, i requires 0 <= i < |green| => FromGreen(green[i]))
  }

  /** `date_diff('second', pickup_datetime, dropoff_datetime)`. */
  function DurationSeconds(t: Trip): int {
    SecondsBetween(t.pickup, t.dropoff)
  }

  /** `trip_distance / (NULLIF(duration, 0) / 3600.0)`: miles per hour, NULL for a zero duration. */
  function NullableSpeed(t: Trip): (s: Option<real>)
    ensures s.None? <==> DurationSeconds(t) == 0
  {
    var d := DurationSeconds(t);
    if d == 0 then None else Some(t.distance / (d as real / 3600.0))
  }

  /** `month(pickup_datetime) <= 3`: the first calendar quarter. */
  predicate InFirstQuarter(t: Trip) {
    t.pickup.month <= 3
  }

  /** SQL `x > c` on a NULL-able column is true only for a present value above `c`. */
  predicate Exceeds(x: Option<real>, c: real) {
    x.Some? && x.value > c
  }
}
