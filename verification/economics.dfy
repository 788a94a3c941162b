/** Monthly economics of the congestion surcharge over the 2025 trips, and the total
    surcharge revenue derived from it. */
module Economics {
  import opened Wrappers
  import opened Calendar
  import opened Aggregates
  import opened Trips

  /** A row of the monthly table. The SQL aggregates are NULL for a month whose trips
      carry no usable value, so they are options. */
  datatype MonthRow = MonthRow(
    year: int,
    month: int,
    totalSurcharge: Option<real>,
    avgSurcharge: Option<real>,
    avgTipPct: Option<real>)

  /** `tip_amount / NULLIF(total_amount - tip_amount, 0)`: NULL when either amount is NULL
      or when the pre-tip amount is zero. */
  function TipRatio(t: Trip): (r: Option<real>)
    ensures r.Some? <==> t.tip.Some? && t.total.Some? && t.total.value != t.tip.value
    ensures r.Some? ==> r.value * (t.total.value - t.tip.value) == t.tip.value
  {
    if t.tip.None? || t.total.None? then None
    else if t.total.value - t.tip.value == 0.0 then None
    else Some(t.tip.value / (t.total.value - t.tip.value))
  }

  /** The grouping key of every trip, in input order. */
  function MonthIndexes(trips: seq<Trip>): (ms: seq<int>)
    ensures |ms| == |trips|
    ensures forall i :: 0 <= i < |trips| ==> ms[i] == MonthIndex(trips[i].pickup)
  {
    if |trips| == 0 then [] else MonthIndexes(trips[..|trips| - 1]) + [MonthIndex(trips[|trips| - 1].pickup)]
  }

  predicate HasSurcharge(t: Trip) {
    t.surcharge.Some?
  }

  predicate HasTipRatio(t: Trip) {
    TipRatio(t).Some?
  }

  /** (month, surcharge) for every trip whose surcharge is not NULL, one sample per such
      trip, in input order. */
  function SurchargeSamples(trips: seq<Trip>): (r: seq<(int, real)>)
    ensures |r| == CountWhere(trips, HasSurcharge)
    ensures forall i :: 0 <= i < |r| ==>
              var t := Filter(trips, HasSurcharge)[i]; r[i] == (MonthIndex(t.pickup), t.surcharge.value)
    ensures forall i :: 0 <= i < |r| ==> r[i].0 in MonthIndexes(trips)
  {
    if |trips| == 0 then []
    else
      var init, t := trips[..|trips| - 1], trips[|trips| - 1];
      var rest := SurchargeSamples(init);
      assert trips == init + [t];
      FilterAppend(init, t, HasSurcharge);
      assert MonthIndexes(trips) == MonthIndexes(init) + [MonthIndex(t.pickup)];
      if t.surcharge.Some? then rest + [(MonthIndex(t.pickup), t.surcharge.value)] else rest
  }

  /** (month, tip ratio) for every trip whose tip ratio is not NULL, one sample per such
      trip, in input order. */
  function TipSamples(trips: seq<Trip>): (r: seq<(int, real)>)
    ensures |r| == CountWhere(trips, HasTipRatio)
    ensures forall i :: 0 <= i < |r| ==>
              var t := Filter(trips, HasTipRatio)[i]; r[i] == (MonthIndex(t.pickup), TipRatio(t).value)
    ensures forall i :: 0 <= i < |r| ==> r[i].0 in MonthIndexes(trips)
  {
    if |trips| == 0 then []
    else
      var init, t := trips[..|trips| - 1], trips[|trips| - 1];
      var rest := TipSamples(init);
      assert trips == init + [t];
      FilterAppend(init, t, HasTipRatio);
      assert MonthIndexes(trips) == MonthIndexes(init) + [MonthIndex(t.pickup)];
      var ratio := TipRatio(t);
      if ratio.Some? then rest + [(MonthIndex(t.pickup), ratio.value)] else rest
  }

  /** `AVG(...) * 100`, where a NULL average stays NULL. */
  function Percent(x: Option<real>): (r: Option<real>)
    ensures r.Some? <==> x.Some?
    ensures r.Some? ==> r.value / 100.0 == x.value
  {
    if x.None? then None else Some(x.value * 100.0)
  }

  /** The row of month index `m` (`m == year * 12 + month - 1`). */
  function MonthRowFor(m: int, surcharges: seq<(int, real)>, tips: seq<(int, real)>): (row: MonthRow)
    ensures RowKey(row) == m && 1 <= row.month <= 12
    ensures row.totalSurcharge == SqlSum(surcharges, m) && row.avgSurcharge == SqlAvg(surcharges, m)
    ensures row.avgTipPct == Percent(SqlAvg(tips, m))
  {
    MonthRow(m / 12, m % 12 + 1, SqlSum(surcharges, m), SqlAvg(surcharges, m), Percent(SqlAvg(tips, m)))
  }

  function MonthRows(months: seq<int>, surcharges: seq<(int, real)>, tips: seq<(int, real)>): (r: seq<MonthRow>)
    ensures |r| == |months|
    ensures forall i :: 0 <= i < |r| ==> r[i] == MonthRowFor(months[i], surcharges, tips)
  {
    if |months| == 0 then []
    else MonthRows(months[..|months| - 1], surcharges, tips) + [MonthRowFor(months[|months| - 1], surcharges, tips)]
  }

  function RowKey(row: MonthRow): int {
    row.year * 12 + row.month - 1
  }

  function RowKeys(rows: seq<MonthRow>): seq<int>
  {
    seq(|rows|, i requires 0 <= i < |rows| => RowKey(rows[i]))
  }

  /** Earlier (year, month) first. */
  predicate Chronological(rows: seq<MonthRow>) {
    forall i, j :: 0 <= i < j < |rows| ==>
      rows[i].year < rows[j].year || (rows[i].year == rows[j].year && rows[i].month < rows[j].month)
  }

  /** `GROUP BY year, month ORDER BY year, month` over the 2025 trips: one row per month
      that has a trip, in chronological order, with `SUM` and `AVG` of the non-NULL
      surcharges and the average non-NULL tip ratio as a percentage. */
  function EconomicsMetrics(trips: seq<Trip>): (r: seq<MonthRow>)
    ensures Chronological(r)
    ensures forall i :: 0 <= i < |r| ==> 1 <= r[i].month <= 12
    ensures forall m :: m in RowKeys(r) <==> m in MonthIndexes(trips)
    ensures forall i :: 0 <= i < |r| ==>
              && r[i].totalSurcharge == SqlSum(SurchargeSamples(trips), RowKey(r[i]))
              && r[i].avgSurcharge == SqlAvg(SurchargeSamples(trips), RowKey(r[i]))
              && r[i].avgTipPct == Percent(SqlAvg(TipSamples(trips), RowKey(r[i])))
              && (r[i].totalSurcharge.None? <==> r[i].avgSurcharge.None?)
  {
    var months := SortedDistinct(MonthIndexes(trips));
    MonthRowsInOrder(months, SurchargeSamples(trips), TipSamples(trips));
    MonthRows(months, SurchargeSamples(trips), TipSamples(trips))
  }

  /** Rows built from strictly increasing month indexes are keyed by those indexes and
      come out in chronological order. */
  lemma MonthRowsInOrder(months: seq<int>, surcharges: seq<(int, real)>, tips: seq<(int, real)>)
    requires StrictlyIncreasing(months)
    ensures RowKeys(MonthRows(months, surcharges, tips)) == months
    ensures Chronological(MonthRows(months, surcharges, tips))
  {
    var r := MonthRows(months, surcharges, tips);
    assert RowKeys(r) == months;
    forall i, j | 0 <= i < j < |r|
      ensures r[i].year < r[j].year || (r[i].year == r[j].year && r[i].month < r[j].month)
    {
      assert RowKey(r[i]) < RowKey(r[j]);
    }
  }

  /** `econ_df['total_surcharge'].sum()`: the pandas sum skips NULL (NaN) cells. */
  function TotalRevenue(rows: seq<MonthRow>): real {
    if |rows| == 0 then 0.0 else TotalRevenue(rows[..|rows| - 1]) + rows[|rows| - 1].totalSurcharge.GetOr(0.0)
  }

  /** Every non-NULL surcharge of the trips, added up directly. */
  function SurchargeTotal(trips: seq<Trip>): real {
    if |trips| == 0 then 0.0 else SurchargeTotal(trips[..|trips| - 1]) + trips[|trips| - 1].surcharge.GetOr(0.0)
  }

  lemma {:induction false} SamplesTotal(trips: seq<Trip>)
    ensures Total(SurchargeSamples(trips)) == SurchargeTotal(trips)
  {
    if |trips| > 0 {
      SamplesTotal(trips[..|trips| - 1]);
    }
  }

  lemma {:induction false} MonthRowsRevenue(months: seq<int>, surcharges: seq<(int, real)>, tips: seq<(int, real)>)
    ensures TotalRevenue(MonthRows(months, surcharges, tips)) == SumOver(surcharges, months)
  {
    if |months| > 0 {
      var rows := MonthRows(months, surcharges, tips);
      var m := months[|months| - 1];
      assert rows[..|rows| - 1] == MonthRows(months[..|months| - 1], surcharges, tips);
      MonthRowsRevenue(months[..|months| - 1], surcharges, tips);
      if CountFor(surcharges, m) == 0 {
        EmptyGroupSum(surcharges, m);
      }
    }
  }

  /** The revenue written out equals the sum of every non-NULL surcharge of the year:
      the monthly grouping neither loses nor double-counts a trip. */
  lemma TotalRevenueIsAllSurcharges(trips: seq<Trip>)
    ensures TotalRevenue(EconomicsMetrics(trips)) == SurchargeTotal(trips)
  {
    var months := SortedDistinct(MonthIndexes(trips));
    var ss := SurchargeSamples(trips);
    assert EconomicsMetrics(trips) == MonthRows(months, ss, TipSamples(trips));
    MonthRowsRevenue(months, ss, TipSamples(trips));
    IncreasingIsDistinct(months);
    GroupSumsAddUp(ss, months);
    SamplesTotal(trips);
  }

  /** A 22.00 total with a 2.00 tip is a 10% tip on the 20.00 pre-tip amount. */
  lemma TipPercentExample(t: Trip)
    requires t.tip == Some(2.0) && t.total == Some(22.0)
    ensures TipRatio(t) == Some(0.1)
    ensures Percent(SqlAvg(TipSamples([t]), MonthIndex(t.pickup))) == Some(10.0)
  {
    var xs := TipSamples([t]);
    assert xs == [(MonthIndex(t.pickup), 0.1)] by {
      assert [t][..0] == [];
    }
    assert xs[..0] == [];
    assert CountFor(xs, MonthIndex(t.pickup)) == 1;
    assert SumFor(xs, MonthIndex(t.pickup)) == 0.1;
  }
}
