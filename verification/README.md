# Trip audit and congestion-compliance analytics, in Dafny

This project models the analytics engine of a taxi-trip audit pipeline for a road-pricing
policy (the congestion surcharge south of 60th Street in Manhattan). It proves properties of
that model. The engine takes a year of Yellow and Green taxi trip records and computes:

- the **ghost-trip audit**: each trip gets the first anomaly rule it breaks, in the order
  impossible speed (> 65 mph), teleporter (< 60 s with a fare above $20), stationary (no
  distance with a positive fare). The flagged trips form the audit table. The five vendors
  with the most flagged trips are ranked.
- the **leakage audit** over *eligible* trips. A trip is eligible when it was picked up on or
  after 2025-01-05, outside the congestion zone, and dropped off inside it. The audit reports
  the three pickup zones with the most trips that paid no surcharge, and the compliance rate.
- **first-quarter comparisons** of 2024 against 2025:
  - trip volume into the zone per taxi type;
  - average speed of plausible trips inside the zone, per (day of week, hour);
  - drop-offs per zone with the percentage change (the border effect).
- **monthly economics**: surcharge sum and average, and average tip percentage, per month.
  The total surcharge revenue is derived from this table.

Two smaller pieces are modelled with it:

- the **congestion-zone membership filter**: Manhattan zones whose centroid latitude is below
  40.764;
- the **download task list**: URL and destination path of every monthly trip file.

SQL is restated as pure functions over sequences of records:

- A nullable column is an `Option`.
- A `WHERE` or `CASE` test is true only when the SQL predicate is TRUE (NULL counts as false).
- `SUM` and `AVG` skip NULL values and are NULL over an empty group.
- Timestamps are civil date-times with whole seconds. `date_diff('second', …)` is the
  difference of their epoch seconds, and `dayofweek` counts Sunday as 0.
- All arithmetic is exact (`real`).

Modules, one file each:

| module | file | models |
|---|---|---|
| `Wrappers` | wrappers.dfy | `Option`, `Result` |
| `Calendar` | calendar.dfy | timestamps, `date_diff`, `dayofweek`, `month` |
| `Aggregates` | aggregates.dfy | filtering, `GROUP BY` keys, `SUM`/`AVG`/`COUNT`, ascending sort |
| `Ranking` | ranking.dfy | `GROUP BY key ORDER BY count(*) DESC LIMIT n` |
| `Trips` | trips.dfy | the two raw schemas and their unified view |
| `GhostTrips` | ghost_trips.dfy | the ghost-trip audit and the vendor ranking |
| `Leakage` | leakage.dfy | the leakage and compliance audit |
| `Comparative` | comparative.dfy | volume, velocity and border effect |
| `Economics` | economics.dfy | monthly economics and total revenue |
| `Geospatial` | geospatial.dfy | the congestion-zone filter |
| `Ingestion` | ingestion.dfy | the download task list |

Points where the code itself is easy to misread:

- The `run_economics_metrics` function (analytics.py:322-348) is an unfinished stub whose query
  mentions an average fare. It is never called. The economics table that `main` actually
  produces (analytics.py:430-441) has `total_surcharge`, `avg_surcharge` and `avg_tip_pct`,
  and no average fare.
- The `leakage_pct` query in `run_leakage_audit` (analytics.py:149-160) is built but never
  executed, so `leakage_pct` is not part of any output.
- A zone layer without a reference system fails on the CRS comparison (`MissingCrs`,
  geospatial.py:76) before any reprojection is attempted.

## Model

| member | source | states |
|---|---|---|
| Trips.UnifiedTrips | analytics.py:350-383 | the unified view holds every Yellow row and then every Green row, each tagged with its type and recoverable field for field from its unified row |
| Trips.UnificationLossless | analytics.py:352-381 | renaming `tpep_*`/`lpep_*` to `pickup_datetime`/`dropoff_datetime` and tagging loses nothing: raw row and unified row determine each other |
| Trips.NullableSpeed | analytics.py:93 | `NULLIF(duration, 0)` makes the speed NULL exactly when the duration is zero |
| Calendar.EpochSecondsStepsByOne | analytics.py:86 | `date_diff('second', …)` counts calendar seconds: the next second, including across minute, hour, day, month and year (leap years too) boundaries, is exactly one more |
| Calendar.CalendarAnchors | analytics.py:290 | the epoch is 1970-01-01, and `dayofweek` gives 0 for Sunday 2025-01-05 and 4 for Thursday 2024-02-29 |
| Calendar.DaysInMonth | analytics.py:86 | a month has 28 to 31 days, and 29 exactly for February of a leap year |
| GhostTrips.Classify | analytics.py:92-97 | the status is a rule that fires, no earlier rule in the order impossible speed, teleporter, stationary fires, and the status is `Valid` exactly when no rule fires |
| GhostTrips.StatusLabelsDistinct | analytics.py:92-97 | the four `audit_status` texts are pairwise different, so the text determines the status |
| GhostTrips.ImpossibleSpeedCrossMultiplied | analytics.py:93 | the speed rule fires exactly when distance > 0, duration > 0 and distance·3600 > 65·duration; a zero or negative duration never fires it |
| GhostTrips.NonPositiveDurationTeleports | analytics.py:93-94 | a trip with zero or negative duration and a fare above $20 is a teleporter |
| GhostTrips.SpeedColumnAgrees | analytics.py:87-91 | the `speed_mph` column equals the speed the rules test when the duration is positive, and is 0 otherwise |
| GhostTrips.GhostTripAudit | analytics.py:84-103 | a trip is in the audit table exactly as often as in the input when its status is not `Valid`, and never otherwise (the `WHERE` disjunction equals "status is not Valid"); rows keep input order and carry the trip's duration, speed and status |
| GhostTrips.SuspiciousVendors | analytics.py:111-123 | at most 5 distinct vendors, most flagged first, each with its exact number of audit rows; a vendor left out means the table is full and the vendor has no more flagged trips than the fifth |
| GhostTrips.ImpossibleSpeedExample | analytics.py:92-93 | 10 miles in 5 minutes (120 mph) is an impossible speed |
| GhostTrips.SpeedRuleComesFirstExample | analytics.py:92-94 | 1 mile in 30 s with a $25 fare breaks both the speed and the teleporter rule and is reported as an impossible speed, the earlier `WHEN` |
| GhostTrips.TeleporterExample | analytics.py:92-94 | 0.5 miles in 30 s across midnight (60 mph) with a $25 fare is a teleporter, not a speed violation |
| GhostTrips.StationaryExample | analytics.py:92-95 | zero distance over five minutes with a $5 fare is stationary |
| Ranking.TopN | analytics.py:120-122 | `GROUP BY … ORDER BY count DESC LIMIT n`: at most n rows with distinct keys, counts non-increasing, each count the key's number of occurrences, and every key left out occurs no more often than the last row |
| Leakage.LeakageTrips | analytics.py:168-172 | a leaking trip was picked up on or after 2025-01-05 outside the zone list, dropped off inside it, with a NULL or zero surcharge; each leaking input trip appears exactly as often as in the input, every other trip never, and input order is kept |
| Leakage.TopLeakageLocations | analytics.py:163-176 | at most 3 distinct pickup zones, none in the zone list, most leaking first, each with its exact number of leaking trips; a zone left out has no more leaking trips than the third |
| Leakage.RatePercent | analytics.py:189 | `paid * 100.0 / NULLIF(total, 0)` is NULL exactly for a zero total; otherwise it is the percentage p with p·total = paid·100, between 0 and 100, equal to 100 exactly when all paid and 0 exactly when none did |
| Leakage.ComplianceStats | analytics.py:185-195 | the total is the number of eligible trips, the paid count is the number of eligible trips with a surcharge above 0 (so never more than the total), and the rate is NULL exactly when nothing is eligible |
| Leakage.PaidAndLeakedWithinEligible | analytics.py:172-194 | paid (> 0) and leaking (NULL or 0) trips never overlap; together with trips carrying a negative surcharge they account for every eligible trip |
| Leakage.LeakageAudit | analytics.py:135-138 | an empty zone list skips the audit and yields nothing; otherwise both the top-locations and compliance tables are produced |
| Leakage.LeakageExamples | analytics.py:169-172 | a trip from zone 9 into zone 1 at 2025-01-05 00:00:00 with no surcharge leaks; with $2.75 it is paid; one second before the start date it is not eligible |
| Comparative.ZoneBoundTrips | analytics.py:219-254 | exactly the first-quarter trips dropped off in the zone list, each as often as in the input, in input order |
| Comparative.PeriodVolume | analytics.py:239-256 | at most one row per taxi type, each with a positive count equal to that type's first-quarter trips dropped off in the zone; every type that has such trips appears, and the counts add up to all zone-bound trips |
| Comparative.TypeCountsAddUp | analytics.py:240-253 | the Yellow and Green counts of a set of trips add up to its size |
| Comparative.VolumeComparison | analytics.py:206-256 | the volume table is the 2024 rows then the 2025 rows; an empty zone list renders `IN ()`, which is rejected |
| Comparative.PeriodLabelsDistinct | analytics.py:240-250 | the `period` texts `2024 Q1` and `2025 Q1` tell the two periods apart |
| Comparative.PlausibleTrips | analytics.py:294-299 | exactly the trips passing every condition of the velocity `WHERE`, each as often as in the input, in input order |
| Comparative.PlausibleSpeedBounds | analytics.py:294-299 | a trip that passes the plausible-trip filter has a defined speed strictly between 0 and 100 mph |
| Comparative.SpeedSamples | analytics.py:290-299 | one sample per plausible trip, in input order, holding that trip's (day of week, hour) slot and its speed `distance / (seconds / 3600)`, which lies strictly between 0 and 100 mph |
| Comparative.PeriodVelocity | analytics.py:287-301 | one row per (day of week, hour) slot with a plausible trip and no other; slots are distinct and in range; each average is the `AVG` of that slot's speeds and lies strictly between 0 and 100 mph |
| Comparative.VelocityMetrics | analytics.py:304-316 | the velocity table is the 2024 rows then the 2025 rows; an empty zone list is rejected |
| Comparative.PctChangeMeaning | analytics.py:409 | the change is 0 for a zero baseline; otherwise pct·before = (after − before)·100; it is never below −100, positive exactly on growth, negative exactly on decline, and −100 exactly when all drop-offs vanished |
| Comparative.Q1DropoffZones | analytics.py:231-234 | one drop-off zone per first-quarter trip, in input order, and a zone is listed exactly when such a trip ends there |
| Comparative.Q1DropoffCount | analytics.py:392-403 | a zone occurs in the drop-off list exactly as many times as first-quarter trips end there: the `COUNT(*)` per `DOLocationID` |
| Comparative.BorderAnalysis | analytics.py:392-409 | one row per zone with a first-quarter drop-off in either year, in ascending zone order, each count that zone's drop-offs in that year (0 when the zone is absent from a year), with the percentage change |
| Comparative.BorderCountsAddUp | analytics.py:405-408 | the outer join loses no drop-off: each year's count column adds up to that year's first-quarter trips |
| Economics.TipRatio | analytics.py:436 | the ratio is defined exactly when tip and total are present and differ, and then ratio·(total − tip) = tip |
| Economics.Percent | analytics.py:436 | `AVG(…) * 100` keeps NULL as NULL and otherwise scales by 100 |
| Economics.SurchargeSamples | analytics.py:434-435 | one (month, surcharge) sample per trip with a non-NULL surcharge, in input order: what `SUM`/`AVG` of the column see |
| Economics.TipSamples | analytics.py:436 | one (month, ratio) sample per trip whose tip ratio is not NULL, in input order |
| Economics.EconomicsMetrics | analytics.py:430-441 | one row per (year, month) that has a trip and no other, in chronological order; totals and averages are `SUM`/`AVG` of the month's non-NULL surcharges (NULL together), and the tip percentage is 100 × the average non-NULL tip ratio |
| Economics.TotalRevenueIsAllSurcharges | analytics.py:445 | the total revenue (the pandas sum of the monthly totals, NULLs skipped) equals the sum of every non-NULL surcharge of the year |
| Economics.TipPercentExample | analytics.py:436 | a $2 tip on a $22 total is a 10% tip |
| Geospatial.ManhattanZones | geospatial.py:51 | the borough filter keeps exactly the layer's zones whose borough is "Manhattan", each as often as in the layer, in layer order |
| Geospatial.Latitudes | geospatial.py:76-77 | a layer already in EPSG:4326 keeps its own coordinates; any other is transformed zone by zone, and the step fails exactly when some zone cannot be transformed |
| Geospatial.CongestionZones | geospatial.py:71-85 | a layer with no reference system fails the CRS check; a layer in EPSG:4326 always succeeds |
| Geospatial.CongestionZoneMembership | geospatial.py:71-85 | for any layer that declares a reference system: the filter succeeds exactly when every Manhattan zone has a latitude (its own coordinate in EPSG:4326, otherwise the transformed one), and an id is then returned exactly when some Manhattan zone with that id has latitude below 40.764 |
| Geospatial.ThresholdIsStrict | geospatial.py:81-83 | a Manhattan zone exactly on 40.764 is excluded, one at 40.7639 is included |
| Geospatial.NoReprojectionInWgs84 | geospatial.py:76-77 | an EPSG:4326 layer is not reprojected: the result does not depend on the transformation |
| Geospatial.ReprojectionOnlyOfManhattan | geospatial.py:71-77 | only Manhattan zones are reprojected: how other zones transform (or fail to) cannot change the result |
| Geospatial.CongestionZonesAreOrderedSubset | geospatial.py:83-85 | the returned ids are Manhattan zone ids, and they are a subsequence of the layer's own ids: layer order is kept |
| Ingestion.GenerateUrls | ingestion.py:42-51 | exactly \|taxi types\| × \|months\| tasks |
| Ingestion.TaxiMajorOrder | ingestion.py:45-50 | task i·\|months\| + j fetches month j of taxi type i: all months of one taxi type come before the next type |
| Ingestion.EmptyInputsNoTasks | ingestion.py:44-51 | no taxi types or no months gives no tasks |
| Ingestion.UrlAndDestShareFilename | ingestion.py:47-49 | the URL is the base URL, a slash and the file name, and the destination ends with the same file name |
| Ingestion.ZeroPad2 | ingestion.py:47 | a month 0..99 is written as exactly two digits |
| Ingestion.FilenameRoundTrip | ingestion.py:47 | `<taxi>_tripdata_<year>-<MM>.parquet` reads back as exactly its taxi type, year and month |
| Ingestion.DistinctTasksDistinctUrls | ingestion.py:45-48 | different taxi types or months give different URLs, so no file is fetched twice |
| Ingestion.DigitsRoundTrip | ingestion.py:47 | the decimal text of a year reads back as the year |
| Ingestion.FilenameExamples | ingestion.py:47 | January 2025 Yellow is `yellow_tripdata_2025-01.parquet`, March 2024 Green is `green_tripdata_2024-03.parquet` |
| Ingestion.IngestionTasks | ingestion.py:160-165 | 30 tasks: the 24 tasks for every month of 2025, then the 6 tasks for the first quarter of 2024 |
| Ingestion.FirstIngestionTask | ingestion.py:161 | the first task is January 2025, Yellow |
| Ingestion.LastIngestionTask | ingestion.py:164-165 | the last task is March 2024, Green |

## Left out

- File and database I/O: DuckDB sessions, parquet globbing, `COPY … TO`, `to_csv`, the
  `total_revenue.txt` file and its float formatting. Results are returned values.
- Floating point: all arithmetic is exact `real`, so rounding in DuckDB `DOUBLE` and pandas is
  not modelled.
- Timestamps have whole-second resolution; sub-second parts are not modelled.
- NULL vendor ids, zone ids, distances and timestamps are not modelled. Those columns are
  non-NULL values; only fare, total, tip and surcharge are nullable.
- Output order of `GROUP BY` without `ORDER BY` (volume, velocity) is unspecified in SQL. The
  model fixes one order (Yellow before Green; one slot order) and proves nothing about it.
- Ties in the vendor and leakage rankings are unspecified in SQL. The model breaks them by
  ascending key, and the `Ranked` clause of Ranking.TopN states that tie order, which the
  database need not follow. The count, distinct-key, membership and omission clauses hold
  whatever the tie order.
- Ranking.TopN: does not state which of several equally counted keys is kept at the cut-off,
  because the source leaves that open.
- The `leakage_pct`/`mode` query in `run_leakage_audit` is built but never executed.
  `run_economics_metrics` is a stub that is never called. Neither is modelled.
- Comparative.VolumeComparison, Comparative.VelocityMetrics: an empty zone list renders
  `IN ()`. This is modelled as an error on the assumption that DuckDB rejects it; the source
  has no guard there.
- Shapefile reading, centroid computation and CRS reprojection are library geometry. A zone
  carries its centroid's coordinate, and the reprojection is a function parameter.
- Shapefile download and extraction, trip file download with retries, December imputation with
  random sampling, and the thread pool in the ingestion run involve the network, randomness or
  concurrency.
- Configuration side effects (creating directories) are not modelled; `RAW_DIR` is a parameter.
- The dashboard, report generator, plotting, pipeline orchestration, weather module and the
  correlation coefficients are outside the analytics engine.
- The sequencing in `main` (analytics.py:419-450) is not modelled. Each analysis is a separate
  function of the same inputs. In the source, `main` has `try/finally` and no `except`, so an
  exception in one analysis aborts all later ones. For example, the rejected `IN ()` of an empty
  zone list in the volume query means no velocity, border or economics output is written. A
  CRS failure in `get_congestion_zones` has the same effect. The model does not state this
  cascade.
