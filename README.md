# Surge pricing engine, modelled in Dafny

The system prices rides by supply and demand per hexagonal map cell.

- **Consumer**: driver pings arrive in batches on a message topic. Each ping is written into the driver's cell at every resolution of an adaptive range.
- **Store**: a windowed key-value store keeps the pings. It holds time-scored sorted sets, counters and scalars, keyed `geofence:<resolution>:<cell>:<kind>`, and it prunes entries older than the freshness window on every write.
- **Worker**: a periodic job visits every cell that has a driver set. For each one it does the following:
  - folds the live driver count into a moving-average baseline;
  - derives a surge multiplier from the drop in supply, with a demand kicker;
  - limits the jump from the last published surge;
  - publishes surge and baseline.
- **Price lookup**: reads the published surge.
- **Booking path**: quotes a price from the live request count plus one, then records the request in the cell.
- **Availability endpoint**: reports the driver count and the live requests around a point.

## How the model is organised

| Module | File | What it holds |
|---|---|---|
| `Config` | `config.dfy` | The settings record and its defaults. |
| `Geofence` | `geofence.dfy` | The cell indexer, as an uninterpreted function `CellIndex` returning ids without `:`. |
| `StoreKeys` | `store_keys.dfy` | The key formats. |
| `JavaText` | `java_text.dfy` | Java's `int` formatting/parsing and `String.split(":")`. |
| `SortedSet` | `sorted_set.dfy` | The sorted-set commands. |
| `Redis` | `redis_service.dfy` | The keyspace and the `RedisService` class. |
| `Pricing` | `pricing_service.dfy` | The pricing rules. |
| `Worker` | `surge_worker.dfy` | The `SurgePricingWorker` class. |
| `Consumer` | `location_consumer.dfy` | The `DriverLocationConsumer` class. |
| `Rides` | `ride_records.dfy` | The ride records and the abstract JSON reader/writer. |
| `Availability` | `availability_controller.dfy` | The `DriverAvailabilityController` class. |
| `Booking` | `rider_controller.dfy` | The `RiderController` class. |

Three design choices run through the model:

- **How state changes.** Stateful code is written as classes whose methods change fields under `modifies` clauses. Each method is proved against a pure function of the old state (`AfterAddDriver`, `Ingest`, `Publish`, `AfterBooking`). The properties are then proved about those functions.
- **The clock and foreign libraries.** The clock is the parameter `now`. The cell indexer and JSON (de)serialisation are function parameters.
- **Numbers.** Every `double` is a Dafny `real`. Every Java `int` resolution is an `Int32`.

## Model

Source cells are paths from the repository root, with the lines the member models.

| member | source | states |
|---|---|---|
| StoreKeys.KindsNeverCollide | src/main/java/com/wecode/surgeprice/service/RedisService.java:15-20 | keys of two different kinds never coincide, whatever their resolutions and cells |
| StoreKeys.KeyInjective | src/main/java/com/wecode/surgeprice/service/RedisService.java:15-20 | two keys of one kind that are equal name the same resolution and cell |
| StoreKeys.KeyDeterminesCell | src/main/java/com/wecode/surgeprice/service/RedisService.java:15-20 | equal key strings agree on kind, resolution and cell, so the six key shapes are pairwise distinct |
| StoreKeys.KeyTextInjective | src/main/java/com/wecode/surgeprice/service/RedisService.java:15-20 | a key held as its parts loses nothing against its string form |
| StoreKeys.DriverKeyMatchesPattern | src/main/java/com/wecode/surgeprice/service/RedisService.java:124-127 | every cell's driver-set key matches `geofence:*:*:drivers` |
| StoreKeys.OtherKeysMissPattern | src/main/java/com/wecode/surgeprice/service/RedisService.java:124-127 | no request, demand, baseline, surge or last-update key matches that pattern |
| JavaText.ParseIntRoundTrip | src/main/java/com/wecode/surgeprice/worker/SurgePricingWorker.java:161 | `Integer.parseInt` of the decimal form of an `int` gives that `int` back |
| JavaText.IntToStringInjective | src/main/java/com/wecode/surgeprice/service/RedisService.java:15-20 | two `int`s with the same decimal form are equal |
| JavaText.ParseInt | src/main/java/com/wecode/surgeprice/worker/SurgePricingWorker.java:161-164 | a parse that succeeds yields a value inside the 32-bit range; only ASCII digits are read (see Left out) |
| JavaText.SplitJoin4 | src/main/java/com/wecode/surgeprice/worker/SurgePricingWorker.java:156 | splitting four separator-free pieces joined by `:` gives the pieces back |
| JavaText.DropTrailingEmpty | src/main/java/com/wecode/surgeprice/worker/SurgePricingWorker.java:156 | `split` drops exactly the empty trailing pieces and keeps a prefix of the pieces |
| SortedSet.Add | src/main/java/com/wecode/surgeprice/service/RedisService.java:33 | ZADD leaves a sorted set sorted and holds the member at the new score plus every entry of other members |
| SortedSet.AddIdempotent | src/main/java/com/wecode/surgeprice/service/RedisService.java:33 | repeating a ZADD with the same member and score changes nothing |
| SortedSet.RemoveRangeIdempotent | src/main/java/com/wecode/surgeprice/service/RedisService.java:131 | pruning a score range twice prunes no more than once |
| SortedSet.Canonical | src/main/java/com/wecode/surgeprice/service/RedisService.java:33 | a sorted set is determined by its entries; its order carries no extra information |
| SortedSet.OneEntryPerName | src/main/java/com/wecode/surgeprice/service/RedisService.java:33 | a member has at most one score in a set (set semantics) |
| SortedSet.CountIsWindowSize | src/main/java/com/wecode/surgeprice/service/RedisService.java:42-43 | ZCOUNT is the number of entries scored in [lo, hi], both ends included |
| SortedSet.RangeByScoreListsWindow | src/main/java/com/wecode/surgeprice/service/RedisService.java:50-51 | ZRANGEBYSCORE lists each member scored in [lo, hi] exactly once, in ascending score order |
| Redis.UpsertPrune | src/main/java/com/wecode/surgeprice/service/RedisService.java:129-132 | after upsert and prune the set holds exactly the new entry and other members' old entries scored outside [0, cutoff]; no other key changes |
| Redis.AddDriverWindow | src/main/java/com/wecode/surgeprice/service/RedisService.java:30-37 | after `addDriver` the cell's set is the driver at `now` plus the other drivers still inside the window, and `last_update` reads `now` |
| Redis.PingedDriverIsPresent | src/main/java/com/wecode/surgeprice/service/RedisService.java:30-37 | with a positive window the pinging driver is present at score `now` |
| Redis.AddDriverTouchesOnly | src/main/java/com/wecode/surgeprice/service/RedisService.java:30-37 | `addDriver` changes only the cell's driver set and its `last_update` |
| Redis.AddDriverKeepsFresh | src/main/java/com/wecode/surgeprice/service/RedisService.java:30-37 | an entry scored `now` survives any further `addDriver` at the same `now` |
| Redis.AddDriverIdempotent | src/main/java/com/wecode/surgeprice/service/RedisService.java:30-37 | a repeated ping at the same instant leaves the keyspace as the first left it |
| Redis.AddDriverWellFormed | src/main/java/com/wecode/surgeprice/service/RedisService.java:30-37 | `addDriver` keeps every key holding a value of its kind's shape |
| Redis.AddRideRequestWindow | src/main/java/com/wecode/surgeprice/service/RedisService.java:54-60 | after `addRideRequest` the request set is the payload at `now` plus the un-pruned older payloads, and no other key (driver set, `last_update`, baseline, surge) changes |
| Redis.AddRideRequestWellFormed | src/main/java/com/wecode/surgeprice/service/RedisService.java:54-60 | `addRideRequest` keeps the keyspace well formed |
| Redis.UpsertPruneIdempotent | src/main/java/com/wecode/surgeprice/service/RedisService.java:54-60 | repeating the same upsert and prune changes nothing more |
| Redis.BoundaryEntryCountedThenPruned | src/main/java/com/wecode/surgeprice/service/RedisService.java:129-132 | an entry scored exactly `now - window` is counted by a read at `now` and removed by a write at `now`: both ranges include the end point |
| Redis.DriverCount | src/main/java/com/wecode/surgeprice/service/RedisService.java:39-45 | the count is the number of entries scored in [now - window, now]; an absent key gives 0 |
| Redis.DriversInWindow | src/main/java/com/wecode/surgeprice/service/RedisService.java:47-52 | exactly the drivers pinged within the window, each once, as many as the count |
| Redis.RideRequestCount | src/main/java/com/wecode/surgeprice/service/RedisService.java:62-68 | the number of requests scored in [now - window, now]; an absent key gives 0 |
| Redis.ActiveRideRequests | src/main/java/com/wecode/surgeprice/service/RedisService.java:70-76 | exactly the payloads recorded within the window, each once, as many as the count; empty for an absent key |
| Redis.DemandCount | src/main/java/com/wecode/surgeprice/service/RedisService.java:84-88 | the stored counter, or 0 when absent |
| Redis.StoredBaseline | src/main/java/com/wecode/surgeprice/service/RedisService.java:95-99 | the stored baseline, or 0.0 when absent |
| Redis.StoredSurge | src/main/java/com/wecode/surgeprice/service/RedisService.java:107-111 | the stored surge, or the base multiplier when absent |
| Redis.LastUpdateAt | src/main/java/com/wecode/surgeprice/service/RedisService.java:118-122 | the stored stamp, or 0 when absent |
| Redis.ActiveGeofences | src/main/java/com/wecode/surgeprice/service/RedisService.java:124-127 | exactly the string forms of the keys of cells' driver sets: each one is such a key, and every such key is listed |
| Redis.RedisService.AddDriver | src/main/java/com/wecode/surgeprice/service/RedisService.java:30-37 | the new keyspace is ZADD, then prune, then the `last_update` stamp, applied to the old one; well-formedness kept |
| Redis.RedisService.AddRideRequest | src/main/java/com/wecode/surgeprice/service/RedisService.java:54-60 | the new keyspace is ZADD then prune of the cell's request set; well-formedness kept |
| Redis.RedisService.IncrementDemand | src/main/java/com/wecode/surgeprice/service/RedisService.java:78-82 | the cell's demand counter reads exactly one more than before (an absent one counts as 0) |
| Redis.RedisService.UpdateBaseline | src/main/java/com/wecode/surgeprice/service/RedisService.java:90-93 | the baseline key is set and `getBaseline` then reads the written value; no other key changes |
| Redis.RedisService.UpdateSurge | src/main/java/com/wecode/surgeprice/service/RedisService.java:102-105 | the surge key is set and `getSurge` then reads the written value; no other key changes |
| Redis.RedisService.UpdateLastSeen | src/main/java/com/wecode/surgeprice/service/RedisService.java:113-116 | the cell's `last_update` becomes `now`; no other key changes |
| Redis.RedisService.PruneOld | src/main/java/com/wecode/surgeprice/service/RedisService.java:129-132 | removes from the key exactly the entries scored in [0, now - window] |
| Redis.RedisService.constructor | src/main/java/com/wecode/surgeprice/service/RedisService.java:25-28 | the store starts empty with the given settings |
| Config.ResolutionRange | src/main/java/com/wecode/surgeprice/consumer/DriverLocationConsumer.java:48-53 | the range is [min, max] when min ≤ max and collapses to the default resolution otherwise; never empty |
| Pricing.InstantSurge | src/main/java/com/wecode/surgeprice/service/PricingService.java:51-60 | the cap for no drivers; exactly 1.0 when requests ≤ drivers; otherwise min(1 + ratio/2, cap); within [1, cap] when drivers > 0 and cap ≥ 1 |
| Pricing.RatioAtMostOne | src/main/java/com/wecode/surgeprice/service/PricingService.java:55-56 | the ratio test is the count comparison requests ≤ drivers |
| Pricing.InstantSurgeMonotoneInRequests | src/main/java/com/wecode/surgeprice/service/PricingService.java:51-60 | for fixed drivers > 0 the surge never falls as requests grow |
| Pricing.InstantSurgeAntitoneInDrivers | src/main/java/com/wecode/surgeprice/service/PricingService.java:51-60 | for fixed requests the surge never rises as drivers grow, zero drivers included |
| Pricing.BasePrice | src/main/java/com/wecode/surgeprice/service/PricingService.java:62-64 | non-negative for non-negative distance and rate; zero for a zero distance |
| Pricing.BasePriceLinear | src/main/java/com/wecode/surgeprice/service/PricingService.java:62-64 | the price is linear in the distance: the price of a sum of distances is the sum of their prices, and scaling the distance scales the price |
| Pricing.BasePriceMonotone | src/main/java/com/wecode/surgeprice/service/PricingService.java:62-64 | with a non-negative rate a longer trip never costs less |
| Pricing.SelectResolution | src/main/java/com/wecode/surgeprice/service/PricingService.java:66-79 | default when min > max; else max for short trips, min for long trips, default in between; always one of the three |
| Pricing.ResolutionWithinRange | src/main/java/com/wecode/surgeprice/service/PricingService.java:66-79 | with the default inside [min, max] the chosen resolution lies in the written range |
| Pricing.FinerCellsForShorterTrips | src/main/java/com/wecode/surgeprice/service/PricingService.java:66-79 | a longer trip never gets a finer resolution than a shorter one |
| Pricing.DefaultFigures | src/main/java/com/wecode/surgeprice/service/PricingService.java:51-79 | under the default settings 10 requests and 4 drivers give 2.25; further spot values of surge, resolution and base price |
| Pricing.GetPrice | src/main/java/com/wecode/surgeprice/service/PricingService.java:26-38 | the flat base fare, the default-resolution cell of the point, and that cell's stored surge (the base when absent) |
| Worker.UpdatedBaseline | src/main/java/com/wecode/surgeprice/worker/SurgePricingWorker.java:90-97 | the first observation seeds the baseline to the count; later ones lie between old baseline and count and close the gap by a factor 0.9 |
| Worker.BaselineSettles | src/main/java/com/wecode/surgeprice/worker/SurgePricingWorker.java:90-97 | under a constant count the gap after n runs is 0.9ⁿ times the starting gap |
| Worker.SurgeCandidate | src/main/java/com/wecode/surgeprice/worker/SurgePricingWorker.java:99-137 | too few drivers give the base whatever else holds; a stale cell gives its previous surge or the base; under sane settings the candidate lies in [base, max] |
| Worker.FreshCandidate | src/main/java/com/wecode/surgeprice/worker/SurgePricingWorker.java:120-136 | on the fresh path the candidate is min(base + 2(1 − ratio) + kicker, max) when ratio ≤ 1 − threshold, else base, with ratio = drivers/baseline or 1.0 |
| Worker.FewerDriversNeverLowerCandidate | src/main/java/com/wecode/surgeprice/worker/SurgePricingWorker.java:120-136 | on the fresh path fewer drivers never lower the candidate |
| Worker.Smoothed | src/main/java/com/wecode/surgeprice/worker/SurgePricingWorker.java:139-152 | no previous value passes the candidate; otherwise the result lies between previous and candidate within `maxSurgeJump` of the previous, and equals the candidate when the jump is small |
| Worker.Recompute | src/main/java/com/wecode/surgeprice/worker/SurgePricingWorker.java:53-72 | one cell's step: the updated baseline, and a surge kept in [base, max] and within the jump limit of the previous surge |
| Worker.DegradedCellHoldsSurge | src/main/java/com/wecode/surgeprice/worker/SurgePricingWorker.java:110-118 | a stale cell with enough drivers republishes its previous surge (the base if none) |
| Worker.UnseenCellIsDegraded | src/main/java/com/wecode/surgeprice/service/RedisService.java:118-122 | a cell with no `last_update` reads 0 and so, once the clock passes 5 s, is degraded |
| Worker.SupplyDropFigures | src/main/java/com/wecode/surgeprice/worker/SurgePricingWorker.java:90-152 | a drop from baseline 20 to 5 drivers under defaults: baseline 18.5, candidate held by the jump limit to 1.2 |
| Worker.ParseGeofenceKey | src/main/java/com/wecode/surgeprice/worker/SurgePricingWorker.java:154-166 | null for fewer than four pieces or a non-`int` second piece; otherwise the second piece as resolution and the third as cell |
| Worker.ParseDriverKey | src/main/java/com/wecode/surgeprice/worker/SurgePricingWorker.java:154-166 | parsing inverts the driver-key format |
| Worker.CacheKeyInjective | src/main/java/com/wecode/surgeprice/worker/SurgePricingWorker.java:168-170 | distinct cells have distinct in-memory keys |
| Worker.CellResult | src/main/java/com/wecode/surgeprice/worker/SurgePricingWorker.java:53-72 | what a run computes for a cell from the store and memory; within [base, max] under sane settings |
| Worker.DriverKeyCells | src/main/java/com/wecode/surgeprice/worker/SurgePricingWorker.java:47-51 | every active key parses, to the cell it is the driver key of, so no active key is skipped |
| Worker.VisitedAllIsOutcome | src/main/java/com/wecode/surgeprice/worker/SurgePricingWorker.java:47-80 | having visited exactly the active cells is the outcome of a run |
| Worker.SurgePricingWorker.UpdateBaseline | src/main/java/com/wecode/surgeprice/worker/SurgePricingWorker.java:90-97 | returns the updated baseline and records it for the cell; nothing else in memory changes |
| Worker.SurgePricingWorker.RecomputeCell | src/main/java/com/wecode/surgeprice/worker/SurgePricingWorker.java:53-78 | publishes the cell's result (surge, then baseline) and remembers both |
| Worker.SurgePricingWorker.ProcessKey | src/main/java/com/wecode/surgeprice/worker/SurgePricingWorker.java:48-78 | parses a driver key to its cell and recomputes that cell |
| Worker.SurgePricingWorker.VisitAll | src/main/java/com/wecode/surgeprice/worker/SurgePricingWorker.java:47-80 | after the loop every active cell has published what it computed from the state as found, and nothing else changed |
| Worker.SurgePricingWorker.CalculateSurge | src/main/java/com/wecode/surgeprice/worker/SurgePricingWorker.java:32-88 | during warm-up nothing changes; afterwards every cell with a driver set publishes its surge and baseline, memory records them, and no other key or memory entry changes |
| Consumer.Successes | src/main/java/com/wecode/surgeprice/consumer/DriverLocationConsumer.java:41-59 | the number of parsed messages never exceeds the batch size |
| Consumer.FanUpToWritesPing | src/main/java/com/wecode/surgeprice/consumer/DriverLocationConsumer.java:54-57 | after a fan-out the driver is in its cell, scored `now`, at every resolution written |
| Consumer.FanUpToStaysInRange | src/main/java/com/wecode/surgeprice/consumer/DriverLocationConsumer.java:54-57 | a fan-out writes no key of a resolution it does not reach |
| Consumer.IngestedDriversPresent | src/main/java/com/wecode/surgeprice/consumer/DriverLocationConsumer.java:43-64 | every parsed message's driver is present, scored `now`, in its cell at every resolution of the range after the batch |
| Consumer.IngestStaysInRange | src/main/java/com/wecode/surgeprice/consumer/DriverLocationConsumer.java:48-57 | a batch writes no key of a resolution outside the range |
| Consumer.IngestKeepsFresh | src/main/java/com/wecode/surgeprice/consumer/DriverLocationConsumer.java:43-64 | a driver entry scored `now` survives the rest of the batch |
| Consumer.BadMessageSkipped | src/main/java/com/wecode/surgeprice/consumer/DriverLocationConsumer.java:43-64 | a message that does not parse changes nothing, and the rest of the batch does what it would do without it |
| Consumer.BadMessageNotCounted | src/main/java/com/wecode/surgeprice/consumer/DriverLocationConsumer.java:59-63 | a message that does not parse does not count as a success |
| Consumer.IngestAppend | src/main/java/com/wecode/surgeprice/consumer/DriverLocationConsumer.java:43-64 | a batch is its first part followed by the rest |
| Consumer.SuccessesAppend | src/main/java/com/wecode/surgeprice/consumer/DriverLocationConsumer.java:41-59 | the success count of a batch is the counts of its parts added up |
| Consumer.DriverLocationConsumer.ConsumeLocations | src/main/java/com/wecode/surgeprice/consumer/DriverLocationConsumer.java:39-73 | the store is the batch folded message by message; the returned count is the number of parsed messages; the processed counter rises by exactly that count |
| Consumer.DriverLocationConsumer.WriteAcrossResolutions | src/main/java/com/wecode/surgeprice/consumer/DriverLocationConsumer.java:48-57 | one `addDriver` per resolution of the normalised range, in ascending order |
| Availability.ParseAllMembership | src/main/java/com/wecode/surgeprice/controller/DriverAvailabilityController.java:59-65 | a record is kept exactly when some payload parses to it |
| Availability.BadPayloadDropped | src/main/java/com/wecode/surgeprice/controller/DriverAvailabilityController.java:59-65 | a payload that fails to parse is dropped alone; the rest is kept as without it |
| Availability.AllPayloadsKept | src/main/java/com/wecode/surgeprice/controller/DriverAvailabilityController.java:59-65 | when every payload parses, the records are the parsed payloads one for one, in order |
| Availability.ParseAllAppend | src/main/java/com/wecode/surgeprice/controller/DriverAvailabilityController.java:59-65 | parsing a list is parsing its parts and joining the results |
| Availability.ConcatInOrder | src/main/java/com/wecode/surgeprice/controller/DriverAvailabilityController.java:56-66 | the resolutions' lists are joined in ascending order around any one resolution |
| Availability.ConcatMembership | src/main/java/com/wecode/surgeprice/controller/DriverAvailabilityController.java:56-66 | an element of the joined list comes from some resolution's list, and each such element is present |
| Availability.RequestsAtMembership | src/main/java/com/wecode/surgeprice/controller/DriverAvailabilityController.java:57-65 | a record is listed for a resolution exactly when a live payload of that cell parses to it |
| Availability.ListedRequestWasPosted | src/main/java/com/wecode/surgeprice/controller/DriverAvailabilityController.java:50-66 | every listed record parses from a live payload at some resolution of the range |
| Availability.PostedRequestIsListed | src/main/java/com/wecode/surgeprice/controller/DriverAvailabilityController.java:50-66 | every live payload that parses, at any resolution of the range, is listed |
| Availability.NearbyRequestsMembership | src/main/java/com/wecode/surgeprice/controller/DriverAvailabilityController.java:50-66 | both directions together: listed exactly when posted within the window at a resolution of the range |
| Availability.NearbyRequestsInResolutionOrder | src/main/java/com/wecode/surgeprice/controller/DriverAvailabilityController.java:56-66 | the list is the lower resolutions' requests, then this resolution's, then the higher ones' |
| Availability.EmptyRangeScansDefaultOnly | src/main/java/com/wecode/surgeprice/controller/DriverAvailabilityController.java:52-55 | with min > max only the default resolution is scanned |
| Availability.AppendParsed | src/main/java/com/wecode/surgeprice/controller/DriverAvailabilityController.java:59-65 | the inner loop appends the parsed payloads, in order, to the list so far |
| Availability.DriverAvailabilityController.ScanResolutions | src/main/java/com/wecode/surgeprice/controller/DriverAvailabilityController.java:56-66 | the outer loop yields the resolutions' request lists joined from min to max |
| Availability.DriverAvailabilityController.Availability | src/main/java/com/wecode/surgeprice/controller/DriverAvailabilityController.java:41-74 | driver count and cell from the default resolution only; the requests of the normalised range in resolution order; the store is only read |
| Booking.Ratio | src/main/java/com/wecode/surgeprice/controller/RiderController.java:70 | requests divided by drivers when there are drivers, the request count itself otherwise |
| Booking.QuoteFigures | src/main/java/com/wecode/surgeprice/controller/RiderController.java:58-71 | the distance is the one asked for and the base price its distance price; pickup cell at the selected resolution; driver count live; request count live plus one; the surge is `calculateSurge` of those counts: the cap without drivers, 1.0 when requests ≤ drivers, min(1 + ratio/2, cap) otherwise; final price is base times surge, and with drivers, a cap of at least 1 and a non-negative base it lies between the base and the capped price |
| Booking.FinalPriceBetween | src/main/java/com/wecode/surgeprice/controller/RiderController.java:71 | a non-negative base price scaled by a surge in [1, cap] lies between the base price and the base price at the cap |
| Booking.BookingTouchesOnlyItsRequestSet | src/main/java/com/wecode/surgeprice/controller/RiderController.java:90-95 | booking changes only the quoted cell's request set; a failed serialisation changes nothing |
| Booking.BookedPayloadIsLive | src/main/java/com/wecode/surgeprice/controller/RiderController.java:90-92 | with a positive window the stored payload is among the cell's active requests |
| Booking.BookedRideIsVisible | src/main/java/com/wecode/surgeprice/controller/RiderController.java:73-92 | when the window is positive, the recorded payload reads back as the record, and the default resolution lies within [min, max] whenever that range is non-empty, the booked record then appears in the availability listing at the pickup point, carrying the quoted surge and final price |
| Booking.BookingCountsItself | src/main/java/com/wecode/surgeprice/controller/RiderController.java:67 | a fresh booking raises the next quote's request count by exactly one |
| Booking.RiderController.BookRide | src/main/java/com/wecode/surgeprice/controller/RiderController.java:50-113 | the response is the quote computed from the store before the booking; the store afterwards holds the recorded request, or is unchanged when serialisation fails |

## Left out

- Time-to-live expiry (`expire`) is not modelled: entries leave the store only by pruning on write. In the source a cell's driver key expires one freshness window (30 s by default) after its last ping, `getActiveGeofences` stops returning that cell, and its surge key, which has no expiry, stays at its last value. In the model the driver key never goes away, so the worker keeps visiting such a cell: its live driver count is 0 and its surge is stepped toward the base multiplier (`Worker.SurgeCandidate`, `Worker.Smoothed`).
- `KEYS` is modelled as a set comprehension over the keyspace, not as an incremental scan.
- Values are stored as Dafny reals and integers, not as decimal strings, so `String.valueOf` and `Double.parseDouble` are not modelled.
- Doubles are exact reals: no rounding, overflow, NaN or infinities.
- `long` counts are unbounded integers.
- The haversine distance (`calculateDistanceKm`) is not modelled: the trip distance is a parameter of the booking.
- The H3 cell indexer (`GeofenceService`) is the function parameter `CellIndex`. It returns ids without `:`, as hexadecimal ids and the sentinel "default" are.
- JSON reading and writing of pings and ride records are function parameters that may fail (`LocationReader`, `RecordReader`, `RecordWriter`). The shape of the JSON is not modelled.
- Store failures and exceptions other than a failed parse or serialisation are not modelled: every store call succeeds. The worker's catch-all around its loop therefore never fires.
- The clock is one value `now` per operation, although the source reads the clock again inside several calls. The record's `createdAt` is that same `now`.
- The worker's uptime is `now / 1000` minus the start second. It is not two separate reads of the epoch second.
- Concurrency is not modelled. This covers `ConcurrentHashMap`, `AtomicLong`, Kafka listener threads and the scheduled timer: the model is one sequential caller.
- Logging, timing metrics and the `total % 10000` log condition are not modelled.
- `RiderController.streamPrice` (a server-sent-event loop with sleeps), `DriverLocationController`, the configuration wiring and the DTO classes are not part of this model.
- Worker.SurgeCandidate: the intended behaviour is that a stale cell always keeps its previous surge, whatever its current counts. The code checks the driver floor before staleness, and the model follows the code: a stale cell with too few drivers gets the base multiplier. The staleness threshold is the code's hard-coded 5000 ms, not a setting.
- Redis.RedisService.PruneOld: the intended behaviour is to prune only entries strictly older than `now − window`, so that no entry is both counted and pruned at one instant. The code's prune range [0, now − window] includes its upper end, and the model follows the code. An entry exactly at the boundary is therefore counted by a read and then pruned by a write at the same instant (`Redis.BoundaryEntryCountedThenPruned`).
- JavaText.ParseInt: accepts only the ASCII digits '0'..'9'. Java's `Integer.parseInt` also accepts the decimal digits of other scripts (Unicode category Nd), so for a key such as `geofence:٨:abc:drivers` the source's `parseGeofenceKey` yields resolution 8 where `Worker.ParseGeofenceKey` yields `None`. This cannot arise for the service's own keys under a locale whose zero digit is '0', where `String.format("%d", …)` writes ASCII digits as `JavaText.IntToString` does. Under another default locale the source writes the resolution with that locale's digits, which the model does not cover.
- Redis.RedisService.IncrementDemand: it is modelled, but no caller in the modelled core increments demand, so the worker's demand kicker only reacts to counters written elsewhere.
- Consumer.DriverLocationConsumer.WriteAcrossResolutions and Availability.DriverAvailabilityController.ScanResolutions: the loop counter is an unbounded integer. With a maximum resolution of 2147483647 the Java `int` counter would wrap around and never stop.
- Worker.SurgePricingWorker.ProcessKey: the skip of a key that does not parse is unreachable in the model, because the keyspace holds only the service's own keys, and every key the pattern scan returns parses (`Worker.DriverKeyCells`).
- Booking.QuoteFigures states the ratio through `Booking.Ratio`, whose own contract gives it as requests divided by drivers. It does not restate that product in terms of the quote.
- Booking.BookedRideIsVisible assumes the default resolution lies within [min, max] whenever that range is non-empty. Without it the source behaves differently, and the lemma does not cover that case: availability reads the cell at the default resolution but scans requests only over [min, max], so a trip whose booking resolution is chosen by the default branch of `selectResolution` is never listed when the default is outside the range.
- Keys are held as structured values (kind, resolution, cell) rather than strings. `StoreKeys.KeyTextInjective` shows that this loses nothing.
- The nested loop of `availability` is written as two methods, `AppendParsed` for the inner loop and `ScanResolutions` for the outer one.
