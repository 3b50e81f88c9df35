/**
 * The booking endpoint: it quotes a ride from the trip length and the live counts
 * of the pickup cell, records the booking in that cell's request set, and answers
 * with the quote. A booking that cannot be recorded is still quoted.
 */
module Booking {
  import opened Wrappers
  import opened JavaText
  import opened Config
  import opened Geofence
  import opened StoreKeys
  import opened Rides
  import SortedSet
  import Redis
  import Pricing
  import Availability

  /** The answer to a booking. */
  datatype RidePricing = RidePricing(
    riderId: string,
    distanceKm: real,
    basePrice: real,
    surgeMultiplier: real,
    finalPrice: real,
    geofenceId: CellId,
    resolution: Int32,
    nearbyDrivers: nat,
    requestCount: nat,
    ratio: real,
    pickupName: string,
    dropName: string)

  /** The demand ratio reported to the rider: requests per driver, or the request count when there are no drivers. */
  function Ratio(requestCount: nat, nearbyDrivers: nat): (r: real)
    ensures nearbyDrivers > 0 ==> r * nearbyDrivers as real == requestCount as real
    ensures nearbyDrivers == 0 ==> r == requestCount as real
  {
    if nearbyDrivers > 0 then requestCount as real / nearbyDrivers as real else requestCount as real
  }

  /** The price the rider pays: the distance price scaled by the surge. */
  function FinalPrice(basePrice: real, surgeMultiplier: real): real {
    basePrice * surgeMultiplier
  }

  /**
   * The quote for a booking: the cell of the pickup point at the resolution the trip
   * length selects, its live driver and request counts (the request being booked
   * counted as one more), and the instant surge of those counts applied to the
   * distance price.
   */
  function Quote(p: Props, data: Redis.Keyspace, request: RideRequest, distanceKm: real, cells: CellIndex, now: int): RidePricing
    requires Redis.WellFormed(data)
  {
    var resolution := Pricing.SelectResolution(p, distanceKm);
    var geofenceId := cells(request.pickupLat, request.pickupLng, resolution);
    var basePrice := Pricing.BasePrice(p, distanceKm);
    var nearbyDrivers := Redis.DriverCount(p, data, resolution, geofenceId, now);
    var requestCount := Redis.RideRequestCount(p, data, resolution, geofenceId, now) + 1;
    var surge := Pricing.InstantSurge(p, requestCount, nearbyDrivers);
    RidePricing(request.riderId, distanceKm, basePrice, surge, FinalPrice(basePrice, surge), geofenceId, resolution,
                nearbyDrivers, requestCount, Ratio(requestCount, nearbyDrivers), request.pickupName, request.dropName)
  }

  /** The record of a booking: the request, the quote's figures and the booking time. */
  function RecordOf(request: RideRequest, q: RidePricing, createdAt: int): RideRequestRecord {
    RideRequestRecord(request.riderId, request.pickupLat, request.pickupLng, request.dropLat, request.dropLng,
                      q.distanceKm, q.basePrice, q.surgeMultiplier, q.finalPrice, q.geofenceId, q.resolution,
                      request.pickupName, request.dropName, createdAt)
  }

  /** The store after a booking: the record added to the quoted cell's request set, or nothing when it cannot be written. */
  function AfterBooking(p: Props, data: Redis.Keyspace, request: RideRequest, distanceKm: real, cells: CellIndex,
                        write: RecordWriter, now: int): Redis.Keyspace
    requires Redis.WellFormed(data)
  {
    var q := Quote(p, data, request, distanceKm, cells, now);
    match write(RecordOf(request, q, now))
    case None => data
    case Some(payload) => Redis.AfterAddRideRequest(p, data, q.resolution, q.geofenceId, payload, now)
  }

  /**
   * What a quote says: its cell is the pickup point's at the selected resolution;
   * the request count is the live requests of that cell plus the one being booked;
   * the distance is the one asked for and the base price its distance price; the
   * surge is `calculateSurge` of the quote's counts (the cap without drivers, 1.0
   * up to one request per driver, 1 + ratio/2 capped above that); the final price
   * is the distance price times the surge; and, with drivers, a cap of at least 1
   * and a non-negative distance price, the final price lies between the distance
   * price and the capped price.
   */
  lemma QuoteFigures(p: Props, data: Redis.Keyspace, request: RideRequest, distanceKm: real, cells: CellIndex, now: int)
    requires Redis.WellFormed(data)
    ensures var q := Quote(p, data, request, distanceKm, cells, now);
      && q.riderId == request.riderId && q.pickupName == request.pickupName && q.dropName == request.dropName
      && q.distanceKm == distanceKm && q.basePrice == Pricing.BasePrice(p, distanceKm)
      && q.resolution == Pricing.SelectResolution(p, distanceKm)
      && q.geofenceId == cells(request.pickupLat, request.pickupLng, q.resolution)
      && q.nearbyDrivers == |Redis.DriversInWindow(p, data, q.resolution, q.geofenceId, now)|
      && q.requestCount == |Redis.ActiveRideRequests(p, data, q.resolution, q.geofenceId, now)| + 1
      && q.finalPrice == FinalPrice(q.basePrice, q.surgeMultiplier)
      && q.ratio == Ratio(q.requestCount, q.nearbyDrivers)
      && q.surgeMultiplier == Pricing.InstantSurge(p, q.requestCount, q.nearbyDrivers)
      && (q.nearbyDrivers == 0 ==> q.surgeMultiplier == p.maxSurgeMultiplier)
      && (q.nearbyDrivers > 0 && q.requestCount <= q.nearbyDrivers ==> q.surgeMultiplier == 1.0)
      && (q.nearbyDrivers > 0 && q.requestCount > q.nearbyDrivers ==>
            q.surgeMultiplier == Pricing.Min(1.0 + (q.requestCount as real / q.nearbyDrivers as real) / 2.0, p.maxSurgeMultiplier))
      && (q.nearbyDrivers > 0 && p.maxSurgeMultiplier >= 1.0 ==> 1.0 <= q.surgeMultiplier <= p.maxSurgeMultiplier)
      && (q.nearbyDrivers > 0 && p.maxSurgeMultiplier >= 1.0 && q.basePrice >= 0.0 ==>
            q.basePrice <= q.finalPrice <= FinalPrice(q.basePrice, p.maxSurgeMultiplier))
  {
    var q := Quote(p, data, request, distanceKm, cells, now);
    if q.nearbyDrivers > 0 && p.maxSurgeMultiplier >= 1.0 && q.basePrice >= 0.0 {
      FinalPriceBetween(q.basePrice, q.surgeMultiplier, p.maxSurgeMultiplier);
    }
  }

  /** Scaling a non-negative price by a surge in [1, cap] keeps it between the price and the capped price. */
  lemma FinalPriceBetween(basePrice: real, surge: real, cap: real)
    requires basePrice >= 0.0 && 1.0 <= surge <= cap
    ensures basePrice <= FinalPrice(basePrice, surge) <= FinalPrice(basePrice, cap)
  {
    assert FinalPrice(basePrice, surge) - basePrice == basePrice * (surge - 1.0);
    assert FinalPrice(basePrice, cap) - FinalPrice(basePrice, surge) == basePrice * (cap - surge);
  }

  /**
   * A booking writes only the request set of its quoted cell: no driver set, stamp,
   * demand counter, baseline or surge changes, and when the record cannot be
   * written nothing changes at all.
   */
  lemma BookingTouchesOnlyItsRequestSet(p: Props, data: Redis.Keyspace, request: RideRequest, distanceKm: real,
                                        cells: CellIndex, write: RecordWriter, now: int)
    requires Redis.WellFormed(data)
    ensures var q := Quote(p, data, request, distanceKm, cells, now);
      var after := AfterBooking(p, data, request, distanceKm, cells, write, now);
      && Redis.WellFormed(after)
      && (forall k | k != StoreKey(Requests, q.resolution, q.geofenceId) :: (k in after <==> k in data) && (k in data ==> after[k] == data[k]))
      && (write(RecordOf(request, q, now)).None? ==> after == data)
  {
    var q := Quote(p, data, request, distanceKm, cells, now);
    match write(RecordOf(request, q, now)) {
      case None =>
      case Some(payload) =>
        Redis.AddRideRequestWellFormed(p, data, q.resolution, q.geofenceId, payload, now);
        Redis.AddRideRequestWindow(p, data, q.resolution, q.geofenceId, payload, now);
    }
  }

  /** A recorded booking's payload is live in its cell's request set at the booking time. */
  lemma BookedPayloadIsLive(p: Props, data: Redis.Keyspace, request: RideRequest, distanceKm: real,
                            cells: CellIndex, write: RecordWriter, now: int, payload: string)
    requires Redis.WellFormed(data) && WindowMillis(p) > 0
    requires write(RecordOf(request, Quote(p, data, request, distanceKm, cells, now), now)) == Some(payload)
    ensures var q := Quote(p, data, request, distanceKm, cells, now);
      var after := AfterBooking(p, data, request, distanceKm, cells, write, now);
      Redis.WellFormed(after) && payload in Redis.ActiveRideRequests(p, after, q.resolution, q.geofenceId, now)
  {
    var q := Quote(p, data, request, distanceKm, cells, now);
    var after := AfterBooking(p, data, request, distanceKm, cells, write, now);
    Redis.AddRideRequestWellFormed(p, data, q.resolution, q.geofenceId, payload, now);
    Redis.AddRideRequestWindow(p, data, q.resolution, q.geofenceId, payload, now);
    var m := SortedSet.Member(payload, now);
    assert m in Redis.ZMembers(after, StoreKey(Requests, q.resolution, q.geofenceId));
    assert Redis.Cutoff(p, now) <= m.score <= now;
  }

  /**
   * A recorded booking is visible to the availability endpoint asked at the pickup
   * point at the same instant, carrying the surge and the price the rider was
   * quoted, provided the stored payload reads back as the record.
   */
  lemma BookedRideIsVisible(p: Props, data: Redis.Keyspace, request: RideRequest, distanceKm: real,
                            cells: CellIndex, write: RecordWriter, read: RecordReader, now: int, payload: string)
    requires Redis.WellFormed(data) && WindowMillis(p) > 0
    requires p.minH3Resolution > p.maxH3Resolution || p.minH3Resolution <= p.h3Resolution <= p.maxH3Resolution
    requires write(RecordOf(request, Quote(p, data, request, distanceKm, cells, now), now)) == Some(payload)
    requires read(payload) == Some(RecordOf(request, Quote(p, data, request, distanceKm, cells, now), now))
    ensures var q := Quote(p, data, request, distanceKm, cells, now);
      var after := AfterBooking(p, data, request, distanceKm, cells, write, now);
      && Redis.WellFormed(after)
      && RecordOf(request, q, now) in Availability.NearbyRequests(p, after, request.pickupLat, request.pickupLng, cells, read, now)
      && RecordOf(request, q, now).surgeMultiplier == q.surgeMultiplier
      && RecordOf(request, q, now).finalPrice == q.finalPrice
  {
    var q := Quote(p, data, request, distanceKm, cells, now);
    var after := AfterBooking(p, data, request, distanceKm, cells, write, now);
    BookedPayloadIsLive(p, data, request, distanceKm, cells, write, now, payload);
    if p.minH3Resolution <= p.maxH3Resolution {
      Pricing.ResolutionWithinRange(p, distanceKm);
    }
    assert Availability.PostedAt(p, after, request.pickupLat, request.pickupLng, cells, read, now, q.resolution, RecordOf(request, q, now));
    Availability.PostedRequestIsListed(p, after, request.pickupLat, request.pickupLng, cells, read, now, q.resolution, RecordOf(request, q, now));
  }

  /** The live entries of a request set at `now`. */
  function LiveEntries(p: Props, data: Redis.Keyspace, key: StoreKey, now: int): set<SortedSet.Member> {
    set x | x in Redis.ZMembers(data, key) && Redis.Cutoff(p, now) <= x.score <= now
  }

  /**
   * A second identical booking at the same instant counts the first: its request
   * count is one higher, provided the first payload is new to the cell and no
   * earlier entry sits exactly on the window's lower edge (where the write prunes it).
   */
  lemma BookingCountsItself(p: Props, data: Redis.Keyspace, request: RideRequest, distanceKm: real,
                            cells: CellIndex, write: RecordWriter, now: int, payload: string)
    requires Redis.WellFormed(data) && WindowMillis(p) > 0
    requires write(RecordOf(request, Quote(p, data, request, distanceKm, cells, now), now)) == Some(payload)
    requires var q := Quote(p, data, request, distanceKm, cells, now);
      forall x | x in Redis.ZMembers(data, StoreKey(Requests, q.resolution, q.geofenceId)) ::
        x.name != payload && x.score != Redis.Cutoff(p, now)
    ensures var after := AfterBooking(p, data, request, distanceKm, cells, write, now);
      Redis.WellFormed(after) &&
      Quote(p, after, request, distanceKm, cells, now).requestCount == Quote(p, data, request, distanceKm, cells, now).requestCount + 1
  {
    var q := Quote(p, data, request, distanceKm, cells, now);
    var after := AfterBooking(p, data, request, distanceKm, cells, write, now);
    var key := StoreKey(Requests, q.resolution, q.geofenceId);
    Redis.AddRideRequestWellFormed(p, data, q.resolution, q.geofenceId, payload, now);
    Redis.AddRideRequestWindow(p, data, q.resolution, q.geofenceId, payload, now);
    var m := SortedSet.Member(payload, now);
    var before, later := LiveEntries(p, data, key, now), LiveEntries(p, after, key, now);
    assert later == before + {m};
    assert m !in before;
  }

  class RiderController {
    const store: Redis.RedisService
    const props: Props

    ghost predicate Valid()
      reads this, store
    {
      store.Valid() && props == store.props
    }

    constructor (store: Redis.RedisService)
      requires store.Valid()
      ensures Valid() && this.store == store
    {
      this.store := store;
      this.props := store.props;
    }

    /**
     * `bookRide`: quotes the ride, records the booking in the quoted cell, and
     * answers with the quote; a record that cannot be written is not stored and
     * the answer is the same.
     */
    method BookRide(request: RideRequest, distanceKm: real, cells: CellIndex, write: RecordWriter, now: int)
      returns (response: RidePricing)
      requires Valid()
      modifies store
      ensures Valid()
      ensures response == Quote(props, old(store.data), request, distanceKm, cells, now)
      ensures store.data == AfterBooking(props, old(store.data), request, distanceKm, cells, write, now)
    {
      ghost var quote := Quote(props, store.data, request, distanceKm, cells, now);
      var resolution := Pricing.SelectResolution(props, distanceKm);
      var geofenceId := cells(request.pickupLat, request.pickupLng, resolution);
      var basePrice := Pricing.BasePrice(props, distanceKm);
      var nearbyDrivers := store.GetDriverCount(resolution, geofenceId, now);
      var requestCount := store.GetRideRequestCount(resolution, geofenceId, now) + 1;
      var surgeMultiplier := Pricing.InstantSurge(props, requestCount, nearbyDrivers);
      var ratio := Ratio(requestCount, nearbyDrivers);
      var finalPrice := FinalPrice(basePrice, surgeMultiplier);
      response := RidePricing(request.riderId, distanceKm, basePrice, surgeMultiplier, finalPrice, geofenceId, resolution,
                              nearbyDrivers, requestCount, ratio, request.pickupName, request.dropName);
      assert response == quote by {
        assert resolution == quote.resolution && geofenceId == quote.geofenceId;
        assert nearbyDrivers == quote.nearbyDrivers && requestCount == quote.requestCount;
        assert basePrice == quote.basePrice && surgeMultiplier == quote.surgeMultiplier;
        assert finalPrice == quote.finalPrice && ratio == quote.ratio;
      }
      var record := RecordOf(request, response, now);
      match write(record) {
        case Some(payload) =>
          store.AddRideRequest(resolution, geofenceId, payload, now);
        case None =>
      }
    }
  }
}
