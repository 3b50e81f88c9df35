/**
 * The price arithmetic: the instant surge from a request/driver count, the
 * resolution chosen for a trip length, the distance price, and the O(1) price
 * lookup that reads the worker's published surge.
 */
module Pricing {
  import opened JavaText
  import opened Config
  import opened Geofence
  import opened StoreKeys
  import Redis

  function Min(a: real, b: real): real {
    if a <= b then a else b
  }

  /**
   * `calculateSurge`: no drivers means the cap; a request/driver ratio up to 1
   * means exactly 1.0 (not the configured base); above that, 1 + ratio/2, capped.
   */
  function InstantSurge(p: Props, requestCount: int, driverCount: int): (s: real)
    ensures driverCount <= 0 ==> s == p.maxSurgeMultiplier
    ensures driverCount > 0 && requestCount <= driverCount ==> s == 1.0
    ensures driverCount > 0 && requestCount > driverCount ==>
      s == Min(1.0 + (requestCount as real / driverCount as real) / 2.0, p.maxSurgeMultiplier)
    ensures driverCount > 0 && p.maxSurgeMultiplier >= 1.0 ==> 1.0 <= s <= p.maxSurgeMultiplier
  {
    if driverCount <= 0 then p.maxSurgeMultiplier
    else
      var ratio := requestCount as real / driverCount as real;
      RatioAtMostOne(requestCount, driverCount);
      if ratio <= 1.0 then 1.0 else Min(1.0 + ratio / 2.0, p.maxSurgeMultiplier)
  }

  /** The ratio test in `calculateSurge` is a comparison of the two counts. */
  lemma RatioAtMostOne(requests: int, drivers: int)
    requires drivers > 0
    ensures requests as real / drivers as real <= 1.0 <==> requests <= drivers
  {
    var d := drivers as real;
    assert requests as real / d * d == requests as real;
  }

  /** More requests never lower the surge, while the cap is at least 1. */
  lemma InstantSurgeMonotoneInRequests(p: Props, r1: int, r2: int, drivers: int)
    requires drivers > 0 && r1 <= r2 && p.maxSurgeMultiplier >= 1.0
    ensures InstantSurge(p, r1, drivers) <= InstantSurge(p, r2, drivers)
  {
    var d := drivers as real;
    assert r1 as real / d <= r2 as real / d by {
      var x1, x2 := r1 as real / d, r2 as real / d;
      assert x1 * d == r1 as real && x2 * d == r2 as real;
      assert (x2 - x1) * d == (r2 - r1) as real;
    }
  }

  /** More drivers never raise the surge; losing every driver puts the surge at the cap. */
  lemma InstantSurgeAntitoneInDrivers(p: Props, requests: int, d1: int, d2: int)
    requires requests >= 0 && 0 <= d1 <= d2 && p.maxSurgeMultiplier >= 1.0
    ensures InstantSurge(p, requests, d2) <= InstantSurge(p, requests, d1)
  {
    if d1 > 0 {
      var q := requests as real;
      assert q / d2 as real <= q / d1 as real by {
        var x1, x2 := q / d1 as real, q / d2 as real;
        assert x1 * d1 as real == q == x2 * d2 as real;
        assert x1 >= 0.0;
        assert (x1 - x2) * d2 as real == x1 * (d2 - d1) as real;
        NonNegativeFactor(x1 - x2, d2 as real, x1, (d2 - d1) as real);
      }
    }
  }

  /** A product that equals a product of two non-negative factors is non-negative, so is its first factor. */
  lemma NonNegativeFactor(a: real, b: real, c: real, d: real)
    requires b > 0.0 && c >= 0.0 && d >= 0.0 && a * b == c * d
    ensures a >= 0.0
  {
    assert c * d >= 0.0;
  }

  /** `calculateBasePrice`: the distance times the per-kilometre rate. */
  function BasePrice(p: Props, distanceKm: real): (price: real)
    ensures distanceKm >= 0.0 && p.pricePerKm >= 0.0 ==> price >= 0.0
    ensures distanceKm == 0.0 ==> price == 0.0
  {
    distanceKm * p.pricePerKm
  }

  /** The base price is linear in the distance: additive, and scaled by any factor. */
  lemma BasePriceLinear(p: Props, a: real, b: real, k: real)
    ensures BasePrice(p, a + b) == BasePrice(p, a) + BasePrice(p, b)
    ensures BasePrice(p, k * a) == k * BasePrice(p, a)
  {
  }

  /** With a non-negative rate, a longer trip never costs less. */
  lemma BasePriceMonotone(p: Props, d1: real, d2: real)
    requires p.pricePerKm >= 0.0 && d1 <= d2
    ensures BasePrice(p, d1) <= BasePrice(p, d2)
  {
    assert BasePrice(p, d2) - BasePrice(p, d1) == (d2 - d1) * p.pricePerKm;
  }

  /**
   * `selectResolution`: with a usable range, short trips get the finest cell,
   * long trips the coarsest, the rest the default; with min > max, always the default.
   */
  function SelectResolution(p: Props, distanceKm: real): (res: Int32)
    ensures res == p.minH3Resolution || res == p.maxH3Resolution || res == p.h3Resolution
    ensures p.minH3Resolution > p.maxH3Resolution ==> res == p.h3Resolution
    ensures p.minH3Resolution <= p.maxH3Resolution && distanceKm <= p.shortTripKmThreshold ==> res == p.maxH3Resolution
    ensures p.minH3Resolution <= p.maxH3Resolution && p.shortTripKmThreshold < distanceKm && p.longTripKmThreshold <= distanceKm ==>
      res == p.minH3Resolution
    ensures p.minH3Resolution <= p.maxH3Resolution && p.shortTripKmThreshold < distanceKm < p.longTripKmThreshold ==>
      res == p.h3Resolution
  {
    if p.minH3Resolution > p.maxH3Resolution then p.h3Resolution
    else if distanceKm <= p.shortTripKmThreshold then p.maxH3Resolution
    else if distanceKm >= p.longTripKmThreshold then p.minH3Resolution
    else p.h3Resolution
  }

  /** The resolution a trip gets never falls outside the configured range (when it is usable). */
  lemma ResolutionWithinRange(p: Props, distanceKm: real)
    requires p.minH3Resolution <= p.h3Resolution <= p.maxH3Resolution
    ensures ResolutionRange(p).0 <= SelectResolution(p, distanceKm) <= ResolutionRange(p).1
  {
  }

  /** A longer trip never gets a finer cell than a shorter one. */
  lemma FinerCellsForShorterTrips(p: Props, d1: real, d2: real)
    requires p.minH3Resolution <= p.h3Resolution <= p.maxH3Resolution
    requires d1 <= d2
    ensures SelectResolution(p, d2) <= SelectResolution(p, d1)
  {
  }

  /** The figures of the default configuration. */
  lemma DefaultFigures()
    ensures InstantSurge(Defaults(), 10, 4) == 2.25
    ensures InstantSurge(Defaults(), 4, 4) == 1.0
    ensures InstantSurge(Defaults(), 7, 0) == 3.0
    ensures InstantSurge(Defaults(), 40, 4) == 3.0
    ensures SelectResolution(Defaults(), 3.0) == 9
    ensures SelectResolution(Defaults(), 12.0) == 8
    ensures SelectResolution(Defaults(), 25.0) == 7
    ensures BasePrice(Defaults(), 12.5) == 250.0
  {
  }

  datatype PriceResponse = PriceResponse(baseFare: real, surgeMultiplier: real, geofenceId: CellId)

  /**
   * `getPrice`: the flat base fare and the surge the worker last published for the
   * rider's cell at the default resolution; a cell the worker has not reached yet
   * quotes the base multiplier.
   */
  function GetPrice(store: Redis.RedisService, cells: CellIndex, lat: real, lng: real): (r: PriceResponse)
    reads store
    ensures r.baseFare == store.props.baseFare
    ensures r.geofenceId == cells(lat, lng, store.props.h3Resolution)
    ensures r.surgeMultiplier == store.GetSurge(store.props.h3Resolution, r.geofenceId)
    ensures StoreKey(Surge, store.props.h3Resolution, r.geofenceId) !in store.data ==>
      r.surgeMultiplier == store.props.baseSurgeMultiplier
  {
    var id := cells(lat, lng, store.props.h3Resolution);
    PriceResponse(store.props.baseFare, store.GetSurge(store.props.h3Resolution, id), id)
  }
}
