/**
 * The driver-availability endpoint: the driver count of the caller's cell at the
 * default resolution, and the ride requests still in the window in the caller's
 * cell at every resolution of the adaptive range, read back from their payloads.
 */
module Availability {
  import opened Wrappers
  import opened JavaText
  import opened Config
  import opened Geofence
  import opened Rides
  import Redis

  /** The records of one payload: the parsed record, or none when it does not parse. */
  function Parsed(raw: string, read: RecordReader): seq<RideRequestRecord> {
    match read(raw)
    case None => []
    case Some(r) => [r]
  }

  /** The payloads read in order, each one that does not parse skipped. */
  function ParseAll(raws: seq<string>, read: RecordReader): seq<RideRequestRecord>
    decreases |raws|
  {
    if |raws| == 0 then []
    else ParseAll(raws[..|raws| - 1], read) + Parsed(raws[|raws| - 1], read)
  }

  /** Reading one payload more appends that payload's records. */
  lemma ParseAllStep(raws: seq<string>, i: nat, read: RecordReader)
    requires i < |raws|
    ensures ParseAll(raws[..i + 1], read) == ParseAll(raws[..i], read) + Parsed(raws[i], read)
  {
    assert raws[..i + 1][..i] == raws[..i];
  }

  lemma AppendAssociates<T>(a: seq<T>, b: seq<T>, c: seq<T>)
    ensures a + b + c == a + (b + c)
  {
  }

  /** A record is listed exactly when some payload parses to it. */
  lemma {:induction false} ParseAllMembership(raws: seq<string>, read: RecordReader, x: RideRequestRecord)
    ensures x in ParseAll(raws, read) <==> exists i | 0 <= i < |raws| :: read(raws[i]) == Some(x)
    decreases |raws|
  {
    if |raws| > 0 {
      var front := raws[..|raws| - 1];
      ParseAllMembership(front, read, x);
      if exists i | 0 <= i < |front| :: read(front[i]) == Some(x) {
        var i :| 0 <= i < |front| && read(front[i]) == Some(x);
        assert raws[i] == front[i];
      }
      if exists i | 0 <= i < |raws| :: read(raws[i]) == Some(x) {
        var i :| 0 <= i < |raws| && read(raws[i]) == Some(x);
        if i < |front| {
          assert front[i] == raws[i];
        }
      }
    }
  }

  /** Parsing two runs of payloads is parsing each and joining the results. */
  lemma {:induction false} ParseAllAppend(a: seq<string>, b: seq<string>, read: RecordReader)
    ensures ParseAll(a + b, read) == ParseAll(a, read) + ParseAll(b, read)
    decreases |b|
  {
    if |b| == 0 {
      assert a + b == a;
    } else {
      var b' := b[..|b| - 1];
      ParseAllAppend(a, b', read);
      assert (a + b)[..|a + b| - 1] == a + b';
      assert (a + b)[|a + b| - 1] == b[|b| - 1];
    }
  }

  /** A payload that does not parse is dropped without disturbing the others. */
  lemma BadPayloadDropped(a: seq<string>, bad: string, b: seq<string>, read: RecordReader)
    requires read(bad).None?
    ensures ParseAll(a + [bad] + b, read) == ParseAll(a + b, read)
  {
    ParseAllAppend(a + [bad], b, read);
    ParseAllAppend(a, b, read);
    assert (a + [bad])[..|a + [bad]| - 1] == a;
  }

  /** When every payload parses, the records are the parsed payloads, one each, in order. */
  lemma {:induction false} AllPayloadsKept(raws: seq<string>, read: RecordReader)
    requires forall i | 0 <= i < |raws| :: read(raws[i]).Some?
    ensures |ParseAll(raws, read)| == |raws|
    ensures forall i | 0 <= i < |raws| :: ParseAll(raws, read)[i] == read(raws[i]).value
    decreases |raws|
  {
    if |raws| > 0 {
      var front := raws[..|raws| - 1];
      assert forall i | 0 <= i < |front| :: front[i] == raws[i];
      AllPayloadsKept(front, read);
    }
  }

  /** The lists `lo` up to `r - 1` joined, lowest first. */
  function Concat<T>(lists: int -> seq<T>, lo: int, r: int): seq<T>
    requires lo <= r
    decreases r - lo
  {
    if r == lo then []
    else Concat(lists, lo, r - 1) + lists(r - 1)
  }

  /** An element of the joined lists is an element of one of them, and conversely. */
  lemma {:induction false} ConcatMembership<T>(lists: int -> seq<T>, lo: int, r: int, x: T)
    requires lo <= r
    ensures x in Concat(lists, lo, r) <==> exists i | lo <= i < r :: x in lists(i)
    decreases r - lo
  {
    if r > lo {
      ConcatMembership(lists, lo, r - 1, x);
      if exists i | lo <= i < r :: x in lists(i) {
        var i :| lo <= i < r && x in lists(i);
        if i < r - 1 {
          assert x in Concat(lists, lo, r - 1);
        }
      }
    }
  }

  lemma ConcatOne<T>(lists: int -> seq<T>, i: int)
    ensures Concat(lists, i, i + 1) == lists(i)
  {
    assert Concat(lists, i, i + 1) == Concat(lists, i, i) + lists(i);
  }

  /** The joined lists keep their order: everything before `mid`, then list `mid`, then the rest. */
  lemma {:induction false} ConcatInOrder<T>(lists: int -> seq<T>, lo: int, mid: int, r: int)
    requires lo <= mid < r
    ensures Concat(lists, lo, r) == Concat(lists, lo, mid) + lists(mid) + Concat(lists, mid + 1, r)
    decreases r - lo
  {
    if r - 1 > mid {
      ConcatInOrder(lists, lo, mid, r - 1);
    }
  }

  /** The parsed live requests of the caller's cell at resolution `res`. */
  function RequestsAt(p: Props, data: Redis.Keyspace, lat: real, lng: real, cells: CellIndex,
                      read: RecordReader, now: int, res: Int32): seq<RideRequestRecord>
    requires Redis.WellFormed(data)
  {
    ParseAll(Redis.ActiveRideRequests(p, data, res, cells(lat, lng, res), now), read)
  }

  /**
   * The parsed live requests of the caller's cell at each resolution (a store that
   * is not well formed is never read, and lists none).
   */
  function PerResolution(p: Props, data: Redis.Keyspace, lat: real, lng: real, cells: CellIndex,
                         read: RecordReader, now: int): int -> seq<RideRequestRecord>
  {
    (res: int) =>
      if INT_MIN <= res <= INT_MAX && Redis.WellFormed(data) then RequestsAt(p, data, lat, lng, cells, read, now, res)
      else []
  }

  /** At a resolution of Java's `int` range, the per-resolution list is that resolution's requests. */
  lemma PerResolutionAt(p: Props, data: Redis.Keyspace, lat: real, lng: real, cells: CellIndex,
                        read: RecordReader, now: int, res: Int32)
    requires Redis.WellFormed(data)
    ensures PerResolution(p, data, lat, lng, cells, read, now)(res) == RequestsAt(p, data, lat, lng, cells, read, now, res)
  {
  }

  /** The request list of the availability response: every resolution of the range, ascending. */
  function NearbyRequests(p: Props, data: Redis.Keyspace, lat: real, lng: real, cells: CellIndex,
                          read: RecordReader, now: int): seq<RideRequestRecord>
  {
    Concat(PerResolution(p, data, lat, lng, cells, read, now), ResolutionRange(p).0, ResolutionRange(p).1 + 1)
  }

  /** Some live payload of the caller's cell at resolution `res` parses to `x`. */
  predicate PostedAt(p: Props, data: Redis.Keyspace, lat: real, lng: real, cells: CellIndex,
                     read: RecordReader, now: int, res: Int32, x: RideRequestRecord)
    requires Redis.WellFormed(data)
  {
    exists raw | raw in Redis.ActiveRideRequests(p, data, res, cells(lat, lng, res), now) :: read(raw) == Some(x)
  }

  /** A record is among the requests parsed at `res` exactly when a live payload there parses to it. */
  lemma RequestsAtMembership(p: Props, data: Redis.Keyspace, lat: real, lng: real, cells: CellIndex,
                             read: RecordReader, now: int, res: Int32, x: RideRequestRecord)
    requires Redis.WellFormed(data)
    ensures x in RequestsAt(p, data, lat, lng, cells, read, now, res) <==> PostedAt(p, data, lat, lng, cells, read, now, res, x)
  {
    var raws := Redis.ActiveRideRequests(p, data, res, cells(lat, lng, res), now);
    ParseAllMembership(raws, read, x);
    if PostedAt(p, data, lat, lng, cells, read, now, res, x) {
      var raw :| raw in raws && read(raw) == Some(x);
      var i :| 0 <= i < |raws| && raws[i] == raw;
    }
  }

  /** A listed request was posted in the caller's cell at a resolution of the range. */
  lemma ListedRequestWasPosted(p: Props, data: Redis.Keyspace, lat: real, lng: real, cells: CellIndex,
                               read: RecordReader, now: int, x: RideRequestRecord)
    requires Redis.WellFormed(data)
    requires x in NearbyRequests(p, data, lat, lng, cells, read, now)
    ensures exists res: Int32 | ResolutionRange(p).0 <= res <= ResolutionRange(p).1 :: PostedAt(p, data, lat, lng, cells, read, now, res, x)
  {
    var lists := PerResolution(p, data, lat, lng, cells, read, now);
    ConcatMembership(lists, ResolutionRange(p).0, ResolutionRange(p).1 + 1, x);
    var i :| ResolutionRange(p).0 <= i < ResolutionRange(p).1 + 1 && x in lists(i);
    var res: Int32 := i;
    PerResolutionAt(p, data, lat, lng, cells, read, now, res);
    RequestsAtMembership(p, data, lat, lng, cells, read, now, res, x);
  }

  /** A request posted in the caller's cell at a resolution of the range is listed. */
  lemma PostedRequestIsListed(p: Props, data: Redis.Keyspace, lat: real, lng: real, cells: CellIndex,
                              read: RecordReader, now: int, res: Int32, x: RideRequestRecord)
    requires Redis.WellFormed(data)
    requires ResolutionRange(p).0 <= res <= ResolutionRange(p).1
    requires PostedAt(p, data, lat, lng, cells, read, now, res, x)
    ensures x in NearbyRequests(p, data, lat, lng, cells, read, now)
  {
    var lists := PerResolution(p, data, lat, lng, cells, read, now);
    RequestsAtMembership(p, data, lat, lng, cells, read, now, res, x);
    PerResolutionAt(p, data, lat, lng, cells, read, now, res);
    ConcatMembership(lists, ResolutionRange(p).0, ResolutionRange(p).1 + 1, x);
  }

  /**
   * The requests of the response come from the caller's cells at the scanned
   * resolutions and nowhere else: a record is listed exactly when a live payload of
   * the caller's cell at one of those resolutions parses to it.
   */
  lemma NearbyRequestsMembership(p: Props, data: Redis.Keyspace, lat: real, lng: real, cells: CellIndex,
                                 read: RecordReader, now: int, x: RideRequestRecord)
    requires Redis.WellFormed(data)
    ensures x in NearbyRequests(p, data, lat, lng, cells, read, now) <==>
      exists res: Int32 | ResolutionRange(p).0 <= res <= ResolutionRange(p).1 :: PostedAt(p, data, lat, lng, cells, read, now, res, x)
  {
    if x in NearbyRequests(p, data, lat, lng, cells, read, now) {
      ListedRequestWasPosted(p, data, lat, lng, cells, read, now, x);
    }
    if exists res: Int32 | ResolutionRange(p).0 <= res <= ResolutionRange(p).1 :: PostedAt(p, data, lat, lng, cells, read, now, res, x) {
      var res: Int32 :| ResolutionRange(p).0 <= res <= ResolutionRange(p).1 && PostedAt(p, data, lat, lng, cells, read, now, res, x);
      PostedRequestIsListed(p, data, lat, lng, cells, read, now, res, x);
    }
  }

  /**
   * The requests are grouped by resolution in ascending order: those of the
   * resolutions below `res`, then those of `res`, then those above it.
   */
  lemma NearbyRequestsInResolutionOrder(p: Props, data: Redis.Keyspace, lat: real, lng: real, cells: CellIndex,
                                        read: RecordReader, now: int, res: Int32)
    requires Redis.WellFormed(data)
    requires ResolutionRange(p).0 <= res <= ResolutionRange(p).1
    ensures var lists := PerResolution(p, data, lat, lng, cells, read, now);
      NearbyRequests(p, data, lat, lng, cells, read, now) ==
        Concat(lists, ResolutionRange(p).0, res) + RequestsAt(p, data, lat, lng, cells, read, now, res)
        + Concat(lists, res + 1, ResolutionRange(p).1 + 1)
  {
    ConcatInOrder(PerResolution(p, data, lat, lng, cells, read, now), ResolutionRange(p).0, res, ResolutionRange(p).1 + 1);
  }

  /** With the range empty (min above max) only the default resolution is scanned. */
  lemma EmptyRangeScansDefaultOnly(p: Props, data: Redis.Keyspace, lat: real, lng: real, cells: CellIndex,
                                   read: RecordReader, now: int)
    requires Redis.WellFormed(data)
    requires p.minH3Resolution > p.maxH3Resolution
    ensures NearbyRequests(p, data, lat, lng, cells, read, now) ==
      RequestsAt(p, data, lat, lng, cells, read, now, p.h3Resolution)
  {
    ConcatOne(PerResolution(p, data, lat, lng, cells, read, now), p.h3Resolution);
    PerResolutionAt(p, data, lat, lng, cells, read, now, p.h3Resolution);
  }

  /**
   * The inner loop of `availability`: each payload of the list, in order, appended
   * to `requests` when it parses and skipped when it does not.
   */
  method AppendParsed(requests: seq<RideRequestRecord>, raws: seq<string>, read: RecordReader)
    returns (result: seq<RideRequestRecord>)
    ensures result == requests + ParseAll(raws, read)
  {
    result := requests;
    var i := 0;
    while i < |raws|
      invariant 0 <= i <= |raws|
      invariant result == requests + ParseAll(raws[..i], read)
    {
      ParseAllStep(raws, i, read);
      match read(raws[i]) {
        case Some(record) =>
          AppendAssociates(requests, ParseAll(raws[..i], read), [record]);
          result := result + [record];
        case None =>
      }
      i := i + 1;
    }
    assert raws[..i] == raws;
  }

  datatype AvailabilityResponse = AvailabilityResponse(
    geofenceId: CellId,
    nearbyDrivers: nat,
    requests: seq<RideRequestRecord>)

  class DriverAvailabilityController {
    const store: Redis.RedisService
    const props: Props

    ghost predicate Valid()
      reads this, store
    {
      store.Valid() && props == store.props
    }

    constructor (store: Redis.RedisService)
      requires store.Valid()
      ensures Valid() && this.store == store
    {
      this.store := store;
      this.props := store.props;
    }

    /**
     * The outer loop of `availability`: the parsed live requests of the caller's cell
     * at each resolution from `minRes` to `maxRes`, lowest first.
     */
    method ScanResolutions(lat: real, lng: real, cells: CellIndex, read: RecordReader, now: int, minRes: Int32, maxRes: Int32)
      returns (requests: seq<RideRequestRecord>)
      requires Valid()
      requires minRes <= maxRes
      ensures requests == Concat(PerResolution(props, store.data, lat, lng, cells, read, now), minRes, maxRes + 1)
    {
      requests := [];
      ghost var lists := PerResolution(props, store.data, lat, lng, cells, read, now);
      var res: int := minRes;
      while res <= maxRes
        invariant minRes <= res <= maxRes + 1
        invariant requests == Concat(lists, minRes, res)
      {
        var resGeofence := cells(lat, lng, res);
        var rawRequests := store.GetActiveRideRequests(res, resGeofence, now);
        requests := AppendParsed(requests, rawRequests, read);
        PerResolutionAt(props, store.data, lat, lng, cells, read, now, res);
        res := res + 1;
      }
    }

    /**
     * `availability`: the caller's cell and its driver count at the default
     * resolution, and the parsed live requests of the caller's cells over the range.
     * It only reads the store.
     */
    method Availability(lat: real, lng: real, cells: CellIndex, read: RecordReader, now: int)
      returns (response: AvailabilityResponse)
      requires Valid()
      ensures response.geofenceId == cells(lat, lng, props.h3Resolution)
      ensures response.nearbyDrivers == Redis.DriverCount(props, store.data, props.h3Resolution, response.geofenceId, now)
      ensures response.requests == NearbyRequests(props, store.data, lat, lng, cells, read, now)
    {
      var defaultRes := props.h3Resolution;
      var geofenceId := cells(lat, lng, defaultRes);
      var nearbyDrivers := store.GetDriverCount(defaultRes, geofenceId, now);
      var minRes := props.minH3Resolution;
      var maxRes := props.maxH3Resolution;
      if minRes > maxRes {
        minRes := defaultRes;
        maxRes := defaultRes;
      }
      var requests := ScanResolutions(lat, lng, cells, read, now, minRes, maxRes);
      response := AvailabilityResponse(geofenceId, nearbyDrivers, requests);
    }
  }
}
