/**
 * The driver-location consumer. Each batch of messages from the location topic is
 * parsed message by message; a driver's ping is written into its cell at every
 * resolution of the adaptive range, and a message that does not parse is skipped
 * without disturbing the rest of the batch.
 */
module Consumer {
  import opened Wrappers
  import opened JavaText
  import opened Config
  import opened Geofence
  import opened StoreKeys
  import SortedSet
  import Redis

  /** A parsed location message. */
  datatype DriverLocation = DriverLocation(driverId: string, lat: real, lng: real)

  /** Reading a message into a location; `None` where the JSON reader throws. */
  type LocationReader = string -> Option<DriverLocation>

  /** The store after writing `loc` into its cells at the resolutions `lo` up to `r - 1`, in ascending order. */
  function FanUpTo(p: Props, data: Redis.Keyspace, loc: DriverLocation, cells: CellIndex,
                   lo: int, r: int, now: int): (d: Redis.Keyspace)
    requires INT_MIN <= lo <= r <= INT_MAX + 1
    decreases r - lo
  {
    if r == lo then data
    else
      var res: Int32 := r - 1;
      Redis.AfterAddDriver(p, FanUpTo(p, data, loc, cells, lo, r - 1, now), res, cells(loc.lat, loc.lng, res), loc.driverId, now)
  }

  /** One more resolution of a fan-out is one more `addDriver`. */
  lemma FanUpToStep(p: Props, data: Redis.Keyspace, loc: DriverLocation, cells: CellIndex, lo: int, r: Int32, now: int,
                    before: Redis.Keyspace, after: Redis.Keyspace)
    requires INT_MIN <= lo <= r
    requires before == FanUpTo(p, data, loc, cells, lo, r, now)
    requires after == Redis.AfterAddDriver(p, before, r, cells(loc.lat, loc.lng, r), loc.driverId, now)
    ensures after == FanUpTo(p, data, loc, cells, lo, r + 1, now)
  {
  }

  /** One successful message: the ping written at every resolution of the range. */
  function FanOut(p: Props, data: Redis.Keyspace, loc: DriverLocation, cells: CellIndex, now: int): (d: Redis.Keyspace)
  {
    FanUpTo(p, data, loc, cells, ResolutionRange(p).0, ResolutionRange(p).1 + 1, now)
  }

  /** The store after a batch: the messages in order, those that do not parse leaving it as it is. */
  function Ingest(p: Props, data: Redis.Keyspace, messages: seq<string>, read: LocationReader,
                  cells: CellIndex, now: int): (d: Redis.Keyspace)
    decreases |messages|
  {
    if |messages| == 0 then data
    else Step(p, Ingest(p, data, messages[..|messages| - 1], read, cells, now), messages[|messages| - 1], read, cells, now)
  }

  /** One message: its ping fanned out when it parses, nothing written when it does not. */
  function Step(p: Props, data: Redis.Keyspace, message: string, read: LocationReader, cells: CellIndex, now: int): Redis.Keyspace {
    match read(message)
    case None => data
    case Some(loc) => FanOut(p, data, loc, cells, now)
  }

  /** The number of messages in the batch that parse. */
  function Successes(read: LocationReader, messages: seq<string>): (n: nat)
    ensures n <= |messages|
    decreases |messages|
  {
    if |messages| == 0 then 0
    else Successes(read, messages[..|messages| - 1]) + (if read(messages[|messages| - 1]).Some? then 1 else 0)
  }

  // ---- what a batch does to the store ----

  /** A member scored `now` in a driver set survives a fan-out at the same `now`. */
  lemma {:induction false} FanUpToKeepsFresh(p: Props, data: Redis.Keyspace, loc: DriverLocation, cells: CellIndex,
                                             lo: int, r: int, now: int, res: Int32, id: CellId, x: SortedSet.Member)
    requires INT_MIN <= lo <= r <= INT_MAX + 1 && WindowMillis(p) > 0
    requires x.score == now && x in Redis.ZMembers(data, StoreKey(Drivers, res, id))
    ensures x in Redis.ZMembers(FanUpTo(p, data, loc, cells, lo, r, now), StoreKey(Drivers, res, id))
    decreases r - lo
  {
    if r > lo {
      FanUpToKeepsFresh(p, data, loc, cells, lo, r - 1, now, res, id, x);
      var r1: Int32 := r - 1;
      Redis.AddDriverKeepsFresh(p, FanUpTo(p, data, loc, cells, lo, r - 1, now), r1, cells(loc.lat, loc.lng, r1),
                                loc.driverId, now, StoreKey(Drivers, res, id), x);
    }
  }

  /** A fan-out over [lo, r) is the fan-out over [lo, m) followed by the one over [m, r). */
  lemma {:induction false} FanUpToSplit(p: Props, data: Redis.Keyspace, loc: DriverLocation, cells: CellIndex,
                                        lo: int, m: int, r: int, now: int)
    requires INT_MIN <= lo <= m <= r <= INT_MAX + 1
    ensures FanUpTo(p, data, loc, cells, lo, r, now) == FanUpTo(p, FanUpTo(p, data, loc, cells, lo, m, now), loc, cells, m, r, now)
    decreases r - m
  {
    if r > m {
      FanUpToSplit(p, data, loc, cells, lo, m, r - 1, now);
    }
  }

  /** After a fan-out the driver is in its cell, scored `now`, at every resolution written. */
  lemma FanUpToWritesPing(p: Props, data: Redis.Keyspace, loc: DriverLocation, cells: CellIndex,
                          lo: int, r: int, now: int, res: Int32)
    requires INT_MIN <= lo <= r <= INT_MAX + 1 && WindowMillis(p) > 0
    requires lo <= res < r
    ensures SortedSet.Member(loc.driverId, now)
      in Redis.ZMembers(FanUpTo(p, data, loc, cells, lo, r, now), StoreKey(Drivers, res, cells(loc.lat, loc.lng, res)))
  {
    var id := cells(loc.lat, loc.lng, res);
    FanUpToSplit(p, data, loc, cells, lo, res + 1, r, now);
    var mid := FanUpTo(p, data, loc, cells, lo, res + 1, now);
    Redis.PingedDriverIsPresent(p, FanUpTo(p, data, loc, cells, lo, res, now), res, id, loc.driverId, now);
    FanUpToKeepsFresh(p, mid, loc, cells, res + 1, r, now, res, id, SortedSet.Member(loc.driverId, now));
  }

  /** A fan-out writes no key of a resolution it does not reach. */
  lemma {:induction false} FanUpToStaysInRange(p: Props, data: Redis.Keyspace, loc: DriverLocation, cells: CellIndex,
                                               lo: int, r: int, now: int, kind: KeyKind, res: Int32, id: CellId)
    requires INT_MIN <= lo <= r <= INT_MAX + 1
    requires res < lo || r <= res
    ensures var after := FanUpTo(p, data, loc, cells, lo, r, now);
      (StoreKey(kind, res, id) in after <==> StoreKey(kind, res, id) in data)
      && (StoreKey(kind, res, id) in data ==> after[StoreKey(kind, res, id)] == data[StoreKey(kind, res, id)])
    decreases r - lo
  {
    if r > lo {
      var r1: Int32 := r - 1;
      FanUpToStaysInRange(p, data, loc, cells, lo, r - 1, now, kind, res, id);
      Redis.AddDriverTouchesOnly(p, FanUpTo(p, data, loc, cells, lo, r - 1, now), r1, cells(loc.lat, loc.lng, r1), loc.driverId, now);
    }
  }

  /** A member scored `now` in a driver set survives the rest of a batch at the same `now`. */
  lemma {:induction false} IngestKeepsFresh(p: Props, data: Redis.Keyspace, messages: seq<string>, read: LocationReader,
                                            cells: CellIndex, now: int, res: Int32, id: CellId, x: SortedSet.Member)
    requires WindowMillis(p) > 0
    requires x.score == now && x in Redis.ZMembers(data, StoreKey(Drivers, res, id))
    ensures x in Redis.ZMembers(Ingest(p, data, messages, read, cells, now), StoreKey(Drivers, res, id))
    decreases |messages|
  {
    if |messages| > 0 {
      var prefix := messages[..|messages| - 1];
      IngestKeepsFresh(p, data, prefix, read, cells, now, res, id, x);
      StepKeepsFresh(p, Ingest(p, data, prefix, read, cells, now), messages[|messages| - 1], read, cells, now, res, id, x);
    }
  }

  lemma StepKeepsFresh(p: Props, data: Redis.Keyspace, message: string, read: LocationReader,
                       cells: CellIndex, now: int, res: Int32, id: CellId, x: SortedSet.Member)
    requires WindowMillis(p) > 0
    requires x.score == now && x in Redis.ZMembers(data, StoreKey(Drivers, res, id))
    ensures x in Redis.ZMembers(Step(p, data, message, read, cells, now), StoreKey(Drivers, res, id))
  {
    if read(message).Some? {
      FanUpToKeepsFresh(p, data, read(message).value, cells, ResolutionRange(p).0, ResolutionRange(p).1 + 1, now, res, id, x);
    }
  }

  /**
   * With a positive window, the driver of every message of the batch that parses is
   * in its cell, scored `now`, at every resolution of the range.
   */
  lemma {:induction false} IngestedDriversPresent(p: Props, data: Redis.Keyspace, messages: seq<string>, read: LocationReader,
                                                  cells: CellIndex, now: int, i: int, res: Int32)
    requires WindowMillis(p) > 0
    requires 0 <= i < |messages| && read(messages[i]).Some?
    requires ResolutionRange(p).0 <= res <= ResolutionRange(p).1
    ensures var loc := read(messages[i]).value;
      SortedSet.Member(loc.driverId, now)
        in Redis.ZMembers(Ingest(p, data, messages, read, cells, now), StoreKey(Drivers, res, cells(loc.lat, loc.lng, res)))
    decreases |messages|
  {
    var loc := read(messages[i]).value;
    var prefix := messages[..|messages| - 1];
    var before := Ingest(p, data, prefix, read, cells, now);
    if i == |messages| - 1 {
      FanUpToWritesPing(p, before, loc, cells, ResolutionRange(p).0, ResolutionRange(p).1 + 1, now, res);
    } else {
      assert prefix[i] == messages[i];
      IngestedDriversPresent(p, data, prefix, read, cells, now, i, res);
      StepKeepsFresh(p, before, messages[|messages| - 1], read, cells, now,
                     res, cells(loc.lat, loc.lng, res), SortedSet.Member(loc.driverId, now));
    }
  }

  /** A batch writes no key of a resolution outside the range. */
  lemma {:induction false} IngestStaysInRange(p: Props, data: Redis.Keyspace, messages: seq<string>, read: LocationReader,
                                              cells: CellIndex, now: int, kind: KeyKind, res: Int32, id: CellId)
    requires res < ResolutionRange(p).0 || ResolutionRange(p).1 < res
    ensures var after := Ingest(p, data, messages, read, cells, now);
      (StoreKey(kind, res, id) in after <==> StoreKey(kind, res, id) in data)
      && (StoreKey(kind, res, id) in data ==> after[StoreKey(kind, res, id)] == data[StoreKey(kind, res, id)])
    decreases |messages|
  {
    if |messages| > 0 {
      var prefix := messages[..|messages| - 1];
      IngestStaysInRange(p, data, prefix, read, cells, now, kind, res, id);
      StepStaysInRange(p, Ingest(p, data, prefix, read, cells, now), messages[|messages| - 1], read, cells, now, kind, res, id);
    }
  }

  lemma StepStaysInRange(p: Props, data: Redis.Keyspace, message: string, read: LocationReader,
                         cells: CellIndex, now: int, kind: KeyKind, res: Int32, id: CellId)
    requires res < ResolutionRange(p).0 || ResolutionRange(p).1 < res
    ensures var after := Step(p, data, message, read, cells, now);
      (StoreKey(kind, res, id) in after <==> StoreKey(kind, res, id) in data)
      && (StoreKey(kind, res, id) in data ==> after[StoreKey(kind, res, id)] == data[StoreKey(kind, res, id)])
  {
    if read(message).Some? {
      FanUpToStaysInRange(p, data, read(message).value, cells, ResolutionRange(p).0, ResolutionRange(p).1 + 1, now, kind, res, id);
    }
  }

  /** A batch is the batch of its first part followed by the batch of the rest. */
  lemma {:induction false} IngestAppend(p: Props, data: Redis.Keyspace, a: seq<string>, b: seq<string>, read: LocationReader,
                                        cells: CellIndex, now: int)
    ensures Ingest(p, data, a + b, read, cells, now) == Ingest(p, Ingest(p, data, a, read, cells, now), b, read, cells, now)
    decreases |b|
  {
    if |b| == 0 {
      assert a + b == a;
    } else {
      var b' := b[..|b| - 1];
      IngestAppend(p, data, a, b', read, cells, now);
      assert (a + b)[..|a + b| - 1] == a + b';
      assert (a + b)[|a + b| - 1] == b[|b| - 1];
    }
  }

  /** A message that does not parse is skipped: the batch does what it would do without it. */
  lemma BadMessageSkipped(p: Props, data: Redis.Keyspace, a: seq<string>, bad: string, b: seq<string>,
                          read: LocationReader, cells: CellIndex, now: int)
    requires read(bad).None?
    ensures Ingest(p, data, a + [bad] + b, read, cells, now) == Ingest(p, data, a + b, read, cells, now)
  {
    IngestAppend(p, data, a + [bad], b, read, cells, now);
    IngestAppend(p, data, a, b, read, cells, now);
    assert (a + [bad])[..|a + [bad]| - 1] == a;
  }

  /** The success count of a batch is the counts of its parts added up. */
  lemma {:induction false} SuccessesAppend(read: LocationReader, a: seq<string>, b: seq<string>)
    ensures Successes(read, a + b) == Successes(read, a) + Successes(read, b)
    decreases |b|
  {
    if |b| == 0 {
      assert a + b == a;
    } else {
      var b' := b[..|b| - 1];
      SuccessesAppend(read, a, b');
      assert (a + b)[..|a + b| - 1] == a + b';
      assert (a + b)[|a + b| - 1] == b[|b| - 1];
    }
  }

  /** A message that does not parse does not count as processed. */
  lemma BadMessageNotCounted(read: LocationReader, a: seq<string>, bad: string, b: seq<string>)
    requires read(bad).None?
    ensures Successes(read, a + [bad] + b) == Successes(read, a + b)
  {
    SuccessesAppend(read, a + [bad], b);
    SuccessesAppend(read, a, b);
    SuccessesAppend(read, a, [bad]);
    assert [bad][..0] == [];
  }

  // ---- the consumer ----

  class DriverLocationConsumer {
    const store: Redis.RedisService
    const props: Props
    /** The number of messages processed successfully since start. */
    var processedCount: nat

    ghost predicate Valid()
      reads this, store
    {
      store.Valid() && props == store.props
    }

    constructor (store: Redis.RedisService)
      requires store.Valid()
      ensures Valid() && this.store == store && processedCount == 0
    {
      this.store := store;
      this.props := store.props;
      processedCount := 0;
    }

    /**
     * `consumeLocations`: writes every parsed ping at every resolution of the range,
     * skips the messages that do not parse, and adds the number of successes to the
     * processed counter.
     */
    method ConsumeLocations(messages: seq<string>, read: LocationReader, cells: CellIndex, now: int)
      returns (successCount: nat)
      requires Valid()
      modifies this, store
      ensures Valid()
      ensures store.data == Ingest(props, old(store.data), messages, read, cells, now)
      ensures successCount == Successes(read, messages)
      ensures processedCount == old(processedCount) + successCount
    {
      successCount := 0;
      var i := 0;
      while i < |messages|
        invariant 0 <= i <= |messages|
        invariant Valid() && processedCount == old(processedCount)
        invariant store.data == Ingest(props, old(store.data), messages[..i], read, cells, now)
        invariant successCount == Successes(read, messages[..i])
      {
        assert messages[..i + 1][..i] == messages[..i];
        var location := read(messages[i]);
        match location {
          case None =>
          case Some(loc) =>
            WriteAcrossResolutions(loc, cells, now);
            successCount := successCount + 1;
        }
        i := i + 1;
      }
      assert messages[..i] == messages;
      processedCount := processedCount + successCount;
    }

    /**
     * The inner loop of `consumeLocations`: the ping written at every resolution from
     * the minimum to the maximum, or at the default resolution alone when the
     * configured range is empty.
     */
    method WriteAcrossResolutions(loc: DriverLocation, cells: CellIndex, now: int)
      requires Valid()
      modifies store
      ensures Valid()
      ensures store.data == FanOut(props, old(store.data), loc, cells, now)
    {
      var minRes := props.minH3Resolution;
      var maxRes := props.maxH3Resolution;
      if minRes > maxRes {
        minRes := props.h3Resolution;
        maxRes := props.h3Resolution;
      }
      var res: int := minRes;
      while res <= maxRes
        invariant minRes <= res <= maxRes + 1
        invariant Valid()
        invariant store.data == FanUpTo(props, old(store.data), loc, cells, minRes, res, now)
      {
        var geofenceId := cells(loc.lat, loc.lng, res);
        ghost var prev := store.data;
        store.AddDriver(res, geofenceId, loc.driverId, now);
        FanUpToStep(props, old(store.data), loc, cells, minRes, res, now, prev, store.data);
        res := res + 1;
      }
    }
  }
}
