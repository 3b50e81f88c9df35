/**
 * The windowed state store. The keyspace maps the six per-cell keys to one of three
 * shapes of value: a time-scored sorted set, an integer, or a decimal. A key is held
 * as its parts (kind, resolution, cell); its string form matters only to the pattern
 * scan, and distinct parts always give distinct strings (`StoreKeys.KeyTextInjective`).
 * The Redis commands the service issues are pure functions on the keyspace;
 * `RedisService` holds the keyspace and changes it only through them.
 */
module Redis {
  import opened Wrappers
  import opened JavaText
  import opened Config
  import opened Geofence
  import opened StoreKeys
  import SortedSet

  datatype Entry =
    | TimedSet(members: seq<SortedSet.Member>)
    | Integer(value: int)
    | Decimal(x: real)

  type Keyspace = map<StoreKey, Entry>

  /** Whether a value has the shape that keys of `kind` hold. */
  predicate Fits(kind: KeyKind, e: Entry) {
    match kind
    case Drivers => e.TimedSet? && SortedSet.Valid(e.members)
    case Requests => e.TimedSet? && SortedSet.Valid(e.members)
    case Demand => e.Integer?
    case LastUpdate => e.Integer?
    case Baseline => e.Decimal?
    case Surge => e.Decimal?
  }

  /** Every key holds a value of its kind's shape; in particular every sorted set is ordered and has one entry per member. */
  predicate WellFormed(data: Keyspace) {
    forall k | k in data :: Fits(k.kind, data[k])
  }

  // ---- Redis commands ----

  /** The members of the sorted set at `key`; none when the key is absent. */
  function ZMembers(data: Keyspace, key: StoreKey): seq<SortedSet.Member> {
    if key in data && data[key].TimedSet? then data[key].members else []
  }

  /** A sorted-set key of a well-formed keyspace holds a well-formed set. */
  lemma MembersValid(data: Keyspace, key: StoreKey)
    requires WellFormed(data) && (key.kind == Drivers || key.kind == Requests)
    ensures SortedSet.Valid(ZMembers(data, key))
  {
    if key in data {
      assert Fits(key.kind, data[key]);
    }
  }

  /** ZADD key score member. */
  function ZAdd(data: Keyspace, key: StoreKey, member: string, score: int): Keyspace {
    data[key := TimedSet(SortedSet.Add(ZMembers(data, key), member, score))]
  }

  /** ZREMRANGEBYSCORE key lo hi; like Redis, a set left empty is deleted with its key. */
  function ZRemRangeByScore(data: Keyspace, key: StoreKey, lo: int, hi: int): Keyspace {
    if key !in data || !data[key].TimedSet? then data
    else
      var rest := SortedSet.RemoveRangeByScore(data[key].members, lo, hi);
      if rest == [] then data - {key} else data[key := TimedSet(rest)]
  }

  /** ZCOUNT key lo hi. */
  function ZCount(data: Keyspace, key: StoreKey, lo: int, hi: int): nat {
    SortedSet.Count(ZMembers(data, key), lo, hi)
  }

  /** ZRANGEBYSCORE key lo hi. */
  function ZRangeByScore(data: Keyspace, key: StoreKey, lo: int, hi: int): seq<string> {
    SortedSet.RangeByScore(ZMembers(data, key), lo, hi)
  }

  /** GET of an integer value. */
  function GetInteger(data: Keyspace, key: StoreKey): Option<int> {
    if key in data && data[key].Integer? then Some(data[key].value) else None
  }

  /** GET of a decimal value. */
  function GetDecimal(data: Keyspace, key: StoreKey): Option<real> {
    if key in data && data[key].Decimal? then Some(data[key].x) else None
  }

  /** INCR key: an absent counter counts as 0 before the increment. */
  function Incr(data: Keyspace, key: StoreKey): Keyspace {
    data[key := Integer(GetInteger(data, key).GetOr(0) + 1)]
  }

  /** KEYS pattern: the string forms of the keys that match. */
  function Keys(data: Keyspace, pattern: string -> bool): set<string> {
    set k | k in data && pattern(KeyText(k)) :: KeyText(k)
  }

  // ---- what each write of the service does to the keyspace ----

  /** The three Redis commands the service issues. */
  datatype Command =
    | ZAddCmd(key: StoreKey, member: string, score: int)
    | ZRemRangeByScoreCmd(key: StoreKey, lo: int, hi: int)
    | SetCmd(key: StoreKey, entry: Entry)

  function Run(data: Keyspace, c: Command): Keyspace {
    match c
    case ZAddCmd(key, member, score) => ZAdd(data, key, member, score)
    case ZRemRangeByScoreCmd(key, lo, hi) => ZRemRangeByScore(data, key, lo, hi)
    case SetCmd(key, e) => data[key := e]
  }

  /** The keyspace after the commands, issued in order. */
  function Exec(data: Keyspace, cmds: seq<Command>): Keyspace
    decreases |cmds|
  {
    if |cmds| == 0 then data else Run(Exec(data, cmds[..|cmds| - 1]), cmds[|cmds| - 1])
  }

  /** The lowest score still inside the window at `now`; also the highest score pruning removes. */
  function Cutoff(p: Props, now: int): int {
    now - WindowMillis(p)
  }

  /** `addDriver`: ZADD the driver at `now`, prune the window (`pruneOld`), SET `last_update` (`updateLastSeen`). */
  function AddDriverCommands(p: Props, res: Int32, id: CellId, driverId: string, now: int): seq<Command> {
    [ ZAddCmd(StoreKey(Drivers, res, id), driverId, now),
      ZRemRangeByScoreCmd(StoreKey(Drivers, res, id), 0, Cutoff(p, now)),
      SetCmd(StoreKey(LastUpdate, res, id), Integer(now)) ]
  }

  /** `addRideRequest`: ZADD the serialised request at `now` and prune the window. */
  function AddRideRequestCommands(p: Props, res: Int32, id: CellId, requestJson: string, now: int): seq<Command> {
    [ ZAddCmd(StoreKey(Requests, res, id), requestJson, now),
      ZRemRangeByScoreCmd(StoreKey(Requests, res, id), 0, Cutoff(p, now)) ]
  }

  function AfterAddDriver(p: Props, data: Keyspace, res: Int32, id: CellId, driverId: string, now: int): Keyspace {
    Exec(data, AddDriverCommands(p, res, id, driverId, now))
  }

  function AfterAddRideRequest(p: Props, data: Keyspace, res: Int32, id: CellId, requestJson: string, now: int): Keyspace {
    Exec(data, AddRideRequestCommands(p, res, id, requestJson, now))
  }

  /** The upsert-then-prune a write performs: the command pair behind `addDriver` and `addRideRequest`. */
  function UpsertPruned(data: Keyspace, key: StoreKey, member: string, score: int, cutoff: int): Keyspace {
    ZRemRangeByScore(ZAdd(data, key, member, score), key, 0, cutoff)
  }

  /** `addDriver` is an upsert-and-prune of the cell's driver set followed by the `last_update` stamp. */
  lemma AddDriverSteps(p: Props, data: Keyspace, res: Int32, id: CellId, driverId: string, now: int)
    ensures AfterAddDriver(p, data, res, id, driverId, now)
         == UpsertPruned(data, StoreKey(Drivers, res, id), driverId, now, Cutoff(p, now))[StoreKey(LastUpdate, res, id) := Integer(now)]
  {
    var cmds := AddDriverCommands(p, res, id, driverId, now);
    assert cmds[..2][..1] == cmds[..1] && cmds[..1][..0] == [];
    assert Exec(data, cmds[..1]) == Run(data, cmds[0]);
    assert Exec(data, cmds[..2]) == Run(Exec(data, cmds[..1]), cmds[1]);
  }

  /** `addRideRequest` is an upsert-and-prune of the cell's request set. */
  lemma AddRideRequestSteps(p: Props, data: Keyspace, res: Int32, id: CellId, requestJson: string, now: int)
    ensures AfterAddRideRequest(p, data, res, id, requestJson, now)
         == UpsertPruned(data, StoreKey(Requests, res, id), requestJson, now, Cutoff(p, now))
  {
    var cmds := AddRideRequestCommands(p, res, id, requestJson, now);
    assert cmds[..1][..0] == [];
    assert Exec(data, cmds[..1]) == Run(data, cmds[0]);
  }

  // ---- what the writes promise ----

  /**
   * Upserting `member` at `score` and then pruning [0, cutoff] leaves exactly the
   * un-pruned entries among the new one and the old entries of other members, keeps
   * a well-formed set well formed, and touches no other key.
   */
  lemma UpsertPrune(data: Keyspace, key: StoreKey, member: string, score: int, cutoff: int)
    ensures var after := UpsertPruned(data, key, member, score, cutoff);
      (SortedSet.Valid(ZMembers(data, key)) ==> SortedSet.Valid(ZMembers(after, key))) &&
      (forall x :: x in ZMembers(after, key) <==>
        (x == SortedSet.Member(member, score) || (x in ZMembers(data, key) && x.name != member)) && !(0 <= x.score <= cutoff)) &&
      (forall k | k != key :: (k in after <==> k in data) && (k in data ==> after[k] == data[k]))
  {
    var added := ZAdd(data, key, member, score);
    var rest := SortedSet.RemoveRangeByScore(added[key].members, 0, cutoff);
    assert ZMembers(ZRemRangeByScore(added, key, 0, cutoff), key) == rest;
  }

  /** Upserting and pruning a sorted-set key keeps the keyspace well formed. */
  lemma UpsertPruneWellFormed(data: Keyspace, key: StoreKey, member: string, score: int, cutoff: int)
    requires WellFormed(data) && (key.kind == Drivers || key.kind == Requests)
    ensures WellFormed(UpsertPruned(data, key, member, score, cutoff))
  {
    MembersValid(data, key);
    UpsertPrune(data, key, member, score, cutoff);
    var after := UpsertPruned(data, key, member, score, cutoff);
    forall k | k in after ensures Fits(k.kind, after[k]) {
      if k == key {
        assert ZMembers(after, key) == after[key].members;
      }
    }
  }

  /** `addDriver` keeps the keyspace well formed. */
  lemma AddDriverWellFormed(p: Props, data: Keyspace, res: Int32, id: CellId, driverId: string, now: int)
    requires WellFormed(data)
    ensures WellFormed(AfterAddDriver(p, data, res, id, driverId, now))
  {
    AddDriverSteps(p, data, res, id, driverId, now);
    UpsertPruneWellFormed(data, StoreKey(Drivers, res, id), driverId, now, Cutoff(p, now));
  }

  /** `addRideRequest` keeps the keyspace well formed. */
  lemma AddRideRequestWellFormed(p: Props, data: Keyspace, res: Int32, id: CellId, requestJson: string, now: int)
    requires WellFormed(data)
    ensures WellFormed(AfterAddRideRequest(p, data, res, id, requestJson, now))
  {
    AddRideRequestSteps(p, data, res, id, requestJson, now);
    UpsertPruneWellFormed(data, StoreKey(Requests, res, id), requestJson, now, Cutoff(p, now));
  }

  /**
   * After `addDriver` the cell's set holds the driver at `now` (unless the window
   * is so short that `now` itself is pruned), keeps every other driver whose last
   * ping is still inside the window, drops everything scored in [0, now - window],
   * and `last_update` reads `now`.
   */
  lemma AddDriverWindow(p: Props, data: Keyspace, res: Int32, id: CellId, driverId: string, now: int)
    ensures var after := AfterAddDriver(p, data, res, id, driverId, now);
      (forall x :: x in ZMembers(after, StoreKey(Drivers, res, id)) <==>
        (x == SortedSet.Member(driverId, now) || (x in ZMembers(data, StoreKey(Drivers, res, id)) && x.name != driverId))
        && !(0 <= x.score <= Cutoff(p, now))) &&
      GetInteger(after, StoreKey(LastUpdate, res, id)) == Some(now)
  {
    var dk := StoreKey(Drivers, res, id);
    AddDriverSteps(p, data, res, id, driverId, now);
    UpsertPrune(data, dk, driverId, now, Cutoff(p, now));
    assert ZMembers(AfterAddDriver(p, data, res, id, driverId, now), dk) == ZMembers(UpsertPruned(data, dk, driverId, now, Cutoff(p, now)), dk);
  }

  /** With a positive window, a driver that just pinged is in its cell's set, scored `now`. */
  lemma PingedDriverIsPresent(p: Props, data: Keyspace, res: Int32, id: CellId, driverId: string, now: int)
    requires WindowMillis(p) > 0
    ensures SortedSet.Member(driverId, now) in ZMembers(AfterAddDriver(p, data, res, id, driverId, now), StoreKey(Drivers, res, id))
  {
    AddDriverWindow(p, data, res, id, driverId, now);
  }

  /** `addDriver` changes only the cell's driver set and its `last_update`. */
  lemma AddDriverTouchesOnly(p: Props, data: Keyspace, res: Int32, id: CellId, driverId: string, now: int)
    ensures var after := AfterAddDriver(p, data, res, id, driverId, now);
      forall k | k != StoreKey(Drivers, res, id) && k != StoreKey(LastUpdate, res, id) ::
        (k in after <==> k in data) && (k in data ==> after[k] == data[k])
  {
    AddDriverSteps(p, data, res, id, driverId, now);
    UpsertPrune(data, StoreKey(Drivers, res, id), driverId, now, Cutoff(p, now));
  }

  /**
   * With a positive window, a member scored `now` in any driver set survives another
   * `addDriver` at the same `now`: a ping of the same driver re-scores it to `now`,
   * and the prune only reaches scores up to `now` minus the window.
   */
  lemma AddDriverKeepsFresh(p: Props, data: Keyspace, res: Int32, id: CellId, driverId: string, now: int,
                            key: StoreKey, x: SortedSet.Member)
    requires WindowMillis(p) > 0 && key.kind == Drivers
    requires x.score == now && x in ZMembers(data, key)
    ensures x in ZMembers(AfterAddDriver(p, data, res, id, driverId, now), key)
  {
    if key == StoreKey(Drivers, res, id) {
      AddDriverWindow(p, data, res, id, driverId, now);
    } else {
      AddDriverTouchesOnly(p, data, res, id, driverId, now);
    }
  }

  /** Pruning a key just set to a sorted set leaves the rest of that set, or deletes the key. */
  lemma PruneAfterSet(data: Keyspace, key: StoreKey, t: seq<SortedSet.Member>, cutoff: int)
    ensures var r := SortedSet.RemoveRangeByScore(t, 0, cutoff);
      ZRemRangeByScore(data[key := TimedSet(t)], key, 0, cutoff) == if r == [] then data - {key} else data[key := TimedSet(r)]
  {
    var r := SortedSet.RemoveRangeByScore(t, 0, cutoff);
    if r == [] {
      assert data[key := TimedSet(t)] - {key} == data - {key};
    } else {
      assert data[key := TimedSet(t)][key := TimedSet(r)] == data[key := TimedSet(r)];
    }
  }

  /** The new set of an upsert-and-prune, and the key deleted when nothing is left. */
  lemma UpsertPrunedShape(data: Keyspace, key: StoreKey, member: string, score: int, cutoff: int)
    ensures var r := SortedSet.RemoveRangeByScore(SortedSet.Add(ZMembers(data, key), member, score), 0, cutoff);
      UpsertPruned(data, key, member, score, cutoff) == if r == [] then data - {key} else data[key := TimedSet(r)]
  {
    PruneAfterSet(data, key, SortedSet.Add(ZMembers(data, key), member, score), cutoff);
  }

  /** Repeating the same upsert and prune changes nothing more. */
  lemma UpsertPruneIdempotent(data: Keyspace, key: StoreKey, member: string, score: int, cutoff: int)
    requires SortedSet.Valid(ZMembers(data, key))
    ensures UpsertPruned(UpsertPruned(data, key, member, score, cutoff), key, member, score, cutoff)
        == UpsertPruned(data, key, member, score, cutoff)
  {
    var once := UpsertPruned(data, key, member, score, cutoff);
    var r1 := SortedSet.RemoveRangeByScore(SortedSet.Add(ZMembers(data, key), member, score), 0, cutoff);
    UpsertPrunedShape(data, key, member, score, cutoff);
    UpsertPrunedShape(once, key, member, score, cutoff);
    assert ZMembers(once, key) == r1;
    SortedSet.AddThenRemoveIdempotent(ZMembers(data, key), member, score, 0, cutoff);
    if r1 == [] {
      assert once - {key} == once;
    } else {
      assert once[key := TimedSet(r1)] == once;
    }
  }

  /** An upsert-and-prune on one key commutes with a write to another key. */
  lemma UpsertPruneCommutes(data: Keyspace, key: StoreKey, member: string, score: int, cutoff: int, other: StoreKey, e: Entry)
    requires other != key
    ensures ZMembers(data[other := e], key) == ZMembers(data, key)
    ensures UpsertPruned(data[other := e], key, member, score, cutoff) == UpsertPruned(data, key, member, score, cutoff)[other := e]
  {
    var d2 := data[other := e];
    assert ZMembers(d2, key) == ZMembers(data, key);
    var t := TimedSet(SortedSet.Add(ZMembers(data, key), member, score));
    var a := data[key := t];
    assert ZAdd(d2, key, member, score) == a[other := e];
    PruneCommutes(a, key, cutoff, other, e);
  }

  lemma PruneCommutes(a: Keyspace, key: StoreKey, cutoff: int, other: StoreKey, e: Entry)
    requires other != key && key in a && a[key].TimedSet?
    ensures ZRemRangeByScore(a[other := e], key, 0, cutoff) == ZRemRangeByScore(a, key, 0, cutoff)[other := e]
  {
    var r := SortedSet.RemoveRangeByScore(a[key].members, 0, cutoff);
    if r == [] {
      assert a[other := e] - {key} == (a - {key})[other := e];
    } else {
      assert a[other := e][key := TimedSet(r)] == a[key := TimedSet(r)][other := e];
    }
  }

  /** A repeated ping at the same instant leaves the keyspace as the first one left it. */
  lemma AddDriverIdempotent(p: Props, data: Keyspace, res: Int32, id: CellId, driverId: string, now: int)
    requires WellFormed(data)
    ensures var once := AfterAddDriver(p, data, res, id, driverId, now);
      AfterAddDriver(p, once, res, id, driverId, now) == once
  {
    var dk := StoreKey(Drivers, res, id);
    var lk := StoreKey(LastUpdate, res, id);
    var cutoff := Cutoff(p, now);
    MembersValid(data, dk);
    var pruned := UpsertPruned(data, dk, driverId, now, cutoff);
    UpsertPruneIdempotent(data, dk, driverId, now, cutoff);
    UpsertPruneCommutes(pruned, dk, driverId, now, cutoff, lk, Integer(now));
    var once := AfterAddDriver(p, data, res, id, driverId, now);
    AddDriverSteps(p, data, res, id, driverId, now);
    AddDriverSteps(p, once, res, id, driverId, now);
    calc {
      AfterAddDriver(p, once, res, id, driverId, now);
      UpsertPruned(once, dk, driverId, now, cutoff)[lk := Integer(now)];
      UpsertPruned(pruned, dk, driverId, now, cutoff)[lk := Integer(now)][lk := Integer(now)];
      pruned[lk := Integer(now)];
    }
  }

  /**
   * After `addRideRequest` the cell's request set holds the payload at `now`
   * (unless `now` itself is pruned) and the un-pruned older payloads, and no
   * other key changes: a request never touches driver sets, stamps, baselines or surges.
   */
  lemma AddRideRequestWindow(p: Props, data: Keyspace, res: Int32, id: CellId, requestJson: string, now: int)
    ensures var after := AfterAddRideRequest(p, data, res, id, requestJson, now);
      (forall x :: x in ZMembers(after, StoreKey(Requests, res, id)) <==>
        (x == SortedSet.Member(requestJson, now) || (x in ZMembers(data, StoreKey(Requests, res, id)) && x.name != requestJson))
        && !(0 <= x.score <= Cutoff(p, now))) &&
      (forall k | k != StoreKey(Requests, res, id) :: (k in after <==> k in data) && (k in data ==> after[k] == data[k]))
  {
    AddRideRequestSteps(p, data, res, id, requestJson, now);
    UpsertPrune(data, StoreKey(Requests, res, id), requestJson, now, Cutoff(p, now));
  }

  /**
   * The read window [now - window, now] and the prune range [0, now - window] share
   * their end point: an entry scored exactly `now - window` is counted by a read at
   * `now` and removed by a write at the same `now`.
   */
  lemma BoundaryEntryCountedThenPruned(p: Props, data: Keyspace, res: Int32, id: CellId, driverId: string, now: int, x: SortedSet.Member)
    requires WindowMillis(p) >= 0 && Cutoff(p, now) >= 0
    requires x in ZMembers(data, StoreKey(Drivers, res, id)) && x.score == Cutoff(p, now)
    ensures Cutoff(p, now) <= x.score <= now
    ensures x !in ZMembers(AfterAddDriver(p, data, res, id, driverId, now), StoreKey(Drivers, res, id))
  {
    AddDriverWindow(p, data, res, id, driverId, now);
  }

  // ---- what the reads return ----

  /** The number of drivers seen in the cell within the window ending at `now`; 0 for an absent set. */
  function DriverCount(p: Props, data: Keyspace, res: Int32, id: CellId, now: int): (n: nat)
    requires WellFormed(data)
    ensures n == |set x | x in ZMembers(data, StoreKey(Drivers, res, id)) && Cutoff(p, now) <= x.score <= now|
    ensures StoreKey(Drivers, res, id) !in data ==> n == 0
  {
    MembersValid(data, StoreKey(Drivers, res, id));
    SortedSet.CountIsWindowSize(ZMembers(data, StoreKey(Drivers, res, id)), Cutoff(p, now), now);
    ZCount(data, StoreKey(Drivers, res, id), Cutoff(p, now), now)
  }

  /** The drivers seen in the cell within the window, each once, in order of last ping. */
  function DriversInWindow(p: Props, data: Keyspace, res: Int32, id: CellId, now: int): (r: seq<string>)
    requires WellFormed(data)
    ensures forall d :: d in r <==>
      exists x | x in ZMembers(data, StoreKey(Drivers, res, id)) :: x.name == d && Cutoff(p, now) <= x.score <= now
    ensures forall i, j | 0 <= i < j < |r| :: r[i] != r[j]
    ensures |r| == DriverCount(p, data, res, id, now)
  {
    MembersValid(data, StoreKey(Drivers, res, id));
    SortedSet.RangeByScoreListsWindow(ZMembers(data, StoreKey(Drivers, res, id)), Cutoff(p, now), now);
    ZRangeByScore(data, StoreKey(Drivers, res, id), Cutoff(p, now), now)
  }

  /** The number of ride requests recorded in the cell within the window ending at `now`; 0 for an absent set. */
  function RideRequestCount(p: Props, data: Keyspace, res: Int32, id: CellId, now: int): (n: nat)
    requires WellFormed(data)
    ensures n == |set x | x in ZMembers(data, StoreKey(Requests, res, id)) && Cutoff(p, now) <= x.score <= now|
    ensures StoreKey(Requests, res, id) !in data ==> n == 0
  {
    MembersValid(data, StoreKey(Requests, res, id));
    SortedSet.CountIsWindowSize(ZMembers(data, StoreKey(Requests, res, id)), Cutoff(p, now), now);
    ZCount(data, StoreKey(Requests, res, id), Cutoff(p, now), now)
  }

  /** The ride requests recorded within the window, each once, oldest first. */
  function ActiveRideRequests(p: Props, data: Keyspace, res: Int32, id: CellId, now: int): (r: seq<string>)
    requires WellFormed(data)
    ensures forall q :: q in r <==>
      exists x | x in ZMembers(data, StoreKey(Requests, res, id)) :: x.name == q && Cutoff(p, now) <= x.score <= now
    ensures forall i, j | 0 <= i < j < |r| :: r[i] != r[j]
    ensures |r| == RideRequestCount(p, data, res, id, now)
  {
    MembersValid(data, StoreKey(Requests, res, id));
    SortedSet.RangeByScoreListsWindow(ZMembers(data, StoreKey(Requests, res, id)), Cutoff(p, now), now);
    ZRangeByScore(data, StoreKey(Requests, res, id), Cutoff(p, now), now)
  }

  /** The demand counter; an absent counter reads 0. */
  function DemandCount(data: Keyspace, res: Int32, id: CellId): (n: int)
    ensures StoreKey(Demand, res, id) !in data ==> n == 0
    ensures StoreKey(Demand, res, id) in data && data[StoreKey(Demand, res, id)].Integer? ==> n == data[StoreKey(Demand, res, id)].value
  {
    GetInteger(data, StoreKey(Demand, res, id)).GetOr(0)
  }

  /** The stored baseline; an absent one reads 0.0. */
  function StoredBaseline(data: Keyspace, res: Int32, id: CellId): (b: real)
    ensures StoreKey(Baseline, res, id) !in data ==> b == 0.0
    ensures StoreKey(Baseline, res, id) in data && data[StoreKey(Baseline, res, id)].Decimal? ==> b == data[StoreKey(Baseline, res, id)].x
  {
    GetDecimal(data, StoreKey(Baseline, res, id)).GetOr(0.0)
  }

  /** The stored surge multiplier; an absent one reads as the base multiplier. */
  function StoredSurge(p: Props, data: Keyspace, res: Int32, id: CellId): (s: real)
    ensures StoreKey(Surge, res, id) !in data ==> s == p.baseSurgeMultiplier
    ensures StoreKey(Surge, res, id) in data && data[StoreKey(Surge, res, id)].Decimal? ==> s == data[StoreKey(Surge, res, id)].x
  {
    GetDecimal(data, StoreKey(Surge, res, id)).GetOr(p.baseSurgeMultiplier)
  }

  /** The last time a driver ping landed in the cell; an absent stamp reads 0. */
  function LastUpdateAt(data: Keyspace, res: Int32, id: CellId): (t: int)
    ensures StoreKey(LastUpdate, res, id) !in data ==> t == 0
    ensures StoreKey(LastUpdate, res, id) in data && data[StoreKey(LastUpdate, res, id)].Integer? ==> t == data[StoreKey(LastUpdate, res, id)].value
  {
    GetInteger(data, StoreKey(LastUpdate, res, id)).GetOr(0)
  }

  /** `getActiveGeofences`, KEYS `geofence:*:*:drivers`: exactly the string forms of the cells' driver sets. */
  function ActiveGeofences(data: Keyspace): (keys: set<string>)
    ensures forall k | k in keys :: exists sk | sk in data :: sk.kind == Drivers && k == KeyText(sk)
    ensures forall sk | sk in data && sk.kind == Drivers :: KeyText(sk) in keys
  {
    forall sk | sk in data
      ensures MatchesDriverPattern(KeyText(sk)) <==> sk.kind == Drivers
    {
      if sk.kind == Drivers {
        DriverKeyMatchesPattern(sk.res, sk.id);
      } else {
        OtherKeysMissPattern(sk.kind, sk.res, sk.id);
      }
    }
    Keys(data, MatchesDriverPattern)
  }

  /** The store service: the keyspace, and the bean of settings its windows and defaults come from. */
  class RedisService {
    const props: Props
    var data: Keyspace

    ghost predicate Valid()
      reads this
    {
      WellFormed(data)
    }

    constructor (props: Props)
      ensures Valid() && this.props == props && data == map[]
    {
      this.props := props;
      data := map[];
    }

    method AddDriver(res: Int32, geofenceId: CellId, driverId: string, now: int)
      requires Valid()
      modifies this
      ensures Valid()
      ensures data == AfterAddDriver(props, old(data), res, geofenceId, driverId, now)
    {
      var key := StoreKey(Drivers, res, geofenceId);
      AddDriverWellFormed(props, data, res, geofenceId, driverId, now);
      AddDriverSteps(props, data, res, geofenceId, driverId, now);
      data := ZAdd(data, key, driverId, now);
      PruneOld(key, now);
      UpdateLastSeen(res, geofenceId, now);
    }

    function GetDriverCount(res: Int32, geofenceId: CellId, now: int): nat
      requires Valid()
      reads this
    {
      DriverCount(props, data, res, geofenceId, now)
    }

    function GetDrivers(res: Int32, geofenceId: CellId, now: int): seq<string>
      requires Valid()
      reads this
    {
      DriversInWindow(props, data, res, geofenceId, now)
    }

    method AddRideRequest(res: Int32, geofenceId: CellId, requestJson: string, now: int)
      requires Valid()
      modifies this
      ensures Valid()
      ensures data == AfterAddRideRequest(props, old(data), res, geofenceId, requestJson, now)
    {
      var key := StoreKey(Requests, res, geofenceId);
      AddRideRequestWellFormed(props, data, res, geofenceId, requestJson, now);
      AddRideRequestSteps(props, data, res, geofenceId, requestJson, now);
      data := ZAdd(data, key, requestJson, now);
      PruneOld(key, now);
    }

    function GetRideRequestCount(res: Int32, geofenceId: CellId, now: int): nat
      requires Valid()
      reads this
    {
      RideRequestCount(props, data, res, geofenceId, now)
    }

    function GetActiveRideRequests(res: Int32, geofenceId: CellId, now: int): seq<string>
      requires Valid()
      reads this
    {
      ActiveRideRequests(props, data, res, geofenceId, now)
    }

    method IncrementDemand(res: Int32, geofenceId: CellId)
      requires Valid()
      modifies this
      ensures Valid()
      ensures data == Incr(old(data), StoreKey(Demand, res, geofenceId))
      ensures GetDemandCount(res, geofenceId) == old(GetDemandCount(res, geofenceId)) + 1
    {
      data := Incr(data, StoreKey(Demand, res, geofenceId));
    }

    function GetDemandCount(res: Int32, geofenceId: CellId): int
      reads this
    {
      DemandCount(data, res, geofenceId)
    }

    method UpdateBaseline(res: Int32, geofenceId: CellId, baseline: real)
      requires Valid()
      modifies this
      ensures Valid()
      ensures data == old(data)[StoreKey(Baseline, res, geofenceId) := Decimal(baseline)]
      ensures GetBaseline(res, geofenceId) == baseline
    {
      data := data[StoreKey(Baseline, res, geofenceId) := Decimal(baseline)];
    }

    function GetBaseline(res: Int32, geofenceId: CellId): real
      reads this
    {
      StoredBaseline(data, res, geofenceId)
    }

    method UpdateSurge(res: Int32, geofenceId: CellId, surge: real)
      requires Valid()
      modifies this
      ensures Valid()
      ensures data == old(data)[StoreKey(Surge, res, geofenceId) := Decimal(surge)]
      ensures GetSurge(res, geofenceId) == surge
    {
      data := data[StoreKey(Surge, res, geofenceId) := Decimal(surge)];
    }

    function GetSurge(res: Int32, geofenceId: CellId): real
      reads this
    {
      StoredSurge(props, data, res, geofenceId)
    }

    /** `updateLastSeen`: stamps the cell's `last_update` with `now`. */
    method UpdateLastSeen(res: Int32, geofenceId: CellId, now: int)
      modifies this
      ensures data == old(data)[StoreKey(LastUpdate, res, geofenceId) := Integer(now)]
    {
      data := data[StoreKey(LastUpdate, res, geofenceId) := Integer(now)];
    }

    function GetLastUpdate(res: Int32, geofenceId: CellId): int
      reads this
    {
      LastUpdateAt(data, res, geofenceId)
    }

    function GetActiveGeofences(): set<string>
      reads this
    {
      ActiveGeofences(data)
    }

    /** `pruneOld`: drops the entries scored in [0, now - window], both ends included. */
    method PruneOld(key: StoreKey, now: int)
      modifies this
      ensures data == ZRemRangeByScore(old(data), key, 0, Cutoff(props, now))
    {
      data := ZRemRangeByScore(data, key, 0, Cutoff(props, now));
    }
  }
}
