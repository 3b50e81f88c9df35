/**
 * The periodic surge recomputation. Each run, once the warm-up period is over,
 * visits every cell that has a driver set, folds the current driver count into the
 * cell's moving-average baseline, derives a candidate multiplier from the drop in
 * supply, limits the jump from the previous run, and publishes surge and baseline.
 */
module Worker {
  import opened Wrappers
  import opened JavaText
  import opened Config
  import opened Geofence
  import opened StoreKeys
  import Redis

  // ---- the per-cell rules ----

  /** The weight of the newest driver count in the moving average. */
  const ALPHA: real := 0.1

  /** A cell whose last ping is older than this many milliseconds is degraded. */
  const STALE_AFTER_MILLIS: int := 5000

  function Min(a: real, b: real): real {
    if a <= b then a else b
  }

  function Abs(x: real): real {
    if x < 0.0 then -x else x
  }

  /** `Math.signum`. */
  function Signum(x: real): real {
    if x > 0.0 then 1.0 else if x < 0.0 then -1.0 else 0.0
  }

  /** `x` lies between `a` and `b`, in either order. */
  predicate Between(a: real, b: real, x: real) {
    (a <= x <= b) || (b <= x <= a)
  }

  predicate InBounds(p: Props, s: real) {
    p.baseSurgeMultiplier <= s <= p.maxSurgeMultiplier
  }

  /**
   * `updateBaseline`: the first observation seeds the average with the count itself;
   * every later one moves the average a tenth of the way towards the count.
   */
  function UpdatedBaseline(history: Option<real>, currentDrivers: int): (b: real)
    ensures history.None? ==> b == currentDrivers as real
    ensures history.Some? ==> Between(history.value, currentDrivers as real, b)
    ensures history.Some? ==> b - currentDrivers as real == (1.0 - ALPHA) * (history.value - currentDrivers as real)
  {
    var current := history.GetOr(currentDrivers as real);
    ALPHA * currentDrivers as real + (1.0 - ALPHA) * current
  }

  /** The baseline after `n` runs that all see the same driver count. */
  function BaselineAfter(start: real, currentDrivers: int, n: nat): real {
    if n == 0 then start else UpdatedBaseline(Some(BaselineAfter(start, currentDrivers, n - 1)), currentDrivers)
  }

  function Pow(x: real, n: nat): real {
    if n == 0 then 1.0 else x * Pow(x, n - 1)
  }

  /** Under constant supply the gap between baseline and count shrinks by 0.9 per run. */
  lemma {:induction false} BaselineSettles(start: real, currentDrivers: int, n: nat)
    ensures BaselineAfter(start, currentDrivers, n) - currentDrivers as real
      == Pow(1.0 - ALPHA, n) * (start - currentDrivers as real)
  {
    if n > 0 {
      BaselineSettles(start, currentDrivers, n - 1);
    }
  }

  /**
   * `calculateSurgeMultiplier`, its checks in the code's order: too few drivers
   * gives the base; a stale cell keeps its previous surge (the base when it has
   * none); otherwise a supply drop of at least the threshold raises the surge
   * linearly, with a kicker when demand exceeds twice the drivers, up to the cap.
   */
  function SurgeCandidate(p: Props, currentDrivers: int, baseline: real, demand: int,
                          lastUpdate: int, now: int, previous: Option<real>): (s: real)
    ensures currentDrivers < p.minDrivers ==> s == p.baseSurgeMultiplier
    ensures currentDrivers >= p.minDrivers && now - lastUpdate > STALE_AFTER_MILLIS ==>
      s == previous.GetOr(p.baseSurgeMultiplier)
    ensures SurgeSettingsSane(p) && (previous.Some? ==> InBounds(p, previous.value)) ==> InBounds(p, s)
  {
    if currentDrivers < p.minDrivers then p.baseSurgeMultiplier
    else if now - lastUpdate > STALE_AFTER_MILLIS then previous.GetOr(p.baseSurgeMultiplier)
    else
      var ratio := if baseline > 0.0 then currentDrivers as real / baseline else 1.0;
      if ratio <= 1.0 - p.surgeDropThreshold then
        var surge := p.baseSurgeMultiplier + (1.0 - ratio) * 2.0;
        var surge' := if demand > currentDrivers * 2 then surge + 0.5 else surge;
        Min(surge', p.maxSurgeMultiplier)
      else p.baseSurgeMultiplier
  }

  /**
   * The fresh branch of `SurgeCandidate` spelled out, no independent property: the
   * supply-drop formula with its demand kicker, or the base. Its partners are the
   * bound in `SurgeCandidate`'s contract and `FewerDriversNeverLowerCandidate`.
   */
  lemma FreshCandidate(p: Props, currentDrivers: int, baseline: real, demand: int, lastUpdate: int, now: int, previous: Option<real>)
    requires currentDrivers >= p.minDrivers && now - lastUpdate <= STALE_AFTER_MILLIS
    ensures var ratio := if baseline > 0.0 then currentDrivers as real / baseline else 1.0;
      var kicker := if demand > 2 * currentDrivers then 0.5 else 0.0;
      SurgeCandidate(p, currentDrivers, baseline, demand, lastUpdate, now, previous)
        == if ratio <= 1.0 - p.surgeDropThreshold
           then Min(p.baseSurgeMultiplier + 2.0 * (1.0 - ratio) + kicker, p.maxSurgeMultiplier)
           else p.baseSurgeMultiplier
  {
  }

  /** On the fresh path, fewer drivers against the same baseline and demand never lower the candidate. */
  lemma FewerDriversNeverLowerCandidate(p: Props, c1: int, c2: int, baseline: real, demand: int, lastUpdate: int, now: int, previous: Option<real>)
    requires SurgeSettingsSane(p)
    requires p.minDrivers <= c1 <= c2 && now - lastUpdate <= STALE_AFTER_MILLIS
    ensures SurgeCandidate(p, c2, baseline, demand, lastUpdate, now, previous)
         <= SurgeCandidate(p, c1, baseline, demand, lastUpdate, now, previous)
  {
    if baseline > 0.0 {
      assert c1 as real / baseline <= c2 as real / baseline by {
        assert c2 as real / baseline - c1 as real / baseline == (c2 - c1) as real / baseline;
      }
    }
  }

  /**
   * `applySurgeSmoothing`: with no previous surge the candidate passes; otherwise a
   * jump larger than `maxSurgeJump` is cut to exactly that much in its direction.
   */
  function Smoothed(p: Props, previous: Option<real>, candidate: real): (s: real)
    ensures previous.None? ==> s == candidate
    ensures previous.Some? && Abs(candidate - previous.value) <= p.maxSurgeJump ==> s == candidate
    ensures previous.Some? && p.maxSurgeJump >= 0.0 ==>
      Between(previous.value, candidate, s) && Abs(s - previous.value) <= p.maxSurgeJump
  {
    match previous
    case None => candidate
    case Some(prev) =>
      var diff := candidate - prev;
      if Abs(diff) > p.maxSurgeJump then prev + Signum(diff) * p.maxSurgeJump else candidate
  }

  datatype CellUpdate = CellUpdate(baseline: real, surge: real)

  /** One cell's step of a run: the new baseline and the surge published for it. */
  function Recompute(p: Props, priorBaseline: Option<real>, priorSurge: Option<real>,
                     currentDrivers: int, demand: int, lastUpdate: int, now: int): (u: CellUpdate)
    ensures u.baseline == UpdatedBaseline(priorBaseline, currentDrivers)
    ensures SurgeSettingsSane(p) && (priorSurge.Some? ==> InBounds(p, priorSurge.value)) ==> InBounds(p, u.surge)
    ensures priorSurge.Some? && p.maxSurgeJump >= 0.0 ==> Abs(u.surge - priorSurge.value) <= p.maxSurgeJump
  {
    var baseline := UpdatedBaseline(priorBaseline, currentDrivers);
    var candidate := SurgeCandidate(p, currentDrivers, baseline, demand, lastUpdate, now, priorSurge);
    CellUpdate(baseline, Smoothed(p, priorSurge, candidate))
  }

  /** A degraded cell with enough drivers republishes what it published last (the base if nothing). */
  lemma DegradedCellHoldsSurge(p: Props, priorBaseline: Option<real>, priorSurge: Option<real>,
                               currentDrivers: int, demand: int, lastUpdate: int, now: int)
    requires currentDrivers >= p.minDrivers && now - lastUpdate > STALE_AFTER_MILLIS
    ensures Recompute(p, priorBaseline, priorSurge, currentDrivers, demand, lastUpdate, now).surge
      == priorSurge.GetOr(p.baseSurgeMultiplier)
  {
    if priorSurge.Some? {
      assert Signum(0.0) == 0.0;
    }
  }

  /** A run after a supply drop, default settings: the candidate is 91/37 and the jump limit holds it to 1.2. */
  lemma SupplyDropFigures(now: int)
    ensures Recompute(Defaults(), Some(20.0), Some(1.0), 5, 0, now, now) == CellUpdate(18.5, 1.2)
  {
    var b := UpdatedBaseline(Some(20.0), 5);
    assert b == 18.5;
    assert 5.0 / b == 10.0 / 37.0;
    assert SurgeCandidate(Defaults(), 5, b, 0, now, now, Some(1.0)) == 91.0 / 37.0;
  }

  // ---- keys ----

  datatype ParsedGeofence = ParsedGeofence(resolution: Int32, geofenceId: CellId)

  /**
   * `parseGeofenceKey`: split on ':', at least four pieces, the second an `int`
   * resolution and the third the cell; `None` where the source returns null.
   */
  function ParseGeofenceKey(key: string): (r: Option<ParsedGeofence>)
    ensures |Split(key)| < 4 ==> r.None?
    ensures |Split(key)| >= 4 ==>
      (r.Some? <==> ParseInt(Split(key)[1]).Some?)
    ensures r.Some? ==> Some(r.value.resolution) == ParseInt(Split(key)[1]) && r.value.geofenceId == Split(key)[2]
  {
    var parts := Split(key);
    if |parts| < 4 then None
    else
      match ParseInt(parts[1])
      case None => None
      case Some(res) =>
        SplitHasNoSeparator(key);
        Some(ParsedGeofence(res, parts[2]))
  }

  /** Any four-piece key with the resolution and cell in the middle parses to that cell. */
  lemma ParseJoined(head: string, res: Int32, id: CellId, tag: string)
    requires ':' !in head && ':' !in tag && tag != ""
    ensures ParseGeofenceKey(head + ":" + IntToString(res) + ":" + id + ":" + tag) == Some(ParsedGeofence(res, id))
  {
    SplitJoin4(head, IntToString(res), id, tag);
    ParseIntRoundTrip(res);
  }

  /** Parsing inverts the driver-key format. */
  lemma ParseDriverKey(res: Int32, id: CellId)
    ensures ParseGeofenceKey(Key(Drivers, res, id)) == Some(ParsedGeofence(res, id))
  {
    assert Key(Drivers, res, id) == "geofence" + ":" + IntToString(res) + ":" + id + ":" + "drivers";
    ParseJoined("geofence", res, id, "drivers");
  }

  /** `cacheKey`: the in-memory key of a cell, `<resolution>:<cell>`. */
  function CacheKey(res: Int32, id: CellId): string {
    IntToString(res) + ":" + id
  }

  /** Distinct cells have distinct in-memory keys. */
  lemma CacheKeyInjective(r1: Int32, i1: CellId, r2: Int32, i2: CellId)
    requires CacheKey(r1, i1) == CacheKey(r2, i2)
    ensures r1 == r2 && i1 == i2
  {
    FirstSeparatorUnique(IntToString(r1), i1, IntToString(r2), i2);
    IntToStringInjective(r1, r2);
  }

  function Lookup(m: map<string, real>, k: string): Option<real> {
    if k in m then Some(m[k]) else None
  }

  /** The cells named by a set of keys. */
  function CellsOf(keys: set<string>): set<ParsedGeofence> {
    set k | k in keys && ParseGeofenceKey(k).Some? :: ParseGeofenceKey(k).value
  }

  function CacheKeysOf(cells: set<ParsedGeofence>): set<string> {
    set c | c in cells :: CacheKey(c.resolution, c.geofenceId)
  }

  /** The store keys a run writes for a set of cells: their surge and baseline keys. */
  function WrittenKeys(cells: set<ParsedGeofence>): set<StoreKey> {
    (set c | c in cells :: StoreKey(Surge, c.resolution, c.geofenceId))
      + (set c | c in cells :: StoreKey(Baseline, c.resolution, c.geofenceId))
  }

  lemma CellsOfAdd(keys: set<string>, key: string)
    ensures CellsOf(keys + {key}) ==
      if ParseGeofenceKey(key).Some? then CellsOf(keys) + {ParseGeofenceKey(key).value} else CellsOf(keys)
  {
  }

  lemma CellSetsGrow(cells: set<ParsedGeofence>, c: ParsedGeofence)
    ensures WrittenKeys(cells + {c}) ==
      WrittenKeys(cells) + {StoreKey(Surge, c.resolution, c.geofenceId), StoreKey(Baseline, c.resolution, c.geofenceId)}
    ensures CacheKeysOf(cells + {c}) == CacheKeysOf(cells) + {CacheKey(c.resolution, c.geofenceId)}
  {
  }

  /** Every driver key names a cell, and parsing the keys recovers exactly those cells. */
  lemma DriverKeyCells(keys: set<string>) returns (cellOf: map<string, ParsedGeofence>)
    requires forall k | k in keys :: exists sk: StoreKey :: sk.kind == Drivers && k == KeyText(sk)
    ensures cellOf.Keys == keys
    ensures forall k | k in keys :: k == Key(Drivers, cellOf[k].resolution, cellOf[k].geofenceId)
    ensures CellsOf(keys) == set k | k in keys :: cellOf[k]
  {
    cellOf := map k | k in keys :: var sk: StoreKey :| sk.kind == Drivers && k == KeyText(sk); ParsedGeofence(sk.res, sk.id);
    forall k | k in keys ensures ParseGeofenceKey(k) == Some(cellOf[k]) {
      ParseDriverKey(cellOf[k].resolution, cellOf[k].geofenceId);
    }
  }

  /** The in-memory key of a cell is not among the in-memory keys of other cells. */
  lemma OwnCacheKeyNotUsedByOthers(cells: set<ParsedGeofence>, c: ParsedGeofence)
    requires c !in cells
    ensures CacheKey(c.resolution, c.geofenceId) !in CacheKeysOf(cells)
  {
    forall c' | c' in cells
      ensures CacheKey(c.resolution, c.geofenceId) != CacheKey(c'.resolution, c'.geofenceId)
    {
      if CacheKey(c.resolution, c.geofenceId) == CacheKey(c'.resolution, c'.geofenceId) {
        CacheKeyInjective(c.resolution, c.geofenceId, c'.resolution, c'.geofenceId);
      }
    }
  }

  // ---- one run, on values ----

  /** Key `k` is present in both keyspaces or in neither, with the same entry. */
  predicate SameAt(d1: Redis.Keyspace, d2: Redis.Keyspace, k: StoreKey) {
    (k in d1 <==> k in d2) && (k in d1 ==> d1[k] == d2[k])
  }

  /** What a run computes for cell `c` from the store and memory it found. */
  function CellResult(p: Props, data: Redis.Keyspace, bh: map<string, real>, ps: map<string, real>,
                      c: ParsedGeofence, now: int): (u: CellUpdate)
    requires Redis.WellFormed(data)
    ensures SurgeSettingsSane(p) && (CacheKey(c.resolution, c.geofenceId) in ps ==> InBounds(p, ps[CacheKey(c.resolution, c.geofenceId)]))
      ==> InBounds(p, u.surge)
  {
    var ck := CacheKey(c.resolution, c.geofenceId);
    Recompute(p, Lookup(bh, ck), Lookup(ps, ck),
              Redis.DriverCount(p, data, c.resolution, c.geofenceId, now),
              Redis.DemandCount(data, c.resolution, c.geofenceId),
              Redis.LastUpdateAt(data, c.resolution, c.geofenceId), now)
  }

  /**
   * A cell that never saw a ping reads `last_update` 0, so once the clock is past 5 s
   * and it has enough drivers it is degraded and keeps what it published last.
   */
  lemma UnseenCellIsDegraded(p: Props, data: Redis.Keyspace, bh: map<string, real>, ps: map<string, real>,
                             c: ParsedGeofence, now: int)
    requires Redis.WellFormed(data)
    requires StoreKey(LastUpdate, c.resolution, c.geofenceId) !in data && now > STALE_AFTER_MILLIS
    requires Redis.DriverCount(p, data, c.resolution, c.geofenceId, now) >= p.minDrivers
    ensures CellResult(p, data, bh, ps, c, now).surge == Lookup(ps, CacheKey(c.resolution, c.geofenceId)).GetOr(p.baseSurgeMultiplier)
  {
    var ck := CacheKey(c.resolution, c.geofenceId);
    DegradedCellHoldsSurge(p, Lookup(bh, ck), Lookup(ps, ck),
                           Redis.DriverCount(p, data, c.resolution, c.geofenceId, now),
                           Redis.DemandCount(data, c.resolution, c.geofenceId),
                           Redis.LastUpdateAt(data, c.resolution, c.geofenceId), now);
  }

  /** Publishing `u` for `c`: surge then baseline written to the store. */
  function Publish(data: Redis.Keyspace, c: ParsedGeofence, u: CellUpdate): Redis.Keyspace {
    data[StoreKey(Surge, c.resolution, c.geofenceId) := Redis.Decimal(u.surge)]
        [StoreKey(Baseline, c.resolution, c.geofenceId) := Redis.Decimal(u.baseline)]
  }

  /** The cell's update `u` is what the worker remembers and what the store holds for it. */
  predicate PublishedIn(p: Props, data: Redis.Keyspace, bh: map<string, real>, ps: map<string, real>,
                        c: ParsedGeofence, u: CellUpdate) {
    var ck := CacheKey(c.resolution, c.geofenceId);
    && Lookup(bh, ck) == Some(u.baseline)
    && Lookup(ps, ck) == Some(u.surge)
    && Redis.StoredSurge(p, data, c.resolution, c.geofenceId) == u.surge
    && Redis.StoredBaseline(data, c.resolution, c.geofenceId) == u.baseline
  }

  /** Publishing a cell's update makes it published. */
  lemma PublishPublishes(p: Props, data: Redis.Keyspace, bh: map<string, real>, ps: map<string, real>,
                         c: ParsedGeofence, u: CellUpdate)
    ensures var ck := CacheKey(c.resolution, c.geofenceId);
      PublishedIn(p, Publish(data, c, u), bh[ck := u.baseline], ps[ck := u.surge], c, u)
  {
  }

  /** Publishing one cell leaves what other cells published in place. */
  lemma {:induction false} PublishKeepsOthers(p: Props, data: Redis.Keyspace, bh: map<string, real>, ps: map<string, real>,
                                              cells: set<ParsedGeofence>, expected: map<ParsedGeofence, CellUpdate>,
                                              c: ParsedGeofence, u: CellUpdate)
    requires c !in cells
    requires forall c' | c' in cells :: c' in expected && PublishedIn(p, data, bh, ps, c', expected[c'])
    ensures var ck := CacheKey(c.resolution, c.geofenceId);
      forall c' | c' in cells :: PublishedIn(p, Publish(data, c, u), bh[ck := u.baseline], ps[ck := u.surge], c', expected[c'])
  {
    var ck := CacheKey(c.resolution, c.geofenceId);
    forall c' | c' in cells
      ensures PublishedIn(p, Publish(data, c, u), bh[ck := u.baseline], ps[ck := u.surge], c', expected[c'])
    {
      if CacheKey(c'.resolution, c'.geofenceId) == ck {
        CacheKeyInjective(c.resolution, c.geofenceId, c'.resolution, c'.geofenceId);
      }
    }
  }

  /** Publishing one more cell keeps every key outside the written ones as it was. */
  lemma PublishKeepsFrame(data: Redis.Keyspace, data0: Redis.Keyspace, cells: set<ParsedGeofence>,
                          c: ParsedGeofence, u: CellUpdate)
    requires forall k | k !in WrittenKeys(cells) :: SameAt(data, data0, k)
    ensures forall k | k !in WrittenKeys(cells + {c}) :: SameAt(Publish(data, c, u), data0, k)
  {
    CellSetsGrow(cells, c);
  }

  /** Remembering one more cell keeps every other in-memory entry as it was. */
  lemma RememberKeepsFrame(bh: map<string, real>, ps: map<string, real>, bh0: map<string, real>, ps0: map<string, real>,
                           cells: set<ParsedGeofence>, c: ParsedGeofence, u: CellUpdate)
    requires forall ck | ck !in CacheKeysOf(cells) :: Lookup(bh, ck) == Lookup(bh0, ck) && Lookup(ps, ck) == Lookup(ps0, ck)
    ensures var ck := CacheKey(c.resolution, c.geofenceId);
      forall ck' | ck' !in CacheKeysOf(cells + {c}) ::
        Lookup(bh[ck := u.baseline], ck') == Lookup(bh0, ck') && Lookup(ps[ck := u.surge], ck') == Lookup(ps0, ck')
  {
    CellSetsGrow(cells, c);
  }

  /**
   * A cell not yet visited reads what the run found: earlier cells wrote only their
   * own surge and baseline keys and their own in-memory entries.
   */
  lemma UnvisitedCellReadsStart(p: Props, data: Redis.Keyspace, bh: map<string, real>, ps: map<string, real>,
                                data0: Redis.Keyspace, bh0: map<string, real>, ps0: map<string, real>,
                                cells: set<ParsedGeofence>, c: ParsedGeofence, now: int)
    requires Redis.WellFormed(data) && Redis.WellFormed(data0) && c !in cells
    requires forall k | k !in WrittenKeys(cells) :: SameAt(data, data0, k)
    requires forall ck | ck !in CacheKeysOf(cells) :: Lookup(bh, ck) == Lookup(bh0, ck) && Lookup(ps, ck) == Lookup(ps0, ck)
    ensures CellResult(p, data, bh, ps, c, now) == CellResult(p, data0, bh0, ps0, c, now)
  {
    var res, id := c.resolution, c.geofenceId;
    OwnCacheKeyNotUsedByOthers(cells, c);
    assert SameAt(data, data0, StoreKey(Drivers, res, id));
    assert Redis.ZMembers(data, StoreKey(Drivers, res, id)) == Redis.ZMembers(data0, StoreKey(Drivers, res, id));
    assert SameAt(data, data0, StoreKey(Demand, res, id));
    assert SameAt(data, data0, StoreKey(LastUpdate, res, id));
    assert Lookup(bh, CacheKey(res, id)) == Lookup(bh0, CacheKey(res, id));
    assert Lookup(ps, CacheKey(res, id)) == Lookup(ps0, CacheKey(res, id));
  }

  /**
   * Halfway through a run that started from `data0`, `bh0`, `ps0`: every visited cell
   * has published its expected update, and nothing outside the visited cells' keys moved.
   */
  ghost predicate RunSoFar(p: Props, data: Redis.Keyspace, bh: map<string, real>, ps: map<string, real>,
                     data0: Redis.Keyspace, bh0: map<string, real>, ps0: map<string, real>,
                     visited: set<ParsedGeofence>, expected: map<ParsedGeofence, CellUpdate>) {
    && (forall k | k !in WrittenKeys(visited) :: SameAt(data, data0, k))
    && (forall ck | ck !in CacheKeysOf(visited) :: Lookup(bh, ck) == Lookup(bh0, ck) && Lookup(ps, ck) == Lookup(ps0, ck))
    && (forall c | c in visited :: c in expected && PublishedIn(p, data, bh, ps, c, expected[c]))
  }

  /** What each of `cells` is to publish, computed from the state a run found. */
  ghost function ExpectedUpdates(p: Props, data0: Redis.Keyspace, bh0: map<string, real>, ps0: map<string, real>,
                                 cells: set<ParsedGeofence>, now: int): (m: map<ParsedGeofence, CellUpdate>)
    requires Redis.WellFormed(data0)
    ensures m.Keys == cells
  {
    map c | c in cells :: CellResult(p, data0, bh0, ps0, c, now)
  }

  /**
   * The outcome of a run that found `data0`, `bh0`, `ps0` and left `data`, `bh`, `ps`:
   * every cell with a driver set has published what it computed from the state as
   * found, no other in-memory entry changed, and no store key other than those cells'
   * surge and baseline keys changed.
   */
  ghost predicate RunOutcome(p: Props, data0: Redis.Keyspace, bh0: map<string, real>, ps0: map<string, real>,
                             data: Redis.Keyspace, bh: map<string, real>, ps: map<string, real>, now: int)
    requires Redis.WellFormed(data0)
  {
    var cells := CellsOf(Redis.ActiveGeofences(data0));
    && (forall c | c in cells :: PublishedIn(p, data, bh, ps, c, CellResult(p, data0, bh0, ps0, c, now)))
    && (forall ck | ck !in CacheKeysOf(cells) :: Lookup(bh, ck) == Lookup(bh0, ck) && Lookup(ps, ck) == Lookup(ps0, ck))
    && (forall k | k !in WrittenKeys(cells) :: SameAt(data, data0, k))
  }

  /** Having visited exactly the active cells is the outcome of a run. */
  lemma VisitedAllIsOutcome(p: Props, data0: Redis.Keyspace, bh0: map<string, real>, ps0: map<string, real>,
                            data: Redis.Keyspace, bh: map<string, real>, ps: map<string, real>,
                            cells: set<ParsedGeofence>, now: int)
    requires Redis.WellFormed(data0) && cells == CellsOf(Redis.ActiveGeofences(data0))
    requires RunSoFar(p, data, bh, ps, data0, bh0, ps0, cells, ExpectedUpdates(p, data0, bh0, ps0, cells, now))
    ensures RunOutcome(p, data0, bh0, ps0, data, bh, ps, now)
  {
  }

  /**
   * The bookkeeping of a run's loop: each active key names its cell, and the keys
   * still to visit are exactly those whose cells are not done.
   */
  ghost predicate KeysLeft(geofences: set<string>, cellOf: map<string, ParsedGeofence>, remaining: set<string>,
                           doneCells: set<ParsedGeofence>) {
    && cellOf.Keys == geofences && remaining <= geofences
    && (forall k | k in geofences :: k == Key(Drivers, cellOf[k].resolution, cellOf[k].geofenceId))
    && (forall k | k in geofences :: k in remaining <==> cellOf[k] !in doneCells)
  }

  /** Taking one key out of the keys left marks exactly its cell done: distinct driver keys name distinct cells. */
  lemma VisitedKeyLeaves(geofences: set<string>, cellOf: map<string, ParsedGeofence>, remaining: set<string>,
                         doneCells: set<ParsedGeofence>, key: string)
    requires KeysLeft(geofences, cellOf, remaining, doneCells) && key in remaining
    ensures cellOf[key] !in doneCells && key == Key(Drivers, cellOf[key].resolution, cellOf[key].geofenceId)
    ensures KeysLeft(geofences, cellOf, remaining - {key}, doneCells + {cellOf[key]})
  {
  }

  /** With no keys left, every active cell is done. */
  lemma NoKeysLeft(geofences: set<string>, cellOf: map<string, ParsedGeofence>, doneCells: set<ParsedGeofence>)
    requires KeysLeft(geofences, cellOf, {}, doneCells) && doneCells <= (set k | k in geofences :: cellOf[k])
    ensures doneCells == set k | k in geofences :: cellOf[k]
  {
  }

  // ---- the worker ----

  class SurgePricingWorker {
    const store: Redis.RedisService
    const props: Props
    /** The epoch second the worker started at. */
    const startSecond: int
    var baselineHistory: map<string, real>
    var previousSurge: map<string, real>

    /** The store is well keyed and, under sane settings, every remembered surge is within [base, max]. */
    ghost predicate Valid()
      reads this, store
    {
      && store.Valid()
      && props == store.props
      && (SurgeSettingsSane(props) ==> forall ck | ck in previousSurge :: InBounds(props, previousSurge[ck]))
    }

    constructor (store: Redis.RedisService, startSecond: int)
      requires store.Valid()
      ensures Valid()
      ensures this.store == store && this.startSecond == startSecond
      ensures baselineHistory == map[] && previousSurge == map[]
    {
      this.store := store;
      this.props := store.props;
      this.startSecond := startSecond;
      baselineHistory := map[];
      previousSurge := map[];
    }

    /** `updateBaseline`: folds the count into the cell's average and remembers it. */
    method UpdateBaseline(cacheKey: string, currentDrivers: int) returns (baseline: real)
      modifies this
      ensures baseline == UpdatedBaseline(Lookup(old(baselineHistory), cacheKey), currentDrivers)
      ensures baselineHistory == old(baselineHistory)[cacheKey := baseline]
      ensures previousSurge == old(previousSurge)
    {
      var current := if cacheKey in baselineHistory then baselineHistory[cacheKey] else currentDrivers as real;
      baseline := ALPHA * currentDrivers as real + (1.0 - ALPHA) * current;
      baselineHistory := baselineHistory[cacheKey := baseline];
    }

    /** The body of the run's loop for one parsed cell. */
    method RecomputeCell(res: Int32, id: CellId, now: int) returns (u: CellUpdate)
      requires Valid()
      modifies this, store
      ensures Valid()
      ensures u == CellResult(props, old(store.data), old(baselineHistory), old(previousSurge), ParsedGeofence(res, id), now)
      ensures baselineHistory == old(baselineHistory)[CacheKey(res, id) := u.baseline]
      ensures previousSurge == old(previousSurge)[CacheKey(res, id) := u.surge]
      ensures store.data == Publish(old(store.data), ParsedGeofence(res, id), u)
    {
      ghost var bh0 := baselineHistory;
      var currentDrivers := store.GetDriverCount(res, id, now);
      var demand := store.GetDemandCount(res, id);
      var lastUpdate := store.GetLastUpdate(res, id);
      var ck := CacheKey(res, id);
      var baseline := UpdateBaseline(ck, currentDrivers);
      var prior := Lookup(previousSurge, ck);
      var surge := SurgeCandidate(props, currentDrivers, baseline, demand, lastUpdate, now, prior);
      surge := Smoothed(props, prior, surge);
      assert CellUpdate(baseline, surge) == Recompute(props, Lookup(bh0, ck), prior, currentDrivers, demand, lastUpdate, now);
      store.UpdateSurge(res, id, surge);
      store.UpdateBaseline(res, id, baseline);
      previousSurge := previousSurge[ck := surge];
      u := CellUpdate(baseline, surge);
    }

    /** The body of the run's loop for one active key: parse it, then recompute its cell. */
    method ProcessKey(key: string, ghost c: ParsedGeofence, now: int) returns (ghost u: CellUpdate)
      requires Valid() && key == Key(Drivers, c.resolution, c.geofenceId)
      modifies this, store
      ensures Valid()
      ensures u == CellResult(props, old(store.data), old(baselineHistory), old(previousSurge), c, now)
      ensures baselineHistory == old(baselineHistory)[CacheKey(c.resolution, c.geofenceId) := u.baseline]
      ensures previousSurge == old(previousSurge)[CacheKey(c.resolution, c.geofenceId) := u.surge]
      ensures store.data == Publish(old(store.data), c, u)
    {
      var parsed := ParseGeofenceKey(key);
      ParseDriverKey(c.resolution, c.geofenceId);
      if parsed.Some? {
        u := RecomputeCell(parsed.value.resolution, parsed.value.geofenceId, now);
      }
    }

    /**
     * One turn of the run's loop: visiting a cell not yet visited extends the run by
     * that cell, provided what it reads is still what the run found.
     */
    method VisitCell(key: string, ghost c: ParsedGeofence, now: int,
                     ghost data0: Redis.Keyspace, ghost bh0: map<string, real>, ghost ps0: map<string, real>,
                     ghost visited: set<ParsedGeofence>, ghost expected: map<ParsedGeofence, CellUpdate>)
      requires Valid() && Redis.WellFormed(data0)
      requires key == Key(Drivers, c.resolution, c.geofenceId) && c !in visited
      requires c in expected && expected[c] == CellResult(props, data0, bh0, ps0, c, now)
      requires RunSoFar(props, store.data, baselineHistory, previousSurge, data0, bh0, ps0, visited, expected)
      modifies this, store
      ensures Valid()
      ensures RunSoFar(props, store.data, baselineHistory, previousSurge, data0, bh0, ps0, visited + {c}, expected)
    {
      UnvisitedCellReadsStart(props, store.data, baselineHistory, previousSurge, data0, bh0, ps0, visited, c, now);
      ghost var bh, ps, data := baselineHistory, previousSurge, store.data;
      ghost var u0 := CellResult(props, data, bh, ps, c, now);
      PublishKeepsOthers(props, data, bh, ps, visited, expected, c, u0);
      PublishKeepsFrame(data, data0, visited, c, u0);
      RememberKeepsFrame(bh, ps, bh0, ps0, visited, c, u0);
      PublishPublishes(props, data, bh, ps, c, u0);
      ghost var u := ProcessKey(key, c, now);
    }

    /**
     * The loop of a run over the active keys, visiting them in any order; each key
     * names its cell.
     */
    method VisitAll(geofences: set<string>, now: int, ghost cellOf: map<string, ParsedGeofence>, ghost cells: set<ParsedGeofence>)
      requires Valid()
      requires KeysLeft(geofences, cellOf, geofences, {})
      requires cells == set k | k in geofences :: cellOf[k]
      modifies this, store
      ensures Valid()
      ensures RunSoFar(props, store.data, baselineHistory, previousSurge, old(store.data), old(baselineHistory), old(previousSurge),
                       cells, ExpectedUpdates(props, old(store.data), old(baselineHistory), old(previousSurge), cells, now))
    {
      ghost var data0, bh0, ps0 := store.data, baselineHistory, previousSurge;
      ghost var expected := ExpectedUpdates(props, data0, bh0, ps0, cells, now);
      var remaining := geofences;
      ghost var doneCells: set<ParsedGeofence> := {};
      while remaining != {}
        invariant KeysLeft(geofences, cellOf, remaining, doneCells) && doneCells <= cells
        invariant Redis.WellFormed(data0)
        invariant Valid()
        invariant RunSoFar(props, store.data, baselineHistory, previousSurge, data0, bh0, ps0, doneCells, expected)
        decreases |remaining|
      {
        var key :| key in remaining;
        ghost var c := cellOf[key];
        VisitedKeyLeaves(geofences, cellOf, remaining, doneCells, key);
        VisitCell(key, c, now, data0, bh0, ps0, doneCells, expected);
        remaining := remaining - {key};
        doneCells := doneCells + {c};
      }
      NoKeysLeft(geofences, cellOf, doneCells);
    }

    /**
     * `calculateSurge`: during warm-up nothing changes; afterwards every cell with a
     * driver set is recomputed from the state as the run found it (cells do not
     * read each other's keys, so the order of the visit does not matter), and
     * nothing else is written.
     */
    method CalculateSurge(now: int)
      requires Valid()
      modifies this, store
      ensures Valid()
      ensures now / 1000 - startSecond < props.warmupSeconds ==>
        store.data == old(store.data) && baselineHistory == old(baselineHistory) && previousSurge == old(previousSurge)
      ensures now / 1000 - startSecond >= props.warmupSeconds ==>
        RunOutcome(props, old(store.data), old(baselineHistory), old(previousSurge), store.data, baselineHistory, previousSurge, now)
    {
      var uptimeSeconds := now / 1000 - startSecond;
      if uptimeSeconds < props.warmupSeconds {
        return;
      }
      var geofences := store.GetActiveGeofences();
      ghost var data0, bh0, ps0 := store.data, baselineHistory, previousSurge;
      ghost var cellOf := DriverKeyCells(geofences);
      ghost var cells := set k | k in geofences :: cellOf[k];
      VisitAll(geofences, now, cellOf, cells);
      VisitedAllIsOutcome(props, data0, bh0, ps0, store.data, baselineHistory, previousSurge, cells, now);
    }
  }
}
