/** The six per-cell key formats of the store, `geofence:<resolution>:<cell>:<kind>`. */
module StoreKeys {
  import opened JavaText
  import opened Geofence

  datatype KeyKind = Drivers | Requests | Demand | Baseline | Surge | LastUpdate

  /** A key of the store, held as its parts. */
  datatype StoreKey = StoreKey(kind: KeyKind, res: Int32, id: CellId)

  function Suffix(kind: KeyKind): string {
    match kind
    case Drivers => "drivers"
    case Requests => "requests"
    case Demand => "demand"
    case Baseline => "baseline"
    case Surge => "surge"
    case LastUpdate => "last_update"
  }

  /** `String.format("geofence:%d:%s:<kind>", resolution, geofenceId)`. */
  function Key(kind: KeyKind, res: Int32, id: CellId): string {
    "geofence:" + IntToString(res) + ":" + id + ":" + Suffix(kind)
  }

  /** The string a store key is sent to Redis as. */
  function KeyText(k: StoreKey): string {
    Key(k.kind, k.res, k.id)
  }

  predicate EndsWith(s: string, t: string) {
    |t| <= |s| && s[|s| - |t|..] == t
  }

  /** The glob `geofence:*:*:drivers` that the active-cell scan matches keys against. */
  predicate MatchesDriverPattern(k: string) {
    && |k| >= 17
    && k[..9] == "geofence:"
    && k[|k| - 8..] == ":drivers"
    && ':' in k[9..|k| - 8]
  }

  /** A key is its prefix, its resolution and cell, and its tag, in that order. */
  lemma KeyParts(kind: KeyKind, res: Int32, id: CellId)
    ensures Key(kind, res, id) == "geofence:" + (IntToString(res) + ":" + id) + (":" + Suffix(kind))
  {
    var g, i, t := "geofence:", IntToString(res), ":" + Suffix(kind);
    assert g + i + ":" + id + ":" + Suffix(kind) == g + (i + ":" + id) + t;
  }

  lemma EndsWithAppended(s: string, t: string)
    ensures EndsWith(s + t, t)
  {
    assert (s + t)[|s|..] == t;
  }

  lemma KeyEndsWithKind(kind: KeyKind, res: Int32, id: CellId)
    ensures EndsWith(Key(kind, res, id), ":" + Suffix(kind))
  {
    KeyParts(kind, res, id);
    EndsWithAppended("geofence:" + (IntToString(res) + ":" + id), ":" + Suffix(kind));
  }

  /** No kind's tag ends with another kind's tag. */
  lemma TagsUnrelated(k1: KeyKind, k2: KeyKind)
    requires k1 != k2
    ensures !EndsWith(":" + Suffix(k1), ":" + Suffix(k2))
  {
    var t1, t2 := ":" + Suffix(k1), ":" + Suffix(k2);
    assert ':' !in Suffix(k1) && t1[1..] == Suffix(k1);
    assert Suffix(k1) != Suffix(k2);
    if |t2| <= |t1| {
      var i := |t1| - |t2|;
      if i > 0 {
        assert t1[i] == Suffix(k1)[i - 1];
        assert t1[i..][0] != t2[0];
      } else {
        assert t1[i..] == t1;
      }
    }
  }

  lemma EndsWithBoth(s: string, t: string, u: string)
    ensures EndsWith(s, t) && EndsWith(s, u) && |u| <= |t| ==> EndsWith(t, u)
  {
    if EndsWith(s, t) && EndsWith(s, u) && |u| <= |t| {
      assert t[|t| - |u|..] == s[|s| - |u|..];
    }
  }

  /** Keys of different kinds never coincide, whatever their resolutions and cells. */
  lemma KindsNeverCollide(k1: KeyKind, r1: Int32, i1: CellId, k2: KeyKind, r2: Int32, i2: CellId)
    requires k1 != k2
    ensures Key(k1, r1, i1) != Key(k2, r2, i2)
  {
    var t1, t2 := ":" + Suffix(k1), ":" + Suffix(k2);
    KeyEndsWithKind(k1, r1, i1);
    KeyEndsWithKind(k2, r2, i2);
    TagsUnrelated(k1, k2);
    TagsUnrelated(k2, k1);
    EndsWithBoth(Key(k1, r1, i1), t1, t2);
    EndsWithBoth(Key(k1, r1, i1), t2, t1);
  }

  /** The part of a key after the `geofence:` prefix. */
  lemma KeyAfterPrefix(kind: KeyKind, res: Int32, id: CellId)
    ensures |Key(kind, res, id)| >= 9
    ensures Key(kind, res, id)[9..] == IntToString(res) + ":" + (id + ":" + Suffix(kind))
  {
    var tail := IntToString(res) + ":" + (id + ":" + Suffix(kind));
    assert Key(kind, res, id) == "geofence:" + tail;
  }

  /** A key of a kind names exactly one cell: different cells get different keys. */
  lemma KeyInjective(kind: KeyKind, r1: Int32, i1: CellId, r2: Int32, i2: CellId)
    requires Key(kind, r1, i1) == Key(kind, r2, i2)
    ensures r1 == r2 && i1 == i2
  {
    var rest1 := i1 + ":" + Suffix(kind);
    var rest2 := i2 + ":" + Suffix(kind);
    KeyAfterPrefix(kind, r1, i1);
    KeyAfterPrefix(kind, r2, i2);
    FirstSeparatorUnique(IntToString(r1), rest1, IntToString(r2), rest2);
    IntToStringInjective(r1, r2);
    assert |i1| == |i2|;
    assert i1 == rest1[..|i1|];
    assert i2 == rest2[..|i2|];
  }

  /** A key names its kind, resolution and cell: equal keys agree on all three. */
  lemma KeyDeterminesCell(k1: KeyKind, r1: Int32, i1: CellId, k2: KeyKind, r2: Int32, i2: CellId)
    ensures Key(k1, r1, i1) == Key(k2, r2, i2) ==> k1 == k2 && r1 == r2 && i1 == i2
  {
    if Key(k1, r1, i1) == Key(k2, r2, i2) {
      if k1 != k2 {
        KindsNeverCollide(k1, r1, i1, k2, r2, i2);
      } else {
        KeyInjective(k1, r1, i1, r2, i2);
      }
    }
  }

  /** Distinct store keys are distinct strings, so a keyspace of parts loses nothing. */
  lemma KeyTextInjective(a: StoreKey, b: StoreKey)
    ensures KeyText(a) == KeyText(b) ==> a == b
  {
    KeyDeterminesCell(a.kind, a.res, a.id, b.kind, b.res, b.id);
  }

  /** Any `geofence:<a>:<b>:drivers` string matches the active-cell pattern. */
  lemma DriverShapeMatchesPattern(mid: string)
    requires ':' in mid
    ensures MatchesDriverPattern("geofence:" + mid + ":drivers")
  {
    var k := "geofence:" + mid + ":drivers";
    assert k[..9] == "geofence:";
    assert k[|k| - 8..] == ":drivers";
    assert k[9..|k| - 8] == mid;
  }

  /** The driver-set key of every cell matches the active-cell pattern. */
  lemma DriverKeyMatchesPattern(res: Int32, id: CellId)
    ensures MatchesDriverPattern(Key(Drivers, res, id))
  {
    var mid := IntToString(res) + ":" + id;
    assert mid[|IntToString(res)|] == ':';
    KeyParts(Drivers, res, id);
    assert ":" + Suffix(Drivers) == ":drivers";
    DriverShapeMatchesPattern(mid);
  }

  /** A string ending in another kind's tag does not end in the driver tag. */
  lemma OtherTagIsNotDriverTag(s: string, kind: KeyKind)
    requires kind != Drivers && EndsWith(s, ":" + Suffix(kind))
    ensures !EndsWith(s, ":drivers")
  {
    TagsUnrelated(kind, Drivers);
    TagsUnrelated(Drivers, kind);
    EndsWithBoth(s, ":drivers", ":" + Suffix(kind));
    EndsWithBoth(s, ":" + Suffix(kind), ":drivers");
  }

  /** No other kind of key matches the active-cell pattern. */
  lemma OtherKeysMissPattern(kind: KeyKind, res: Int32, id: CellId)
    requires kind != Drivers
    ensures !MatchesDriverPattern(Key(kind, res, id))
  {
    var k := Key(kind, res, id);
    KeyEndsWithKind(kind, res, id);
    OtherTagIsNotDriverTag(k, kind);
    assert MatchesDriverPattern(k) ==> EndsWith(k, ":drivers");
  }
}
