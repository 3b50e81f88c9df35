/**
 * The value behind one time-scored key of the store: a Redis sorted set. Members are
 * unique and kept in ascending order of (score, member), members of equal score compared
 * lexicographically, which is the order ZRANGEBYSCORE reports them in.
 */
module SortedSet {

  datatype Member = Member(name: string, score: int)

  /** Lexicographic order on strings: a proper prefix comes first. */
  predicate LexLess(a: string, b: string)
    decreases |a|
  {
    if |a| == 0 then |b| > 0
    else |b| > 0 && (a[0] < b[0] || (a[0] == b[0] && LexLess(a[1..], b[1..])))
  }

  lemma {:induction false} LexIrreflexive(a: string)
    ensures !LexLess(a, a)
    decreases |a|
  {
    if |a| > 0 {
      LexIrreflexive(a[1..]);
    }
  }

  lemma {:induction false} LexTotal(a: string, b: string)
    requires a != b
    ensures LexLess(a, b) || LexLess(b, a)
    decreases |a|
  {
    if |a| > 0 && |b| > 0 && a[0] == b[0] {
      assert a == [a[0]] + a[1..] && b == [b[0]] + b[1..];
      LexTotal(a[1..], b[1..]);
    }
  }

  lemma {:induction false} LexTransitive(a: string, b: string, c: string)
    requires LexLess(a, b) && LexLess(b, c)
    ensures LexLess(a, c)
    decreases |a|
  {
    if |a| > 0 && a[0] == b[0] && b[0] == c[0] {
      LexTransitive(a[1..], b[1..], c[1..]);
    }
  }

  /** The order of a sorted set: by score, then by member. */
  predicate Before(x: Member, y: Member) {
    x.score < y.score || (x.score == y.score && LexLess(x.name, y.name))
  }

  lemma BeforeTransitive(x: Member, y: Member, z: Member)
    requires Before(x, y) && Before(y, z)
    ensures Before(x, z)
  {
    if x.score == y.score == z.score {
      LexTransitive(x.name, y.name, z.name);
    }
  }

  lemma BeforeAsymmetric(x: Member, y: Member)
    ensures Before(x, y) ==> !Before(y, x) && x != y
  {
    LexIrreflexive(x.name);
    if x.score == y.score && LexLess(x.name, y.name) && LexLess(y.name, x.name) {
      LexTransitive(x.name, y.name, x.name);
    }
  }

  lemma BeforeTotal(x: Member, y: Member)
    requires x.name != y.name
    ensures Before(x, y) || Before(y, x)
  {
    LexTotal(x.name, y.name);
  }

  /** A well-formed sorted set: strictly ascending, and no member twice. */
  predicate Valid(s: seq<Member>) {
    && (forall i, j | 0 <= i < j < |s| :: Before(s[i], s[j]))
    && (forall i, j | 0 <= i < j < |s| :: s[i].name != s[j].name)
  }

  predicate HasName(s: seq<Member>, name: string) {
    exists x | x in s :: x.name == name
  }

  lemma ValidTail(s: seq<Member>)
    requires |s| > 0 && Valid(s)
    ensures Valid(s[1..])
    ensures forall y | y in s[1..] :: Before(s[0], y) && y.name != s[0].name
  {
    forall y | y in s[1..] ensures Before(s[0], y) && y.name != s[0].name {
      var k :| 0 <= k < |s[1..]| && s[1..][k] == y;
      assert s[k + 1] == y;
    }
  }

  lemma ValidCons(x: Member, t: seq<Member>)
    requires Valid(t)
    requires forall y | y in t :: Before(x, y) && y.name != x.name
    ensures Valid([x] + t)
  {
    var s := [x] + t;
    forall i, j | 0 <= i < j < |s| ensures Before(s[i], s[j]) && s[i].name != s[j].name {
      if i == 0 {
        assert s[j] == t[j - 1];
        assert s[j] in t;
      } else {
        assert s[i] == t[i - 1] && s[j] == t[j - 1];
      }
    }
  }

  /** The set without the member called `name` (the first half of ZADD). */
  function Without(s: seq<Member>, name: string): (r: seq<Member>)
    ensures forall x :: x in r <==> x in s && x.name != name
    ensures Valid(s) ==> Valid(r)
  {
    if |s| == 0 then []
    else
      var rest := Without(s[1..], name);
      if s[0].name == name then
        (if Valid(s) then ValidTail(s); rest else rest)
      else
        (if Valid(s) then ValidTail(s); ValidCons(s[0], rest); [s[0]] + rest else [s[0]] + rest)
  }

  /** `m` put in its place by the order (the second half of ZADD). */
  function Insert(s: seq<Member>, m: Member): (r: seq<Member>)
    ensures forall x :: x in r <==> x == m || x in s
    ensures Valid(s) && !HasName(s, m.name) ==> Valid(r)
  {
    if |s| == 0 then [m]
    else if Before(m, s[0]) then
      if Valid(s) && !HasName(s, m.name) then
        ValidTail(s);
        forall y | y in s ensures Before(m, y) && y.name != m.name {
          if y != s[0] {
            assert y in s[1..];
            BeforeTransitive(m, s[0], y);
          }
        }
        ValidCons(m, s);
        [m] + s
      else
        [m] + s
    else
      var rest := Insert(s[1..], m);
      if Valid(s) && !HasName(s, m.name) then
        ValidTail(s);
        assert !HasName(s[1..], m.name);
        BeforeTotal(m, s[0]);
        ValidCons(s[0], rest);
        [s[0]] + rest
      else
        [s[0]] + rest
  }

  /** ZADD: the member's score becomes `score`, replacing any score it had. */
  function Add(s: seq<Member>, name: string, score: int): (r: seq<Member>)
    ensures Valid(s) ==> Valid(r)
    ensures forall x :: x in r <==> x == Member(name, score) || (x in s && x.name != name)
  {
    Insert(Without(s, name), Member(name, score))
  }

  function Within(s: seq<Member>, lo: int, hi: int): (r: seq<Member>)
    ensures forall x :: x in r <==> x in s && lo <= x.score <= hi
    ensures Valid(s) ==> Valid(r)
  {
    if |s| == 0 then []
    else
      var rest := Within(s[1..], lo, hi);
      if lo <= s[0].score <= hi then
        (if Valid(s) then ValidTail(s); ValidCons(s[0], rest); [s[0]] + rest else [s[0]] + rest)
      else
        (if Valid(s) then ValidTail(s); rest else rest)
  }

  function Outside(s: seq<Member>, lo: int, hi: int): (r: seq<Member>)
    ensures forall x :: x in r <==> x in s && !(lo <= x.score <= hi)
    ensures Valid(s) ==> Valid(r)
  {
    if |s| == 0 then []
    else
      var rest := Outside(s[1..], lo, hi);
      if !(lo <= s[0].score <= hi) then
        (if Valid(s) then ValidTail(s); ValidCons(s[0], rest); [s[0]] + rest else [s[0]] + rest)
      else
        (if Valid(s) then ValidTail(s); rest else rest)
  }

  function Names(s: seq<Member>): (r: seq<string>)
    ensures |r| == |s| && forall i | 0 <= i < |s| :: r[i] == s[i].name
  {
    if |s| == 0 then [] else [s[0].name] + Names(s[1..])
  }

  /** ZRANGEBYSCORE: the members with a score in [lo, hi], in the set's order. */
  function RangeByScore(s: seq<Member>, lo: int, hi: int): seq<string> {
    Names(Within(s, lo, hi))
  }

  /** ZCOUNT: how many members have a score in [lo, hi]. */
  function Count(s: seq<Member>, lo: int, hi: int): nat {
    |Within(s, lo, hi)|
  }

  /** ZREMRANGEBYSCORE: the members with a score outside [lo, hi] are kept. */
  function RemoveRangeByScore(s: seq<Member>, lo: int, hi: int): seq<Member> {
    Outside(s, lo, hi)
  }

  /** A member's entry is its only one: two entries with the same member are the same entry. */
  lemma OneEntryPerName(s: seq<Member>, x: Member, y: Member)
    requires Valid(s) && x in s && y in s && x.name == y.name
    ensures x == y
  {
    var i :| 0 <= i < |s| && s[i] == x;
    var j :| 0 <= j < |s| && s[j] == y;
    assert i == j;
  }

  /** The first entry of a sorted set comes before every other entry. */
  lemma HeadIsLeast(s: seq<Member>, x: Member)
    requires Valid(s) && x in s
    ensures x == s[0] || Before(s[0], x)
  {
    var i :| 0 <= i < |s| && s[i] == x;
  }

  /** A sorted set is determined by its entries: its order is not extra information. */
  lemma {:induction false} Canonical(s: seq<Member>, t: seq<Member>)
    requires Valid(s) && Valid(t)
    requires forall x :: x in s <==> x in t
    ensures s == t
    decreases |s|
  {
    assert (|s| > 0 ==> s[0] in t) && (|t| > 0 ==> t[0] in s);
    if |s| > 0 && |t| > 0 {
      ValidTail(s);
      ValidTail(t);
      HeadIsLeast(t, s[0]);
      HeadIsLeast(s, t[0]);
      BeforeAsymmetric(s[0], t[0]);
      assert s[0] == t[0];
      forall x ensures x in s[1..] <==> x in t[1..] {
        assert x in s <==> x == s[0] || x in s[1..];
        assert x in t <==> x == t[0] || x in t[1..];
      }
      Canonical(s[1..], t[1..]);
      assert s == [s[0]] + s[1..] && t == [t[0]] + t[1..];
    }
  }

  /** Repeating a ZADD with the same member and score changes nothing. */
  lemma AddIdempotent(s: seq<Member>, name: string, score: int)
    requires Valid(s)
    ensures Add(Add(s, name, score), name, score) == Add(s, name, score)
  {
    Canonical(Add(Add(s, name, score), name, score), Add(s, name, score));
  }

  /** Removing a score range twice removes no more than doing it once. */
  lemma RemoveRangeIdempotent(s: seq<Member>, lo: int, hi: int)
    requires Valid(s)
    ensures RemoveRangeByScore(RemoveRangeByScore(s, lo, hi), lo, hi) == RemoveRangeByScore(s, lo, hi)
  {
    Canonical(Outside(Outside(s, lo, hi), lo, hi), Outside(s, lo, hi));
  }

  /** Upserting a member and pruning a score range, done twice, is done once. */
  lemma AddThenRemoveIdempotent(s: seq<Member>, name: string, score: int, lo: int, hi: int)
    requires Valid(s)
    ensures var once := RemoveRangeByScore(Add(s, name, score), lo, hi);
      RemoveRangeByScore(Add(once, name, score), lo, hi) == once
  {
    var once := RemoveRangeByScore(Add(s, name, score), lo, hi);
    Canonical(RemoveRangeByScore(Add(once, name, score), lo, hi), once);
  }

  lemma {:induction false} DistinctCard(s: seq<Member>)
    requires forall i, j | 0 <= i < j < |s| :: s[i] != s[j]
    ensures |set x | x in s| == |s|
  {
    if |s| > 0 {
      DistinctCard(s[1..]);
      var all := set x | x in s;
      var rest := set x | x in s[1..];
      assert all == rest + {s[0]};
      assert s[0] !in rest by {
        forall k | 0 <= k < |s[1..]| ensures s[1..][k] != s[0] {
          assert s[1..][k] == s[k + 1];
        }
      }
    }
  }

  /** ZCOUNT counts the entries whose score lies in [lo, hi], both ends included. */
  lemma CountIsWindowSize(s: seq<Member>, lo: int, hi: int)
    requires Valid(s)
    ensures Count(s, lo, hi) == |set x | x in s && lo <= x.score <= hi|
  {
    var w := Within(s, lo, hi);
    forall i, j | 0 <= i < j < |w| ensures w[i] != w[j] {
      assert w[i].name != w[j].name;
    }
    DistinctCard(w);
    assert (set x | x in w) == (set x | x in s && lo <= x.score <= hi);
  }

  /** ZRANGEBYSCORE lists each member in the window once, in ascending order of score. */
  lemma RangeByScoreListsWindow(s: seq<Member>, lo: int, hi: int)
    requires Valid(s)
    ensures forall n :: n in RangeByScore(s, lo, hi) <==> exists x | x in s :: x.name == n && lo <= x.score <= hi
    ensures forall i, j | 0 <= i < j < |RangeByScore(s, lo, hi)| ::
      RangeByScore(s, lo, hi)[i] != RangeByScore(s, lo, hi)[j]
    ensures forall i, j | 0 <= i < j < |Within(s, lo, hi)| ::
      Within(s, lo, hi)[i].score <= Within(s, lo, hi)[j].score
  {
    var w := Within(s, lo, hi);
    forall n ensures n in Names(w) <==> exists x | x in s :: x.name == n && lo <= x.score <= hi {
      if n in Names(w) {
        var i :| 0 <= i < |w| && Names(w)[i] == n;
        assert w[i] in w;
      }
      if x :| x in s && x.name == n && lo <= x.score <= hi {
        var i :| 0 <= i < |w| && w[i] == x;
        assert Names(w)[i] == n;
      }
    }
  }
}
