/**
 * The three pieces of Java's string handling that the store keys rely on:
 * decimal formatting of an `int` (`String.format("%d")` and string concatenation),
 * `Integer.parseInt`, and `String.split(":")`.
 */
module JavaText {
  import opened Wrappers

  const INT_MIN: int := -0x8000_0000
  const INT_MAX: int := 0x7fff_ffff

  /** A Java `int`. */
  type Int32 = x: int | INT_MIN <= x <= INT_MAX

  predicate IsDigit(c: char) {
    '0' <= c <= '9'
  }

  predicate AllDigits(s: string) {
    forall i | 0 <= i < |s| :: IsDigit(s[i])
  }

  function DigitChar(d: nat): (c: char)
    requires d < 10
    ensures IsDigit(c)
  {
    ['0', '1', '2', '3', '4', '5', '6', '7', '8', '9'][d]
  }

  function DigitValue(c: char): (d: nat)
    requires IsDigit(c)
    ensures d < 10
  {
    (c as int - '0' as int) as nat
  }

  /** Decimal digits of a natural number, most significant first, without leading zeros. */
  function NatToString(n: nat): (s: string)
    ensures |s| > 0 && AllDigits(s)
    decreases n
  {
    if n < 10 then [DigitChar(n)] else NatToString(n / 10) + [DigitChar(n % 10)]
  }

  /** The value of a string of decimal digits, read most significant first. */
  function DigitsValue(s: string): nat
    requires AllDigits(s)
    decreases |s|
  {
    if |s| == 0 then 0 else DigitsValue(s[..|s| - 1]) * 10 + DigitValue(s[|s| - 1])
  }

  /** `String.valueOf(int)`: an optional minus sign followed by the digits. */
  function IntToString(n: int): (s: string)
    ensures |s| > 0 && ':' !in s
  {
    if n < 0 then "-" + NatToString(-n) else NatToString(n)
  }

  /**
   * `Integer.parseInt(s)`, for ASCII digits: an optional sign and at least one
   * digit '0'..'9', with a value in the range of `int`; `None` stands for the
   * `NumberFormatException`. Java also accepts the decimal digits of other scripts
   * (Unicode category Nd); those are rejected here.
   */
  function ParseInt(s: string): (r: Option<int>)
    ensures r.Some? ==> INT_MIN <= r.value <= INT_MAX
  {
    if |s| == 0 then None
    else
      var body := if s[0] == '-' || s[0] == '+' then s[1..] else s;
      if |body| == 0 || !AllDigits(body) then None
      else
        var v := if s[0] == '-' then 0 - DigitsValue(body) else DigitsValue(body) as int;
        if INT_MIN <= v <= INT_MAX then Some(v) else None
  }

  lemma {:induction false} NatToStringValue(n: nat)
    ensures DigitsValue(NatToString(n)) == n
    decreases n
  {
    var s := NatToString(n);
    if n >= 10 {
      NatToStringValue(n / 10);
      assert s[..|s| - 1] == NatToString(n / 10);
    }
  }

  /** Formatting an `int` and parsing it back gives the same `int`. */
  lemma ParseIntRoundTrip(n: Int32)
    ensures ParseInt(IntToString(n)) == Some(n)
  {
    var s := IntToString(n);
    if n < 0 {
      var m: nat := -(n as int);
      NatToStringValue(m);
      assert s[0] == '-';
      assert s[1..] == NatToString(m);
      assert 0 - DigitsValue(s[1..]) == n;
    } else {
      NatToStringValue(n);
      assert IsDigit(s[0]);
      assert s[0] != '-' && s[0] != '+';
    }
  }

  /** Two `int`s with the same decimal form are equal. */
  lemma IntToStringInjective(a: Int32, b: Int32)
    requires IntToString(a) == IntToString(b)
    ensures a == b
  {
    ParseIntRoundTrip(a);
    ParseIntRoundTrip(b);
  }

  /**
   * The pieces of `s` between consecutive ':' characters, empty pieces included:
   * one more piece than there are separators.
   */
  function Fields(s: string): (r: seq<string>)
    ensures |r| > 0
  {
    if |s| == 0 then [""]
    else if s[0] == ':' then [""] + Fields(s[1..])
    else
      var rest := Fields(s[1..]);
      [[s[0]] + rest[0]] + rest[1..]
  }

  /** Every piece is free of separators. */
  lemma {:induction false} FieldsHaveNoSeparator(s: string)
    ensures forall i | 0 <= i < |Fields(s)| :: ':' !in Fields(s)[i]
  {
    if |s| > 0 {
      FieldsHaveNoSeparator(s[1..]);
    }
  }

  lemma {:induction false} FieldsOfPlain(a: string)
    requires ':' !in a
    ensures Fields(a) == [a]
  {
    if |a| > 0 {
      FieldsOfPlain(a[1..]);
      assert [a[0]] + a[1..] == a;
    }
  }

  /** A separator-free piece followed by ':' contributes exactly one field. */
  lemma {:induction false} FieldsCons(a: string, b: string)
    requires ':' !in a
    ensures Fields(a + ":" + b) == [a] + Fields(b)
  {
    if |a| == 0 {
      assert a + ":" + b == [':'] + b;
      assert (a + ":" + b)[1..] == b;
    } else {
      FieldsCons(a[1..], b);
      assert (a + ":" + b)[1..] == a[1..] + ":" + b;
      assert [a[0]] + a[1..] == a;
    }
  }

  /** Drops the empty strings at the end, as `split` does with a limit of zero. */
  function DropTrailingEmpty(parts: seq<string>): (r: seq<string>)
    ensures |r| <= |parts| && r == parts[..|r|]
    ensures |r| > 0 ==> r[|r| - 1] != ""
    ensures forall i | |r| <= i < |parts| :: parts[i] == ""
  {
    if |parts| == 0 then []
    else if parts[|parts| - 1] == "" then DropTrailingEmpty(parts[..|parts| - 1])
    else parts
  }

  /**
   * `s.split(":")`: a string with no separator gives itself; otherwise the fields,
   * without the trailing empty ones (a leading empty field stays).
   */
  function Split(s: string): (r: seq<string>)
    ensures ':' !in s ==> r == [s]
  {
    if ':' !in s then [s] else DropTrailingEmpty(Fields(s))
  }

  /** No separator is ever part of a piece. */
  lemma SplitHasNoSeparator(s: string)
    ensures forall i | 0 <= i < |Split(s)| :: ':' !in Split(s)[i]
  {
    FieldsHaveNoSeparator(s);
  }

  lemma JoinRightNested(a: string, b: string, c: string, d: string)
    ensures a + ":" + b + ":" + c + ":" + d == a + ":" + (b + ":" + (c + ":" + d))
  {
  }

  /** The fields of four separator-free pieces joined with ':' are the pieces. */
  lemma FieldsJoin4(a: string, b: string, c: string, d: string)
    requires ':' !in a && ':' !in b && ':' !in c && ':' !in d
    ensures Fields(a + ":" + (b + ":" + (c + ":" + d))) == [a, b, c, d]
  {
    FieldsOfPlain(d);
    FieldsCons(c, d);
    FieldsCons(b, c + ":" + d);
    FieldsCons(a, b + ":" + (c + ":" + d));
  }

  /** Joining separator-free pieces with ':' and splitting again gives the pieces back. */
  lemma SplitJoin4(a: string, b: string, c: string, d: string)
    requires ':' !in a && ':' !in b && ':' !in c && ':' !in d && d != ""
    ensures Split(a + ":" + b + ":" + c + ":" + d) == [a, b, c, d]
  {
    var s := a + ":" + b + ":" + c + ":" + d;
    JoinRightNested(a, b, c, d);
    FieldsJoin4(a, b, c, d);
    assert s[|a|] == ':';
  }

  /** In `a + ":" + b` with no separator in `a`, the first separator stands at index `|a|`. */
  lemma FirstSeparatorAt(a: string, b: string)
    requires ':' !in a
    ensures (a + ":" + b)[|a|] == ':'
    ensures forall i | 0 <= i < |a| :: (a + ":" + b)[i] != ':'
  {
  }

  /** Cutting at the first separator is unique. */
  lemma FirstSeparatorUnique(a: string, b: string, c: string, d: string)
    requires ':' !in a && ':' !in c
    requires a + ":" + b == c + ":" + d
    ensures a == c && b == d
  {
    var s := a + ":" + b;
    FirstSeparatorAt(a, b);
    FirstSeparatorAt(c, d);
    assert |a| == |c|;
    assert a == s[..|a|] && c == s[..|c|];
    assert b == s[|a| + 1..] && d == s[|c| + 1..];
  }
}
