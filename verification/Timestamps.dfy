/** The order of stored timestamps. SQLite sorts `created_at` as text; the text is RFC 3339
    in UTC, with the fraction of the second written without trailing zeros. */
module Timestamps {

  /** Byte-wise text order, as SQLite's BINARY collation compares it. */
  predicate Less(a: string, b: string) {
    b != [] && (a == [] || a[0] < b[0] || (a[0] == b[0] && Less(a[1..], b[1..])))
  }

  predicate AllDigits(s: string) {
    forall k :: 0 <= k < |s| ==> '0' <= s[k] <= '9'
  }

  function Number(s: string): int {
    if s == [] then 0 else 10 * Number(s[..|s| - 1]) + (s[|s| - 1] as int - '0' as int)
  }

  /** A moment in UTC: the digits YYYYMMDDhhmmss, and nine digits of nanoseconds. */
  datatype Stamp = Stamp(second: string, nanos: string)

  predicate Valid(t: Stamp) {
    |t.second| == 14 && |t.nanos| == 9 && AllDigits(t.second) && AllDigits(t.nanos)
  }

  predicate Earlier(a: Stamp, b: Stamp) {
    Number(a.second) < Number(b.second) || (a.second == b.second && Number(a.nanos) < Number(b.nanos))
  }

  function Trim(s: string): string {
    if s != [] && s[|s| - 1] == '0' then Trim(s[..|s| - 1]) else s
  }

  function DateTime(d: string): string
    requires |d| == 14
  {
    d[..4] + "-" + d[4..6] + "-" + d[6..8] + "T" + d[8..10] + ":" + d[10..12] + ":" + d[12..14]
  }

  function Fraction(nanos: string): string {
    if Trim(nanos) == [] then "Z" else "." + Trim(nanos) + "Z"
  }

  function Text(t: Stamp): string
    requires Valid(t)
  {
    DateTime(t.second) + Fraction(t.nanos)
  }

  // ---------- text order ----------

  /** The first difference decides. */
  lemma {:induction false} LessAt(s: string, t: string, k: nat)
    requires k < |s| && k < |t| && s[..k] == t[..k] && s[k] != t[k]
    ensures Less(s, t) <==> s[k] < t[k]
  {
    if k > 0 {
      assert s[0] == s[..k][0] == t[..k][0] == t[0];
      assert s[1..][..k - 1] == s[..k][1..] == t[..k][1..] == t[1..][..k - 1];
      LessAt(s[1..], t[1..], k - 1);
    }
  }

  lemma FirstDifference(s: string, t: string) returns (k: nat)
    requires s != t && |s| == |t|
    ensures k < |s| && s[..k] == t[..k] && s[k] != t[k]
  {
    k := 0;
    while k < |s| && s[k] == t[k]
      invariant k <= |s| && s[..k] == t[..k]
    {
      k := k + 1;
    }
    assert s[..|s|] == s && t[..|t|] == t;
  }

  /** Texts of digits with the same length are ordered as numbers. */
  lemma {:induction false} NumberAt(s: string, t: string, k: nat)
    requires AllDigits(s) && AllDigits(t) && |s| == |t| && k < |s| && s[..k] == t[..k] && s[k] < t[k]
    ensures Number(s) < Number(t)
  {
    var n := |s| - 1;
    if k == n {
      assert s[..n] == t[..n];
    } else {
      assert s[..n][..k] == s[..k] && t[..n][..k] == t[..k];
      NumberAt(s[..n], t[..n], k);
      assert '0' <= s[n] <= '9' && '0' <= t[n] <= '9';
    }
  }

  lemma DigitsAreOrdered(s: string, t: string)
    requires AllDigits(s) && AllDigits(t) && |s| == |t|
    ensures Less(s, t) <==> Number(s) < Number(t)
    ensures Number(s) == Number(t) <==> s == t
  {
    if s == t {
      Irreflexive(s);
    } else {
      var k := FirstDifference(s, t);
      LessAt(s, t, k);
      if s[k] < t[k] {
        NumberAt(s, t, k);
      } else {
        NumberAt(t, s, k);
      }
    }
  }

  lemma {:induction false} Irreflexive(s: string)
    ensures !Less(s, s)
  {
    if s != [] {
      Irreflexive(s[1..]);
    }
  }

  // ---------- different seconds ----------

  /** Where digit `k` of the date and time stands in the text. */
  function Position(k: nat): nat {
    k + (if k < 4 then 0 else if k < 6 then 1 else if k < 8 then 2 else if k < 10 then 3 else if k < 12 then 4 else 5)
  }

  lemma DateTimeAt(d: string)
    requires |d| == 14
    ensures |DateTime(d)| == 19
    ensures forall k :: 0 <= k < 14 ==> DateTime(d)[Position(k)] == d[k]
    ensures DateTime(d)[4] == DateTime(d)[7] == '-' && DateTime(d)[10] == 'T'
    ensures DateTime(d)[13] == DateTime(d)[16] == ':'
  {}

  lemma DateTimeSplits(d: string, e: string, k: nat)
    requires |d| == |e| == 14 && k < 14 && d[..k] == e[..k]
    ensures DateTime(d)[..Position(k)] == DateTime(e)[..Position(k)]
  {
    DateTimeAt(d);
    DateTimeAt(e);
    forall i | 0 <= i < Position(k) ensures DateTime(d)[i] == DateTime(e)[i] {
      if i != 4 && i != 7 && i != 10 && i != 13 && i != 16 {
        var before := if i < 4 then 0 else if i < 7 then 1 else if i < 10 then 2 else if i < 13 then 3
                      else if i < 16 then 4 else 5;
        var j := i - before;
        assert Position(j) == i && d[..k][j] == e[..k][j];
      }
    }
  }

  lemma SecondsDecide(a: Stamp, b: Stamp)
    requires Valid(a) && Valid(b) && a.second != b.second
    ensures Less(Text(a), Text(b)) <==> Earlier(a, b)
  {
    var k := FirstDifference(a.second, b.second);
    DateTimeSplits(a.second, b.second, k);
    DateTimeAt(a.second);
    DateTimeAt(b.second);
    var p := Position(k);
    assert Text(a)[..p] == DateTime(a.second)[..p];
    assert Text(b)[..p] == DateTime(b.second)[..p];
    LessAt(Text(a), Text(b), p);
    LessAt(a.second, b.second, k);
    DigitsAreOrdered(a.second, b.second);
  }

  // ---------- the same second ----------

  lemma {:induction false} TrimIsPrefix(s: string)
    ensures Trim(s) <= s
    ensures forall k :: |Trim(s)| <= k < |s| ==> s[k] == '0'
    ensures Trim(s) != [] ==> Trim(s)[|Trim(s)| - 1] != '0'
  {
    if s != [] && s[|s| - 1] == '0' {
      TrimIsPrefix(s[..|s| - 1]);
    }
  }

  lemma CommonPrefix(p: string, s: string, t: string, k: nat)
    requires k < |s| && k < |t| && s[..k] == t[..k] && s[k] != t[k]
    ensures Less(p + s, p + t) <==> s[k] < t[k]
  {
    assert (p + s)[..|p| + k] == p + s[..k];
    assert (p + t)[..|p| + k] == p + t[..k];
    LessAt(p + s, p + t, |p| + k);
  }

  /** When the shorter fraction is a beginning of the longer one, the text order is the
      reverse of the time order. */
  lemma PrefixesAreReversed(a: Stamp, b: Stamp)
    requires Valid(a) && Valid(b) && a.second == b.second && Trim(a.nanos) < Trim(b.nanos)
    ensures Earlier(a, b) && Less(Text(b), Text(a)) && !Less(Text(a), Text(b))
  {
    var x, y := Trim(a.nanos), Trim(b.nanos);
    TrimIsPrefix(b.nanos);
    PrefixIsEarlier(a.nanos, b.nanos);
    var d := DateTime(a.second);
    if x == [] {
      CommonPrefix(d, "Z", "." + y + "Z", 0);
      CommonPrefix(d, "." + y + "Z", "Z", 0);
    } else {
      var n := |x|;
      assert '0' <= b.nanos[n] <= '9' && y[n] == b.nanos[n];
      SplitText(a);
      SplitText(b);
      assert (x + "Z")[..n] == x == (y + "Z")[..n];
      CommonPrefix(d + ".", x + "Z", y + "Z", n);
      CommonPrefix(d + ".", y + "Z", x + "Z", n);
    }
  }

  lemma SplitText(t: Stamp)
    requires Valid(t) && Trim(t.nanos) != []
    ensures Text(t) == (DateTime(t.second) + ".") + (Trim(t.nanos) + "Z")
  {}

  lemma PrefixIsEarlier(s: string, t: string)
    requires AllDigits(s) && AllDigits(t) && |s| == |t| && Trim(s) < Trim(t)
    ensures Number(s) < Number(t)
  {
    TrimIsPrefix(s);
    TrimIsPrefix(t);
    var last := |Trim(t)| - 1;
    assert t[last] == Trim(t)[last] && s[last] == '0';
    assert s != t;
    var k := FirstDifference(s, t);
    assert forall j :: 0 <= j < |Trim(s)| ==> s[j] == Trim(s)[j] == Trim(t)[j] == t[j];
    assert s[k] == '0' <= t[k];
    NumberAt(s, t, k);
  }

  /** When neither fraction begins the other, text and time agree. */
  lemma BranchesAgree(a: Stamp, b: Stamp)
    requires Valid(a) && Valid(b) && a.second == b.second
    requires !(Trim(a.nanos) <= Trim(b.nanos)) && !(Trim(b.nanos) <= Trim(a.nanos))
    ensures Less(Text(a), Text(b)) <==> Earlier(a, b)
  {
    var x, y := Trim(a.nanos), Trim(b.nanos);
    TrimIsPrefix(a.nanos);
    TrimIsPrefix(b.nanos);
    var k := Fork(x, y);
    SplitText(a);
    SplitText(b);
    assert (x + "Z")[..k] == x[..k] == y[..k] == (y + "Z")[..k];
    CommonPrefix(DateTime(a.second) + ".", x + "Z", y + "Z", k);
    assert a.nanos[..k] == x[..k] && b.nanos[..k] == y[..k];
    LessAt(a.nanos, b.nanos, k);
    DigitsAreOrdered(a.nanos, b.nanos);
  }

  lemma Fork(x: string, y: string) returns (k: nat)
    requires !(x <= y) && !(y <= x)
    ensures k < |x| && k < |y| && x[..k] == y[..k] && x[k] != y[k]
  {
    k := 0;
    while k < |x| && k < |y| && x[k] == y[k]
      invariant k <= |x| && k <= |y| && x[..k] == y[..k]
    {
      k := k + 1;
    }
    assert x[..|x|] == x && y[..|y|] == y;
  }

  lemma TrimDetermines(s: string, t: string)
    requires |s| == |t| && Trim(s) == Trim(t)
    ensures s == t
  {
    TrimIsPrefix(s);
    TrimIsPrefix(t);
    forall k | 0 <= k < |s| ensures s[k] == t[k] {
      if k < |Trim(s)| {
        assert s[k] == Trim(s)[k] == Trim(t)[k] == t[k];
      }
    }
  }

  /** The text order of two stored times is their order in time, for the two ways round,
      exactly when they are the same, fall in different seconds, or neither written fraction
      begins the other. */
  lemma TextOrderIsChronological(a: Stamp, b: Stamp)
    requires Valid(a) && Valid(b)
    ensures ((Less(Text(a), Text(b)) <==> Earlier(a, b)) && (Less(Text(b), Text(a)) <==> Earlier(b, a))) <==>
      || a == b
      || a.second != b.second
      || (!(Trim(a.nanos) <= Trim(b.nanos)) && !(Trim(b.nanos) <= Trim(a.nanos)))
  {
    DigitsAreOrdered(a.second, b.second);
    if a.second != b.second {
      SecondsDecide(a, b);
      SecondsDecide(b, a);
    } else if Trim(a.nanos) == Trim(b.nanos) {
      TrimDetermines(a.nanos, b.nanos);
      Irreflexive(Text(a));
    } else if Trim(a.nanos) <= Trim(b.nanos) {
      PrefixesAreReversed(a, b);
    } else if Trim(b.nanos) <= Trim(a.nanos) {
      PrefixesAreReversed(b, a);
    } else {
      BranchesAgree(a, b);
      BranchesAgree(b, a);
    }
  }

  const NOON := Stamp("20260101120000", "000000000")
  const PAST_NOON := Stamp("20260101120000", "500000000")

  /** Half a second past noon is later than noon, and sorts before it. */
  lemma SameSecondCounterexample()
    ensures Valid(NOON) && Valid(PAST_NOON) && Earlier(NOON, PAST_NOON)
    ensures Less(Text(PAST_NOON), Text(NOON)) && !Less(Text(NOON), Text(PAST_NOON))
  {
    ZerosTrimAway(NOON.nanos);
    TrimIsPrefix(PAST_NOON.nanos);
    assert PAST_NOON.nanos[0] == '5';
    PrefixesAreReversed(NOON, PAST_NOON);
  }

  lemma {:induction false} ZerosTrimAway(s: string)
    requires forall k :: 0 <= k < |s| ==> s[k] == '0'
    ensures Trim(s) == []
  {
    if s != [] {
      ZerosTrimAway(s[..|s| - 1]);
    }
  }

  lemma HalfTrims(s: string)
    requires s == "500000000"
    ensures Trim(s) == "5"
  {
    TrimIsPrefix(s);
    var n := |Trim(s)|;
    assert s[0] == '5' && forall k :: 1 <= k < 9 ==> s[k] == '0';
    assert n > 0;
    assert Trim(s)[n - 1] == s[n - 1];
  }

  /** The date and time, spelled out. */
  lemma DateTimeLooksLike(d: string)
    requires |d| == 14
    ensures DateTime(d) == [d[0], d[1], d[2], d[3], '-', d[4], d[5], '-', d[6], d[7], 'T',
                            d[8], d[9], ':', d[10], d[11], ':', d[12], d[13]]
  {}

  /** A fraction of zeros is left out with its point; else its trailing zeros are. */
  lemma TextsLookLike(t: Stamp)
    requires Valid(t)
    ensures t.nanos == "000000000" ==> Text(t) == DateTime(t.second) + "Z"
    ensures t.nanos == "500000000" ==> Text(t) == DateTime(t.second) + ".5Z"
  {
    if t.nanos == "000000000" {
      ZerosTrimAway(t.nanos);
    } else if t.nanos == "500000000" {
      HalfTrims(t.nanos);
      assert "." + "5" + "Z" == ".5Z";
    }
  }
}
