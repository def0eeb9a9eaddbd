/** Counting arguments over finite sets of naturals, and quotients. */
module Counting {
  import opened Bytes
  import opened Lists

  function Interval(lo: nat, hi: nat): (s: set<nat>)
    requires lo <= hi
    ensures forall k :: k in s <==> lo <= k < hi
    ensures |s| == hi - lo
  {
    if lo == hi then {} else Interval(lo, hi - 1) + {hi - 1}
  }

  lemma SubsetSize<T>(a: set<T>, b: set<T>)
    requires a <= b
    ensures |a| <= |b| && (|a| == |b| ==> a == b)
  {
    assert b == a + (b - a);
    assert |b| == |a| + |b - a|;
  }

  function Elements<T(==)>(s: seq<T>): set<T> {
    if s == [] then {} else {s[0]} + Elements(s[1..])
  }

  lemma {:induction false} ElementMembers<T>(s: seq<T>)
    ensures forall k :: k in Elements(s) <==> k in s
  {
    if s != [] {
      ElementMembers(s[1..]);
      assert s == [s[0]] + s[1..];
    }
  }

  lemma {:induction false} ElementCount<T>(s: seq<T>)
    requires NoDup(s)
    ensures |Elements(s)| == |s|
  {
    if s != [] {
      var rest := s[1..];
      forall i, j | 0 <= i < j < |rest| ensures rest[i] != rest[j] {}
      ElementCount(rest);
      ElementMembers(rest);
      assert forall i :: 0 <= i < |rest| ==> rest[i] == s[i + 1] != s[0];
    }
  }

  /** Distinct numbers below n are at most n, and n of them are all of them. */
  lemma DistinctBelow(s: seq<nat>, n: nat)
    requires NoDup(s) && forall i :: 0 <= i < |s| ==> s[i] < n
    ensures |s| <= n
    ensures |s| == n <==> forall k :: 0 <= k < n ==> k in s
  {
    var all := Interval(0, n);
    ElementMembers(s);
    ElementCount(s);
    SubsetSize(Elements(s), all);
    if forall k :: 0 <= k < n ==> k in s {
      SubsetSize(all, Elements(s));
    }
  }

  lemma MulAtLeast(m: nat, k: int)
    requires k >= 1
    ensures m * k >= m
  {
  }

  lemma QuotientUnique(x: nat, m: nat, q: int, r: int)
    requires m > 0 && 0 <= r < m && x == m * q + r
    ensures x / m == q
  {
    var d, e := x / m, x % m;
    assert m * (d - q) == r - e && m * (q - d) == e - r;
    if d > q { MulAtLeast(m, d - q); }
    if d < q { MulAtLeast(m, q - d); }
  }

  lemma QuotientLess(y: nat, m: nat)
    requires 0 < m <= y
    ensures (y - m) / m == y / m - 1
  {
    assert m * (y / m - 1) == m * (y / m) - m;
    QuotientUnique(y - m, m, y / m - 1, y % m);
  }

  lemma QuotientMonotone(x: nat, y: nat, m: nat)
    requires m > 0 && x <= y
    ensures x / m <= y / m
  {
    var d := x / m - y / m;
    assert x == m * (x / m) + x % m && y == m * (y / m) + y % m;
    assert m * d == m * (x / m) - m * (y / m);
    if d >= 1 { MulAtLeast(m, d); }
  }
}
