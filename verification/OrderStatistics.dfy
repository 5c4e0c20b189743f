/**
 Order statistics of exact observations. The one characterisation used everywhere: the k-th smallest value is at
 most x exactly when more than k values are at most x.
 */
module OrderStatistics {

  function Insert(x: real, s: seq<real>): (r: seq<real>)
    ensures |r| == |s| + 1
  {
    if s == [] || x <= s[0] then [x] + s else [s[0]] + Insert(x, s[1..])
  }

  /** `sorted(values)`. */
  function Sort(s: seq<real>): (r: seq<real>)
    ensures |r| == |s|
  {
    if s == [] then [] else Insert(s[0], Sort(s[1..]))
  }

  predicate Ascending(s: seq<real>) {
    forall i, j | 0 <= i < j < |s| :: s[i] <= s[j]
  }

  /** The number of values at most `x`. */
  function CountLe(s: seq<real>, x: real): (n: nat)
    ensures n <= |s|
  {
    if s == [] then 0 else (if s[0] <= x then 1 else 0) + CountLe(s[1..], x)
  }

  function Kth(s: seq<real>, k: nat): real
    requires k < |s|
  {
    Sort(s)[k]
  }

  lemma {:induction false} InsertAscending(x: real, s: seq<real>)
    requires Ascending(s)
    ensures Ascending(Insert(x, s))
    ensures forall i | 0 <= i < |Insert(x, s)| :: Insert(x, s)[i] == x || Insert(x, s)[i] in s
  {
    if s != [] && x > s[0] {
      InsertAscending(x, s[1..]);
      var rest := Insert(x, s[1..]);
      assert Insert(x, s) == [s[0]] + rest;
      assert forall i | 0 <= i < |rest| :: s[0] <= rest[i];
    }
  }

  lemma {:induction false} SortAscending(s: seq<real>)
    ensures Ascending(Sort(s))
  {
    if s != [] {
      SortAscending(s[1..]);
      InsertAscending(s[0], Sort(s[1..]));
    }
  }

  lemma {:induction false} InsertCount(x: real, s: seq<real>, y: real)
    ensures CountLe(Insert(x, s), y) == CountLe(s, y) + if x <= y then 1 else 0
  {
    if s != [] && x > s[0] {
      InsertCount(x, s[1..], y);
    }
  }

  lemma {:induction false} SortCount(s: seq<real>, x: real)
    ensures CountLe(Sort(s), x) == CountLe(s, x)
  {
    if s != [] {
      SortCount(s[1..], x);
      InsertCount(s[0], Sort(s[1..]), x);
    }
  }

  lemma {:induction false} AscendingCount(s: seq<real>, k: nat, x: real)
    requires Ascending(s) && k < |s|
    ensures s[k] <= x <==> CountLe(s, x) > k
    decreases |s|
  {
    if s[0] > x {
      NoneBelow(s, x);
    } else if k > 0 {
      AscendingCount(s[1..], k - 1, x);
    }
  }

  lemma {:induction false} NoneBelow(s: seq<real>, x: real)
    requires Ascending(s) && (s == [] || s[0] > x)
    ensures CountLe(s, x) == 0
  {
    if s != [] {
      NoneBelow(s[1..], x);
    }
  }

  /** The k-th smallest value is at most x exactly when more than k values are. */
  lemma KthAtMost(s: seq<real>, k: nat, x: real)
    requires k < |s|
    ensures Kth(s, k) <= x <==> CountLe(s, x) > k
  {
    SortAscending(s);
    SortCount(s, x);
    AscendingCount(Sort(s), k, x);
  }

  lemma {:induction false} CountConcat(a: seq<real>, b: seq<real>, x: real)
    ensures CountLe(a + b, x) == CountLe(a, x) + CountLe(b, x)
  {
    if a == [] {
      assert a + b == b;
    } else {
      assert (a + b)[1..] == a[1..] + b;
      CountConcat(a[1..], b, x);
    }
  }

  /** Order statistics depend on the values and not on their order. */
  lemma KthPermutation(s: seq<real>, t: seq<real>, k: nat)
    requires multiset(s) == multiset(t) && k < |s|
    ensures |s| == |t| && Kth(s, k) == Kth(t, k)
  {
    assert |s| == |multiset(s)| == |multiset(t)| == |t|;
    forall x ensures CountLe(s, x) == CountLe(t, x) {
      CountPermutation(s, t, x);
    }
    KthAtMost(s, k, Kth(t, k));
    KthAtMost(t, k, Kth(t, k));
    KthAtMost(t, k, Kth(s, k));
    KthAtMost(s, k, Kth(s, k));
  }

  lemma CountWithout(t: seq<real>, i: nat, x: real)
    requires i < |t|
    ensures CountLe(t, x) == CountLe(t[..i] + t[i + 1..], x) + if t[i] <= x then 1 else 0
  {
    var front, back := t[..i], t[i + 1..];
    CountConcat(front, back, x);
    CountConcat(front, [t[i]], x);
    CountConcat(front + [t[i]], back, x);
    assert t == front + [t[i]] + back;
    assert CountLe([t[i]], x) == if t[i] <= x then 1 else 0;
  }

  lemma WithoutFirst(s: seq<real>, t: seq<real>, i: nat)
    requires multiset(s) == multiset(t) && s != [] && i < |t| && t[i] == s[0]
    ensures multiset(s[1..]) == multiset(t[..i] + t[i + 1..])
  {
    assert s == [s[0]] + s[1..];
    assert t == t[..i] + [t[i]] + t[i + 1..];
    assert multiset(t) == multiset(t[..i]) + multiset{t[i]} + multiset(t[i + 1..]);
    assert multiset(s[1..]) == multiset(s) - multiset{s[0]};
  }

  lemma {:induction false} CountPermutation(s: seq<real>, t: seq<real>, x: real)
    requires multiset(s) == multiset(t)
    ensures CountLe(s, x) == CountLe(t, x)
  {
    if s == [] {
      assert |t| == |multiset(t)| == |multiset(s)| == 0;
    } else {
      assert s[0] in multiset(s);
      assert s[0] in multiset(t);
      var i :| 0 <= i < |t| && t[i] == s[0];
      WithoutFirst(s, t, i);
      CountPermutation(s[1..], t[..i] + t[i + 1..], x);
      CountWithout(t, i, x);
    }
  }

  lemma {:induction false} CountDominated(s: seq<real>, t: seq<real>, d: real, x: real)
    requires |s| == |t| && forall i | 0 <= i < |s| :: s[i] <= t[i] + d
    ensures CountLe(t, x) <= CountLe(s, x + d)
  {
    if s != [] {
      CountDominated(s[1..], t[1..], d, x);
    }
  }

  /** A pointwise bound between two samples bounds every order statistic. */
  lemma KthDominated(s: seq<real>, t: seq<real>, d: real, k: nat)
    requires |s| == |t| && k < |s| && forall i | 0 <= i < |s| :: s[i] <= t[i] + d
    ensures Kth(s, k) <= Kth(t, k) + d
  {
    KthAtMost(t, k, Kth(t, k));
    CountDominated(s, t, d, Kth(t, k));
    KthAtMost(s, k, Kth(t, k) + d);
  }

  /** Leaving out part `b` of a sample moves the k-th value by at most |b| ranks. */
  lemma KthOfPart(s: seq<real>, a: seq<real>, b: seq<real>, k: nat)
    requires k < |a| && |s| == |a| + |b|
    requires forall x :: CountLe(s, x) == CountLe(a, x) + CountLe(b, x)
    ensures Kth(s, k) <= Kth(a, k) <= Kth(s, k + |b|)
  {
    hide CountLe, Kth;
    KthAtMost(a, k, Kth(a, k));
    KthAtMost(s, k, Kth(a, k));
    KthAtMost(s, k + |b|, Kth(s, k + |b|));
    KthAtMost(a, k, Kth(s, k + |b|));
  }

  lemma KthMonotone(s: seq<real>, j: nat, k: nat)
    requires j <= k < |s|
    ensures Kth(s, j) <= Kth(s, k)
  {
    SortAscending(s);
  }

  /** Every value lies between the extremes. */
  lemma ValueBetween(s: seq<real>, i: nat)
    requires i < |s|
    ensures Kth(s, 0) <= s[i] <= Kth(s, |s| - 1)
  {
    CountAtLeast(s, i, s[i]);
    KthAtMost(s, 0, s[i]);
    KthAtMost(s, |s| - 1, Kth(s, |s| - 1));
    CountAll(s, Kth(s, |s| - 1), i);
  }

  lemma {:induction false} CountAtLeast(s: seq<real>, i: nat, x: real)
    requires i < |s| && s[i] <= x
    ensures CountLe(s, x) > 0
  {
    if i > 0 {
      CountAtLeast(s[1..], i - 1, x);
    }
  }

  lemma {:induction false} CountAll(s: seq<real>, x: real, i: nat)
    requires CountLe(s, x) == |s| && i < |s|
    ensures s[i] <= x
  {
    if i > 0 {
      CountAll(s[1..], x, i - 1);
    }
  }

  /** Each order statistic is one of the values. */
  lemma {:induction false} KthIsValue(s: seq<real>, k: nat)
    requires k < |s|
    ensures Kth(s, k) in s
  {
    SortElements(s);
    assert Sort(s)[k] in Sort(s);
  }

  lemma {:induction false} SortElements(s: seq<real>)
    ensures forall x :: x in Sort(s) <==> x in s
  {
    if s != [] {
      SortElements(s[1..]);
      InsertElements(s[0], Sort(s[1..]));
      assert s == [s[0]] + s[1..];
    }
  }

  lemma {:induction false} InsertElements(x: real, s: seq<real>)
    ensures forall y :: y in Insert(x, s) <==> y == x || y in s
  {
    if s != [] && x > s[0] {
      InsertElements(x, s[1..]);
      assert s == [s[0]] + s[1..];
    }
  }

  // ----- median ---------------------------------------------------------------------------------

  /** `median(values)`: the middle value, or the mean of the two middle values. */
  function Median(s: seq<real>): real
    requires s != []
  {
    var ordered, middle := Sort(s), |s| / 2;
    if |s| % 2 == 1 then ordered[middle] else (ordered[middle - 1] + ordered[middle]) / 2.0
  }

  lemma MedianDominated(s: seq<real>, t: seq<real>, d: real)
    requires |s| == |t| && s != [] && forall i | 0 <= i < |s| :: s[i] <= t[i] + d
    ensures Median(s) <= Median(t) + d
  {
    KthDominated(s, t, d, |s| / 2);
    if |s| % 2 == 0 {
      KthDominated(s, t, d, |s| / 2 - 1);
    }
  }

  /** Translating every value translates the median. */
  lemma MedianTranslates(s: seq<real>, d: real)
    requires s != []
    ensures Median(seq(|s|, i requires 0 <= i < |s| => s[i] + d)) == Median(s) + d
  {
    var t := seq(|s|, i requires 0 <= i < |s| => s[i] + d);
    MedianDominated(t, s, d);
    MedianDominated(s, t, -d);
  }

  lemma MedianBetween(s: seq<real>, lo: real, hi: real)
    requires s != [] && forall i | 0 <= i < |s| :: lo <= s[i] <= hi
    ensures lo <= Median(s) <= hi
  {
    KthIsValue(s, |s| / 2);
    if |s| % 2 == 0 {
      KthIsValue(s, |s| / 2 - 1);
    }
  }

  // ----- values in order ------------------------------------------------------------------------

  lemma {:induction false} SortKeeps(s: seq<real>)
    requires Ascending(s)
    ensures Sort(s) == s
  {
    if s != [] {
      SortKeeps(s[1..]);
      assert s == [s[0]] + s[1..];
    }
  }

  /** Order statistics and median of values, read off any ascending arrangement of them. */
  lemma RankedValues(s: seq<real>, ranked: seq<real>)
    requires Ascending(ranked) && multiset(ranked) == multiset(s)
    ensures |ranked| == |s| && forall k | 0 <= k < |s| :: Kth(s, k) == ranked[k]
    ensures s != [] ==>
              var n := |s|;
              Median(s) == if n % 2 == 1 then ranked[n / 2] else (ranked[n / 2 - 1] + ranked[n / 2]) / 2.0
  {
    assert |ranked| == |multiset(ranked)| == |multiset(s)| == |s|;
    SortKeeps(ranked);
    forall k | 0 <= k < |s| ensures Kth(s, k) == ranked[k] {
      KthPermutation(s, ranked, k);
    }
  }

  // ----- rounding -------------------------------------------------------------------------------

  function Ceiling(x: real): int {
    -(-x).Floor
  }

  /** The ceiling is the least integer at or above `x`. */
  lemma CeilingIsLeast(x: real, n: int)
    ensures x <= Ceiling(x) as real
    ensures n as real >= x ==> n >= Ceiling(x)
  {
  }
}
