/** Medians and percentiles read off a histogram of rounded response times. */
module Percentiles {
  import opened Counters
  import opened GoInts
  import opened Rounding

  ghost predicate Sorted(s: seq<int>) {
    forall i, j :: 0 <= i < j < |s| ==> s[i] <= s[j]
  }

  ghost predicate Ascending(s: seq<int>) {
    forall i, j :: 0 <= i < j < |s| ==> s[i] < s[j]
  }

  ghost predicate IsLeast(s: set<int>, x: int) {
    x in s && forall y :: y in s ==> x <= y
  }

  lemma {:induction false} LeastExists(s: set<int>)
    requires |s| > 0
    ensures exists x :: IsLeast(s, x)
  {
    var x := AnElement(s);
    var rest := s - {x};
    assert s == rest + {x};
    if |rest| == 0 {
      assert IsLeast(s, x);
    } else {
      LeastExists(rest);
      var m :| IsLeast(rest, m);
      assert IsLeast(s, if x < m then x else m);
    }
  }

  function Least(s: set<int>): (x: int)
    requires |s| > 0
    ensures IsLeast(s, x)
  {
    LeastExists(s);
    assert forall x, y :: IsLeast(s, x) && IsLeast(s, y) ==> x == y;
    var x :| x in s && forall y :: y in s ==> x <= y;
    x
  }

  /** The keys of a map in ascending order, as the library sort leaves them. */
  function SortedKeys(s: set<int>): (ks: seq<int>)
  {
    if |s| == 0 then [] else [Least(s)] + SortedKeys(s - {Least(s)})
  }

  lemma {:induction false} SortedKeysAscend(s: set<int>)
    ensures Ascending(SortedKeys(s))
    ensures forall k :: k in SortedKeys(s) <==> k in s
  {
    if |s| > 0 {
      var rest := SortedKeys(s - {Least(s)});
      SortedKeysAscend(s - {Least(s)});
      forall j | 0 <= j < |rest|
        ensures Least(s) < rest[j]
      {
        assert rest[j] in rest;
      }
    }
  }

  /** The cumulative walk over the keys from the i-th on, with pos samples still to skip. */
  function Walk(ks: seq<int>, m: Counts, i: nat, pos: int): int
    requires i <= |ks|
    decreases |ks| - i
  {
    if i == |ks| then 0
    else if pos < At(m, ks[i]) then ks[i]
    else Walk(ks, m, i + 1, pos - At(m, ks[i]))
  }

  function Percentile(numRequests: int, m: Counts, percent: int): int {
    if m == map[] then 0 else Walk(SortedKeys(m.Keys), m, 0, GoDiv((numRequests - 1) * percent, 100))
  }

  method GetMedianResponseTime(numRequests: int, responseTimes: Counts) returns (median: int)
    ensures median == Percentile(numRequests, responseTimes, 50)
  {
    median := 0;
    if |responseTimes| != 0 {
      MedianIsPercentile50(numRequests - 1);
      var pos := GoDiv(numRequests - 1, 2);
      var sortedKeys := SortedKeys(responseTimes.Keys);
      SortedKeysAscend(responseTimes.Keys);
      for i := 0 to |sortedKeys|
        invariant median == 0
        invariant Walk(sortedKeys, responseTimes, i, pos) == Percentile(numRequests, responseTimes, 50)
      {
        var k := sortedKeys[i];
        assert k in sortedKeys;
        if pos < responseTimes[k] {
          median := k;
          break;
        }
        pos := pos - responseTimes[k];
      }
    }
  }

  method GetPercentResponseTime(numRequests: int, responseTimes: Counts, percentValue: int) returns (value: int)
    ensures value == Percentile(numRequests, responseTimes, percentValue)
  {
    value := 0;
    if |responseTimes| != 0 {
      var pos := GoDiv((numRequests - 1) * percentValue, 100);
      var sortedKeys := SortedKeys(responseTimes.Keys);
      SortedKeysAscend(responseTimes.Keys);
      for i := 0 to |sortedKeys|
        invariant value == 0
        invariant Walk(sortedKeys, responseTimes, i, pos) == Percentile(numRequests, responseTimes, percentValue)
      {
        var k := sortedKeys[i];
        assert k in sortedKeys;
        if pos < responseTimes[k] {
          value := k;
          break;
        }
        pos := pos - responseTimes[k];
      }
    }
  }

  lemma MedianIsPercentile50(a: int)
    ensures GoDiv(a, 2) == GoDiv(a * 50, 100)
  {
  }

  // ---------------------------------------------------------------------------------------------
  // The walk against the sorted list of samples
  // ---------------------------------------------------------------------------------------------

  function Buckets(samples: seq<int>): (bs: seq<int>)
    ensures |bs| == |samples|
    ensures forall i :: 0 <= i < |samples| ==> bs[i] == Bucket(samples[i])
  {
    seq(|samples|, i requires 0 <= i < |samples| => Bucket(samples[i]))
  }

  /** m counts, for every bucket, how many of the samples round to it. */
  ghost predicate IsHistogram(m: Counts, samples: seq<int>) {
    forall k :: At(m, k) == multiset(Buckets(samples))[k] && (k in m ==> m[k] > 0)
  }

  /** The k-fold sequence of x, and the samples a histogram stands for in ascending order. */
  function Times(x: int, k: nat): (s: seq<int>)
    ensures |s| == k && forall i :: 0 <= i < k ==> s[i] == x
    ensures multiset(s)[x] == k && forall y :: y != x ==> multiset(s)[y] == 0
  {
    if k == 0 then [] else Times(x, k - 1) + [x]
  }

  function Unroll(ks: seq<int>, m: Counts, i: nat): seq<int>
    requires i <= |ks| && forall k :: At(m, k) >= 0
    decreases |ks| - i
  {
    if i == |ks| then [] else Times(ks[i], At(m, ks[i])) + Unroll(ks, m, i + 1)
  }

  lemma {:induction false} WalkReadsUnrolled(ks: seq<int>, m: Counts, i: nat, pos: nat)
    requires i <= |ks| && forall k :: At(m, k) >= 0
    ensures Walk(ks, m, i, pos) == if pos < |Unroll(ks, m, i)| then Unroll(ks, m, i)[pos] else 0
    decreases |ks| - i
  {
    if i < |ks| && pos >= At(m, ks[i]) {
      WalkReadsUnrolled(ks, m, i + 1, pos - At(m, ks[i]));
    }
  }

  lemma {:induction false} UnrolledElements(ks: seq<int>, m: Counts, i: nat, x: int)
    requires i <= |ks| && Ascending(ks) && forall k :: At(m, k) >= 0
    ensures multiset(Unroll(ks, m, i))[x] == if x in ks[i..] then At(m, x) else 0
    decreases |ks| - i
  {
    if i < |ks| {
      UnrolledElements(ks, m, i + 1, x);
      assert ks[i..] == [ks[i]] + ks[i + 1..];
    }
  }

  lemma {:induction false} UnrolledIsSorted(ks: seq<int>, m: Counts, i: nat)
    requires i <= |ks| && Ascending(ks) && forall k :: At(m, k) >= 0
    ensures Sorted(Unroll(ks, m, i))
    ensures forall j :: 0 <= j < |Unroll(ks, m, i)| ==> i < |ks| && Unroll(ks, m, i)[j] >= ks[i]
    decreases |ks| - i
  {
    hide Sorted, Times;
    if i < |ks| {
      UnrolledIsSorted(ks, m, i + 1);
      RepeatedFirst(ks[i], At(m, ks[i]), Unroll(ks, m, i + 1));
    } else {
      NothingSorted();
    }
  }

  lemma NothingSorted()
    ensures Sorted([])
  {
  }

  lemma RepeatedFirst(k: int, n: nat, tail: seq<int>)
    requires Sorted(tail) && forall j :: 0 <= j < |tail| ==> tail[j] > k
    ensures Sorted(Times(k, n) + tail)
    ensures forall j :: 0 <= j < n + |tail| ==> (Times(k, n) + tail)[j] >= k
  {
  }

  lemma DropHead<T>(s: seq<T>)
    requires s != []
    ensures multiset(s[1..]) == multiset(s) - multiset{s[0]}
  {
    assert s == [s[0]] + s[1..];
  }

  lemma SmallerHead(a: seq<int>, b: seq<int>)
    requires a != [] && b != [] && Sorted(a) && b[0] in multiset(a)
    ensures a[0] <= b[0]
  {
    var i :| 0 <= i < |a| && a[i] == b[0];
  }

  lemma SameHead(a: seq<int>, b: seq<int>)
    requires a != [] && Sorted(a) && Sorted(b) && multiset(a) == multiset(b)
    ensures b != [] && a[0] == b[0]
  {
    hide Sorted;
    assert |multiset(a)| == |multiset(b)|;
    assert a[0] in multiset(b) && b[0] in multiset(a);
    SmallerHead(a, b);
    SmallerHead(b, a);
  }

  /** What is left without the head is sorted, and short of just that head. */
  lemma SortedTail(s: seq<int>)
    requires s != [] && Sorted(s)
    ensures s == [s[0]] + s[1..] && Sorted(s[1..]) && multiset(s[1..]) == multiset(s) - multiset{s[0]}
  {
    DropHead(s);
  }

  /** There is only one way to sort. */
  lemma {:induction false} SortedIsUnique(a: seq<int>, b: seq<int>)
    requires Sorted(a) && Sorted(b) && multiset(a) == multiset(b)
    ensures a == b
  {
    hide Sorted;
    if a == [] {
      assert |multiset(b)| == 0;
    } else {
      SameHead(a, b);
      SortedTail(a);
      SortedTail(b);
      SortedIsUnique(a[1..], b[1..]);
    }
  }

  lemma DropOne<T>(s: seq<T>, i: nat)
    requires i < |s|
    ensures multiset(s[..i] + s[i + 1..]) == multiset(s) - multiset{s[i]}
  {
    assert s == s[..i] + [s[i]] + s[i + 1..];
  }

  lemma BucketsWithoutOne(s: seq<int>, i: nat, rest: seq<int>)
    requires i < |s| && rest == s[..i] + s[i + 1..]
    ensures multiset(Buckets(s)) == multiset(Buckets(rest)) + multiset{Bucket(s[i])}
  {
    hide Bucket;
    var bs := Buckets(s);
    DropOne(bs, i);
    assert Buckets(rest) == bs[..i] + bs[i + 1..];
  }

  lemma IndexOf<T>(x: T, t: seq<T>) returns (i: nat)
    requires x in multiset(t)
    ensures i < |t| && t[i] == x
  {
    i :| 0 <= i < |t| && t[i] == x;
  }

  lemma {:induction false} BucketsOfPermutation(s: seq<int>, t: seq<int>)
    requires multiset(s) == multiset(t)
    ensures multiset(Buckets(s)) == multiset(Buckets(t))
    decreases |s|
  {
    hide Buckets, Bucket;
    if s == [] {
      assert |multiset(t)| == 0;
    } else {
      var i := IndexOf(s[0], t);
      var tail, rest := s[1..], t[..i] + t[i + 1..];
      DropHead(s);
      DropOne(t, i);
      assert tail == s[..0] + s[1..];
      BucketsWithoutOne(s, 0, tail);
      BucketsWithoutOne(t, i, rest);
      BucketsOfPermutation(tail, rest);
    }
  }

  lemma UnrolledCounts(m: Counts, samples: seq<int>)
    requires IsHistogram(m, samples)
    ensures multiset(Unroll(SortedKeys(m.Keys), m, 0)) == multiset(Buckets(samples))
  {
    var ks := SortedKeys(m.Keys);
    SortedKeysAscend(m.Keys);
    forall x
      ensures multiset(Unroll(ks, m, 0))[x] == multiset(Buckets(samples))[x]
    {
      UnrolledElements(ks, m, 0, x);
      assert ks[0..] == ks;
    }
  }

  lemma BucketsOfSorted(sorted: seq<int>)
    requires Sorted(sorted)
    ensures Sorted(Buckets(sorted))
  {
    forall i, j | 0 <= i < j < |sorted|
      ensures Buckets(sorted)[i] <= Buckets(sorted)[j]
    {
      BucketMonotone(sorted[i], sorted[j]);
    }
  }

  /** A histogram, written out in key order, is the list of sorted samples with every sample rounded. */
  lemma UnrolledIsSortedSamples(m: Counts, samples: seq<int>, sorted: seq<int>)
    requires IsHistogram(m, samples)
    requires Sorted(sorted) && multiset(sorted) == multiset(samples)
    ensures Unroll(SortedKeys(m.Keys), m, 0) == Buckets(sorted)
  {
    hide Bucket;
    var u := Unroll(SortedKeys(m.Keys), m, 0);
    SortedKeysAscend(m.Keys);
    UnrolledIsSorted(SortedKeys(m.Keys), m, 0);
    UnrolledCounts(m, samples);
    BucketsOfPermutation(sorted, samples);
    BucketsOfSorted(sorted);
    SortedIsUnique(u, Buckets(sorted));
  }

  /** Where in the sorted list of n samples a percentile is read. */
  function Rank(n: nat, percent: nat): nat
    requires n > 0
  {
    (n - 1) * percent / 100
  }

  lemma RankInRange(n: nat, percent: nat)
    requires n > 0
    ensures percent <= 100 ==> Rank(n, percent) < n
  {
    if percent <= 100 {
      ProductAtMost(n - 1, percent, 100);
      HundredthBelow((n - 1) * percent, n);
    }
  }

  lemma ProductAtMost(a: nat, b: nat, c: nat)
    requires b <= c
    ensures a * b <= a * c
  {
    assert a * (c - b) >= 0;
  }

  lemma HundredthBelow(p: nat, n: nat)
    requires n > 0 && p <= (n - 1) * 100
    ensures p / 100 < n
  {
  }

  /**
   * The cumulative walk returns the rounded sample at the percentile's rank in the sorted list of
   * raw samples. Above 100 percent the rank can lie past the end, and then it returns zero.
   */
  lemma PercentileIsOrderStatistic(m: Counts, samples: seq<int>, sorted: seq<int>, percent: nat)
    requires samples != [] && IsHistogram(m, samples)
    requires Sorted(sorted) && multiset(sorted) == multiset(samples)
    ensures |sorted| == |samples|
    ensures var rank := Rank(|samples|, percent);
            Percentile(|samples|, m, percent) == if rank < |samples| then Bucket(sorted[rank]) else 0
  {
    var ks := SortedKeys(m.Keys);
    assert |multiset(sorted)| == |multiset(samples)|;
    assert Buckets(samples)[0] in multiset(Buckets(samples));
    assert At(m, Buckets(samples)[0]) > 0;
    UnrolledIsSortedSamples(m, samples, sorted);
    WalkReadsUnrolled(ks, m, 0, Rank(|samples|, percent));
  }

  /** For non-negative samples a reported percentile is within 5% of the exact one. */
  lemma PercentileWithinFivePercent(m: Counts, samples: seq<int>, sorted: seq<int>, percent: nat)
    requires samples != [] && IsHistogram(m, samples)
    requires Sorted(sorted) && multiset(sorted) == multiset(samples)
    requires percent <= 100 && forall i :: 0 <= i < |samples| ==> samples[i] >= 0
    ensures |sorted| == |samples| && Rank(|samples|, percent) < |samples|
    ensures var exact := sorted[Rank(|samples|, percent)];
            -exact <= 20 * (Percentile(|samples|, m, percent) - exact) <= exact
  {
    RankInRange(|samples|, percent);
    PercentileIsOrderStatistic(m, samples, sorted, percent);
    var exact := sorted[Rank(|samples|, percent)];
    assert exact in multiset(samples);
    BucketWithinFivePercent(exact);
  }

  /** One more logged response time keeps the histogram exact. */
  lemma BumpKeepsHistogram(m: Counts, samples: seq<int>, responseTime: int)
    requires IsHistogram(m, samples)
    ensures IsHistogram(Bump(m, Bucket(responseTime)), samples + [responseTime])
  {
    assert Buckets(samples + [responseTime]) == Buckets(samples) + [Bucket(responseTime)];
  }
}
