/** The minimum an entry shows, in which zero also stands for a minimum not set yet. */
module Minimums {
  import opened Options
  import opened StatsModel
  import opened Tallies

  /** The minimum shown after the first n of the response times. */
  function ShownMinimum(times: seq<int>, n: nat): int
    requires n <= |times|
  {
    if n == 0 then 0 else NewMinimum(ShownMinimum(times, n - 1), times[n - 1])
  }

  function Shown(times: seq<int>): int {
    ShownMinimum(times, |times|)
  }

  lemma {:induction false} ShownPrefix(a: seq<int>, b: seq<int>, n: nat)
    requires n <= |a| <= |b| && a == b[..|a|]
    ensures ShownMinimum(a, n) == ShownMinimum(b, n)
  {
    if n > 0 {
      ShownPrefix(a, b, n - 1);
    }
  }

  lemma ShownSnoc(times: seq<int>, time: int)
    ensures Shown(times + [time]) == NewMinimum(Shown(times), time)
  {
    hide NewMinimum;
    ShownPrefix(times, times + [time], |times|);
  }

  ghost predicate IsMinimum(times: seq<int>, x: int) {
    x in times && forall i :: 0 <= i < |times| ==> x <= times[i]
  }

  predicate HasNegative(times: seq<int>) {
    exists i :: 0 <= i < |times| && times[i] < 0
  }

  /** No time is zero, or the last one is, or some time is negative. */
  predicate Sure(times: seq<int>) {
    0 !in times || times[|times| - 1] == 0 || HasNegative(times)
  }

  /** What the minimum shown can be: one of the times; below zero the least; and zero only while the last time is. */
  lemma {:induction false} ShownMinimumSteps(times: seq<int>, n: nat)
    requires 0 < n <= |times|
    ensures var m := ShownMinimum(times, n);
            && (exists i :: 0 <= i < n && times[i] == m)
            && (m < 0 || (forall i :: 0 <= i < n ==> times[i] != 0) ==> forall i :: 0 <= i < n ==> m <= times[i])
            && (m < 0 <==> exists i :: 0 <= i < n && times[i] < 0)
            && (m >= 0 ==> (m == 0 <==> times[n - 1] == 0))
  {
    var m, last := ShownMinimum(times, n), times[n - 1];
    if n == 1 {
      assert ShownMinimum(times, 0) == 0;
      assert times[0] == m;
    } else {
      ShownMinimumSteps(times, n - 1);
      var before := ShownMinimum(times, n - 1);
      var i :| 0 <= i < n - 1 && times[i] == before;
      assert times[if m == last then n - 1 else i] == m;
    }
  }

  /** The minimum shown is the real one if and only if no time is zero, or the last one is, or some time is negative. */
  lemma MinimumIsExactIff(times: seq<int>)
    requires times != []
    ensures IsMinimum(times, Shown(times)) <==> Sure(times)
    ensures Shown(times) in times
    ensures !Sure(times) ==> Shown(times) > 0
  {
    ShownMinimumSteps(times, |times|);
  }

  /** A minimum kept for the times: none if there are none, else one of them, and the least if that is sure. */
  ghost predicate Fits(x: Option<int>, times: seq<int>) {
    match x
    case None => times == []
    case Some(m) => m in times && (Sure(times) ==> IsMinimum(times, m))
  }

  /** Minima kept for two lists of times combine into one for both lists, because sureness is inherited. */
  lemma FitsTogether(x: Option<int>, a: seq<int>, y: Option<int>, b: seq<int>)
    requires Fits(x, a) && Fits(y, b)
    ensures Fits(Lesser(x, y), a + b)
  {
    if a == [] {
      assert a + b == b;
    } else if b == [] {
      assert a + b == a;
    } else {
      var all := a + b;
      assert all[|all| - 1] == b[|b| - 1];
      if Sure(all) {
        forall i | 0 <= i < |all|
          ensures Lesser(x, y).value <= all[i]
        {
          if i < |a| {
            OtherPartHelps(a, i, x.value, b, y.value, all);
          } else {
            OtherPartHelps(b, i - |a|, y.value, a, x.value, all);
          }
        }
      }
    }
  }

  /** If the minimum of one part is not sure, that of the other part is below everything in the first. */
  lemma OtherPartHelps(part: seq<int>, i: nat, m: int, other: seq<int>, n: int, all: seq<int>)
    requires i < |part| && other != [] && Fits(Some(m), part) && Fits(Some(n), other)
    requires all == part + other || all == other + part
    requires Sure(all)
    ensures m <= part[i] || n <= part[i]
  {
    if !Sure(part) {
      assert part[i] >= 0;
      assert 0 in all;
      if HasNegative(all) {
        var j :| 0 <= j < |all| && all[j] < 0;
        assert all[j] in part || all[j] in other;
        assert HasNegative(other);
      } else {
        assert all[|all| - 1] == 0;
      }
    }
  }
}
