/** Entries summarised by what adds up when entries are merged. */
module Tallies {
  import opened Counters
  import opened Options
  import opened Rounding
  import opened StatsModel

  /**
   * The least is the smallest of the minima of entries, if any; it is only counted where entries or
   * rows are joined with each other. Seconds count requests by the second the entry logged them in.
   */
  datatype Tally = Tally(
    requests: int, failures: int, responseTime: int, contentLength: int,
    max: nat, least: Option<int>, seconds: Counts, failureSeconds: set<int>, histogram: Counts)

  const NOTHING := Tally(0, 0, 0, 0, 0, None, map[], {}, map[])

  function Larger(a: nat, b: nat): nat {
    if a > b then a else b
  }

  function Lesser(a: Option<int>, b: Option<int>): Option<int> {
    if a.None? then b else if b.None? || a.value < b.value then a else b
  }

  function Join(a: Tally, b: Tally): Tally {
    Tally(a.requests + b.requests, a.failures + b.failures, a.responseTime + b.responseTime,
          a.contentLength + b.contentLength, Larger(a.max, b.max), Lesser(a.least, b.least),
          Plus(a.seconds, b.seconds), a.failureSeconds + b.failureSeconds, Plus(a.histogram, b.histogram))
  }

  /** Without the seconds: the total reads the clock for itself. */
  function Timeless(t: Tally): Tally {
    t.(seconds := map[], failureSeconds := {})
  }

  function Plain(t: Tally): Tally {
    t.(least := None)
  }

  lemma PlainJoin(a: Tally, b: Tally)
    ensures Plain(Join(a, b)) == Join(Plain(a), Plain(b))
    ensures Join(a, b).least == Lesser(a.least, b.least)
  {
  }

  lemma TimelessJoin(a: Tally, b: Tally)
    ensures Timeless(Join(a, b)) == Join(Timeless(a), Timeless(b))
    ensures Timeless(NOTHING) == NOTHING
  {
  }

  lemma JoinAssociative(a: Tally, b: Tally, c: Tally)
    ensures Join(Join(a, b), c) == Join(a, Join(b, c))
  {
    PlusAssociative(a.seconds, b.seconds, c.seconds);
    PlusAssociative(a.histogram, b.histogram, c.histogram);
  }

  lemma JoinCommutative(a: Tally, b: Tally)
    ensures Join(a, b) == Join(b, a)
  {
    PlusCommutative(a.seconds, b.seconds);
    PlusCommutative(a.histogram, b.histogram);
  }

  lemma JoinNothing(a: Tally)
    ensures Join(a, NOTHING) == a == Join(NOTHING, a)
  {
    PlusEmpty(a.seconds);
    PlusEmpty(a.histogram);
  }

  lemma JoinSwap(a: Tally, b: Tally, c: Tally)
    ensures Join(a, Join(b, c)) == Join(b, Join(a, c))
  {
    JoinAssociative(a, b, c);
    JoinCommutative(a, b);
    JoinAssociative(b, a, c);
  }

  /** The join of all tallies of a map. */
  ghost function JoinAll(m: map<string, Tally>): Tally
    decreases |m|
  {
    if m == map[] then NOTHING
    else
      var k :| k in m;
      Join(m[k], JoinAll(m - {k}))
  }

  lemma {:induction false} JoinTakeOut(m: map<string, Tally>, k: string)
    requires k in m
    ensures JoinAll(m) == Join(m[k], JoinAll(m - {k}))
    decreases |m|
  {
    hide Join;
    var j :| j in m && JoinAll(m) == Join(m[j], JoinAll(m - {j}));
    if j != k {
      JoinTakeOut(m - {j}, k);
      JoinTakeOut(m - {k}, j);
      assert m - {j} - {k} == m - {k} - {j};
      JoinSwap(m[j], m[k], JoinAll(m - {j} - {k}));
    }
  }

  /** Joining a tally into the part of one key joins it into the whole. */
  lemma JoinIntoKey(m: map<string, Tally>, k: string, t: Tally)
    ensures JoinAll(m[k := Join(if k in m then m[k] else NOTHING, t)]) == Join(JoinAll(m), t)
  {
    hide Join;
    var own := if k in m then m[k] else NOTHING;
    var joined := m[k := Join(own, t)];
    JoinTakeOut(joined, k);
    assert joined - {k} == m - {k};
    var rest := JoinAll(m - {k});
    if k in m {
      JoinTakeOut(m, k);
    } else {
      assert m - {k} == m;
      JoinNothing(rest);
    }
    JoinAssociative(own, t, rest);
    JoinCommutative(t, rest);
    JoinAssociative(own, rest, t);
  }

  lemma {:induction false} JoinAllNothing(m: map<string, Tally>)
    requires forall k :: k in m ==> m[k] == NOTHING
    ensures JoinAll(m) == NOTHING
    decreases |m|
  {
    hide Join;
    if m != map[] {
      var k :| k in m && JoinAll(m) == Join(m[k], JoinAll(m - {k}));
      JoinAllNothing(m - {k});
      JoinNothing(NOTHING);
    }
  }

  // ---------------------------------------------------------------------------------------------
  // Tallies of entries and of events
  // ---------------------------------------------------------------------------------------------

  /** What an entry has counted; minima says whether to count its minimum as well. */
  function TallyOf(e: Entry, minima: bool): Tally {
    Tally(e.numRequests, e.numFailures, e.totalResponseTime, e.totalContentLength, e.maxResponseTime,
          if minima && e.numRequests > 0 then Some(e.minResponseTime) else None,
          e.numReqsPerSec, e.numFailPerSec.Keys, e.responseTimes)
  }

  function TallyOfRequest(responseTime: int, contentLength: int, now: int): Tally {
    Tally(1, 0, responseTime, contentLength, if responseTime > 0 then responseTime else 0, None,
          map[now := 1], {}, map[Bucket(responseTime) := 1])
  }

  function TallyOfFailure(now: int): Tally {
    Tally(0, 1, 0, 0, 0, None, map[], {now}, map[])
  }

  lemma LoggedTally(e: Entry, responseTime: int, contentLength: int, now: int)
    ensures TallyOf(Logged(e, responseTime, contentLength, now), false) ==
            Join(TallyOf(e, false), TallyOfRequest(responseTime, contentLength, now))
  {
    hide Bucket, NewMinimum;
    BumpIsPlus(e.responseTimes, Bucket(responseTime));
    BumpIsPlus(e.numReqsPerSec, now);
  }

  lemma BumpIsPlus(m: Counts, k: int)
    ensures Bump(m, k) == Plus(m, map[k := 1])
  {
    assert map[k := 1] == Bump(map[], k);
    PlusBump(m, map[], k);
    PlusEmpty(m);
  }

  lemma FailedTally(e: Entry, now: int)
    ensures TallyOf(Failed(e, now), false) == Join(TallyOf(e, false), TallyOfFailure(now))
  {
    PlusEmpty(e.responseTimes);
    PlusEmpty(e.numReqsPerSec);
  }

  /** Which entries to look at: all of them, or those with a given name. */
  datatype Scope = Everyone | Named(name: string) {
    predicate Has(name: string) {
      Everyone? || this.name == name
    }
  }

  function PartOf(e: Entry, scope: Scope, minima: bool): Tally {
    if scope.Has(e.name) then TallyOf(e, minima) else NOTHING
  }

  function Parts(entries: map<string, Entry>, scope: Scope, minima: bool): map<string, Tally> {
    map k | k in entries :: PartOf(entries[k], scope, minima)
  }

  function Whole(e: Tally, scope: Scope, name: string): Tally {
    if scope.Has(name) then e else NOTHING
  }

  /** Replacing or adding one entry that gained a tally joins that tally into the sum, if it is in scope. */
  lemma PartsGain(entries: map<string, Entry>, key: string, before: Entry, after: Entry, t: Tally, scope: Scope)
    requires key in entries ==> before == entries[key]
    requires key !in entries ==> TallyOf(before, false) == NOTHING
    requires after.name == before.name && TallyOf(after, false) == Join(TallyOf(before, false), t)
    ensures JoinAll(Parts(entries[key := after], scope, false)) ==
            Join(JoinAll(Parts(entries, scope, false)), Whole(t, scope, before.name))
  {
    hide Join, TallyOf, JoinAll;
    var parts := Parts(entries, scope, false);
    JoinIntoKey(parts, key, Whole(t, scope, before.name));
    JoinNothing(NOTHING);
    JoinNothing(TallyOf(before, false));
    var own := if key in parts then parts[key] else NOTHING;
    assert Parts(entries[key := after], scope, false) == parts[key := Join(own, Whole(t, scope, before.name))];
  }

  /** Counting the minima changes nothing else. */
  lemma {:induction false} PlainParts(m: map<string, Tally>, p: map<string, Tally>)
    requires p.Keys == m.Keys && forall k :: k in m ==> p[k] == Plain(m[k])
    ensures JoinAll(p) == Plain(JoinAll(m))
    decreases |m|
  {
    hide Join, Plain;
    if m == map[] {
      assert p == map[];
      PlainNothing();
    } else {
      var k :| k in m && JoinAll(m) == Join(m[k], JoinAll(m - {k}));
      PlainParts(m - {k}, p - {k});
      JoinTakeOut(p, k);
      PlainJoin(m[k], JoinAll(m - {k}));
    }
  }

  lemma PlainNothing()
    ensures Plain(NOTHING) == NOTHING
  {
  }

  lemma PlainPart(e: Entry, scope: Scope)
    ensures Plain(PartOf(e, scope, true)) == PartOf(e, scope, false)
  {
  }
}
