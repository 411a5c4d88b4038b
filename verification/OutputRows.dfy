/** Rows of the printed statistics: an entry with the numbers derived from it. */
module OutputRows {
  import opened Counters
  import opened GoInts
  import opened Percentiles
  import opened StatsModel

  datatype Row = Row(
    base: Entry, median: int, percent: int, percent95: int,
    average: real, averageLength: int, rps: int, failsPerSec: int)

  function AvgResponseTime(numRequests: int, totalResponseTime: int): real {
    if numRequests != 0 then totalResponseTime as real / numRequests as real else 0.0
  }

  function AvgContentLength(numRequests: int, totalContentLength: int): int {
    if numRequests != 0 then GoDiv(totalContentLength, numRequests) else 0
  }

  /** Requests per second; with more than two seconds on record one of them is taken off. */
  function CurrentRps(numRequests: int, numReqsPerSec: Counts): int {
    var count := if |numReqsPerSec| > 2 then |numReqsPerSec| - 1 else |numReqsPerSec|;
    if count != 0 then GoDiv(numRequests, count) else 0
  }

  function CurrentFailPerSec(numFailures: int, numFailPerSec: Counts): int {
    if |numFailPerSec| != 0 then GoDiv(numFailures, |numFailPerSec|) else 0
  }

  function FailRatio(totalRequests: int, totalFailures: int): real {
    if totalRequests == 0 then 0.0 else totalFailures as real / totalRequests as real
  }

  /** An entry with all derived numbers computed from it. */
  function RowOf(e: Entry, percentTime: int): Row {
    Row(e, Percentile(e.numRequests, e.responseTimes, 50),
        Percentile(e.numRequests, e.responseTimes, percentTime),
        Percentile(e.numRequests, e.responseTimes, 95),
        AvgResponseTime(e.numRequests, e.totalResponseTime),
        AvgContentLength(e.numRequests, e.totalContentLength),
        CurrentRps(e.numRequests, e.numReqsPerSec),
        CurrentFailPerSec(e.numFailures, e.numFailPerSec))
  }

  /** A whole number of events per period, told by products; no periods have a rate of zero. */
  predicate IsRate(events: int, periods: nat, rate: int) {
    if periods == 0 then rate == 0 else IsQuotient(events, periods, rate)
  }

  predicate IsRatio(a: int, b: int, ratio: real) {
    if b == 0 then ratio == 0.0 else ratio * b as real == a as real
  }

  /** Requests go by the seconds on record less one, if there are more than two of them. */
  predicate IsRps(numRequests: int, seconds: nat, rps: int) {
    && (seconds <= 2 ==> IsRate(numRequests, seconds, rps))
    && (seconds > 2 ==> IsRate(numRequests, seconds - 1, rps))
  }

  /** The rates and averages of a row are those of its own counts. */
  predicate OwnNumbers(r: Row) {
    var e := r.base;
    && IsRps(e.numRequests, |e.numReqsPerSec|, r.rps)
    && IsRate(e.numFailures, |e.numFailPerSec|, r.failsPerSec)
    && IsRatio(e.totalResponseTime, e.numRequests, r.average)
    && (e.numRequests >= 0 ==> IsRate(e.totalContentLength, e.numRequests, r.averageLength))
  }

  lemma CurrentRpsIsRps(numRequests: int, seconds: Counts)
    ensures IsRps(numRequests, |seconds|, CurrentRps(numRequests, seconds))
  {
    hide GoDiv, IsQuotient;
    var periods := if |seconds| > 2 then |seconds| - 1 else |seconds|;
    if periods > 0 {
      GoDivIsQuotient(numRequests, periods);
    }
  }

  lemma FailPerSecIsRate(numFailures: int, seconds: Counts)
    ensures IsRate(numFailures, |seconds|, CurrentFailPerSec(numFailures, seconds))
  {
    hide GoDiv, IsQuotient;
    if |seconds| > 0 {
      GoDivIsQuotient(numFailures, |seconds|);
    }
  }

  lemma AvgLengthIsRate(numRequests: nat, totalContentLength: int)
    ensures IsRate(totalContentLength, numRequests, AvgContentLength(numRequests, totalContentLength))
  {
    hide GoDiv, IsQuotient;
    if numRequests > 0 {
      GoDivIsQuotient(totalContentLength, numRequests);
    }
  }

  lemma AveragesAreRatios(requests: int, amount: int)
    ensures IsRatio(amount, requests, AvgResponseTime(requests, amount))
    ensures IsRatio(amount, requests, FailRatio(requests, amount))
  {
  }

  lemma RowOfOwnNumbers(e: Entry, percentTime: int)
    ensures OwnNumbers(RowOf(e, percentTime))
  {
    hide Percentile, CurrentRps, CurrentFailPerSec, AvgContentLength, AvgResponseTime, IsRps, IsRate, IsRatio;
    CurrentRpsIsRps(e.numRequests, e.numReqsPerSec);
    FailPerSecIsRate(e.numFailures, e.numFailPerSec);
    AveragesAreRatios(e.numRequests, e.totalResponseTime);
    if e.numRequests >= 0 {
      AvgLengthIsRate(e.numRequests, e.totalContentLength);
    }
  }

  /** An entry with another one of the same name added to it; failures per second are overwritten. */
  function Merged(a: Entry, o: Entry): Entry {
    a.(numRequests := a.numRequests + o.numRequests,
       numFailures := a.numFailures + o.numFailures,
       maxResponseTime := if o.maxResponseTime > a.maxResponseTime then o.maxResponseTime else a.maxResponseTime,
       minResponseTime := if o.minResponseTime < a.minResponseTime then o.minResponseTime else a.minResponseTime,
       totalResponseTime := a.totalResponseTime + o.totalResponseTime,
       totalContentLength := a.totalContentLength + o.totalContentLength,
       responseTimes := Plus(a.responseTimes, o.responseTimes),
       numReqsPerSec := Plus(a.numReqsPerSec, o.numReqsPerSec),
       numFailPerSec := a.numFailPerSec + o.numFailPerSec)
  }

  /** The row after merging: every number is recomputed, except the average length of no requests. */
  function MergedRow(a: Row, o: Entry, percentTime: int): Row {
    var e := Merged(a.base, o);
    RowOf(e, percentTime).(
      averageLength := if e.numRequests > 0 then AvgContentLength(e.numRequests, e.totalContentLength)
                       else a.averageLength)
  }

  method MergeCounts(a: Counts, o: Counts) returns (r: Counts)
    ensures r == Plus(a, o)
  {
    hide Plus;
    r := a;
    var todo := o.Keys;
    assert o - todo == map[];
    PlusEmpty(a);
    while todo != {}
      invariant todo <= o.Keys
      invariant r == Plus(a, o - todo)
      decreases |todo|
    {
      var key := PickOne(todo);
      PlusNext(a, o, todo, key);
      if key in r {
        r := r[key := r[key] + o[key]];
      } else {
        r := r[key := o[key]];
      }
      todo := todo - {key};
    }
    assert o - todo == o;
  }

  method PickOne(s: set<int>) returns (x: int)
    requires s != {}
    ensures x in s
  {
    SomeElement(s);
    x :| x in s;
  }

  lemma SomeElement(s: set<int>)
    requires s != {}
    ensures exists x :: x in s
  {
    var x := AnElement(s);
    assert x in s;
  }

  method OverwriteCounts(a: Counts, o: Counts) returns (r: Counts)
    ensures r == a + o
  {
    hide Overwritten;
    r := a;
    var todo := o.Keys;
    OverwriteEnds(a, o);
    while todo != {}
      invariant todo <= o.Keys
      invariant r == Overwritten(a, o, todo)
      decreases |todo|
    {
      var key := PickOne(todo);
      OverwriteNext(a, o, todo, key);
      r := r[key := o[key]];
      todo := todo - {key};
    }
  }

  class StatsEntryOutput {
    const name: string
    var base: Entry
    var median: int
    var percent: int
    var percent95: int
    var average: real
    var averageLength: int
    var rps: int
    var failsPerSec: int

    ghost predicate Valid()
      reads this
    {
      base.name == name
    }

    function View(): Row
      reads this
    {
      Row(base, median, percent, percent95, average, averageLength, rps, failsPerSec)
    }

    /** A reported entry, decoded into a row of its own. */
    constructor (entry: Entry, percentTime: int)
      ensures Valid() && name == entry.name && View() == RowOf(entry, percentTime)
      ensures OwnNumbers(View())
    {
      RowOfOwnNumbers(entry, percentTime);
      name := entry.name;
      base := entry;
      var m := GetMedianResponseTime(entry.numRequests, entry.responseTimes);
      var p := GetPercentResponseTime(entry.numRequests, entry.responseTimes, percentTime);
      var p95 := GetPercentResponseTime(entry.numRequests, entry.responseTimes, 95);
      median, percent, percent95 := m, p, p95;
      average := AvgResponseTime(entry.numRequests, entry.totalResponseTime);
      averageLength := AvgContentLength(entry.numRequests, entry.totalContentLength);
      rps := CurrentRps(entry.numRequests, entry.numReqsPerSec);
      failsPerSec := CurrentFailPerSec(entry.numFailures, entry.numFailPerSec);
    }

    method Absorb(o: StatsEntryOutput, percentTime: int)
      requires Valid() && o != this
      modifies this
      ensures Valid() && View() == MergedRow(old(View()), o.base, percentTime)
      ensures base.numRequests > 0 ==> OwnNumbers(View())
    {
      hide Percentile, AvgResponseTime, CurrentRps, CurrentFailPerSec, Plus, At, GoDiv, OwnNumbers;
      base := base.(numRequests := base.numRequests + o.base.numRequests,
                    numFailures := base.numFailures + o.base.numFailures);
      if o.base.maxResponseTime > base.maxResponseTime {
        base := base.(maxResponseTime := o.base.maxResponseTime);
      }
      if o.base.minResponseTime < base.minResponseTime {
        base := base.(minResponseTime := o.base.minResponseTime);
      }
      base := base.(totalResponseTime := base.totalResponseTime + o.base.totalResponseTime,
                    totalContentLength := base.totalContentLength + o.base.totalContentLength);
      if base.numRequests > 0 {
        averageLength := AvgContentLength(base.numRequests, base.totalContentLength);
      }
      var times := MergeCounts(base.responseTimes, o.base.responseTimes);
      var requests := MergeCounts(base.numReqsPerSec, o.base.numReqsPerSec);
      var fails := OverwriteCounts(base.numFailPerSec, o.base.numFailPerSec);
      base := base.(responseTimes := times, numReqsPerSec := requests, numFailPerSec := fails);
      assert base == Merged(old(base), o.base);
      median := GetMedianResponseTime(base.numRequests, base.responseTimes);
      percent := GetPercentResponseTime(base.numRequests, base.responseTimes, percentTime);
      percent95 := GetPercentResponseTime(base.numRequests, base.responseTimes, 95);
      average := AvgResponseTime(base.numRequests, base.totalResponseTime);
      rps := CurrentRps(base.numRequests, base.numReqsPerSec);
      failsPerSec := CurrentFailPerSec(base.numFailures, base.numFailPerSec);
      RowOfOwnNumbers(base, percentTime);
    }
  }
}
