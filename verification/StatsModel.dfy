/** What the statistics loop keeps and reports, as values. */
module StatsModel {
  import opened Counters
  import opened Rounding

  /** One statistics entry. The maximum starts at zero, so it is never negative. */
  datatype Entry = Entry(
    name: string, requestMethod: string,
    numRequests: int, numFailures: int,
    totalResponseTime: int, minResponseTime: int, maxResponseTime: nat,
    numReqsPerSec: Counts, numFailPerSec: Counts, responseTimes: Counts,
    totalContentLength: int, startTime: int, lastRequestTimestamp: int)

  datatype ErrorInfo = ErrorInfo(name: string, requestMethod: string, error: string, occurrences: int)

  /** The entries are keyed by name followed by method. */
  datatype Stats = Stats(
    entries: map<string, Entry>, errors: map<string, ErrorInfo>, total: Entry, startTime: int)

  datatype ReportData = ReportData(stats: seq<Entry>, total: Entry, errors: map<string, ErrorInfo>)

  /**
   * One turn of the event loop. A report turn also fixes the order in which the entries happen to be
   * visited, since iterating over a map has no order of its own.
   */
  datatype Event =
    | Success(requestMethod: string, name: string, responseTime: int, responseLength: int)
    | Failure(requestMethod: string, name: string, responseTime: int, error: string)
    | Clear
    | Tick(order: seq<string>)

  /** Every reading of the clock made during a turn: by which entry, and for what. */
  datatype Reader = OfTotal | OfEntry(key: string)
  datatype Purpose = RequestTime | FailureTime | ResetStart | ResetLast | TestStart
  type Clock = (Reader, Purpose) -> int

  datatype Step = Step(event: Event, clock: Clock)

  /** The digest of method, name and error text, applied to their concatenation. */
  type Digest = string -> string

  function Blank(name: string, requestMethod: string, start: int, last: int): Entry {
    Entry(name, requestMethod, 0, 0, 0, 0, 0, map[], map[], map[], 0, start, last)
  }

  function BlankAt(name: string, requestMethod: string, clock: Clock, who: Reader): Entry {
    Blank(name, requestMethod, clock(who, ResetStart), clock(who, ResetLast))
  }

  /** The minimum after one more response time; zero stands for a minimum not set yet. */
  function NewMinimum(min: int, responseTime: int): int {
    var seed := if min == 0 then responseTime else min;
    if responseTime < seed then responseTime else seed
  }

  function Logged(e: Entry, responseTime: int, contentLength: int, now: int): Entry {
    e.(numRequests := e.numRequests + 1,
       numReqsPerSec := Bump(e.numReqsPerSec, now),
       lastRequestTimestamp := now,
       totalResponseTime := e.totalResponseTime + responseTime,
       minResponseTime := NewMinimum(e.minResponseTime, responseTime),
       maxResponseTime := if responseTime > e.maxResponseTime then responseTime else e.maxResponseTime,
       responseTimes := Bump(e.responseTimes, Bucket(responseTime)),
       totalContentLength := e.totalContentLength + contentLength)
  }

  function Failed(e: Entry, now: int): Entry {
    e.(numFailures := e.numFailures + 1, numFailPerSec := Bump(e.numFailPerSec, now))
  }

  /** The entry for a key, created blank when it is asked for the first time. */
  function Found(s: Stats, name: string, requestMethod: string, clock: Clock): Entry {
    var key := name + requestMethod;
    if key in s.entries then s.entries[key] else BlankAt(name, requestMethod, clock, OfEntry(key))
  }

  function LogRequest(s: Stats, requestMethod: string, name: string, responseTime: int, contentLength: int,
                      clock: Clock): Stats
  {
    var key := name + requestMethod;
    var entry := Found(s, name, requestMethod, clock);
    s.(total := Logged(s.total, responseTime, contentLength, clock(OfTotal, RequestTime)),
       entries := s.entries[key := Logged(entry, responseTime, contentLength, clock(OfEntry(key), RequestTime))])
  }

  function Occurred(errors: map<string, ErrorInfo>, key: string, name: string, requestMethod: string,
                    error: string): map<string, ErrorInfo>
  {
    var info := if key in errors then errors[key] else ErrorInfo(name, requestMethod, error, 0);
    errors[key := info.(occurrences := info.occurrences + 1)]
  }

  function LogError(s: Stats, requestMethod: string, name: string, error: string, clock: Clock,
                    digest: Digest): Stats
  {
    var key := name + requestMethod;
    var entry := Found(s, name, requestMethod, clock);
    s.(total := Failed(s.total, clock(OfTotal, FailureTime)),
       entries := s.entries[key := Failed(entry, clock(OfEntry(key), FailureTime))],
       errors := Occurred(s.errors, digest(requestMethod + name + error), name, requestMethod, error))
  }

  function NewStats(clock: Clock): Stats {
    Stats(map[], map[], BlankAt("Total", "", clock, OfTotal), 0)
  }

  function ClearAll(clock: Clock): Stats {
    Stats(map[], map[], BlankAt("Total", "", clock, OfTotal), clock(OfTotal, TestStart))
  }

  predicate Active(e: Entry) {
    !(e.numRequests == 0 && e.numFailures == 0)
  }

  /** The order visits nothing but these keys. */
  predicate Listed(order: seq<string>, keys: set<string>) {
    forall i :: 0 <= i < |order| ==> order[i] in keys
  }

  /** The order visits every key exactly once. */
  predicate Enumerates(order: seq<string>, keys: set<string>) {
    && (forall i, j :: 0 <= i < j < |order| ==> order[i] != order[j])
    && Listed(order, keys)
    && (forall k :: k in keys ==> k in order)
  }

  /** The rows reported for the first n keys of the order: the entries with something to report. */
  function Rows(entries: map<string, Entry>, order: seq<string>, n: nat): seq<Entry>
    requires n <= |order| && Listed(order, entries.Keys)
  {
    if n == 0 then []
    else
      var e := entries[order[n - 1]];
      Rows(entries, order, n - 1) + (if Active(e) then [e] else [])
  }

  function Stripped(e: Entry, clock: Clock, key: string): Entry {
    if Active(e) then BlankAt(e.name, e.requestMethod, clock, OfEntry(key)) else e
  }

  function Collected(s: Stats, clock: Clock): Stats {
    s.(entries := map k | k in s.entries :: Stripped(s.entries[k], clock, k),
       total := BlankAt(s.total.name, s.total.requestMethod, clock, OfTotal),
       errors := map[])
  }

  function ReportOf(s: Stats, order: seq<string>): ReportData
    requires Enumerates(order, s.entries.Keys)
  {
    ReportData(Rows(s.entries, order, |order|), s.total, s.errors)
  }

  /** A turn can happen: a report turn visits the entries that are there. */
  predicate Enabled(s: Stats, step: Step) {
    step.event.Tick? ==> Enumerates(step.event.order, s.entries.Keys)
  }

  function Turn(s: Stats, step: Step, digest: Digest): Stats {
    match step.event
    case Success(m, name, time, length) => LogRequest(s, m, name, time, length, step.clock)
    case Failure(m, name, time, error) =>
      LogError(LogRequest(s, m, name, time, 0, step.clock), m, name, error, step.clock, digest)
    case Clear => ClearAll(step.clock)
    case Tick(_) => Collected(s, step.clock)
  }

  /** The state after the first n turns, and the reports sent by them. */
  function After(s: Stats, steps: seq<Step>, n: nat, digest: Digest): Stats
    requires n <= |steps|
  {
    if n == 0 then s else Turn(After(s, steps, n - 1, digest), steps[n - 1], digest)
  }

  predicate Feasible(s: Stats, steps: seq<Step>, n: nat, digest: Digest)
    requires n <= |steps|
  {
    n == 0 || (Feasible(s, steps, n - 1, digest) && Enabled(After(s, steps, n - 1, digest), steps[n - 1]))
  }

  function Sent(s: Stats, steps: seq<Step>, n: nat, digest: Digest): seq<ReportData>
    requires n <= |steps| && Feasible(s, steps, n, digest)
  {
    if n == 0 then []
    else
      var earlier := Sent(s, steps, n - 1, digest);
      if steps[n - 1].event.Tick? then earlier + [ReportOf(After(s, steps, n - 1, digest), steps[n - 1].event.order)]
      else earlier
  }

  lemma {:induction false} FeasiblePrefix(s: Stats, steps: seq<Step>, m: nat, n: nat, digest: Digest)
    requires m <= n <= |steps| && Feasible(s, steps, n, digest)
    ensures Feasible(s, steps, m, digest)
    decreases n
  {
    hide After, Enabled;
    if m < n {
      FeasiblePrefix(s, steps, m, n - 1, digest);
    }
  }

  /** The reports sent earlier are the first of those sent later. */
  lemma {:induction false} SentPrefix(s: Stats, steps: seq<Step>, m: nat, n: nat, digest: Digest)
    requires m <= n <= |steps| && Feasible(s, steps, n, digest)
    ensures Feasible(s, steps, m, digest)
    ensures Sent(s, steps, m, digest) <= Sent(s, steps, n, digest)
    decreases n
  {
    hide After, Enabled, ReportOf;
    if m < n {
      SentPrefix(s, steps, m, n - 1, digest);
    }
  }
}
