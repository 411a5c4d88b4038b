/** The readings of the clock that entries and the total keep, in every run. */
module StampRuns {
  import opened Counters
  import opened EntryMinima
  import opened Options
  import opened Rounding
  import opened StatsModel
  import opened StatsRuns

  /** The counts are those of these numbers, each as often as it occurs. */
  ghost predicate Tallied(m: Counts, xs: seq<int>) {
    forall x :: (x in m <==> x in xs) && At(m, x) == multiset(xs)[x]
  }

  lemma TalliedSnoc(m: Counts, xs: seq<int>, x: int)
    requires Tallied(m, xs)
    ensures Tallied(Bump(m, x), xs + [x])
  {
  }

  predicate CountedBy(ev: Event, who: Reader) {
    IsRequest(ev) && (who.OfTotal? || who.key == KeyOf(ev))
  }

  /** The first turn after the last report or clearing. */
  function Since(steps: seq<Step>, n: nat): (from: nat)
    requires n <= |steps|
    ensures from <= n
  {
    if n == 0 || !IsRequest(steps[n - 1].event) then n else Since(steps, n - 1)
  }

  /** What the total, or an entry, reads for the requests of these turns, or for the failures among them. */
  function Readings(steps: seq<Step>, from: nat, n: nat, who: Reader, failures: bool): seq<int>
    requires from <= n <= |steps|
  {
    if n == from then []
    else
      var step := steps[n - 1];
      Readings(steps, from, n - 1, who, failures) +
      (if !CountedBy(step.event, who) then []
       else if !failures then [step.clock(who, RequestTime)]
       else if step.event.Failure? then [step.clock(who, FailureTime)]
       else [])
  }

  function Pending(steps: seq<Step>, n: nat, who: Reader, failures: bool): seq<int>
    requires n <= |steps|
  {
    Readings(steps, Since(steps, n), n, who, failures)
  }

  /**
   * The clock of the last reset: the total is reset by every report and clearing, an entry when it is
   * made, and by every report it has something for.
   */
  function ResetClock(start: Clock, steps: seq<Step>, n: nat, who: Reader): Option<Clock>
    requires n <= |steps|
  {
    if n == 0 then if who.OfTotal? then Some(start) else None
    else
      var step, earlier := steps[n - 1], ResetClock(start, steps, n - 1, who);
      if who.OfTotal? then if IsRequest(step.event) then earlier else Some(step.clock)
      else
        match step.event
        case Clear => None
        case Tick(_) => if Pending(steps, n - 1, who, false) != [] then Some(step.clock) else earlier
        case _ => if earlier.None? && CountedBy(step.event, who) then Some(step.clock) else earlier
  }

  /** The entry has these readings in its seconds, and its time stamps from the last of them or the reset. */
  ghost predicate Stamped(e: Entry, clock: Clock, who: Reader, requests: seq<int>, failures: seq<int>) {
    && e.numRequests == |requests| && Tallied(e.numReqsPerSec, requests)
    && e.numFailures == |failures| && Tallied(e.numFailPerSec, failures)
    && e.startTime == clock(who, ResetStart)
    && e.lastRequestTimestamp == (if requests == [] then clock(who, ResetLast) else requests[|requests| - 1])
  }

  /** The moment the test started: the last clearing; zero before the first one. */
  function TestStartOf(steps: seq<Step>, n: nat): int
    requires n <= |steps|
  {
    if n == 0 then 0
    else if steps[n - 1].event.Clear? then steps[n - 1].clock(OfTotal, TestStart)
    else TestStartOf(steps, n - 1)
  }

  ghost predicate TotalStamped(s: Stats, start: Clock, steps: seq<Step>, n: nat)
    requires n <= |steps|
  {
    var clock := ResetClock(start, steps, n, OfTotal);
    && clock.Some? && s.total.name == "Total" && s.total.requestMethod == ""
    && Stamped(s.total, clock.value, OfTotal, Pending(steps, n, OfTotal, false), Pending(steps, n, OfTotal, true))
    && s.startTime == TestStartOf(steps, n)
  }

  ghost predicate EntryStamped(s: Stats, start: Clock, steps: seq<Step>, n: nat, key: string)
    requires n <= |steps|
  {
    var who := OfEntry(key);
    var clock := ResetClock(start, steps, n, who);
    && (key in s.entries <==> clock.Some?)
    && (key in s.entries ==>
          var e := s.entries[key];
          && key == e.name + e.requestMethod
          && Stamped(e, clock.value, who, Pending(steps, n, who, false), Pending(steps, n, who, true)))
  }

  lemma BlankStamped(name: string, requestMethod: string, clock: Clock, who: Reader)
    ensures Stamped(BlankAt(name, requestMethod, clock, who), clock, who, [], [])
  {
  }

  /** One request, or one failure, more. */
  lemma LoggedStamped(e: Entry, clock: Clock, who: Reader, requests: seq<int>, failures: seq<int>,
                      time: int, length: int, now: int, at: int)
    requires Stamped(e, clock, who, requests, failures)
    ensures var logged := Logged(e, time, length, now);
            && Stamped(logged, clock, who, requests + [now], failures)
            && Stamped(Failed(logged, at), clock, who, requests + [now], failures + [at])
  {
    hide Bucket, NewMinimum, Tallied;
    TalliedSnoc(e.numReqsPerSec, requests, now);
    TalliedSnoc(e.numFailPerSec, failures, at);
  }

  lemma PendingNext(steps: seq<Step>, n: nat, who: Reader)
    requires 0 < n <= |steps|
    ensures var step := steps[n - 1];
            var counted := CountedBy(step.event, who);
            && (!IsRequest(step.event) ==>
                  Pending(steps, n, who, false) == Pending(steps, n, who, true) == [])
            && (IsRequest(step.event) ==>
                  && Pending(steps, n, who, false) == Pending(steps, n - 1, who, false) +
                       (if counted then [step.clock(who, RequestTime)] else [])
                  && Pending(steps, n, who, true) == Pending(steps, n - 1, who, true) +
                       (if counted && step.event.Failure? then [step.clock(who, FailureTime)] else []))
  {
    hide CountedBy;
  }

  lemma {:induction false} FailuresAreRequests(steps: seq<Step>, from: nat, n: nat, who: Reader)
    requires from <= n <= |steps| && Readings(steps, from, n, who, false) == []
    ensures Readings(steps, from, n, who, true) == []
  {
    if n > from {
      FailuresAreRequests(steps, from, n - 1, who);
    }
  }

  lemma RequestAtTotal(s: Stats, step: Step, digest: Digest)
    requires IsRequest(step.event)
    ensures var ev := step.event;
            var r := Turn(s, step, digest);
            var length := if ev.Success? then ev.responseLength else 0;
            var logged := Logged(s.total, ev.responseTime, length, step.clock(OfTotal, RequestTime));
            && r.total == (if ev.Success? then logged else Failed(logged, step.clock(OfTotal, FailureTime)))
            && r.startTime == s.startTime
  {
    hide Logged, Failed, Found, Occurred;
  }

  lemma LoggedNames(e: Entry)
    ensures forall time, length, now :: Logged(e, time, length, now).name == e.name
                                        && Logged(e, time, length, now).requestMethod == e.requestMethod
    ensures forall e: Entry, now :: Failed(e, now).name == e.name && Failed(e, now).requestMethod == e.requestMethod
  {
  }

  lemma BlankNames(name: string, requestMethod: string, clock: Clock, who: Reader)
    ensures BlankAt(name, requestMethod, clock, who).name == name
    ensures BlankAt(name, requestMethod, clock, who).requestMethod == requestMethod
  {
  }

  lemma TotalAfterTurn(s: Stats, start: Clock, steps: seq<Step>, n: nat, digest: Digest)
    requires 0 < n <= |steps| && TotalStamped(s, start, steps, n - 1)
    ensures TotalStamped(Turn(s, steps[n - 1], digest), start, steps, n)
  {
    hide Stamped, Logged, Failed, BlankAt, Pending, LogRequest, LogError;
    var step := steps[n - 1];
    var ev, clock := step.event, ResetClock(start, steps, n - 1, OfTotal);
    PendingNext(steps, n, OfTotal);
    LoggedNames(s.total);
    BlankNames("Total", "", step.clock, OfTotal);
    BlankStamped("Total", "", step.clock, OfTotal);
    if IsRequest(ev) {
      RequestAtTotal(s, step, digest);
      LoggedStamped(s.total, clock.value, OfTotal, Pending(steps, n - 1, OfTotal, false),
                    Pending(steps, n - 1, OfTotal, true), ev.responseTime, if ev.Success? then ev.responseLength else 0,
                    step.clock(OfTotal, RequestTime), step.clock(OfTotal, FailureTime));
      assert Pending(steps, n - 1, OfTotal, true) + [] == Pending(steps, n - 1, OfTotal, true);
    }
  }

  /**
   * In every reachable state the total counts every request since the last report or clearing in the
   * second it read for it, and every failure likewise; its last request is the last of these readings,
   * and its start the reading of its last reset.
   */
  lemma {:induction false} TotalKeepsReadings(start: Clock, steps: seq<Step>, n: nat, digest: Digest)
    requires n <= |steps|
    ensures TotalStamped(After(NewStats(start), steps, n, digest), start, steps, n)
  {
    hide Turn, TotalStamped;
    if n == 0 {
      NewTotalStamped(start, steps);
    } else {
      TotalKeepsReadings(start, steps, n - 1, digest);
      TotalAfterTurn(After(NewStats(start), steps, n - 1, digest), start, steps, n, digest);
    }
  }

  lemma NewTotalStamped(start: Clock, steps: seq<Step>)
    ensures TotalStamped(NewStats(start), start, steps, 0)
  {
  }

  /** A request changes the entry of its key, which it makes if need be, and no other. */
  lemma EntryAfterRequest(s: Stats, start: Clock, steps: seq<Step>, n: nat, digest: Digest, key: string)
    requires 0 < n <= |steps| && EntryStamped(s, start, steps, n - 1, key) && IsRequest(steps[n - 1].event)
    requires key !in s.entries ==>
               Pending(steps, n - 1, OfEntry(key), false) == Pending(steps, n - 1, OfEntry(key), true) == []
    ensures EntryStamped(Turn(s, steps[n - 1], digest), start, steps, n, key)
  {
    hide Stamped, Logged, Failed, BlankAt, Pending, Turn;
    var step, who := steps[n - 1], OfEntry(key);
    var ev, earlier := step.event, ResetClock(start, steps, n - 1, who);
    var requests, failures := Pending(steps, n - 1, who, false), Pending(steps, n - 1, who, true);
    PendingNext(steps, n, who);
    RequestAtKey(s, step, digest);
    assert requests + [] == requests && failures + [] == failures;
    if KeyOf(ev) == key {
      var e := Found(s, ev.name, ev.requestMethod, step.clock);
      BlankStamped(ev.name, ev.requestMethod, step.clock, who);
      BlankNames(ev.name, ev.requestMethod, step.clock, who);
      LoggedNames(e);
      LoggedStamped(e, if earlier.Some? then earlier.value else step.clock, who, requests, failures,
                    ev.responseTime, if ev.Success? then ev.responseLength else 0,
                    step.clock(who, RequestTime), step.clock(who, FailureTime));
    }
  }

  lemma EntryAfterTick(s: Stats, start: Clock, steps: seq<Step>, n: nat, digest: Digest, key: string)
    requires 0 < n <= |steps| && EntryStamped(s, start, steps, n - 1, key) && steps[n - 1].event.Tick?
    requires key !in s.entries ==> Pending(steps, n - 1, OfEntry(key), false) == []
    ensures EntryStamped(Turn(s, steps[n - 1], digest), start, steps, n, key)
  {
    hide Tallied, BlankAt, Pending;
    var step, who := steps[n - 1], OfEntry(key);
    PendingNext(steps, n, who);
    PendingFailures(steps, n - 1, who);
    if key in s.entries {
      var e := s.entries[key];
      BlankStamped(e.name, e.requestMethod, step.clock, who);
      BlankNames(e.name, e.requestMethod, step.clock, who);
    }
  }

  lemma PendingFailures(steps: seq<Step>, n: nat, who: Reader)
    requires n <= |steps|
    ensures Pending(steps, n, who, false) == [] ==> Pending(steps, n, who, true) == []
  {
    if Pending(steps, n, who, false) == [] {
      FailuresAreRequests(steps, Since(steps, n), n, who);
    }
  }

  /** What has not been asked for since the last clearing has nothing pending. */
  lemma {:induction false} NothingPending(start: Clock, steps: seq<Step>, n: nat, key: string)
    requires n <= |steps| && ResetClock(start, steps, n, OfEntry(key)).None?
    ensures Pending(steps, n, OfEntry(key), false) == []
  {
    if n > 0 {
      PendingNext(steps, n, OfEntry(key));
      if IsRequest(steps[n - 1].event) {
        NothingPending(start, steps, n - 1, key);
      }
    }
  }

  /**
   * In every reachable state an entry is there if and only if its key was asked for since the last
   * clearing. Its key is its name followed by its method; it counts every request with this key since
   * the last report in the second it read for it, and has its time stamps from these readings and its
   * last reset.
   */
  lemma {:induction false} EntriesKeepReadings(start: Clock, steps: seq<Step>, n: nat, digest: Digest, key: string)
    requires n <= |steps|
    ensures EntryStamped(After(NewStats(start), steps, n, digest), start, steps, n, key)
  {
    hide Turn, EntryStamped, Pending, ResetClock;
    if n == 0 {
      NoEntryStamped(start, steps, key);
    } else {
      var s := After(NewStats(start), steps, n - 1, digest);
      EntriesKeepReadings(start, steps, n - 1, digest, key);
      NotMadeYet(s, start, steps, n - 1, key);
      match steps[n - 1].event {
        case Clear => EntryAfterClear(s, start, steps, n, digest, key);
        case Tick(_) => EntryAfterTick(s, start, steps, n, digest, key);
        case _ => EntryAfterRequest(s, start, steps, n, digest, key);
      }
    }
  }

  lemma NotMadeYet(s: Stats, start: Clock, steps: seq<Step>, n: nat, key: string)
    requires n <= |steps| && EntryStamped(s, start, steps, n, key)
    ensures key !in s.entries ==>
              Pending(steps, n, OfEntry(key), false) == Pending(steps, n, OfEntry(key), true) == []
  {
    hide Pending, Stamped;
    if key !in s.entries {
      NothingPending(start, steps, n, key);
      PendingFailures(steps, n, OfEntry(key));
    }
  }

  lemma EntryAfterClear(s: Stats, start: Clock, steps: seq<Step>, n: nat, digest: Digest, key: string)
    requires 0 < n <= |steps| && steps[n - 1].event.Clear?
    ensures EntryStamped(Turn(s, steps[n - 1], digest), start, steps, n, key)
  {
  }

  lemma NoEntryStamped(start: Clock, steps: seq<Step>, key: string)
    ensures EntryStamped(NewStats(start), start, steps, 0, key)
  {
  }
}
