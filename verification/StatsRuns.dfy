/** Whole runs of the statistics loop against a plain list of the events it was fed. */
module StatsRuns {
  import opened Counters
  import opened Rounding
  import opened StatsModel
  import opened Tallies

  // ---------------------------------------------------------------------------------------------
  // The reference: who owns which key, and which events have been reported
  // ---------------------------------------------------------------------------------------------

  /** An event, booked on the name of the entry it is counted in, with that entry's readings of the clock. */
  datatype Booking = Booking(owner: string, event: Event, requestTime: int, failureTime: int)

  /** Events not yet reported, and events reported so far; clearing forgets the former. */
  datatype Book = Book(owners: map<string, string>, pending: seq<Booking>, delivered: seq<Booking>)

  const EMPTY_BOOK := Book(map[], [], [])

  predicate IsRequest(ev: Event) {
    ev.Success? || ev.Failure?
  }

  function KeyOf(ev: Event): string
    requires IsRequest(ev)
  {
    ev.name + ev.requestMethod
  }

  /** The first name seen with a key owns it, until the statistics are cleared. */
  function OwnerOf(b: Book, key: string, name: string): string {
    if key in b.owners then b.owners[key] else name
  }

  function BookingOn(owner: string, step: Step): Booking
    requires IsRequest(step.event)
  {
    var reader := OfEntry(KeyOf(step.event));
    Booking(owner, step.event, step.clock(reader, RequestTime), step.clock(reader, FailureTime))
  }

  function Enter(b: Book, step: Step): Book
    requires IsRequest(step.event)
  {
    var key := KeyOf(step.event);
    var owner := OwnerOf(b, key, step.event.name);
    b.(owners := b.owners[key := owner], pending := b.pending + [BookingOn(owner, step)])
  }

  function Record(b: Book, step: Step): Book {
    match step.event
    case Clear => b.(owners := map[], pending := [])
    case Tick(_) => b.(pending := [], delivered := b.delivered + b.pending)
    case _ => Enter(b, step)
  }

  function BookAfter(steps: seq<Step>, n: nat): Book
    requires n <= |steps|
  {
    if n == 0 then EMPTY_BOOK else Record(BookAfter(steps, n - 1), steps[n - 1])
  }

  function TallyOfBooking(b: Booking): Tally {
    match b.event
    case Success(_, _, time, length) => TallyOfRequest(time, length, b.requestTime)
    case Failure(_, _, time, _) => Join(TallyOfRequest(time, 0, b.requestTime), TallyOfFailure(b.failureTime))
    case _ => NOTHING
  }

  /** The tally of the first n bookings in a scope. */
  function TallyOfBookings(bs: seq<Booking>, n: nat, scope: Scope): Tally
    requires n <= |bs|
  {
    if n == 0 then NOTHING
    else Join(TallyOfBookings(bs, n - 1, scope), Whole(TallyOfBooking(bs[n - 1]), scope, bs[n - 1].owner))
  }

  function Booked(bs: seq<Booking>, scope: Scope): Tally {
    TallyOfBookings(bs, |bs|, scope)
  }

  lemma {:induction false} BookingsPrefix(a: seq<Booking>, b: seq<Booking>, n: nat, scope: Scope)
    requires n <= |a| <= |b| && a == b[..|a|]
    ensures TallyOfBookings(a, n, scope) == TallyOfBookings(b, n, scope)
  {
    hide Join, Whole, TallyOfBooking;
    if n > 0 {
      BookingsPrefix(a, b, n - 1, scope);
    }
  }

  lemma BookedSnoc(bs: seq<Booking>, b: Booking, scope: Scope)
    ensures Booked(bs + [b], scope) ==
            Join(Booked(bs, scope), Whole(TallyOfBooking(b), scope, b.owner))
  {
    hide Join, Whole, TallyOfBooking;
    BookingsPrefix(bs, bs + [b], |bs|, scope);
  }

  lemma {:induction false} BookedConcat(a: seq<Booking>, b: seq<Booking>, scope: Scope)
    ensures Booked(a + b, scope) == Join(Booked(a, scope), Booked(b, scope))
  {
    hide Join, Whole, TallyOfBooking;
    if b == [] {
      assert a + b == a;
      JoinNothing(Booked(a, scope));
    } else {
      var n := |b| - 1;
      BookedConcat(a, b[..n], scope);
      assert a + b == (a + b[..n]) + [b[n]] && b == b[..n] + [b[n]];
      BookedSnoc(a + b[..n], b[n], scope);
      BookedSnoc(b[..n], b[n], scope);
      JoinAssociative(Booked(a, scope), Booked(b[..n], scope),
                      Whole(TallyOfBooking(b[n]), scope, b[n].owner));
    }
  }

  // ---------------------------------------------------------------------------------------------
  // Entries on their own
  // ---------------------------------------------------------------------------------------------

  /** Every request is counted once in the histogram and once in some second; failures are requests. */
  ghost predicate Consistent(e: Entry) {
    && SumOf(e.responseTimes) == e.numRequests
    && SumOf(e.numReqsPerSec) == e.numRequests
    && SumOf(e.numFailPerSec) == e.numFailures
    && Positive(e.numFailPerSec)
    && 0 <= e.numFailures <= e.numRequests
    && (e.numRequests == 0 ==> TallyOf(e, true) == NOTHING)
  }

  lemma BumpSum(m: Counts, k: int)
    ensures SumOf(Bump(m, k)) == SumOf(m) + 1
  {
    SumUpdate(m, k, At(m, k) + 1);
  }

  lemma LoggedConsistent(e: Entry, responseTime: int, contentLength: int, now: int)
    requires Consistent(e)
    ensures Consistent(Logged(e, responseTime, contentLength, now))
    ensures Logged(e, responseTime, contentLength, now).numFailures <
            Logged(e, responseTime, contentLength, now).numRequests
  {
    hide Bucket;
    BumpSum(e.responseTimes, Bucket(responseTime));
    BumpSum(e.numReqsPerSec, now);
  }

  lemma FailedConsistent(e: Entry, now: int)
    requires Consistent(e) && e.numFailures < e.numRequests
    ensures Consistent(Failed(e, now))
  {
    BumpSum(e.numFailPerSec, now);
  }

  ghost predicate Healthy(s: Stats) {
    Consistent(s.total) && forall k :: k in s.entries ==> Consistent(s.entries[k])
  }

  lemma BlankIsHealthy(name: string, requestMethod: string, start: int, last: int)
    ensures Consistent(Blank(name, requestMethod, start, last))
    ensures forall minima :: TallyOf(Blank(name, requestMethod, start, last), minima) == NOTHING
  {
  }

  lemma TurnKeepsHealth(s: Stats, step: Step, digest: Digest)
    requires Healthy(s)
    ensures Healthy(Turn(s, step, digest))
  {
    hide Consistent, Logged, Failed, Bump;
    var clock := step.clock;
    match step.event {
      case Success(m, name, time, length) =>
        LogRequestHealthy(s, m, name, time, length, clock);
      case Failure(m, name, time, error) =>
        LogRequestHealthy(s, m, name, time, 0, clock);
        LogErrorHealthy(LogRequest(s, m, name, time, 0, clock), m, name, error, clock, digest);
      case Clear =>
        BlankIsHealthy("Total", "", clock(OfTotal, ResetStart), clock(OfTotal, ResetLast));
      case Tick(_) =>
        BlankIsHealthy(s.total.name, s.total.requestMethod, clock(OfTotal, ResetStart), clock(OfTotal, ResetLast));
        forall k | k in s.entries
          ensures Consistent(Stripped(s.entries[k], clock, k))
        {
          var e := s.entries[k];
          BlankIsHealthy(e.name, e.requestMethod, clock(OfEntry(k), ResetStart), clock(OfEntry(k), ResetLast));
        }
    }
  }

  lemma FoundHealthy(s: Stats, name: string, requestMethod: string, clock: Clock)
    requires Healthy(s)
    ensures Consistent(Found(s, name, requestMethod, clock))
  {
    hide Consistent;
    var key := name + requestMethod;
    BlankIsHealthy(name, requestMethod, clock(OfEntry(key), ResetStart), clock(OfEntry(key), ResetLast));
  }

  lemma LogRequestHealthy(s: Stats, m: string, name: string, time: int, length: int, clock: Clock)
    requires Healthy(s)
    ensures var r := LogRequest(s, m, name, time, length, clock);
            && Healthy(r)
            && r.total.numFailures < r.total.numRequests
            && r.entries[name + m].numFailures < r.entries[name + m].numRequests
  {
    hide Consistent, Logged;
    var key := name + m;
    var e := Found(s, name, m, clock);
    FoundHealthy(s, name, m, clock);
    LoggedConsistent(e, time, length, clock(OfEntry(key), RequestTime));
    LoggedConsistent(s.total, time, length, clock(OfTotal, RequestTime));
  }

  lemma LogErrorHealthy(s: Stats, m: string, name: string, error: string, clock: Clock, digest: Digest)
    requires Healthy(s)
    requires s.total.numFailures < s.total.numRequests
    requires name + m in s.entries && s.entries[name + m].numFailures < s.entries[name + m].numRequests
    ensures Healthy(LogError(s, m, name, error, clock, digest))
  {
    hide Consistent;
    var key := name + m;
    FailedConsistent(s.entries[key], clock(OfEntry(key), FailureTime));
    FailedConsistent(s.total, clock(OfTotal, FailureTime));
  }

  // ---------------------------------------------------------------------------------------------
  // Entries against the book
  // ---------------------------------------------------------------------------------------------

  /** The entries carry the names the book says, and hold exactly the pending events. */
  ghost predicate Mirrors(s: Stats, b: Book, scope: Scope) {
    && s.entries.Keys == b.owners.Keys
    && (forall k :: k in s.entries ==> s.entries[k].name == b.owners[k])
    && JoinAll(Parts(s.entries, scope, false)) == Booked(b.pending, scope)
    && TotalMirrors(s.total, b)
  }

  /** The total holds the same events; only the seconds are its own, since it reads the clock itself. */
  ghost predicate TotalMirrors(total: Entry, b: Book) {
    Timeless(TallyOf(total, false)) == Timeless(Booked(b.pending, Everyone))
  }

  lemma WholeJoin(a: Tally, b: Tally, scope: Scope, name: string)
    ensures Whole(Join(a, b), scope, name) == Join(Whole(a, scope, name), Whole(b, scope, name))
  {
    hide Join;
    JoinNothing(NOTHING);
  }

  lemma LogRequestParts(s: Stats, m: string, name: string, time: int, length: int, clock: Clock, scope: Scope)
    ensures var r := LogRequest(s, m, name, time, length, clock);
            var t := TallyOfRequest(time, length, clock(OfEntry(name + m), RequestTime));
            && JoinAll(Parts(r.entries, scope, false)) ==
               Join(JoinAll(Parts(s.entries, scope, false)), Whole(t, scope, Found(s, name, m, clock).name))
            && Timeless(TallyOf(r.total, false)) == Join(Timeless(TallyOf(s.total, false)), Timeless(t))
  {
    hide Join, Logged, TallyOf, TallyOfRequest, JoinAll, Timeless;
    var key := name + m;
    var e, now := Found(s, name, m, clock), clock(OfEntry(key), RequestTime);
    LoggedTally(e, time, length, now);
    LoggedKeepsName(e, time, length, now);
    BlankIsHealthy(name, m, clock(OfEntry(key), ResetStart), clock(OfEntry(key), ResetLast));
    PartsGain(s.entries, key, e, Logged(e, time, length, now), TallyOfRequest(time, length, now), scope);
    LoggedTimeless(s.total, time, length, clock(OfTotal, RequestTime), now);
  }

  lemma LoggedTimeless(e: Entry, time: int, length: int, now: int, other: int)
    ensures Timeless(TallyOf(Logged(e, time, length, now), false)) ==
            Join(Timeless(TallyOf(e, false)), Timeless(TallyOfRequest(time, length, other)))
  {
    hide Join, Logged, TallyOf, Timeless;
    LoggedTally(e, time, length, now);
    TimelessJoin(TallyOf(e, false), TallyOfRequest(time, length, now));
    SameButForSeconds(time, length, now, other);
  }

  lemma SameButForSeconds(time: int, length: int, now: int, other: int)
    ensures Timeless(TallyOfRequest(time, length, now)) == Timeless(TallyOfRequest(time, length, other))
    ensures Timeless(TallyOfFailure(now)) == Timeless(TallyOfFailure(other))
  {
  }

  lemma FailedTimeless(e: Entry, now: int, other: int)
    ensures Timeless(TallyOf(Failed(e, now), false)) ==
            Join(Timeless(TallyOf(e, false)), Timeless(TallyOfFailure(other)))
  {
    hide Join, Failed, TallyOf, Timeless;
    FailedTally(e, now);
    TimelessJoin(TallyOf(e, false), TallyOfFailure(now));
    SameButForSeconds(0, 0, now, other);
  }

  lemma LoggedKeepsName(e: Entry, time: int, length: int, now: int)
    ensures Logged(e, time, length, now).name == e.name
  {
  }

  lemma LogErrorParts(s: Stats, m: string, name: string, error: string, clock: Clock, digest: Digest, scope: Scope)
    ensures var r := LogError(s, m, name, error, clock, digest);
            var t := TallyOfFailure(clock(OfEntry(name + m), FailureTime));
            && JoinAll(Parts(r.entries, scope, false)) ==
               Join(JoinAll(Parts(s.entries, scope, false)), Whole(t, scope, Found(s, name, m, clock).name))
            && Timeless(TallyOf(r.total, false)) == Join(Timeless(TallyOf(s.total, false)), Timeless(t))
  {
    hide Join, JoinAll, Bump, Timeless, TallyOf, TallyOfFailure;
    var key := name + m;
    var e, now := Found(s, name, m, clock), clock(OfEntry(key), FailureTime);
    FailedTally(e, now);
    BlankIsHealthy(name, m, clock(OfEntry(key), ResetStart), clock(OfEntry(key), ResetLast));
    PartsGain(s.entries, key, e, Failed(e, now), TallyOfFailure(now), scope);
    FailedTimeless(s.total, clock(OfTotal, FailureTime), now);
  }

  /** What one request or failure adds: its tally, to the entry of its key and to the total. */
  ghost predicate Gains(s: Stats, r: Stats, b: Booking, scope: Scope)
    requires IsRequest(b.event)
  {
    var key, t := KeyOf(b.event), TallyOfBooking(b);
    && JoinAll(Parts(r.entries, scope, false)) ==
       Join(JoinAll(Parts(s.entries, scope, false)), Whole(t, scope, b.owner))
    && Timeless(TallyOf(r.total, false)) == Join(Timeless(TallyOf(s.total, false)), Timeless(t))
    && r.entries.Keys == s.entries.Keys + {key}
    && r.entries[key].name == b.owner
    && (forall k :: k in s.entries && k != key ==> r.entries[k] == s.entries[k])
  }

  lemma SuccessGains(s: Stats, step: Step, digest: Digest, scope: Scope)
    requires step.event.Success?
    ensures var owner := Found(s, step.event.name, step.event.requestMethod, step.clock).name;
            Gains(s, Turn(s, step, digest), BookingOn(owner, step), scope)
  {
    hide Join, JoinAll, Parts, Logged, TallyOfRequest, TallyOf, Timeless;
    var ev, clock := step.event, step.clock;
    var e := Found(s, ev.name, ev.requestMethod, clock);
    LogRequestParts(s, ev.requestMethod, ev.name, ev.responseTime, ev.responseLength, clock, scope);
    LoggedKeepsName(e, ev.responseTime, ev.responseLength, clock(OfEntry(KeyOf(ev)), RequestTime));
  }

  /** A failure is one request and one failure, in the entry and in the total. */
  lemma FailureGains(s: Stats, step: Step, digest: Digest, scope: Scope)
    requires step.event.Failure?
    ensures var owner := Found(s, step.event.name, step.event.requestMethod, step.clock).name;
            Gains(s, Turn(s, step, digest), BookingOn(owner, step), scope)
  {
    hide Join, JoinAll, Parts, Logged, TallyOfRequest, TallyOfFailure, TallyOf, Bump, Timeless;
    var ev, clock := step.event, step.clock;
    var m, name, time := ev.requestMethod, ev.name, ev.responseTime;
    var mid := LogRequest(s, m, name, time, 0, clock);
    var request := TallyOfRequest(time, 0, clock(OfEntry(KeyOf(ev)), RequestTime));
    var failure := TallyOfFailure(clock(OfEntry(KeyOf(ev)), FailureTime));
    var owner := Found(s, name, m, clock).name;
    LogRequestParts(s, m, name, time, 0, clock, scope);
    LoggedKeepsName(Found(s, name, m, clock), time, 0, clock(OfEntry(KeyOf(ev)), RequestTime));
    LogErrorParts(mid, m, name, ev.error, clock, digest, scope);
    WholeJoin(request, failure, scope, owner);
    TimelessJoin(request, failure);
    JoinAssociative(JoinAll(Parts(s.entries, scope, false)),
                    Whole(request, scope, owner), Whole(failure, scope, owner));
    JoinAssociative(Timeless(TallyOf(s.total, false)), Timeless(request), Timeless(failure));
  }

  lemma RequestMirrored(s: Stats, b: Book, step: Step, digest: Digest, scope: Scope)
    requires Mirrors(s, b, scope) && IsRequest(step.event)
    ensures Mirrors(Turn(s, step, digest), Record(b, step), scope)
  {
    hide Join, JoinAll, TallyOf, TallyOfBooking, Booked, Parts, Timeless, Turn;
    var ev := step.event;
    var booking := BookingOn(OwnerOf(b, KeyOf(ev), ev.name), step);
    if ev.Success? {
      SuccessGains(s, step, digest, scope);
    } else {
      FailureGains(s, step, digest, scope);
    }
    BookedSnoc(b.pending, booking, scope);
    BookedSnoc(b.pending, booking, Everyone);
    TimelessJoin(Booked(b.pending, Everyone), TallyOfBooking(booking));
  }

  lemma InactiveIsNothing(e: Entry, scope: Scope, minima: bool)
    requires Consistent(e) && !Active(e)
    ensures PartOf(e, scope, minima) == NOTHING
  {
    hide SumOf;
  }

  /** Right after a report every entry is back to nothing. */
  lemma CollectedIsNothing(s: Stats, clock: Clock, scope: Scope)
    requires Healthy(s)
    ensures JoinAll(Parts(Collected(s, clock).entries, scope, false)) == NOTHING
    ensures TallyOf(Collected(s, clock).total, false) == NOTHING
  {
    hide Consistent, TallyOf;
    var parts := Parts(Collected(s, clock).entries, scope, false);
    forall k | k in parts
      ensures parts[k] == NOTHING
    {
      var e := s.entries[k];
      if Active(e) {
        BlankIsHealthy(e.name, e.requestMethod, clock(OfEntry(k), ResetStart), clock(OfEntry(k), ResetLast));
      } else {
        InactiveIsNothing(e, scope, false);
      }
    }
    JoinAllNothing(parts);
    BlankIsHealthy(s.total.name, s.total.requestMethod, clock(OfTotal, ResetStart), clock(OfTotal, ResetLast));
  }

  lemma TurnMirrored(s: Stats, b: Book, step: Step, digest: Digest, scope: Scope)
    requires Mirrors(s, b, scope) && Healthy(s)
    ensures Mirrors(Turn(s, step, digest), Record(b, step), scope)
  {
    hide Healthy, JoinAll, TallyOf;
    match step.event {
      case Success(_, _, _, _) => RequestMirrored(s, b, step, digest, scope);
      case Failure(_, _, _, _) => RequestMirrored(s, b, step, digest, scope);
      case Clear =>
        JoinAllNothing(Parts(map[], scope, false));
        BlankIsHealthy("Total", "", step.clock(OfTotal, ResetStart), step.clock(OfTotal, ResetLast));
      case Tick(_) =>
        CollectedIsNothing(s, step.clock, scope);
    }
  }

  /**
   * Every reachable state of the loop: the entries in any scope, and the total, hold exactly the
   * events that came since the last report or clearing.
   */
  lemma {:induction false} StatsMirrorBook(start: Clock, steps: seq<Step>, n: nat, digest: Digest, scope: Scope)
    requires n <= |steps|
    ensures Healthy(After(NewStats(start), steps, n, digest))
    ensures Mirrors(After(NewStats(start), steps, n, digest), BookAfter(steps, n), scope)
  {
    hide Healthy, Mirrors, Turn, Record;
    if n == 0 {
      NewStatsMirrored(start, scope);
    } else {
      StatsMirrorBook(start, steps, n - 1, digest, scope);
      var s := After(NewStats(start), steps, n - 1, digest);
      TurnKeepsHealth(s, steps[n - 1], digest);
      TurnMirrored(s, BookAfter(steps, n - 1), steps[n - 1], digest, scope);
    }
  }

  lemma NewStatsMirrored(start: Clock, scope: Scope)
    ensures Healthy(NewStats(start)) && Mirrors(NewStats(start), EMPTY_BOOK, scope)
  {
    JoinAllNothing(Parts(map[], scope, false));
    BlankIsHealthy("Total", "", start(OfTotal, ResetStart), start(OfTotal, ResetLast));
  }

  ghost predicate Additive(f: Tally -> int) {
    f(NOTHING) == 0 && forall a, b :: f(Join(a, b)) == f(a) + f(b)
  }

  function Column(m: map<string, Tally>, f: Tally -> int): map<string, int> {
    map k | k in m :: f(m[k])
  }

  /** The join over a map adds up every additive number of its tallies. */
  lemma {:induction false} JoinAllAdds(m: map<string, Tally>, f: Tally -> int)
    requires Additive(f)
    ensures f(JoinAll(m)) == SumOf(Column(m, f))
    decreases |m|
  {
    hide Join;
    if m == map[] {
      assert Column(m, f) == map[];
    } else {
      var k :| k in m && JoinAll(m) == Join(m[k], JoinAll(m - {k}));
      JoinAllAdds(m - {k}, f);
      SumTakeOut(Column(m, f), k);
      assert Column(m, f) - {k} == Column(m - {k}, f);
    }
  }

  function EntryColumn(entries: map<string, Entry>, g: Entry -> int): map<string, int> {
    map k | k in entries :: g(entries[k])
  }

  /** A number that adds up is, in the total, the sum of that number over the entries. */
  lemma ColumnTotal(s: Stats, f: Tally -> int, g: Entry -> int)
    requires Timeless(TallyOf(s.total, false)) == Timeless(JoinAll(Parts(s.entries, Everyone, false)))
    requires Additive(f) && (forall t :: f(Timeless(t)) == f(t)) && forall e :: g(e) == f(TallyOf(e, false))
    ensures g(s.total) == SumOf(EntryColumn(s.entries, g))
  {
    hide JoinAll, TallyOf, Additive, Timeless;
    var parts := Parts(s.entries, Everyone, false);
    JoinAllAdds(parts, f);
    assert Column(parts, f) == EntryColumn(s.entries, g);
  }

  /**
   * In every reachable state the total is the sum of its parts, number by number and bucket by
   * bucket; each entry counts a request once in its histogram and once in its seconds.
   */
  lemma TotalIsSumOfParts(start: Clock, steps: seq<Step>, n: nat, digest: Digest, bucket: int)
    requires n <= |steps|
    ensures var s := After(NewStats(start), steps, n, digest);
            && s.total.numRequests == SumOf(EntryColumn(s.entries, (e: Entry) => e.numRequests))
            && s.total.numFailures == SumOf(EntryColumn(s.entries, (e: Entry) => e.numFailures))
            && s.total.totalResponseTime == SumOf(EntryColumn(s.entries, (e: Entry) => e.totalResponseTime))
            && s.total.totalContentLength == SumOf(EntryColumn(s.entries, (e: Entry) => e.totalContentLength))
            && At(s.total.responseTimes, bucket) ==
               SumOf(EntryColumn(s.entries, (e: Entry) => At(e.responseTimes, bucket)))
            && Consistent(s.total)
            && (forall k :: k in s.entries ==> Consistent(s.entries[k]))
  {
    hide After, JoinAll, Parts, Consistent;
    StatsMirrorBook(start, steps, n, digest, Everyone);
    var s := After(NewStats(start), steps, n, digest);
    ColumnTotal(s, (t: Tally) => t.requests, (e: Entry) => e.numRequests);
    ColumnTotal(s, (t: Tally) => t.failures, (e: Entry) => e.numFailures);
    ColumnTotal(s, (t: Tally) => t.responseTime, (e: Entry) => e.totalResponseTime);
    ColumnTotal(s, (t: Tally) => t.contentLength, (e: Entry) => e.totalContentLength);
    ColumnTotal(s, (t: Tally) => At(t.histogram, bucket), (e: Entry) => At(e.responseTimes, bucket));
  }

  // ---------------------------------------------------------------------------------------------
  // Errors
  // ---------------------------------------------------------------------------------------------

  function Occurrences(errors: map<string, ErrorInfo>): map<string, int> {
    map k | k in errors :: errors[k].occurrences
  }

  function OccurrencesAt(errors: map<string, ErrorInfo>, key: string): int {
    if key in errors then errors[key].occurrences else 0
  }

  /** How many of the first n booked events are failures whose digest is the key. */
  function FailuresWith(bs: seq<Booking>, n: nat, key: string, digest: Digest): nat
    requires n <= |bs|
  {
    if n == 0 then 0
    else
      var ev := bs[n - 1].event;
      FailuresWith(bs, n - 1, key, digest) +
      (if ev.Failure? && digest(ev.requestMethod + ev.name + ev.error) == key then 1 else 0)
  }

  lemma {:induction false} FailuresPrefix(a: seq<Booking>, b: seq<Booking>, n: nat, key: string, digest: Digest)
    requires n <= |a| <= |b| && a == b[..|a|]
    ensures FailuresWith(a, n, key, digest) == FailuresWith(b, n, key, digest)
  {
    if n > 0 {
      FailuresPrefix(a, b, n - 1, key, digest);
    }
  }

  lemma {:induction false} FailuresConcat(a: seq<Booking>, b: seq<Booking>, n: nat, key: string, digest: Digest)
    requires n <= |b|
    ensures FailuresWith(a + b, |a| + n, key, digest) ==
            FailuresWith(a, |a|, key, digest) + FailuresWith(b, n, key, digest)
  {
    if n == 0 {
      FailuresPrefix(a, a + b, |a|, key, digest);
    } else {
      FailuresConcat(a, b, n - 1, key, digest);
    }
  }

  ghost predicate ErrorsMatch(s: Stats, b: Book, key: string, digest: Digest) {
    && SumOf(Occurrences(s.errors)) == s.total.numFailures
    && OccurrencesAt(s.errors, key) == FailuresWith(b.pending, |b.pending|, key, digest)
  }

  lemma OneMoreOccurrence(errors: map<string, ErrorInfo>, at: string, name: string, m: string, error: string,
                          key: string)
    ensures var r := Occurred(errors, at, name, m, error);
            && SumOf(Occurrences(r)) == SumOf(Occurrences(errors)) + 1
            && OccurrencesAt(r, key) == OccurrencesAt(errors, key) + (if at == key then 1 else 0)
  {
    var r := Occurred(errors, at, name, m, error);
    SumUpdate(Occurrences(errors), at, r[at].occurrences);
    assert Occurrences(r) == Occurrences(errors)[at := r[at].occurrences];
  }

  lemma NoErrors(key: string)
    ensures SumOf(Occurrences(map[])) == 0 && OccurrencesAt(map[], key) == 0
    ensures forall digest :: FailuresWith([], 0, key, digest) == 0
  {
    assert Occurrences(map[]) == map[];
  }

  lemma BlankHasNoFailures(name: string, m: string, clock: Clock)
    ensures BlankAt(name, m, clock, OfTotal).numFailures == 0
  {
  }

  lemma LoggedKeepsFailures(e: Entry)
    ensures forall time, length, now :: Logged(e, time, length, now).numFailures == e.numFailures
  {
  }

  lemma OneMoreBooking(bs: seq<Booking>, b: Booking, key: string, digest: Digest)
    ensures FailuresWith(bs + [b], |bs| + 1, key, digest) ==
            FailuresWith(bs, |bs|, key, digest) +
            (if b.event.Failure? && digest(b.event.requestMethod + b.event.name + b.event.error) == key then 1 else 0)
  {
    FailuresPrefix(bs, bs + [b], |bs|, key, digest);
  }

  lemma TurnKeepsErrors(s: Stats, b: Book, step: Step, key: string, digest: Digest)
    requires ErrorsMatch(s, b, key, digest)
    ensures ErrorsMatch(Turn(s, step, digest), Record(b, step), key, digest)
  {
    hide Bump, Found, Logged, Occurred, Occurrences, OccurrencesAt, FailuresWith, BlankAt;
    NoErrors(key);
    var ev := step.event;
    match ev {
      case Success(m, name, _, _) =>
        OneMoreBooking(b.pending, BookingOn(OwnerOf(b, name + m, name), step), key, digest);
        LoggedKeepsFailures(s.total);
      case Failure(m, name, _, error) =>
        OneMoreBooking(b.pending, BookingOn(OwnerOf(b, name + m, name), step), key, digest);
        LoggedKeepsFailures(s.total);
        OneMoreOccurrence(s.errors, digest(m + name + error), name, m, error, key);
      case Clear =>
        BlankHasNoFailures("Total", "", step.clock);
      case Tick(_) =>
        BlankHasNoFailures(s.total.name, s.total.requestMethod, step.clock);
    }
  }

  /**
   * In every reachable state the occurrences of all errors add up to the failures of the total, even
   * when different errors share a digest; and those of one digest are its failures not yet reported.
   */
  lemma {:induction false} ErrorsAreConserved(start: Clock, steps: seq<Step>, n: nat, key: string, digest: Digest)
    requires n <= |steps|
    ensures var s := After(NewStats(start), steps, n, digest);
            var b := BookAfter(steps, n);
            && SumOf(Occurrences(s.errors)) == s.total.numFailures
            && OccurrencesAt(s.errors, key) == FailuresWith(b.pending, |b.pending|, key, digest)
  {
    hide Turn, Record;
    if n == 0 {
      assert Occurrences(map[]) == map[];
    } else {
      ErrorsAreConserved(start, steps, n - 1, key, digest);
      TurnKeepsErrors(After(NewStats(start), steps, n - 1, digest), BookAfter(steps, n - 1), steps[n - 1], key, digest);
    }
  }
}
