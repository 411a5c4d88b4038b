/** The minima of the entries, against the response times they were fed. */
module EntryMinima {
  import opened Counters
  import opened Minimums
  import opened Options
  import opened StatsModel
  import opened StatsRuns
  import opened Tallies

  /** The response times of the first n bookings of a name, and of a key. */
  function TimesOf(bs: seq<Booking>, n: nat, name: string): seq<int>
    requires n <= |bs|
  {
    if n == 0 then []
    else
      var b := bs[n - 1];
      TimesOf(bs, n - 1, name) + (if b.owner == name && IsRequest(b.event) then [b.event.responseTime] else [])
  }

  function TimesOfKey(bs: seq<Booking>, n: nat, key: string): seq<int>
    requires n <= |bs|
  {
    if n == 0 then []
    else
      var ev := bs[n - 1].event;
      TimesOfKey(bs, n - 1, key) + (if IsRequest(ev) && KeyOf(ev) == key then [ev.responseTime] else [])
  }

  lemma {:induction false} TimesConcat(a: seq<Booking>, b: seq<Booking>, n: nat, name: string)
    requires n <= |b|
    ensures TimesOf(a + b, |a| + n, name) == TimesOf(a, |a|, name) + TimesOf(b, n, name)
  {
    if n == 0 {
      TimesPrefix(a, a + b, |a|, name);
    } else {
      TimesConcat(a, b, n - 1, name);
    }
  }

  lemma {:induction false} TimesPrefix(a: seq<Booking>, b: seq<Booking>, n: nat, name: string)
    requires n <= |a| <= |b| && a == b[..|a|]
    ensures TimesOf(a, n, name) == TimesOf(b, n, name)
  {
    if n > 0 {
      TimesPrefix(a, b, n - 1, name);
    }
  }

  lemma {:induction false} KeyTimesPrefix(a: seq<Booking>, b: seq<Booking>, n: nat, key: string)
    requires n <= |a| <= |b| && a == b[..|a|]
    ensures TimesOfKey(a, n, key) == TimesOfKey(b, n, key)
  {
    if n > 0 {
      KeyTimesPrefix(a, b, n - 1, key);
    }
  }

  lemma KeyTimesSnoc(bs: seq<Booking>, b: Booking, key: string)
    ensures TimesOfKey(bs + [b], |bs| + 1, key) ==
            TimesOfKey(bs, |bs|, key) +
            (if IsRequest(b.event) && KeyOf(b.event) == key then [b.event.responseTime] else [])
  {
    KeyTimesPrefix(bs, bs + [b], |bs|, key);
  }

  // ---------------------------------------------------------------------------------------------
  // One entry for one key
  // ---------------------------------------------------------------------------------------------

  /** Pending events are booked on the owner of their key. */
  predicate Owned(b: Book) {
    forall i :: 0 <= i < |b.pending| ==>
      var ev := b.pending[i].event;
      IsRequest(ev) && KeyOf(ev) in b.owners && b.pending[i].owner == b.owners[KeyOf(ev)]
  }

  predicate KeyHolds(e: Entry, times: seq<int>) {
    e.numRequests == |times| && e.minResponseTime == Shown(times)
  }

  /** Every entry counts the pending events of its key, and shows the minimum of their times. */
  ghost predicate KeysHold(s: Stats, b: Book) {
    && Owned(b)
    && s.entries.Keys == b.owners.Keys
    && (forall k :: k in s.entries ==>
          s.entries[k].name == b.owners[k] && KeyHolds(s.entries[k], TimesOfKey(b.pending, |b.pending|, k)))
  }

  lemma LoggedHolds(e: Entry, times: seq<int>, time: int, length: int, now: int)
    requires KeyHolds(e, times)
    ensures KeyHolds(Logged(e, time, length, now), times + [time])
    ensures forall at :: KeyHolds(Failed(Logged(e, time, length, now), at), times + [time])
    ensures Logged(e, time, length, now).name == e.name
  {
    hide NewMinimum, Shown;
    ShownSnoc(times, time);
  }

  /** What a request leaves at its own key, and what it leaves alone. */
  lemma RequestAtKey(s: Stats, step: Step, digest: Digest)
    requires IsRequest(step.event)
    ensures var ev := step.event;
            var r := Turn(s, step, digest);
            var e := Found(s, ev.name, ev.requestMethod, step.clock);
            var length := if ev.Success? then ev.responseLength else 0;
            var logged := Logged(e, ev.responseTime, length, step.clock(OfEntry(KeyOf(ev)), RequestTime));
            && r.entries.Keys == s.entries.Keys + {KeyOf(ev)}
            && r.entries[KeyOf(ev)] == (if ev.Success? then logged
                                        else Failed(logged, step.clock(OfEntry(KeyOf(ev)), FailureTime)))
            && (forall k :: k in s.entries && k != KeyOf(ev) ==> r.entries[k] == s.entries[k])
  {
    hide Logged, Failed, BlankAt, Occurred;
  }

  lemma {:induction false} NoTimesOfKey(b: Book, n: nat, key: string)
    requires Owned(b) && n <= |b.pending| && key !in b.owners
    ensures TimesOfKey(b.pending, n, key) == []
  {
    if n > 0 {
      NoTimesOfKey(b, n - 1, key);
    }
  }

  lemma StillOwned(b: Book, step: Step)
    requires Owned(b) && IsRequest(step.event)
    ensures Owned(Record(b, step))
  {
  }

  lemma RequestHolds(s: Stats, b: Book, step: Step, digest: Digest)
    requires KeysHold(s, b) && IsRequest(step.event)
    ensures KeysHold(Turn(s, step, digest), Record(b, step))
  {
    hide Turn, Logged, Failed, KeyHolds, TimesOfKey, BlankAt, Owned;
    StillOwned(b, step);
    var ev, r, after := step.event, Turn(s, step, digest), Record(b, step);
    var key, e := KeyOf(ev), Found(s, ev.name, ev.requestMethod, step.clock);
    var times := TimesOfKey(b.pending, |b.pending|, key);
    RequestAtKey(s, step, digest);
    assert KeyHolds(e, times) && e.name == OwnerOf(b, key, ev.name) by {
      if key !in s.entries {
        NoTimesOfKey(b, |b.pending|, key);
        BlankHolds(ev.name, ev.requestMethod, step.clock, key);
      }
    }
    LoggedHolds(e, times, ev.responseTime, if ev.Success? then ev.responseLength else 0,
                step.clock(OfEntry(key), RequestTime));
    FailedKeepsName(e);
    forall k | k in r.entries
      ensures r.entries[k].name == after.owners[k]
      ensures KeyHolds(r.entries[k], TimesOfKey(after.pending, |after.pending|, k))
    {
      KeyTimesSnoc(b.pending, BookingOn(OwnerOf(b, key, ev.name), step), k);
      if k != key {
        assert TimesOfKey(after.pending, |after.pending|, k) == TimesOfKey(b.pending, |b.pending|, k);
      }
    }
  }

  lemma FailedKeepsName(e: Entry)
    ensures forall e: Entry, at :: Failed(e, at).name == e.name
  {
  }

  lemma BlankHolds(name: string, requestMethod: string, clock: Clock, key: string)
    ensures KeyHolds(BlankAt(name, requestMethod, clock, OfEntry(key)), [])
    ensures BlankAt(name, requestMethod, clock, OfEntry(key)).name == name
  {
  }

  lemma StrippedHolds(e: Entry, clock: Clock, k: string, times: seq<int>)
    requires Consistent(e) && KeyHolds(e, times)
    ensures KeyHolds(Stripped(e, clock, k), []) && Stripped(e, clock, k).name == e.name
  {
    hide SumOf;
    BlankHolds(e.name, e.requestMethod, clock, k);
  }

  lemma TickHolds(s: Stats, b: Book, step: Step, digest: Digest)
    requires Healthy(s) && KeysHold(s, b) && step.event.Tick?
    ensures KeysHold(Turn(s, step, digest), Record(b, step))
  {
    hide BlankAt, KeyHolds, Stripped, Consistent;
    forall k | k in s.entries
      ensures Stripped(s.entries[k], step.clock, k).name == s.entries[k].name
      ensures KeyHolds(Stripped(s.entries[k], step.clock, k), TimesOfKey([], 0, k))
    {
      StrippedHolds(s.entries[k], step.clock, k, TimesOfKey(b.pending, |b.pending|, k));
    }
  }

  lemma {:induction false} EntriesHoldTimes(start: Clock, steps: seq<Step>, n: nat, digest: Digest)
    requires n <= |steps|
    ensures KeysHold(After(NewStats(start), steps, n, digest), BookAfter(steps, n))
  {
    hide Turn, Record, KeysHold, Healthy;
    if n == 0 {
      NothingHeldYet(start);
    } else {
      EntriesHoldTimes(start, steps, n - 1, digest);
      StatsMirrorBook(start, steps, n - 1, digest, Everyone);
      var s, b := After(NewStats(start), steps, n - 1, digest), BookAfter(steps, n - 1);
      match steps[n - 1].event {
        case Clear => ClearHolds(s, b, steps[n - 1], digest);
        case Tick(_) => TickHolds(s, b, steps[n - 1], digest);
        case _ => RequestHolds(s, b, steps[n - 1], digest);
      }
    }
  }

  lemma NothingHeldYet(start: Clock)
    ensures KeysHold(NewStats(start), EMPTY_BOOK)
  {
  }

  lemma ClearHolds(s: Stats, b: Book, step: Step, digest: Digest)
    requires step.event.Clear?
    ensures KeysHold(Turn(s, step, digest), Record(b, step))
  {
  }

  /** The response times of the first n bookings, whatever their names. */
  function AllTimes(bs: seq<Booking>, n: nat): seq<int>
    requires n <= |bs|
  {
    if n == 0 then []
    else AllTimes(bs, n - 1) + (if IsRequest(bs[n - 1].event) then [bs[n - 1].event.responseTime] else [])
  }

  lemma {:induction false} AllTimesPrefix(a: seq<Booking>, b: seq<Booking>, n: nat)
    requires n <= |a| <= |b| && a == b[..|a|]
    ensures AllTimes(a, n) == AllTimes(b, n)
  {
    if n > 0 {
      AllTimesPrefix(a, b, n - 1);
    }
  }

  lemma TotalRequestHolds(s: Stats, b: Book, step: Step, digest: Digest)
    requires IsRequest(step.event) && KeyHolds(s.total, AllTimes(b.pending, |b.pending|))
    ensures var after := Record(b, step);
            KeyHolds(Turn(s, step, digest).total, AllTimes(after.pending, |after.pending|))
  {
    hide Logged, Failed, KeyHolds, BlankAt, Found, Occurred;
    var ev, clock, times := step.event, step.clock, AllTimes(b.pending, |b.pending|);
    AllTimesPrefix(b.pending, Record(b, step).pending, |b.pending|);
    LoggedHolds(s.total, times, ev.responseTime, if ev.Success? then ev.responseLength else 0,
                clock(OfTotal, RequestTime));
  }

  /** The total shows the minimum of all pending times. */
  lemma {:induction false} TotalHoldsTimes(start: Clock, steps: seq<Step>, n: nat, digest: Digest)
    requires n <= |steps|
    ensures var b := BookAfter(steps, n);
            KeyHolds(After(NewStats(start), steps, n, digest).total, AllTimes(b.pending, |b.pending|))
  {
    hide KeyHolds, Turn, Record, NewStats;
    if n == 0 {
      BlankTotalHolds(start);
    } else {
      var s, b := After(NewStats(start), steps, n - 1, digest), BookAfter(steps, n - 1);
      if IsRequest(steps[n - 1].event) {
        TotalHoldsTimes(start, steps, n - 1, digest);
        TotalRequestHolds(s, b, steps[n - 1], digest);
      } else {
        TotalResetHolds(s, b, steps[n - 1], digest);
      }
    }
  }

  lemma BlankTotalHolds(start: Clock)
    ensures KeyHolds(NewStats(start).total, [])
  {
  }

  lemma TotalResetHolds(s: Stats, b: Book, step: Step, digest: Digest)
    requires !IsRequest(step.event)
    ensures Record(b, step).pending == [] && KeyHolds(Turn(s, step, digest).total, [])
  {
  }

  // ---------------------------------------------------------------------------------------------
  // All entries of one name
  // ---------------------------------------------------------------------------------------------

  /** One of the leasts of a map, and below all of them. */
  ghost predicate BoundsAll(m: map<string, Tally>, least: Option<int>) {
    && (least.Some? ==> exists k :: k in m && m[k].least == least)
    && (forall k :: k in m && m[k].least.Some? ==> least.Some? && least.value <= m[k].least.value)
  }

  lemma BoundsOneMore(m: map<string, Tally>, k: string, rest: Option<int>)
    requires k in m && BoundsAll(m - {k}, rest)
    ensures BoundsAll(m, Lesser(m[k].least, rest))
  {
    var others := m - {k};
    if rest.Some? {
      var j :| j in others && others[j].least == rest;
      assert m[j] == others[j];
    }
    forall j | j in m && j != k
      ensures j in others && m[j] == others[j]
    {
    }
  }

  lemma {:induction false} JoinAllLeast(m: map<string, Tally>)
    ensures BoundsAll(m, JoinAll(m).least)
    decreases |m|
  {
    hide Join;
    if m != map[] {
      var k :| k in m && JoinAll(m) == Join(m[k], JoinAll(m - {k}));
      hide JoinAll, BoundsAll;
      JoinAllLeast(m - {k});
      PlainJoin(m[k], JoinAll(m - {k}));
      BoundsOneMore(m, k, JoinAll(m - {k}).least);
    }
  }

  /** A time of a name is the time of some booking, and of its key. */
  lemma {:induction false} TimeIsBooked(bs: seq<Booking>, n: nat, name: string, x: int)
    requires n <= |bs| && x in TimesOf(bs, n, name)
    ensures exists i :: 0 <= i < n && bs[i].owner == name && IsRequest(bs[i].event) && bs[i].event.responseTime == x
  {
    var b := bs[n - 1];
    if b.owner == name && IsRequest(b.event) && b.event.responseTime == x {
    } else {
      TimeIsBooked(bs, n - 1, name, x);
    }
  }

  lemma {:induction false} KeyTimeIsBooked(bs: seq<Booking>, n: nat, key: string, x: int)
    requires n <= |bs| && x in TimesOfKey(bs, n, key)
    ensures exists i ::
              0 <= i < n && IsRequest(bs[i].event) && KeyOf(bs[i].event) == key && bs[i].event.responseTime == x
  {
    var ev := bs[n - 1].event;
    if IsRequest(ev) && KeyOf(ev) == key && ev.responseTime == x {
    } else {
      KeyTimeIsBooked(bs, n - 1, key, x);
    }
  }

  lemma {:induction false} BookedTimeIn(bs: seq<Booking>, n: nat, i: nat)
    requires i < n <= |bs| && IsRequest(bs[i].event)
    ensures bs[i].event.responseTime in TimesOf(bs, n, bs[i].owner)
    ensures bs[i].event.responseTime in TimesOfKey(bs, n, KeyOf(bs[i].event))
  {
    if i < n - 1 {
      BookedTimeIn(bs, n - 1, i);
    }
  }

  /** The last time of a name is the last time of the key it came with. */
  lemma {:induction false} LastTime(b: Book, n: nat, name: string) returns (i: nat)
    requires Owned(b) && n <= |b.pending| && TimesOf(b.pending, n, name) != []
    ensures i < n && b.pending[i].owner == name
    ensures var times, mine := TimesOf(b.pending, n, name), TimesOfKey(b.pending, n, KeyOf(b.pending[i].event));
            mine != [] && mine[|mine| - 1] == times[|times| - 1]
  {
    if b.pending[n - 1].owner == name {
      i := n - 1;
    } else {
      i := LastTime(b, n - 1, name);
    }
  }

  /** The entry of a booking's key shows one of the key's times, and the least of them if that is sure. */
  lemma EntryOfBooking(s: Stats, b: Book, i: nat)
    requires KeysHold(s, b) && i < |b.pending|
    ensures var ev := b.pending[i].event;
            IsRequest(ev) && KeyOf(ev) in s.entries
    ensures var ev := b.pending[i].event;
            var e, times := s.entries[KeyOf(ev)], TimesOfKey(b.pending, |b.pending|, KeyOf(ev));
            && e.name == b.pending[i].owner && e.numRequests > 0
            && ev.responseTime in times && e.minResponseTime in times
            && (Sure(times) ==> IsMinimum(times, e.minResponseTime))
  {
    hide Sure, Shown, IsMinimum;
    var ev := b.pending[i].event;
    BookedTimeIn(b.pending, |b.pending|, i);
    MinimumIsExactIff(TimesOfKey(b.pending, |b.pending|, KeyOf(ev)));
  }

  lemma KeyTimeIsOfName(s: Stats, b: Book, k: string, x: int)
    requires KeysHold(s, b) && k in s.entries && x in TimesOfKey(b.pending, |b.pending|, k)
    ensures x in TimesOf(b.pending, |b.pending|, s.entries[k].name)
  {
    var bs := b.pending;
    KeyTimeIsBooked(bs, |bs|, k, x);
    var i :| 0 <= i < |bs| && IsRequest(bs[i].event) && KeyOf(bs[i].event) == k && bs[i].event.responseTime == x;
    BookedTimeIn(bs, |bs|, i);
  }

  /** Times that are not sure are none of them negative, and one is zero. */
  lemma UnsureTimes(times: seq<int>)
    requires !Sure(times)
    ensures 0 in times && (forall i :: 0 <= i < |times| ==> times[i] >= 0) && times[|times| - 1] > 0
  {
  }

  /** Sure times have a time at or below zero that its own key is sure of, unless every key is sure. */
  lemma SureBooking(b: Book, name: string, x: int) returns (i: nat)
    requires Owned(b) && x >= 0
    requires 0 in TimesOf(b.pending, |b.pending|, name) && Sure(TimesOf(b.pending, |b.pending|, name))
    ensures i < |b.pending| && b.pending[i].owner == name
    ensures var times := TimesOfKey(b.pending, |b.pending|, KeyOf(b.pending[i].event));
            Sure(times) && exists j :: 0 <= j < |times| && times[j] <= x
  {
    hide Owned;
    var bs, times := b.pending, TimesOf(b.pending, |b.pending|, name);
    if HasNegative(times) {
      var j :| 0 <= j < |times| && times[j] < 0;
      TimeIsBooked(bs, |bs|, name, times[j]);
      i :| 0 <= i < |bs| && bs[i].owner == name && IsRequest(bs[i].event) && bs[i].event.responseTime == times[j];
      BookedTimeIn(bs, |bs|, i);
    } else {
      i := LastTime(b, |bs|, name);
    }
  }

  /** Some entry of the name shows a minimum, and it is not above x if the times of the name are sure. */
  lemma EntryBelow(s: Stats, b: Book, name: string, x: int) returns (k: string)
    requires KeysHold(s, b) && x in TimesOf(b.pending, |b.pending|, name)
    ensures k in s.entries && s.entries[k].name == name && s.entries[k].numRequests > 0
    ensures Sure(TimesOf(b.pending, |b.pending|, name)) ==> s.entries[k].minResponseTime <= x
  {
    hide Shown, Sure, KeyHolds, TimesOf, TimesOfKey, HasNegative;
    var bs, times := b.pending, TimesOf(b.pending, |b.pending|, name);
    TimeIsBooked(bs, |bs|, name, x);
    var i :| 0 <= i < |bs| && bs[i].owner == name && IsRequest(bs[i].event) && bs[i].event.responseTime == x;
    EntryOfBooking(s, b, i);
    k := KeyOf(bs[i].event);
    var mine := TimesOfKey(bs, |bs|, k);
    if Sure(times) && !Sure(mine) {
      UnsureTimes(mine);
      KeyTimeIsOfName(s, b, k, 0);
      i := SureBooking(b, name, x);
      EntryOfBooking(s, b, i);
      k := KeyOf(bs[i].event);
    }
  }

  /** The minima of the entries of a name fit the pending times of that name, whatever their methods. */
  lemma LeastFits(s: Stats, b: Book, name: string)
    requires KeysHold(s, b)
    ensures Fits(JoinAll(Parts(s.entries, Named(name), true)).least, TimesOf(b.pending, |b.pending|, name))
  {
    hide JoinAll, Sure, Shown;
    var bs, parts := b.pending, Parts(s.entries, Named(name), true);
    var times, least := TimesOf(bs, |bs|, name), JoinAll(parts).least;
    JoinAllLeast(parts);
    if least.Some? {
      var k :| k in parts && parts[k].least == least;
      var mine := TimesOfKey(bs, |bs|, k);
      MinimumIsExactIff(mine);
      KeyTimeIsOfName(s, b, k, Shown(mine));
    }
    forall i | 0 <= i < |times|
      ensures least.Some? && (Sure(times) ==> least.value <= times[i])
    {
      var k := EntryBelow(s, b, name, times[i]);
      assert parts[k].least == Some(s.entries[k].minResponseTime);
    }
    assert times != [] ==> times[0] in times;
  }
}
