/** Under which name a request is counted. */
module Attribution {
  import opened EntryMinima
  import opened ReportPoints
  import opened StatsModel
  import opened StatsRuns
  import opened Summary
  import opened SummaryRuns

  /** Turn i books its request on the owner of its key at that time. */
  function BookingAt(steps: seq<Step>, i: nat): Booking
    requires i < |steps| && IsRequest(steps[i].event)
  {
    BookingOn(OwnerOf(BookAfter(steps, i), KeyOf(steps[i].event), steps[i].event.name), steps[i])
  }

  /** The bookings made by the turns from one to another. */
  function Made(steps: seq<Step>, from: nat, n: nat): (bs: seq<Booking>)
    requires from <= n <= |steps|
    ensures forall i :: 0 <= i < |bs| ==> IsRequest(bs[i].event)
  {
    if n == from then []
    else Made(steps, from, n - 1) + (if IsRequest(steps[n - 1].event) then [BookingAt(steps, n - 1)] else [])
  }

  /** The requests of these turns, each booked on its own name. */
  function OwnBookings(steps: seq<Step>, from: nat, n: nat): (bs: seq<Booking>)
    requires from <= n <= |steps|
    ensures forall i :: 0 <= i < |bs| ==> IsRequest(bs[i].event) && bs[i].owner == bs[i].event.name
  {
    if n == from then []
    else
      var step := steps[n - 1];
      OwnBookings(steps, from, n - 1) + (if IsRequest(step.event) then [BookingOn(step.event.name, step)] else [])
  }

  lemma MadeNothing(steps: seq<Step>, from: nat)
    requires from <= |steps|
    ensures Made(steps, from, from) == []
  {
  }

  lemma MadeStep(steps: seq<Step>, from: nat, n: nat)
    requires from < n <= |steps|
    ensures !IsRequest(steps[n - 1].event) ==> Made(steps, from, n) == Made(steps, from, n - 1)
    ensures IsRequest(steps[n - 1].event) ==>
            Made(steps, from, n) == Made(steps, from, n - 1) + [BookingAt(steps, n - 1)]
  {
  }

  /** The turns from one to another lie between two clearings, and the first of them starts afresh. */
  predicate Unbroken(steps: seq<Step>, from: nat, n: nat) {
    && from <= n <= |steps|
    && (from == 0 || steps[from - 1].event.Clear?)
    && forall i :: from <= i < n ==> !steps[i].event.Clear?
  }

  /** Between clearings no request is lost, and right after a report all of them have been delivered. */
  lemma {:induction false} NothingIsLost(steps: seq<Step>, from: nat, n: nat)
    requires Unbroken(steps, from, n)
    ensures BookAfter(steps, n).delivered + BookAfter(steps, n).pending ==
            BookAfter(steps, from).delivered + Made(steps, from, n)
    ensures from < n && steps[n - 1].event.Tick? ==>
              BookAfter(steps, n).delivered == BookAfter(steps, from).delivered + Made(steps, from, n)
  {
    hide BookAfter, Made;
    if n == from {
      StartsAfresh(steps, from);
      MadeNothing(steps, from);
    } else {
      NothingIsLost(steps, from, n - 1);
      OneMoreBooked(steps, n);
      MadeStep(steps, from, n);
      var b := BookAfter(steps, n - 1);
      assert IsRequest(steps[n - 1].event) ==>
               b.delivered + (b.pending + [BookingAt(steps, n - 1)]) ==
                 b.delivered + b.pending + [BookingAt(steps, n - 1)];
    }
  }

  lemma StartsAfresh(steps: seq<Step>, from: nat)
    requires from <= |steps| && (from == 0 || steps[from - 1].event.Clear?)
    ensures BookAfter(steps, from).pending == [] && BookAfter(steps, from).owners == map[]
  {
  }

  lemma OneMoreBooked(steps: seq<Step>, n: nat)
    requires 0 < n <= |steps| && !steps[n - 1].event.Clear?
    ensures var before, after := BookAfter(steps, n - 1), BookAfter(steps, n);
            && (IsRequest(steps[n - 1].event) ==>
                  && after.delivered == before.delivered
                  && after.pending == before.pending + [BookingAt(steps, n - 1)]
                  && after.owners == before.owners[KeyOf(steps[n - 1].event) := BookingAt(steps, n - 1).owner])
            && (!IsRequest(steps[n - 1].event) ==>
                  && after.delivered == before.delivered + before.pending
                  && after.pending == [] && after.owners == before.owners)
  {
  }

  /** No two requests have the same name-and-method text but different names. */
  predicate NoCollision(bs: seq<Booking>)
    requires forall i :: 0 <= i < |bs| ==> IsRequest(bs[i].event)
  {
    forall i, j :: 0 <= i < |bs| && 0 <= j < |bs| && KeyOf(bs[i].event) == KeyOf(bs[j].event) ==>
      bs[i].event.name == bs[j].event.name
  }

  /** A key keeps its owner, who is the name of some request with that key. */
  ghost predicate OwnersStable(owners: map<string, string>, bs: seq<Booking>)
    requires forall i :: 0 <= i < |bs| ==> IsRequest(bs[i].event)
  {
    && (forall i :: 0 <= i < |bs| ==>
          KeyOf(bs[i].event) in owners && bs[i].owner == owners[KeyOf(bs[i].event)])
    && (forall k :: k in owners ==>
          exists i :: 0 <= i < |bs| && KeyOf(bs[i].event) == k && bs[i].event.name == owners[k])
  }

  /** The same requests at the same times, whoever owns them. */
  ghost predicate SameRequests(a: seq<Booking>, b: seq<Booking>) {
    |a| == |b| && forall i :: 0 <= i < |a| ==> a[i] == b[i].(owner := a[i].owner)
  }

  lemma {:induction false} OwnersAreStable(steps: seq<Step>, from: nat, n: nat)
    requires Unbroken(steps, from, n)
    ensures SameRequests(Made(steps, from, n), OwnBookings(steps, from, n))
    ensures OwnersStable(BookAfter(steps, n).owners, Made(steps, from, n))
  {
    hide OwnersStable, Record;
    if n == from {
      StartsAfresh(steps, from);
      NoOwners();
    } else {
      OwnersAreStable(steps, from, n - 1);
      OneMoreBooked(steps, n);
      MadeStep(steps, from, n);
      if IsRequest(steps[n - 1].event) {
        StableStep(BookAfter(steps, n - 1).owners, Made(steps, from, n - 1), BookingAt(steps, n - 1));
      }
    }
  }

  lemma NoOwners()
    ensures OwnersStable(map[], [])
  {
  }

  lemma StableStep(owners: map<string, string>, bs: seq<Booking>, b: Booking)
    requires (forall i :: 0 <= i < |bs| ==> IsRequest(bs[i].event)) && IsRequest(b.event)
    requires OwnersStable(owners, bs)
    requires b.owner == (if KeyOf(b.event) in owners then owners[KeyOf(b.event)] else b.event.name)
    ensures OwnersStable(owners[KeyOf(b.event) := b.owner], bs + [b])
  {
    var after, more := owners[KeyOf(b.event) := b.owner], bs + [b];
    assert more[|bs|] == b;
    forall k | k in after
      ensures exists i :: 0 <= i < |more| && KeyOf(more[i].event) == k && more[i].event.name == after[k]
    {
      if k in owners {
        var i :| 0 <= i < |bs| && KeyOf(bs[i].event) == k && bs[i].event.name == owners[k];
        assert more[i] == bs[i];
      }
    }
  }

  /**
   * Entries are kept by the concatenation of name and method. Between two clearings every request is
   * counted under its own name if and only if no two of them have equal concatenations with different
   * names.
   */
  lemma OwnNamesIffNoCollision(steps: seq<Step>, from: nat, n: nat)
    requires Unbroken(steps, from, n)
    ensures Made(steps, from, n) == OwnBookings(steps, from, n) <==> NoCollision(OwnBookings(steps, from, n))
  {
    hide BookAfter;
    OwnersAreStable(steps, from, n);
    var owners, made, own := BookAfter(steps, n).owners, Made(steps, from, n), OwnBookings(steps, from, n);
    if NoCollision(own) {
      forall i | 0 <= i < |own|
        ensures made[i] == own[i]
      {
        var k := KeyOf(made[i].event);
        var j :| 0 <= j < |made| && KeyOf(made[j].event) == k && made[j].event.name == owners[k];
        assert made[j].event == own[j].event && made[i].event == own[i].event;
      }
    } else {
      var i, j :| 0 <= i < |own| && 0 <= j < |own| && KeyOf(own[i].event) == KeyOf(own[j].event) &&
                  own[i].event.name != own[j].event.name;
      assert made[i].event == own[i].event && made[j].event == own[j].event;
      assert made[i].owner == made[j].owner;
    }
  }

  /** The failing case: a request named "ab" with method "c" is counted in an entry named "a". */
  lemma CollisionExample(start: Clock, clock: Clock, digest: Digest)
    ensures var steps := [Step(Success("bc", "a", 1, 0), clock), Step(Success("c", "ab", 1, 0), clock)];
            var entries := After(NewStats(start), steps, 2, digest).entries;
            entries.Keys == {"abc"} && entries["abc"].name == "a" && entries["abc"].numRequests == 2
  {
    hide Logged, BlankAt, NewStats;
    var first, second := Step(Success("bc", "a", 1, 0), clock), Step(Success("c", "ab", 1, 0), clock);
    assert KeyOf(first.event) == "abc" == KeyOf(second.event);
    RequestAtKey(NewStats(start), first, digest);
    RequestAtKey(Turn(NewStats(start), first, digest), second, digest);
    NoEntriesYet(start);
    OneMoreLogged();
    assert After(NewStats(start), [first, second], 0, digest) == NewStats(start);
    assert After(NewStats(start), [first, second], 1, digest) == Turn(NewStats(start), first, digest);
  }

  lemma NoEntriesYet(start: Clock)
    ensures NewStats(start).entries == map[]
  {
  }

  lemma OneMoreLogged()
    ensures forall e: Entry, time, length, now ::
              && Logged(e, time, length, now).numRequests == e.numRequests + 1
              && Logged(e, time, length, now).name == e.name
    ensures forall name, m, clock, who ::
              BlankAt(name, m, clock, who).numRequests == 0 && BlankAt(name, m, clock, who).name == name
  {
  }

  /**
   * For a run that is never cleared, ends with a report, and has no collision, the summary shows for
   * every name what one entry shows that is never reset and fed all requests of this name.
   */
  lemma RowsOfUnclearedRun(start: Clock, steps: seq<Step>, n: nat, digest: Digest,
      views: seq<SummaryView>, users: seq<int>, percentTime: int, name: string)
    requires Unbroken(steps, 0, n) && n > 0 && steps[n - 1].event.Tick? && NoCollision(OwnBookings(steps, 0, n))
    requires Feasible(NewStats(start), steps, n, digest)
    requires Chain(Sent(NewStats(start), steps, n, digest), views, users, percentTime)
    ensures |views| > 0 && ShowsBookings(views[|views| - 1], OwnBookings(steps, 0, n), percentTime, name)
  {
    hide Chain, Feasible, ShowsBookings, After, BookAfter, Made, OwnBookings;
    ReportPointsAreInvisible(start, steps, n, digest, views, users, percentTime, name);
    NothingIsLost(steps, 0, n);
    NoBookYet(steps);
    OwnNamesIffNoCollision(steps, 0, n);
    assert BookAfter(steps, n).delivered == OwnBookings(steps, 0, n);
  }

  lemma NoBookYet(steps: seq<Step>)
    ensures BookAfter(steps, 0) == EMPTY_BOOK
  {
  }
}
