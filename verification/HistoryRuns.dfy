/** What a row keeps of its history, over whole runs: its time stamps and its failures by second. */
module HistoryRuns {
  import opened Counters
  import opened EntryMinima
  import opened Minimums
  import opened Options
  import opened OutputRows
  import opened ReportPoints
  import opened Rounding
  import opened RowHistory
  import opened RowTallies
  import opened StatsModel
  import opened StatsRuns
  import opened Summary
  import opened SummaryRuns
  import opened Tallies

  // ---------------------------------------------------------------------------------------------
  // Failures by second
  // ---------------------------------------------------------------------------------------------

  ghost predicate CleanEntries(es: seq<Entry>, percentTime: int) {
    forall i :: 0 <= i < |es| ==> CleanRow(RowOf(es[i], percentTime), percentTime)
  }

  lemma ActiveIsClean(e: Entry, percentTime: int)
    requires Consistent(e) && Active(e)
    ensures CleanRow(RowOf(e, percentTime), percentTime)
  {
    hide SumOf, TallyOf;
    ActiveRowIsGood(e, percentTime, Everyone);
  }

  lemma {:induction false} RowsAreClean(s: Stats, order: seq<string>, n: nat, percentTime: int)
    requires Healthy(s) && Enumerates(order, s.entries.Keys) && n <= |order|
    ensures CleanEntries(Rows(s.entries, order, n), percentTime)
  {
    hide CleanRow, Consistent, RowOf, Active;
    if n > 0 {
      RowsAreClean(s, order, n - 1, percentTime);
      if Active(s.entries[order[n - 1]]) {
        ActiveIsClean(s.entries[order[n - 1]], percentTime);
      }
    }
  }

  lemma {:induction false} SentIsClean(start: Clock, steps: seq<Step>, n: nat, digest: Digest, percentTime: int)
    requires n <= |steps| && Feasible(NewStats(start), steps, n, digest)
    ensures forall i :: 0 <= i < |Sent(NewStats(start), steps, n, digest)| ==>
              CleanEntries(Sent(NewStats(start), steps, n, digest)[i].stats, percentTime)
  {
    hide NewStats, After, CleanEntries, Healthy, Enumerates, Rows;
    if n > 0 {
      SentIsClean(start, steps, n - 1, digest, percentTime);
      StatsMirrorBook(start, steps, n - 1, digest, Everyone);
      if steps[n - 1].event.Tick? {
        var s, order := After(NewStats(start), steps, n - 1, digest), steps[n - 1].event.order;
        RowsAreClean(s, order, |order|, percentTime);
      }
    }
  }

  lemma {:induction false} GroupFrom(rows: seq<Row>, name: string, n: nat)
    requires n <= |rows|
    ensures forall i :: 0 <= i < |RowGroup(rows, name, n)| ==> RowGroup(rows, name, n)[i] in rows
  {
    if n > 0 {
      GroupFrom(rows, name, n - 1);
    }
  }

  lemma GroupIsClean(es: seq<Entry>, name: string, percentTime: int)
    requires CleanEntries(es, percentTime)
    ensures var rows := Decoded(es, percentTime); CleanRows(RowGroup(rows, name, |rows|), percentTime)
  {
    hide CleanRow, RowOf;
    var rows := Decoded(es, percentTime);
    var group := RowGroup(rows, name, |rows|);
    GroupFrom(rows, name, |rows|);
    forall i | 0 <= i < |group|
      ensures CleanRow(group[i], percentTime)
    {
      var k :| 0 <= k < |rows| && rows[k] == group[i];
    }
  }

  lemma CleanConcat(a: seq<Row>, b: seq<Row>, percentTime: int)
    requires CleanRows(a, percentTime) && CleanRows(b, percentTime)
    ensures CleanRows(a + b, percentTime)
  {
    hide CleanRow;
  }

  lemma {:induction false} ReportedIsClean(reports: seq<ReportData>, n: nat, name: string, percentTime: int)
    requires n <= |reports| && forall i :: 0 <= i < n ==> CleanEntries(reports[i].stats, percentTime)
    ensures CleanRows(ReportedAs(reports, n, name, percentTime), percentTime)
  {
    hide CleanRow, CleanEntries, RowGroup, Decoded;
    if n > 0 {
      ReportedIsClean(reports, n - 1, name, percentTime);
      var rows := Decoded(reports[n - 1].stats, percentTime);
      GroupIsClean(reports[n - 1].stats, name, percentTime);
      CleanConcat(ReportedAs(reports, n - 1, name, percentTime), RowGroup(rows, name, |rows|), percentTime);
    }
  }

  /**
   * Over a whole run the failures by second of a row add up to its failures, if and only if no second
   * with failures occurs in two of the entries reported under its name.
   */
  lemma FailuresBySecondAddUpIff(start: Clock, steps: seq<Step>, n: nat, digest: Digest,
      views: seq<SummaryView>, users: seq<int>, percentTime: int, name: string)
    requires n <= |steps| && Feasible(NewStats(start), steps, n, digest)
    requires Chain(Sent(NewStats(start), steps, n, digest), views, users, percentTime)
    ensures |views| == |Sent(NewStats(start), steps, n, digest)| + 1
    ensures var reports := Sent(NewStats(start), steps, n, digest);
            var os, head := ReportedAs(reports, |reports|, name, percentTime), HeadOf(views[|views| - 1].stats, name);
            && (head.Some? <==> os != [])
            && (head.Some? ==> (AddsUp(head.value.base) <==> NoSharedSecond(os, |os|)))
  {
    hide Chain, Feasible, NewStats, Sent, HeadOf, MergeOnto, ReportedAs, AddsUp, NoSharedSecond, CleanEntries, CleanRow;
    var reports := Sent(NewStats(start), steps, n, digest);
    ChainLength(reports, views, users, percentTime);
    RowHasFirstStamps(reports, views, users, percentTime, |reports|, name);
    RowIsHistory(reports, views, users, percentTime, |reports|, name);
    SentIsClean(start, steps, n, digest, percentTime);
    ReportedIsClean(reports, |reports|, name, percentTime);
    var os := ReportedAs(reports, |reports|, name, percentTime);
    if os != [] {
      MergeAddsUpIff(os, |os|, percentTime);
    }
  }

  // ---------------------------------------------------------------------------------------------
  // The last request
  // ---------------------------------------------------------------------------------------------

  /** The second read for the last of the first n bookings of a key, and of a name. */
  function LastSecondOfKey(bs: seq<Booking>, n: nat, key: string): int
    requires n <= |bs|
  {
    if n == 0 then 0
    else if IsRequest(bs[n - 1].event) && KeyOf(bs[n - 1].event) == key then bs[n - 1].requestTime
    else LastSecondOfKey(bs, n - 1, key)
  }

  function LastSecondOf(bs: seq<Booking>, n: nat, name: string): int
    requires n <= |bs|
  {
    if n == 0 then 0
    else if IsRequest(bs[n - 1].event) && bs[n - 1].owner == name then bs[n - 1].requestTime
    else LastSecondOf(bs, n - 1, name)
  }

  lemma {:induction false} LastSecondPrefix(a: seq<Booking>, b: seq<Booking>, n: nat, key: string)
    requires n <= |a| <= |b| && a == b[..|a|]
    ensures LastSecondOfKey(a, n, key) == LastSecondOfKey(b, n, key)
  {
    if n > 0 {
      LastSecondPrefix(a, b, n - 1, key);
    }
  }

  lemma {:induction false} NeverResetLast(bs: seq<Booking>, n: nat, name: string)
    requires n <= |bs|
    ensures NeverReset(bs, n, name).lastRequestTimestamp == LastSecondOf(bs, n, name)
  {
    hide Bucket, Bump, NewMinimum;
    if n > 0 {
      NeverResetLast(bs, n - 1, name);
    }
  }

  /** Every entry that counts requests has the second of the last pending booking of its key. */
  ghost predicate LastHolds(s: Stats, b: Book) {
    forall k :: k in s.entries && s.entries[k].numRequests > 0 ==>
      s.entries[k].lastRequestTimestamp == LastSecondOfKey(b.pending, |b.pending|, k)
  }

  lemma LoggedLast(e: Entry, time: int, length: int, now: int)
    ensures Logged(e, time, length, now).lastRequestTimestamp == now
    ensures forall at :: Failed(Logged(e, time, length, now), at).lastRequestTimestamp == now
  {
    hide Bump, Bucket, NewMinimum;
  }

  lemma RequestLast(s: Stats, b: Book, step: Step, digest: Digest)
    requires LastHolds(s, b) && IsRequest(step.event)
    ensures LastHolds(Turn(s, step, digest), Record(b, step))
  {
    hide Turn, Logged, Failed, BlankAt;
    var ev, r, after := step.event, Turn(s, step, digest), Record(b, step);
    var e := Found(s, ev.name, ev.requestMethod, step.clock);
    RequestAtKey(s, step, digest);
    LoggedLast(e, ev.responseTime, if ev.Success? then ev.responseLength else 0,
               step.clock(OfEntry(KeyOf(ev)), RequestTime));
    forall k | k in r.entries && r.entries[k].numRequests > 0
      ensures r.entries[k].lastRequestTimestamp == LastSecondOfKey(after.pending, |after.pending|, k)
    {
      LastSecondPrefix(b.pending, after.pending, |b.pending|, k);
    }
  }

  lemma ResetLast(s: Stats, b: Book, step: Step, digest: Digest)
    requires !IsRequest(step.event) && Healthy(s)
    ensures LastHolds(Turn(s, step, digest), Record(b, step))
  {
    hide SumOf;
  }

  lemma {:induction false} EntriesHoldLast(start: Clock, steps: seq<Step>, n: nat, digest: Digest)
    requires n <= |steps|
    ensures LastHolds(After(NewStats(start), steps, n, digest), BookAfter(steps, n))
  {
    hide Turn, Record, LastHolds, Healthy, NewStats;
    if n == 0 {
      NothingLast(start);
    } else {
      EntriesHoldLast(start, steps, n - 1, digest);
      StatsMirrorBook(start, steps, n - 1, digest, Everyone);
      var s, b := After(NewStats(start), steps, n - 1, digest), BookAfter(steps, n - 1);
      if IsRequest(steps[n - 1].event) {
        RequestLast(s, b, steps[n - 1], digest);
      } else {
        ResetLast(s, b, steps[n - 1], digest);
      }
    }
  }

  lemma NothingLast(start: Clock)
    ensures LastHolds(NewStats(start), EMPTY_BOOK)
  {
  }

  /** An entry of the name that has something to report. */
  predicate Reports(entries: map<string, Entry>, key: string, name: string) {
    key in entries && entries[key].name == name && Active(entries[key])
  }

  /** The rows of the name, of these entries, start with this row, or there are none. */
  predicate StartsWith(es: seq<Entry>, name: string, percentTime: int, first: Option<Row>) {
    var rows := Decoded(es, percentTime);
    var group := RowGroup(rows, name, |rows|);
    first == if group == [] then None else Some(group[0])
  }

  lemma NothingStarts(name: string, percentTime: int)
    ensures StartsWith([], name, percentTime, None)
  {
  }

  lemma OneMoreStarts(es: seq<Entry>, e: Entry, name: string, percentTime: int, first: Option<Row>)
    requires StartsWith(es, name, percentTime, first)
    ensures StartsWith(es + [e], name, percentTime,
                       if first.None? && e.name == name then Some(RowOf(e, percentTime)) else first)
  {
    hide RowOf, Decoded, RowGroup;
    OneMoreDecoded(es, e, name, percentTime);
  }

  /** The first entry of the name in visiting order gives the first reported row of that name. */
  lemma {:induction false} FirstVisitedIsFirstRow(entries: map<string, Entry>, order: seq<string>, j: nat, n: nat,
                                                  name: string, percentTime: int)
    requires Listed(order, entries.Keys) && j < |order| && n <= |order|
    requires Reports(entries, order[j], name) && forall i :: 0 <= i < j ==> !Reports(entries, order[i], name)
    ensures StartsWith(Rows(entries, order, n), name, percentTime,
                       if n <= j then None else Some(RowOf(entries[order[j]], percentTime)))
  {
    hide Active, StartsWith, RowOf;
    if n == 0 {
      NothingStarts(name, percentTime);
    } else {
      FirstVisitedIsFirstRow(entries, order, j, n - 1, name, percentTime);
      var e, first := entries[order[n - 1]], if n - 1 <= j then None else Some(RowOf(entries[order[j]], percentTime));
      OneMoreStarts(Rows(entries, order, n - 1), e, name, percentTime, first);
      assert Rows(entries, order, n - 1) + [] == Rows(entries, order, n - 1);
    }
  }

  lemma OneMoreDecoded(es: seq<Entry>, e: Entry, name: string, percentTime: int)
    ensures var rows, more := Decoded(es, percentTime), Decoded(es + [e], percentTime);
            RowGroup(more, name, |more|) ==
            RowGroup(rows, name, |rows|) + (if e.name == name then [RowOf(e, percentTime)] else [])
  {
    hide RowOf;
    var rows, more := Decoded(es, percentTime), Decoded(es + [e], percentTime);
    GroupPrefix(rows, more, name, |rows|);
    RowKeepsName(e, percentTime);
  }

  lemma RowKeepsName(e: Entry, percentTime: int)
    ensures RowOf(e, percentTime).base == e
  {
  }

  lemma {:induction false} ReportedPrefix(a: seq<ReportData>, b: seq<ReportData>, m: nat, n: nat, name: string,
                                          percentTime: int)
    requires a <= b && m <= |a| && m <= n <= |b|
    ensures ReportedAs(a, m, name, percentTime) <= ReportedAs(b, n, name, percentTime)
    decreases n
  {
    hide RowGroup, Decoded;
    if m < n {
      ReportedPrefix(a, b, m, n - 1, name, percentTime);
    } else if n > 0 {
      ReportedPrefix(a, b, m - 1, n - 1, name, percentTime);
      ReportedSame(a, b, m, name, percentTime);
    }
  }

  lemma {:induction false} ReportedSame(a: seq<ReportData>, b: seq<ReportData>, n: nat, name: string, percentTime: int)
    requires a <= b && n <= |a|
    ensures ReportedAs(a, n, name, percentTime) == ReportedAs(b, n, name, percentTime)
  {
    hide RowGroup, Decoded;
    if n > 0 {
      ReportedSame(a, b, n - 1, name, percentTime);
    }
  }

  /** Of the keys in this order, the j-th is the first owned by the name with requests pending. */
  predicate FirstVisited(b: Book, order: seq<string>, j: nat, name: string) {
    && j < |order| && HasPending(b, order[j], name)
    && forall i :: 0 <= i < j ==> !HasPending(b, order[i], name)
  }

  predicate HasPending(b: Book, key: string, name: string) {
    key in b.owners && b.owners[key] == name && TimesOfKey(b.pending, |b.pending|, key) != []
  }

  lemma PendingReports(s: Stats, b: Book, key: string, name: string)
    requires Healthy(s) && KeysHold(s, b)
    ensures HasPending(b, key, name) <==> Reports(s.entries, key, name)
  {
    hide SumOf, Shown;
  }

  /** The first report with the name brings its first visited entry as the first reported row. */
  lemma FirstReportOfName(start: Clock, steps: seq<Step>, i: nat, digest: Digest, percentTime: int, name: string,
                          j: nat)
    requires i < |steps| && steps[i].event.Tick?
    requires Enabled(After(NewStats(start), steps, i, digest), steps[i])
    requires FirstVisited(BookAfter(steps, i), steps[i].event.order, j, name)
    ensures var s, b, order := After(NewStats(start), steps, i, digest), BookAfter(steps, i), steps[i].event.order;
            var rows := Decoded(ReportOf(s, order).stats, percentTime);
            var group := RowGroup(rows, name, |rows|);
            && group != []
            && group[0].base.lastRequestTimestamp == LastSecondOfKey(b.pending, |b.pending|, order[j])
  {
    hide After, BookAfter, NewStats, Healthy, KeysHold, RowOf, Decoded, RowGroup, HasPending, Rows;
    var s, b, order := After(NewStats(start), steps, i, digest), BookAfter(steps, i), steps[i].event.order;
    StatsMirrorBook(start, steps, i, digest, Everyone);
    EntriesHoldTimes(start, steps, i, digest);
    EntriesHoldLast(start, steps, i, digest);
    forall k | 0 <= k <= j
      ensures HasPending(b, order[k], name) <==> Reports(s.entries, order[k], name)
    {
      PendingReports(s, b, order[k], name);
    }
    FirstVisitedIsFirstRow(s.entries, order, j, |order|, name, percentTime);
    ActiveCounts(s, order[j]);
    RowKeepsName(s.entries[order[j]], percentTime);
  }

  lemma ActiveCounts(s: Stats, key: string)
    requires Healthy(s) && key in s.entries && Active(s.entries[key])
    ensures s.entries[key].numRequests > 0
  {
    hide SumOf;
  }

  /** As long as nothing is delivered under a name, nothing was reported under it. */
  lemma NothingReportedYet(start: Clock, steps: seq<Step>, i: nat, digest: Digest,
      views: seq<SummaryView>, users: seq<int>, percentTime: int, name: string)
    requires i <= |steps| && Feasible(NewStats(start), steps, i, digest)
    requires Chain(Sent(NewStats(start), steps, i, digest), views, users, percentTime)
    requires var bs := BookAfter(steps, i).delivered; TimesOf(bs, |bs|, name) == []
    ensures var reports := Sent(NewStats(start), steps, i, digest);
            ReportedAs(reports, |reports|, name, percentTime) == []
  {
    hide Chain, Feasible, NewStats, Sent, BookAfter, ReportedAs, HeadOf, NeverReset, ShowsSame, AllRows, GoodRows,
         Booked, DistinctNames, TimesOf;
    var reports := Sent(NewStats(start), steps, i, digest);
    ChainLength(reports, views, users, percentTime);
    var v := views[|reports|];
    SummaryMirrorsBook(start, steps, i, digest, views, users, percentTime, Named(name));
    RowOfDelivered(v, BookAfter(steps, i), percentTime, name);
    RowHasFirstStamps(reports, views, users, percentTime, |reports|, name);
    HeadIsFirst(v.stats, name);
  }

  lemma ChainUpTo(reports: seq<ReportData>, views: seq<SummaryView>, users: seq<int>, percentTime: int, m: nat)
    requires Chain(reports, views, users, percentTime) && m <= |reports|
    ensures Chain(reports[..m], views[..m + 1], users[..m], percentTime)
  {
    hide Absorbed;
  }

  /**
   * The last request a row speaks of is the last one of the first entry ever reported under its name.
   * It is that of a never-reset entry, fed all delivered events of the name, if and only if that
   * entry's last request and the last one delivered under the name read the same second.
   */
  lemma LastRequestIff(start: Clock, steps: seq<Step>, n: nat, digest: Digest,
      views: seq<SummaryView>, users: seq<int>, percentTime: int, name: string, i: nat, j: nat)
    requires i < n <= |steps| && steps[i].event.Tick? && Feasible(NewStats(start), steps, n, digest)
    requires Chain(Sent(NewStats(start), steps, n, digest), views, users, percentTime)
    requires var bs := BookAfter(steps, i).delivered; TimesOf(bs, |bs|, name) == []
    requires FirstVisited(BookAfter(steps, i), steps[i].event.order, j, name)
    ensures |views| > 0 && HeadOf(views[|views| - 1].stats, name).Some?
    ensures var row := HeadOf(views[|views| - 1].stats, name).value.base;
            var b, bs := BookAfter(steps, i), BookAfter(steps, n).delivered;
            var first := LastSecondOfKey(b.pending, |b.pending|, steps[i].event.order[j]);
            && row.lastRequestTimestamp == first
            && (row.lastRequestTimestamp == NeverReset(bs, |bs|, name).lastRequestTimestamp <==>
                  first == LastSecondOf(bs, |bs|, name))
  {
    hide Chain, NewStats, BookAfter, ReportedAs, HeadOf, NeverReset, TimesOf, FirstVisited, RowGroup, Decoded, After,
         Enumerates, ReportOf, LastSecondOfKey, LastSecondOf;
    var reports := Sent(NewStats(start), steps, n, digest);
    ChainLength(reports, views, users, percentTime);
    FeasiblePrefix(NewStats(start), steps, i + 1, n, digest);
    SentPrefix(NewStats(start), steps, i, n, digest);
    SentPrefix(NewStats(start), steps, i + 1, n, digest);
    var m := |Sent(NewStats(start), steps, i, digest)|;
    FirstReportOfName(start, steps, i, digest, percentTime, name, j);
    assert reports[..m] == Sent(NewStats(start), steps, i, digest);
    assert reports[m] == ReportOf(After(NewStats(start), steps, i, digest), steps[i].event.order);
    ChainUpTo(reports, views, users, percentTime, m);
    NothingReportedYet(start, steps, i, digest, views[..m + 1], users[..m], percentTime, name);
    FirstOfReported(reports, m, name, percentTime);
    RowHasFirstStamps(reports, views, users, percentTime, |reports|, name);
    var bs := BookAfter(steps, n).delivered;
    NeverResetLast(bs, |bs|, name);
  }

  lemma FirstOfReported(reports: seq<ReportData>, m: nat, name: string, percentTime: int)
    requires m < |reports| && ReportedAs(reports[..m], m, name, percentTime) == []
    requires var rows := Decoded(reports[m].stats, percentTime); RowGroup(rows, name, |rows|) != []
    ensures var rows, os := Decoded(reports[m].stats, percentTime), ReportedAs(reports, |reports|, name, percentTime);
            os != [] && os[0] == RowGroup(rows, name, |rows|)[0]
  {
    hide RowGroup, Decoded;
    ReportedSame(reports[..m], reports, m, name, percentTime);
    ReportedPrefix(reports, reports, m + 1, |reports|, name, percentTime);
  }
}
