/** The running summary over whole runs: what it holds after any number of reports. */
module SummaryRuns {
  import opened Counters
  import opened EntryMinima
  import opened Minimums
  import opened OutputRows
  import opened Percentiles
  import opened RowTallies
  import opened StatsModel
  import opened StatsRuns
  import opened Summary
  import opened Tallies

  /** What the summary holds: exactly the delivered events, in good rows with distinct names. */
  ghost predicate SummaryMirrors(v: SummaryView, b: Book, percentTime: int, scope: Scope) {
    && Plain(AllRows(v.stats, scope)) == Booked(b.delivered, scope)
    && (scope.Named? ==> Fits(AllRows(v.stats, scope).least, TimesOf(b.delivered, |b.delivered|, scope.name)))
    && GoodRows(v.stats, percentTime)
    && DistinctNames(v.stats)
  }

  lemma PartsWithoutMinima(entries: map<string, Entry>, scope: Scope)
    ensures Plain(JoinAll(Parts(entries, scope, true))) == JoinAll(Parts(entries, scope, false))
  {
    hide Plain, PartOf, JoinAll;
    forall k | k in entries
      ensures PartOf(entries[k], scope, false) == Plain(PartOf(entries[k], scope, true))
    {
      PlainPart(entries[k], scope);
    }
    PlainParts(Parts(entries, scope, true), Parts(entries, scope, false));
  }

  lemma ReportMirrored(v: SummaryView, b: Book, s: Stats, step: Step, users: int, percentTime: int, r: SummaryView,
                       scope: Scope)
    requires SummaryMirrors(v, b, percentTime, scope)
    requires Healthy(s) && Mirrors(s, b, scope) && KeysHold(s, b)
    requires step.event.Tick? && Enabled(s, step)
    requires Absorbed(v, ReportOf(s, step.event.order), users, percentTime, r)
    ensures SummaryMirrors(r, Record(b, step), percentTime, scope)
  {
    hide Healthy, AllRows, Booked, GoodRows, DistinctNames, JoinAll, Parts, KeysHold, Fits, TimesOf, Plain, Join,
         Absorbed, Rows;
    var data := ReportOf(s, step.event.order);
    var kept, reported := AllRows(v.stats, scope), JoinAll(Parts(s.entries, scope, true));
    ReportedRows(s, step.event.order, percentTime, scope);
    AbsorbedTally(v, data, users, percentTime, r, scope);
    PlainJoin(kept, reported);
    PartsWithoutMinima(s.entries, scope);
    BookedConcat(b.delivered, b.pending, scope);
    if scope.Named? {
      var before, after := TimesOf(b.delivered, |b.delivered|, scope.name), TimesOf(b.pending, |b.pending|, scope.name);
      LeastFits(s, b, scope.name);
      FitsTogether(kept.least, before, reported.least, after);
      TimesConcat(b.delivered, b.pending, |b.pending|, scope.name);
    }
  }

  // ---------------------------------------------------------------------------------------------
  // Whole runs
  // ---------------------------------------------------------------------------------------------

  /** The views of one output that receives the reports one after the other. */
  ghost predicate Chain(reports: seq<ReportData>, views: seq<SummaryView>, users: seq<int>, percentTime: int) {
    && |views| == |reports| + 1
    && |users| == |reports|
    && views[0] == NO_SUMMARY
    && forall i :: 0 <= i < |reports| ==> Absorbed(views[i], reports[i], users[i], percentTime, views[i + 1])
  }

  lemma ChainPrefix(reports: seq<ReportData>, views: seq<SummaryView>, users: seq<int>, percentTime: int)
    requires reports != [] && Chain(reports, views, users, percentTime)
    ensures var m := |reports| - 1;
            && Chain(reports[..m], views[..m + 1], users[..m], percentTime)
            && Absorbed(views[m], reports[m], users[m], percentTime, views[m + 1])
  {
    hide Absorbed;
  }

  lemma NoSummaryMirrors(percentTime: int, scope: Scope)
    ensures SummaryMirrors(NO_SUMMARY, EMPTY_BOOK, percentTime, scope)
  {
  }

  /** After every turn of the loop, the summary holds the events delivered so far. */
  lemma {:induction false} SummaryMirrorsBook(start: Clock, steps: seq<Step>, n: nat, digest: Digest,
      views: seq<SummaryView>, users: seq<int>, percentTime: int, scope: Scope)
    requires n <= |steps| && Feasible(NewStats(start), steps, n, digest)
    requires Chain(Sent(NewStats(start), steps, n, digest), views, users, percentTime)
    ensures SummaryMirrors(views[|views| - 1], BookAfter(steps, n), percentTime, scope)
  {
    hide SummaryMirrors, Turn, Healthy, Mirrors, KeysHold, Enabled, Chain, NewStats;
    ChainLength(Sent(NewStats(start), steps, n, digest), views, users, percentTime);
    if n == 0 {
      NoSummaryMirrors(percentTime, scope);
      ChainStarts(views, users, percentTime);
    } else {
      var step := steps[n - 1];
      if step.event.Tick? {
        var s := After(NewStats(start), steps, n - 1, digest);
        var reports := Sent(NewStats(start), steps, n, digest);
        var m := |reports| - 1;
        assert reports[..m] == Sent(NewStats(start), steps, n - 1, digest);
        ChainPrefix(reports, views, users, percentTime);
        SummaryMirrorsBook(start, steps, n - 1, digest, views[..m + 1], users[..m], percentTime, scope);
        StatsMirrorBook(start, steps, n - 1, digest, scope);
        EntriesHoldTimes(start, steps, n - 1, digest);
        ReportMirrored(views[m], BookAfter(steps, n - 1), s, step, users[m], percentTime, views[m + 1], scope);
      } else {
        SummaryMirrorsBook(start, steps, n - 1, digest, views, users, percentTime, scope);
        DeliveredUnchanged(views[|views| - 1], BookAfter(steps, n - 1), step, percentTime, scope);
      }
    }
  }

  lemma ChainStarts(views: seq<SummaryView>, users: seq<int>, percentTime: int)
    requires Chain([], views, users, percentTime)
    ensures |views| == 1 && views[0] == NO_SUMMARY
  {
  }

  lemma ChainLength(reports: seq<ReportData>, views: seq<SummaryView>, users: seq<int>, percentTime: int)
    requires Chain(reports, views, users, percentTime)
    ensures |views| == |reports| + 1 && |users| == |reports|
  {
  }

  lemma DeliveredUnchanged(v: SummaryView, b: Book, step: Step, percentTime: int, scope: Scope)
    requires !step.event.Tick? && SummaryMirrors(v, b, percentTime, scope)
    ensures SummaryMirrors(v, Record(b, step), percentTime, scope)
  {
    hide AllRows, Booked, GoodRows, DistinctNames, Fits;
  }

  // ---------------------------------------------------------------------------------------------
  // Totals, ratio and errors of the summary
  // ---------------------------------------------------------------------------------------------

  lemma {:induction false} SumsOfRows(rows: seq<Row>, n: nat)
    requires n <= |rows|
    ensures SumRequests(rows, n) == RowsTally(rows, n, Everyone).requests
    ensures SumFailures(rows, n) == RowsTally(rows, n, Everyone).failures
  {
    hide Plus;
    if n > 0 {
      SumsOfRows(rows, n - 1);
    }
  }

  lemma {:induction false} SumsInOrder(rows: seq<Row>, n: nat, percentTime: int)
    requires n <= |rows| && GoodRows(rows, percentTime)
    ensures 0 <= SumFailures(rows, n) <= SumRequests(rows, n)
  {
    hide RowOf;
    if n > 0 {
      SumsInOrder(rows, n - 1, percentTime);
      assert GoodRow(rows[n - 1], percentTime);
    }
  }

  lemma {:induction false} SumRpsConcat(a: seq<Row>, b: seq<Row>, n: nat)
    requires n <= |b|
    ensures SumRps(a + b, |a| + n) == SumRps(a, |a|) + SumRps(b, n)
  {
    if n == 0 {
      SumRpsSame(a, a + b, |a|);
    } else {
      SumRpsConcat(a, b, n - 1);
    }
  }

  lemma {:induction false} SumRpsSame(a: seq<Row>, b: seq<Row>, n: nat)
    requires n <= |a| <= |b| && forall i :: 0 <= i < n ==> a[i] == b[i]
    ensures SumRps(a, n) == SumRps(b, n)
  {
    if n > 0 {
      SumRpsSame(a, b, n - 1);
    }
  }

  lemma SumRpsWithout(s: seq<Row>, i: nat, rest: seq<Row>)
    requires i < |s| && rest == s[..i] + s[i + 1..]
    ensures SumRps(s, |s|) == SumRps(rest, |rest|) + s[i].rps
  {
    hide SumRps;
    var a, b := s[..i], s[i + 1..];
    SplitAt(s, i);
    SumRpsAround(a, s[i], b, s, rest);
  }

  lemma SumRpsAround(a: seq<Row>, r: Row, b: seq<Row>, s: seq<Row>, rest: seq<Row>)
    requires s == a + [r] + b && rest == a + b
    ensures SumRps(s, |s|) == SumRps(rest, |rest|) + r.rps
  {
    hide SumRps;
    SumRpsConcat(a + [r], b, |b|);
    SumRpsConcat(a, [r], 1);
    SumRpsConcat(a, b, |b|);
    SumRpsOne(r);
  }

  lemma SumRpsOne(r: Row)
    ensures SumRps([r], 1) == r.rps
  {
    assert SumRps([r], 0) == 0;
  }

  /** The order of the rows does not matter for their requests per second. */
  lemma {:induction false} SumRpsPermuted(s: seq<Row>, t: seq<Row>)
    requires multiset(s) == multiset(t)
    ensures SumRps(s, |s|) == SumRps(t, |t|)
    decreases |s|
  {
    hide SumRps;
    if s == [] {
      assert |multiset(t)| == 0;
    } else {
      assert s[0] in multiset(s);
      var i := IndexOf(s[0], t);
      var tail, rest := s[1..], t[..i] + t[i + 1..];
      DropHead(s);
      DropOne(t, i);
      assert tail == s[..0] + s[1..];
      SumRpsWithout(s, 0, tail);
      SumRpsWithout(t, i, rest);
      SumRpsPermuted(tail, rest);
    }
  }

  /** The counters of the summary beside its rows. */
  ghost predicate TotalsMirror(v: SummaryView, b: Book, key: string, digest: Digest) {
    && v.totalRequests == Booked(b.delivered, Everyone).requests
    && v.totalFailures == Booked(b.delivered, Everyone).failures
    && v.totalRequestCount == AllRows(v.stats, Everyone).requests
    && v.totalFailedCount == AllRows(v.stats, Everyone).failures
    && v.totalRps == SumRps(v.stats, |v.stats|)
    && 0.0 <= v.totalFailRatio <= 1.0
    && (v.totalRequestCount != 0 ==> v.totalFailRatio == v.totalFailedCount as real / v.totalRequestCount as real)
    && OccurrencesAt(v.errors, key) == FailuresWith(b.delivered, |b.delivered|, key, digest)
    && SumOf(Occurrences(v.errors)) == v.totalFailures
  }

  lemma ErrorsAdd(a: map<string, ErrorInfo>, o: map<string, ErrorInfo>, key: string)
    ensures OccurrencesAt(MergeErrors(a, o), key) == OccurrencesAt(a, key) + OccurrencesAt(o, key)
    ensures SumOf(Occurrences(MergeErrors(a, o))) == SumOf(Occurrences(a)) + SumOf(Occurrences(o))
  {
    assert Occurrences(MergeErrors(a, o)) == Plus(Occurrences(a), Occurrences(o));
    SumPlus(Occurrences(a), Occurrences(o));
  }

  lemma JoinCounts(a: Tally, b: Tally)
    ensures Join(a, b).requests == a.requests + b.requests && Join(a, b).failures == a.failures + b.failures
  {
  }

  lemma RatioInRange(failures: int, requests: int)
    requires 0 <= failures <= requests && requests != 0
    ensures 0.0 <= failures as real / requests as real <= 1.0
  {
  }

  lemma TotalCounts(s: Stats, t: Tally)
    requires Timeless(TallyOf(s.total, false)) == Timeless(t)
    ensures s.total.numRequests == t.requests && s.total.numFailures == t.failures
  {
  }

  lemma ReportTotals(v: SummaryView, b: Book, s: Stats, step: Step, users: int, percentTime: int, r: SummaryView,
                     key: string, digest: Digest)
    requires TotalsMirror(v, b, key, digest) && SummaryMirrors(v, b, percentTime, Everyone)
    requires Healthy(s) && Mirrors(s, b, Everyone) && ErrorsMatch(s, b, key, digest)
    requires step.event.Tick? && Enabled(s, step)
    requires Absorbed(v, ReportOf(s, step.event.order), users, percentTime, r)
    ensures TotalsMirror(r, Record(b, step), key, digest)
  {
    hide Healthy, AllRows, Booked, GoodRows, DistinctNames, MergeRows, StablySorted, JoinAll, Parts, TallyOf, Join,
         Timeless, SumRequests, SumFailures, SumRps, Rows, SumOf, Occurrences, OccurrencesAt, MergeErrors;
    var data := ReportOf(s, step.event.order);
    ReportedRows(s, step.event.order, percentTime, Everyone);
    AbsorbedTally(v, data, users, percentTime, r, Everyone);
    var os :| StablySorted(Decoded(data.stats, percentTime), os) && AbsorbedRows(v, data, users, percentTime, os, r);
    var merged := MergeRows(v.stats, os, |os|, percentTime);
    MergedSums(v, data, os, percentTime, r);
    BookedConcat(b.delivered, b.pending, Everyone);
    JoinCounts(Booked(b.delivered, Everyone), Booked(b.pending, Everyone));
    TotalCounts(s, Booked(b.pending, Everyone));
    FailuresConcat(b.delivered, b.pending, |b.pending|, key, digest);
    ErrorsAdd(v.errors, s.errors, key);
    if r.totalRequestCount != 0 {
      RatioInRange(r.totalFailedCount, r.totalRequestCount);
    }
  }

  /** The sums taken over the merged rows, before they are sorted. */
  lemma MergedSums(v: SummaryView, data: ReportData, os: seq<Row>, percentTime: int, r: SummaryView)
    requires GoodRows(v.stats, percentTime) && GoodRows(Decoded(data.stats, percentTime), percentTime)
    requires StablySorted(Decoded(data.stats, percentTime), os)
    requires StablySorted(MergeRows(v.stats, os, |os|, percentTime), r.stats)
    ensures var merged := MergeRows(v.stats, os, |os|, percentTime);
            && SumRequests(merged, |merged|) == AllRows(r.stats, Everyone).requests
            && SumFailures(merged, |merged|) == AllRows(r.stats, Everyone).failures
            && SumRps(merged, |merged|) == SumRps(r.stats, |r.stats|)
            && 0 <= SumFailures(merged, |merged|) <= SumRequests(merged, |merged|)
  {
    hide AllRows, GoodRows, MergeRows, StablySorted, SumRequests, SumFailures, SumRps;
    var merged := MergeRows(v.stats, os, |os|, percentTime);
    SortedKeepsGood(Decoded(data.stats, percentTime), os, percentTime, Everyone);
    MergeRowsTally(v.stats, os, |os|, percentTime, Everyone);
    SortedKeepsGood(merged, r.stats, percentTime, Everyone);
    AllRowsIs(merged, Everyone);
    SumsOfRows(merged, |merged|);
    SumsInOrder(merged, |merged|, percentTime);
    StablySortedIsPermutation(merged, r.stats);
    SumRpsPermuted(merged, r.stats);
  }

  lemma NoSummaryTotals(key: string, digest: Digest)
    ensures TotalsMirror(NO_SUMMARY, EMPTY_BOOK, key, digest)
  {
    assert Occurrences(map[]) == map[];
  }

  lemma TotalsUnchanged(v: SummaryView, b: Book, step: Step, key: string, digest: Digest)
    requires !step.event.Tick? && TotalsMirror(v, b, key, digest)
    ensures TotalsMirror(v, Record(b, step), key, digest)
  {
    hide AllRows, Booked, FailuresWith, SumOf;
  }

  lemma {:induction false} TotalsMirrorBook(start: Clock, steps: seq<Step>, n: nat, digest: Digest,
      views: seq<SummaryView>, users: seq<int>, percentTime: int, key: string)
    requires n <= |steps| && Feasible(NewStats(start), steps, n, digest)
    requires Chain(Sent(NewStats(start), steps, n, digest), views, users, percentTime)
    ensures TotalsMirror(views[|views| - 1], BookAfter(steps, n), key, digest)
  {
    hide TotalsMirror, SummaryMirrors, Turn, Healthy, Mirrors, Enabled, Chain, NewStats, Record, ReportOf;
    ChainLength(Sent(NewStats(start), steps, n, digest), views, users, percentTime);
    if n == 0 {
      NoSummaryTotals(key, digest);
      ChainStarts(views, users, percentTime);
    } else {
      var step := steps[n - 1];
      if step.event.Tick? {
        var s := After(NewStats(start), steps, n - 1, digest);
        var reports := Sent(NewStats(start), steps, n, digest);
        var m := |reports| - 1;
        assert reports[..m] == Sent(NewStats(start), steps, n - 1, digest);
        ChainPrefix(reports, views, users, percentTime);
        TotalsMirrorBook(start, steps, n - 1, digest, views[..m + 1], users[..m], percentTime, key);
        SummaryMirrorsBook(start, steps, n - 1, digest, views[..m + 1], users[..m], percentTime, Everyone);
        StatsMirrorBook(start, steps, n - 1, digest, Everyone);
        ErrorsAreConserved(start, steps, n - 1, key, digest);
        ReportTotals(views[m], BookAfter(steps, n - 1), s, step, users[m], percentTime, views[m + 1], key, digest);
      } else {
        TotalsMirrorBook(start, steps, n - 1, digest, views, users, percentTime, key);
        TotalsUnchanged(views[|views| - 1], BookAfter(steps, n - 1), step, key, digest);
      }
    }
  }

  /**
   * The summary agrees with itself and with what was delivered: names are distinct, every row's rates
   * and averages are those of its own counts and its requests add up over its seconds, the requests of
   * the rows add up to those of the total and their rates to the total rate, the fail ratio is a ratio,
   * and errors are conserved, key by key and altogether, over any number of reports.
   */
  lemma SummaryIsConsistent(start: Clock, steps: seq<Step>, n: nat, digest: Digest,
      views: seq<SummaryView>, users: seq<int>, percentTime: int, key: string)
    requires n <= |steps| && Feasible(NewStats(start), steps, n, digest)
    requires Chain(Sent(NewStats(start), steps, n, digest), views, users, percentTime)
    ensures var v := views[|views| - 1];
            var bs := BookAfter(steps, n).delivered;
            && v.totalRequestCount == v.totalRequests && v.totalFailedCount == v.totalFailures
            && v.totalRps == SumRps(v.stats, |v.stats|)
            && 0.0 <= v.totalFailRatio <= 1.0
            && (v.totalRequests != 0 ==> v.totalFailRatio == v.totalFailures as real / v.totalRequests as real)
            && DistinctNames(v.stats)
            && (forall i :: 0 <= i < |v.stats| ==> GoodRow(v.stats[i], percentTime) && OwnNumbers(v.stats[i]))
            && (users != [] ==> v.userCount == users[|users| - 1])
            && OccurrencesAt(v.errors, key) == FailuresWith(bs, |bs|, key, digest)
            && SumOf(Occurrences(v.errors)) == v.totalFailures
  {
    hide Chain, Feasible, AllRows, Booked, SumOf, RowOf, FailuresWith, After, BookAfter, GoodRow, OwnNumbers;
    var reports := Sent(NewStats(start), steps, n, digest);
    ChainLength(reports, views, users, percentTime);
    TotalsMirrorBook(start, steps, n, digest, views, users, percentTime, key);
    SummaryMirrorsBook(start, steps, n, digest, views, users, percentTime, Everyone);
    GoodRowsOwnNumbers(views[|views| - 1].stats, percentTime);
    if users != [] {
      ChainPrefix(reports, views, users, percentTime);
      var m := |reports| - 1;
      AbsorbedUsers(views[m], reports[m], users[m], percentTime, views[m + 1]);
    }
  }

  /** The numbers of a good row are its own. */
  lemma GoodRowsOwnNumbers(rows: seq<Row>, percentTime: int)
    requires GoodRows(rows, percentTime)
    ensures forall i :: 0 <= i < |rows| ==> OwnNumbers(rows[i])
  {
    hide SumOf, RowOf, OwnNumbers;
    forall i | 0 <= i < |rows|
      ensures OwnNumbers(rows[i])
    {
      assert GoodRow(rows[i], percentTime);
      RowOfOwnNumbers(rows[i].base, percentTime);
    }
  }

  lemma AbsorbedUsers(v: SummaryView, data: ReportData, users: int, percentTime: int, r: SummaryView)
    requires Absorbed(v, data, users, percentTime, r)
    ensures r.userCount == users
  {
    hide MergeRows, MergeErrors, StablySorted, SumRps, SumRequests, SumFailures;
  }
}
