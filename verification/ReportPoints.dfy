/** Where the reports fall does not show in the summary; only the minimum can depend on it. */
module ReportPoints {
  import opened Counters
  import opened EntryMinima
  import opened Minimums
  import opened Options
  import opened OutputRows
  import opened Percentiles
  import opened Rounding
  import opened RowTallies
  import opened StatsModel
  import opened StatsRuns
  import opened Summary
  import opened SummaryRuns
  import opened Tallies

  // ---------------------------------------------------------------------------------------------
  // One entry that is never reset
  // ---------------------------------------------------------------------------------------------

  /** One entry fed every booking of a name, at the seconds of the booking. */
  function NeverReset(bs: seq<Booking>, n: nat, name: string): Entry
    requires n <= |bs|
  {
    if n == 0 then Blank(name, "", 0, 0)
    else
      var e, b := NeverReset(bs, n - 1, name), bs[n - 1];
      if b.owner != name then e
      else
        match b.event
        case Success(_, _, time, length) => Logged(e, time, length, b.requestTime)
        case Failure(_, _, time, _) => Failed(Logged(e, time, 0, b.requestTime), b.failureTime)
        case _ => e
  }

  lemma {:induction false} NeverResetTally(bs: seq<Booking>, n: nat, name: string)
    requires n <= |bs|
    ensures TallyOf(NeverReset(bs, n, name), false) == TallyOfBookings(bs, n, Named(name))
  {
    hide Join, Logged, Failed, TallyOf, TallyOfRequest, TallyOfFailure;
    if n == 0 {
      BlankIsHealthy(name, "", 0, 0);
    } else {
      NeverResetTally(bs, n - 1, name);
      var e, b := NeverReset(bs, n - 1, name), bs[n - 1];
      JoinNothing(TallyOf(e, false));
      match b.event {
        case Success(_, _, time, length) => LoggedTally(e, time, length, b.requestTime);
        case Failure(_, _, time, _) =>
          LoggedTally(e, time, 0, b.requestTime);
          FailedTally(Logged(e, time, 0, b.requestTime), b.failureTime);
          JoinAssociative(TallyOf(e, false), TallyOfRequest(time, 0, b.requestTime), TallyOfFailure(b.failureTime));
        case _ =>
      }
    }
  }

  /** Such an entry holds the times of the name: their number, their histogram, and the minimum they show. */
  lemma {:induction false} NeverResetHoldsTimes(bs: seq<Booking>, n: nat, name: string)
    requires n <= |bs|
    ensures var e, times := NeverReset(bs, n, name), TimesOf(bs, n, name);
            && KeyHolds(e, times)
            && IsHistogram(e.responseTimes, times)
  {
    hide IsHistogram, Bucket, Bump, KeyHolds, NewMinimum;
    if n == 0 {
      EmptyHolds(name);
    } else {
      NeverResetHoldsTimes(bs, n - 1, name);
      var e, b, times := NeverReset(bs, n - 1, name), bs[n - 1], TimesOf(bs, n - 1, name);
      if b.owner == name && IsRequest(b.event) {
        var time := b.event.responseTime;
        BumpKeepsHistogram(e.responseTimes, times, time);
        LoggedHolds(e, times, time, if b.event.Success? then b.event.responseLength else 0, b.requestTime);
      } else {
        assert TimesOf(bs, n, name) == times;
      }
    }
  }

  lemma EmptyHolds(name: string)
    ensures IsHistogram(map[], []) && KeyHolds(Blank(name, "", 0, 0), [])
  {
  }

  // ---------------------------------------------------------------------------------------------
  // The summary against it
  // ---------------------------------------------------------------------------------------------

  /** The row shows for its name what the entry would show, apart from the minimum and the time stamps. */
  ghost predicate ShowsSame(r: Row, e: Entry, percentTime: int) {
    && TallyOf(r.base, false) == TallyOf(e, false)
    && r.(base := e) == RowOf(e, percentTime)
  }

  lemma SameTallyShowsSame(r: Row, e: Entry, percentTime: int)
    requires r == RowOf(r.base, percentTime) && TallyOf(r.base, false) == TallyOf(e, false)
    ensures ShowsSame(r, e, percentTime)
  {
    hide Percentile, AvgResponseTime, AvgContentLength, CurrentRps;
    assert |r.base.numFailPerSec| == |r.base.numFailPerSec.Keys| && |e.numFailPerSec| == |e.numFailPerSec.Keys|;
  }

  lemma {:induction false} NoneOfName(rows: seq<Row>, name: string, n: nat)
    requires n <= |rows| && RowGroup(rows, name, n) == []
    ensures RowsTally(rows, n, Named(name)) == NOTHING
  {
    hide Join;
    if n > 0 {
      NoneOfName(rows, name, n - 1);
      JoinNothing(NOTHING);
    }
  }

  lemma LookUp(rows: seq<Row>, name: string)
    requires DistinctNames(rows)
    ensures var i := IndexOfName(rows, name, |rows|);
            && (i < |rows| ==> rows[i].base.name == name && AllRows(rows, Named(name)) == TallyOf(rows[i].base, true))
            && (i == |rows| ==> AllRows(rows, Named(name)) == NOTHING)
  {
    hide TallyOf, Join;
    var i := IndexOfName(rows, name, |rows|);
    IndexHasName(rows, name, |rows|);
    if i < |rows| {
      RowOfName(rows, i, |rows|);
    } else {
      NoneOfName(rows, name, |rows|);
    }
  }

  /** What the row of a name in a mirroring summary is: the row of its delivered events, with a fitting minimum. */
  lemma RowOfDelivered(v: SummaryView, b: Book, percentTime: int, name: string)
    requires SummaryMirrors(v, b, percentTime, Named(name))
    ensures var i := IndexOfName(v.stats, name, |v.stats|);
            var e, times := NeverReset(b.delivered, |b.delivered|, name), TimesOf(b.delivered, |b.delivered|, name);
            && (i < |v.stats| <==> times != [])
            && (i < |v.stats| ==>
                  && v.stats[i].base.name == name
                  && ShowsSame(v.stats[i], e, percentTime)
                  && Fits(Some(v.stats[i].base.minResponseTime), times))
  {
    hide GoodRow, RowOf, DistinctNames, AllRows, TimesOf, NeverReset, Sure, IsMinimum, ShowsSame;
    var bs, rows := b.delivered, v.stats;
    var e, i := NeverReset(bs, |bs|, name), IndexOfName(rows, name, |rows|);
    NeverResetTally(bs, |bs|, name);
    NeverResetHoldsTimes(bs, |bs|, name);
    LookUp(rows, name);
    if i < |rows| {
      assert GoodRow(rows[i], percentTime);
      GoodRowMeans(rows[i], percentTime);
      SameTallyShowsSame(rows[i], e, percentTime);
    }
  }

  lemma GoodRowMeans(r: Row, percentTime: int)
    requires GoodRow(r, percentTime)
    ensures r == RowOf(r.base, percentTime)
    ensures TallyOf(r.base, true) == TallyOf(r.base, false).(least := Some(r.base.minResponseTime))
  {
    hide RowOf;
  }

  /**
   * For a name with any of these bookings the summary has exactly one row, and for others none. The row
   * shows what one entry shows that is never reset and fed all bookings of the name. Its minimum is one
   * of their times, and it too is that entry's if the times are sure: none is zero, or the last one is,
   * or one is negative.
   */
  ghost predicate ShowsBookings(v: SummaryView, bs: seq<Booking>, percentTime: int, name: string) {
    var reference, times := NeverReset(bs, |bs|, name), TimesOf(bs, |bs|, name);
    var i := IndexOfName(v.stats, name, |v.stats|);
    && DistinctNames(v.stats)
    && (i < |v.stats| <==> times != [])
    && (i < |v.stats| ==>
          && v.stats[i].base.name == name
          && ShowsSame(v.stats[i], reference, percentTime)
          && v.stats[i].base.minResponseTime in times
          && (Sure(times) ==> v.stats[i].base.minResponseTime == reference.minResponseTime))
  }

  /**
   * Report points are invisible. Whatever reports and clearings lie between the events, the summary
   * shows for every name what one never-reset entry shows when fed all delivered events of that name.
   */
  lemma ReportPointsAreInvisible(start: Clock, steps: seq<Step>, n: nat, digest: Digest,
      views: seq<SummaryView>, users: seq<int>, percentTime: int, name: string)
    requires n <= |steps| && Feasible(NewStats(start), steps, n, digest)
    requires Chain(Sent(NewStats(start), steps, n, digest), views, users, percentTime)
    ensures |views| > 0 && ShowsBookings(views[|views| - 1], BookAfter(steps, n).delivered, percentTime, name)
  {
    hide Chain, Feasible, NeverReset, TimesOf, ShowsSame, After, BookAfter, Sure, AllRows, GoodRows, Booked,
         DistinctNames;
    ChainLength(Sent(NewStats(start), steps, n, digest), views, users, percentTime);
    SummaryMirrorsBook(start, steps, n, digest, views, users, percentTime, Named(name));
    var b := BookAfter(steps, n);
    RowOfDelivered(views[|views| - 1], b, percentTime, name);
    NeverResetHoldsTimes(b.delivered, |b.delivered|, name);
    if TimesOf(b.delivered, |b.delivered|, name) != [] {
      MinimumIsExactIff(TimesOf(b.delivered, |b.delivered|, name));
    }
  }

  // ---------------------------------------------------------------------------------------------
  // Percentiles
  // ---------------------------------------------------------------------------------------------

  /**
   * The whole pipeline. A percentile shown for a name is the rounded element, at the percentile's
   * rank, of the sorted list of all response times delivered under that name.
   */
  lemma SummaryPercentileIsOrderStatistic(start: Clock, steps: seq<Step>, n: nat, digest: Digest,
      views: seq<SummaryView>, users: seq<int>, percentTime: nat, name: string, sorted: seq<int>)
    requires n <= |steps| && Feasible(NewStats(start), steps, n, digest)
    requires Chain(Sent(NewStats(start), steps, n, digest), views, users, percentTime)
    requires var bs := BookAfter(steps, n).delivered;
             Sorted(sorted) && multiset(sorted) == multiset(TimesOf(bs, |bs|, name)) && sorted != []
    ensures |views| > 0
    ensures var rows := views[|views| - 1].stats;
            var i := IndexOfName(rows, name, |rows|);
            var rank := Rank(|sorted|, percentTime);
            && i < |rows|
            && rows[i].percent == (if rank < |sorted| then Bucket(sorted[rank]) else 0)
            && rows[i].median == Bucket(sorted[(|sorted| - 1) / 2])
            && Rank(|sorted|, 95) < |sorted|
            && rows[i].percent95 == Bucket(sorted[Rank(|sorted|, 95)])
  {
    hide Chain, Feasible, NewStats, Sent, NeverReset, TimesOf, Bucket, Sorted, IsHistogram, DistinctNames, BookAfter,
         KeyHolds, Rank, Sure, ShowsSame;
    ReportPointsAreInvisible(start, steps, n, digest, views, users, percentTime, name);
    var bs := BookAfter(steps, n).delivered;
    var times, reference := TimesOf(bs, |bs|, name), NeverReset(bs, |bs|, name);
    assert |multiset(sorted)| == |multiset(times)|;
    NeverResetHoldsTimes(bs, |bs|, name);
    var rows := views[|views| - 1].stats;
    RowShowsPercentiles(rows[IndexOfName(rows, name, |rows|)], reference, percentTime, times, sorted);
  }

  /** What shows the same as an entry with these times shows their order statistics. */
  lemma RowShowsPercentiles(r: Row, e: Entry, percentTime: nat, times: seq<int>, sorted: seq<int>)
    requires ShowsSame(r, e, percentTime) && KeyHolds(e, times) && IsHistogram(e.responseTimes, times)
    requires Sorted(sorted) && multiset(sorted) == multiset(times) && sorted != []
    ensures r.percent == (var rank := Rank(|sorted|, percentTime); if rank < |sorted| then Bucket(sorted[rank]) else 0)
    ensures r.median == Bucket(sorted[(|sorted| - 1) / 2])
    ensures Rank(|sorted|, 95) < |sorted| && r.percent95 == Bucket(sorted[Rank(|sorted|, 95)])
  {
    hide Bucket, Sorted, IsHistogram, Percentile, Shown, TallyOf, Rank;
    assert |multiset(sorted)| == |multiset(times)|;
    PercentileIsOrderStatistic(e.responseTimes, times, sorted, percentTime);
    PercentileIsOrderStatistic(e.responseTimes, times, sorted, 50);
    PercentileIsOrderStatistic(e.responseTimes, times, sorted, 95);
    RankInRange(|sorted|, 50);
    RankInRange(|sorted|, 95);
    HalfRank(|sorted|);
  }

  lemma HalfRank(n: nat)
    requires n > 0
    ensures Rank(n, 50) == (n - 1) / 2
  {
  }
}
