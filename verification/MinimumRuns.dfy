/** When the minimum of a summary row is independent of where the reports fall. */
module MinimumRuns {
  import opened EntryMinima
  import opened Minimums
  import opened Options
  import opened ReportPoints
  import opened RowTallies
  import opened StatsModel
  import opened StatsRuns
  import opened Summary
  import opened SummaryRuns
  import opened Tallies

  // ---------------------------------------------------------------------------------------------
  // Runs exist
  // ---------------------------------------------------------------------------------------------

  /** Among the first n turns, every report visits the keys owned at that point. */
  ghost predicate TicksEnumerate(steps: seq<Step>, n: nat) {
    && n <= |steps|
    && forall i :: 0 <= i < n && steps[i].event.Tick? ==>
         Enumerates(steps[i].event.order, BookAfter(steps, i).owners.Keys)
  }

  /** Such turns can be taken. */
  lemma {:induction false} FeasibleByBook(start: Clock, steps: seq<Step>, n: nat, digest: Digest)
    requires TicksEnumerate(steps, n)
    ensures Feasible(NewStats(start), steps, n, digest)
  {
    hide Enumerates, After, BookAfter;
    if n > 0 {
      FeasibleByBook(start, steps, n - 1, digest);
      StatsMirrorBook(start, steps, n - 1, digest, Everyone);
    }
  }

  /** An output can take any sequence of reports. */
  lemma {:induction false} ChainExists(reports: seq<ReportData>, percentTime: int)
    returns (views: seq<SummaryView>, users: seq<int>)
    ensures Chain(reports, views, users, percentTime)
  {
    hide StablySorted, MergeRows, Decoded;
    if reports == [] {
      views, users := [NO_SUMMARY], [];
    } else {
      var m := |reports| - 1;
      var earlier, before := ChainExists(reports[..m], percentTime);
      var r := AbsorptionExists(earlier[m], reports[m], percentTime);
      views, users := earlier + [r], before + [0];
    }
  }

  lemma AbsorptionExists(v: SummaryView, data: ReportData, percentTime: int) returns (r: SummaryView)
    ensures Absorbed(v, data, 0, percentTime, r)
  {
    hide StablySorted;
    var os := StableSortExists(Decoded(data.stats, percentTime));
    var b := Built(v, 0, os, data.total, data.errors, percentTime);
    var rows := StableSortExists(b.stats);
    r := b.(stats := rows);
    assert AbsorbedRows(v, data, 0, percentTime, os, r);
  }

  // ---------------------------------------------------------------------------------------------
  // Runs with a single name
  // ---------------------------------------------------------------------------------------------

  const STILL: Clock := (who, what) => 0

  function OneRequest(name: string, time: int): Step {
    Step(Success("", name, time, 0), STILL)
  }

  function Requests(name: string, times: seq<int>): (steps: seq<Step>)
    ensures |steps| == |times|
    ensures forall i :: 0 <= i < |times| ==> steps[i] == OneRequest(name, times[i])
  {
    seq(|times|, i requires 0 <= i < |times| => OneRequest(name, times[i]))
  }

  function OneReport(name: string): Step {
    Step(Tick([name]), STILL)
  }

  /** All requests in one report. */
  function UncutRun(name: string, times: seq<int>): (steps: seq<Step>)
    ensures |steps| == |times| + 1 && steps[|times|] == OneReport(name)
    ensures forall i :: 0 <= i < |times| ==> steps[i] == OneRequest(name, times[i])
  {
    Requests(name, times) + [OneReport(name)]
  }

  /** The same requests with one more report between them. */
  function CutRun(name: string, a: seq<int>, b: seq<int>): seq<Step> {
    UncutRun(name, a) + UncutRun(name, b)
  }

  /** From here on come requests with these times, and then a report. */
  ghost predicate Comes(steps: seq<Step>, from: nat, name: string, times: seq<int>) {
    && from + |times| < |steps| && steps[from + |times|] == OneReport(name)
    && forall i :: from <= i < from + |times| ==> steps[i] == OneRequest(name, times[i - from])
  }

  lemma ComesTicks(steps: seq<Step>, from: nat, name: string, times: seq<int>)
    requires Comes(steps, from, name, times)
    ensures from + |times| < |steps| && steps[from + |times|].event.Tick?
    ensures forall i :: from <= i < from + |times| ==> !steps[i].event.Tick?
  {
  }

  lemma RunsCome(name: string, a: seq<int>, b: seq<int>)
    ensures Comes(UncutRun(name, a), 0, name, a) && |UncutRun(name, a)| == |a| + 1
    ensures Comes(CutRun(name, a, b), 0, name, a) && Comes(CutRun(name, a, b), |a| + 1, name, b)
    ensures |CutRun(name, a, b)| == |a| + 1 + |b| + 1
  {
  }

  ghost predicate Owns(b: Book, name: string) {
    b.owners == map[name := name]
  }

  /** The book has an owner for the name at most, and these times pending, all under one key. */
  ghost predicate Holds(b: Book, name: string, times: seq<int>) {
    && (b.owners == map[] || Owns(b, name))
    && (times != [] ==> Owns(b, name))
    && TimesOf(b.pending, |b.pending|, name) == times == TimesOfKey(b.pending, |b.pending|, name)
  }

  lemma RequestEnters(b: Book, name: string, times: seq<int>, time: int)
    requires Holds(b, name, times)
    ensures Holds(Record(b, OneRequest(name, time)), name, times + [time])
    ensures Record(b, OneRequest(name, time)).delivered == b.delivered
  {
    hide TimesOf, TimesOfKey;
    var step := OneRequest(name, time);
    assert name + "" == name;
    var booking := BookingOn(name, step);
    KeyTimesSnoc(b.pending, booking, name);
    TimesSnoc(b.pending, booking, name);
  }

  lemma ReportEmpties(b: Book, name: string, times: seq<int>)
    requires Holds(b, name, times)
    ensures var r := Record(b, OneReport(name));
            Holds(r, name, []) && r.delivered == b.delivered + b.pending
  {
  }

  /** Requests of one name enter their times under it, and under the key that is this name alone. */
  lemma {:induction false} BookOfRequests(steps: seq<Step>, from: nat, name: string, times: seq<int>, m: nat)
    requires m <= |times| && from + m <= |steps|
    requires forall i :: from <= i < from + m ==> steps[i] == OneRequest(name, times[i - from])
    requires Holds(BookAfter(steps, from), name, [])
    ensures Holds(BookAfter(steps, from + m), name, times[..m])
    ensures BookAfter(steps, from + m).delivered == BookAfter(steps, from).delivered
  {
    hide Holds, Record, OneRequest;
    if m > 0 {
      BookOfRequests(steps, from, name, times, m - 1);
      RequestEnters(BookAfter(steps, from + m - 1), name, times[..m - 1], times[m - 1]);
      assert times[..m] == times[..m - 1] + [times[m - 1]];
    }
  }

  lemma TimesSnoc(bs: seq<Booking>, b: Booking, name: string)
    ensures TimesOf(bs + [b], |bs| + 1, name) ==
            TimesOf(bs, |bs|, name) + (if b.owner == name && IsRequest(b.event) then [b.event.responseTime] else [])
  {
    TimesPrefix(bs, bs + [b], |bs|, name);
  }

  /** Before the report the times are pending, and by the report they are delivered. */
  lemma ComesToBook(steps: seq<Step>, from: nat, name: string, times: seq<int>)
    requires Comes(steps, from, name, times) && Holds(BookAfter(steps, from), name, [])
    ensures var b, r := BookAfter(steps, from + |times|), BookAfter(steps, from + |times| + 1);
            && Holds(b, name, times) && b.delivered == BookAfter(steps, from).delivered
            && Holds(r, name, []) && r.delivered == b.delivered + b.pending
  {
    hide Holds, Record, OneReport, OneRequest;
    BookOfRequests(steps, from, name, times, |times|);
    assert times[..|times|] == times;
    ReportEmpties(BookAfter(steps, from + |times|), name, times);
  }

  lemma NothingHeld(steps: seq<Step>, name: string)
    ensures Holds(BookAfter(steps, 0), name, []) && BookAfter(steps, 0).delivered == []
  {
  }

  /** The books of the cut run: before its first report, before its second, and at the end. */
  lemma CutBooks(name: string, a: seq<int>, b: seq<int>)
    ensures |CutRun(name, a, b)| == |a| + 1 + |b| + 1
    ensures var steps := CutRun(name, a, b);
            var first, second := BookAfter(steps, |a|), BookAfter(steps, |a| + 1 + |b|);
            && Holds(first, name, a) && Holds(second, name, b)
            && first.delivered == [] && second.delivered == first.pending
            && BookAfter(steps, |a| + 1 + |b| + 1).delivered == first.pending + second.pending
  {
    hide Holds, BookAfter, CutRun, Comes;
    var steps := CutRun(name, a, b);
    RunsCome(name, a, b);
    NothingHeld(steps, name);
    ComesToBook(steps, 0, name, a);
    ComesToBook(steps, |a| + 1, name, b);
  }

  lemma UncutBooks(name: string, times: seq<int>)
    ensures var steps := UncutRun(name, times);
            var b := BookAfter(steps, |times|);
            && Holds(b, name, times) && b.delivered == []
            && BookAfter(steps, |times| + 1).delivered == b.pending
  {
    hide Holds, BookAfter, UncutRun, Comes;
    var steps := UncutRun(name, times);
    RunsCome(name, times, []);
    NothingHeld(steps, name);
    ComesToBook(steps, 0, name, times);
  }

  lemma OneNameEnumerates(b: Book, name: string, times: seq<int>)
    requires Holds(b, name, times) && times != []
    ensures Enumerates(OneReport(name).event.order, b.owners.Keys)
  {
    assert b.owners.Keys == {name};
  }

  /** A run stays feasible over such a stretch. */
  lemma ComesFeasible(steps: seq<Step>, from: nat, name: string, times: seq<int>)
    requires Comes(steps, from, name, times) && times != [] && Holds(BookAfter(steps, from), name, [])
    requires TicksEnumerate(steps, from)
    ensures TicksEnumerate(steps, from + |times| + 1)
  {
    hide Enumerates, BookAfter, Holds;
    ComesToBook(steps, from, name, times);
    OneNameEnumerates(BookAfter(steps, from + |times|), name, times);
  }

  lemma CutRunFeasible(start: Clock, name: string, a: seq<int>, b: seq<int>, digest: Digest)
    requires a != [] && b != []
    ensures Feasible(NewStats(start), CutRun(name, a, b), |CutRun(name, a, b)|, digest)
  {
    hide BookAfter, Holds, CutRun, Comes, Feasible, NewStats, TicksEnumerate;
    var steps := CutRun(name, a, b);
    RunsCome(name, a, b);
    NothingHeld(steps, name);
    NoTicksYet(steps);
    ComesFeasible(steps, 0, name, a);
    ComesToBook(steps, 0, name, a);
    ComesFeasible(steps, |a| + 1, name, b);
    FeasibleByBook(start, steps, |steps|, digest);
  }

  lemma UncutRunFeasible(start: Clock, name: string, times: seq<int>, digest: Digest)
    requires times != []
    ensures Feasible(NewStats(start), UncutRun(name, times), |times| + 1, digest)
  {
    hide BookAfter, Holds, UncutRun, Comes, Feasible, NewStats, TicksEnumerate;
    var steps := UncutRun(name, times);
    RunsCome(name, times, []);
    NothingHeld(steps, name);
    NoTicksYet(steps);
    ComesFeasible(steps, 0, name, times);
    FeasibleByBook(start, steps, |steps|, digest);
  }

  lemma NoTicksYet(steps: seq<Step>)
    ensures TicksEnumerate(steps, 0)
  {
  }

  // ---------------------------------------------------------------------------------------------
  // What they show
  // ---------------------------------------------------------------------------------------------

  /** The least minimum among the rows of a name. */
  ghost function LeastShown(v: SummaryView, name: string): Option<int> {
    AllRows(v.stats, Named(name)).least
  }

  /** A single entry's report brings in the minimum that this entry shows. */
  lemma OneEntryLeast(s: Stats, b: Book, name: string, times: seq<int>)
    requires KeysHold(s, b) && Holds(b, name, times) && times != []
    ensures JoinAll(Parts(s.entries, Named(name), true)).least == Some(Shown(times))
  {
    hide JoinAll, Shown;
    var parts := Parts(s.entries, Named(name), true);
    assert name in b.owners;
    assert parts.Keys == {name};
    JoinAllLeast(parts);
    assert parts[name].least == Some(s.entries[name].minResponseTime);
  }

  /** The views of an output that received the reports of the first n turns. */
  ghost predicate Watches(start: Clock, steps: seq<Step>, n: nat, digest: Digest, views: seq<SummaryView>,
                          users: seq<int>, percentTime: int)
    requires n <= |steps|
  {
    && Feasible(NewStats(start), steps, n, digest)
    && Chain(Sent(NewStats(start), steps, n, digest), views, users, percentTime)
  }

  /** A report turn of such a run lowers the minimum shown to that of the pending times, if it is above. */
  lemma ReportLowers(start: Clock, steps: seq<Step>, n: nat, digest: Digest, views: seq<SummaryView>, users: seq<int>,
                     percentTime: int, name: string, times: seq<int>)
    requires 0 < n <= |steps| && steps[n - 1].event.Tick?
    requires Watches(start, steps, n, digest, views, users, percentTime)
    requires Holds(BookAfter(steps, n - 1), name, times) && times != []
    ensures |views| >= 2 && |users| >= 1
    ensures Watches(start, steps, n - 1, digest, views[..|views| - 1], users[..|users| - 1], percentTime)
    ensures LeastShown(views[|views| - 1], name) == Lesser(LeastShown(views[|views| - 2], name), Some(Shown(times)))
  {
    hide Chain, Turn, Absorbed, SummaryMirrors, Healthy, Mirrors, KeysHold, AllRows, GoodRows, DistinctNames,
         JoinAll, Join, Shown, Rows, NewStats, Holds, Enabled;
    var s, b := After(NewStats(start), steps, n - 1, digest), BookAfter(steps, n - 1);
    var reports := Sent(NewStats(start), steps, n, digest);
    var m := |reports| - 1;
    ChainLength(reports, views, users, percentTime);
    assert reports[..m] == Sent(NewStats(start), steps, n - 1, digest);
    ChainPrefix(reports, views, users, percentTime);
    StatsMirrorBook(start, steps, n - 1, digest, Everyone);
    EntriesHoldTimes(start, steps, n - 1, digest);
    OneEntryLeast(s, b, name, times);
    SummaryMirrorsBook(start, steps, n - 1, digest, views[..m + 1], users[..m], percentTime, Named(name));
    LowersBy(views[m], s, steps[n - 1], users[m], percentTime, views[m + 1], name, b);
  }

  lemma LowersBy(v: SummaryView, s: Stats, step: Step, users: int, percentTime: int, r: SummaryView,
                 name: string, b: Book)
    requires SummaryMirrors(v, b, percentTime, Named(name)) && Healthy(s)
    requires step.event.Tick? && Enabled(s, step)
    requires Absorbed(v, ReportOf(s, step.event.order), users, percentTime, r)
    ensures LeastShown(r, name) == Lesser(LeastShown(v, name), JoinAll(Parts(s.entries, Named(name), true)).least)
  {
    hide Healthy, AllRows, Booked, GoodRows, DistinctNames, JoinAll, Parts, Fits, TimesOf, Plain, Join, Absorbed, Rows;
    ReportedRows(s, step.event.order, percentTime, Named(name));
    AbsorbedTally(v, ReportOf(s, step.event.order), users, percentTime, r, Named(name));
    PlainJoin(AllRows(v.stats, Named(name)), JoinAll(Parts(s.entries, Named(name), true)));
  }

  /** Turns without a report leave the reports as they are. */
  lemma {:induction false} NoReports(start: Clock, steps: seq<Step>, m: nat, n: nat, digest: Digest)
    requires m <= n <= |steps| && Feasible(NewStats(start), steps, n, digest)
    requires forall i :: m <= i < n ==> !steps[i].event.Tick?
    ensures Feasible(NewStats(start), steps, m, digest)
    ensures Sent(NewStats(start), steps, n, digest) == Sent(NewStats(start), steps, m, digest)
    ensures m == 0 ==> Sent(NewStats(start), steps, n, digest) == []
    decreases n
  {
    hide NewStats, After, Enabled;
    if m < n {
      NoReports(start, steps, m, n - 1, digest);
    }
  }

  /** A run, and the summaries an output goes through on its reports. */
  datatype Session = Session(start: Clock, steps: seq<Step>, digest: Digest, percentTime: int,
                             views: seq<SummaryView>, users: seq<int>)

  ghost predicate Happens(d: Session) {
    Watches(d.start, d.steps, |d.steps|, d.digest, d.views, d.users, d.percentTime)
  }

  /** The session delivers these times under the name. */
  ghost predicate Delivers(d: Session, name: string, times: seq<int>) {
    && Happens(d)
    && var bs := BookAfter(d.steps, |d.steps|).delivered;
       TimesOf(bs, |bs|, name) == times
  }

  /** At its end the summary has a row for the name with this minimum. */
  ghost predicate ShowsMinimum(d: Session, name: string, x: int) {
    && d.views != []
    && var rows := d.views[|d.views| - 1].stats;
       var i := IndexOfName(rows, name, |rows|);
       i < |rows| && rows[i].base.minResponseTime == x
  }

  lemma NothingShownYet(views: seq<SummaryView>, users: seq<int>, percentTime: int, name: string)
    requires Chain([], views, users, percentTime)
    ensures |views| == 1 && LeastShown(views[0], name) == None
  {
  }

  lemma LeastIsShown(d: Session, name: string, x: int)
    requires Happens(d) && d.views != [] && LeastShown(d.views[|d.views| - 1], name) == Some(x)
    ensures ShowsMinimum(d, name, x)
  {
    hide Chain, Feasible, NewStats, AllRows, GoodRow, BookAfter, DistinctNames, TallyOf;
    var v := d.views[|d.views| - 1];
    SummaryMirrorsBook(d.start, d.steps, |d.steps|, d.digest, d.views, d.users, d.percentTime, Named(name));
    LookUp(v.stats, name);
    var i := IndexOfName(v.stats, name, |v.stats|);
    if i < |v.stats| {
      assert GoodRow(v.stats[i], d.percentTime);
      GoodRowMeans(v.stats[i], d.percentTime);
    }
  }

  /** Reported in one go, the times show the minimum that one entry shows. */
  lemma UncutShows(d: Session, name: string, times: seq<int>)
    requires times != [] && d.steps == UncutRun(name, times) && Happens(d)
    ensures Delivers(d, name, times) && ShowsMinimum(d, name, Shown(times))
  {
    hide Chain, Feasible, NewStats, UncutRun, Comes, BookAfter, Sent, Shown, AllRows, ShowsMinimum;
    var n := |times| + 1;
    UncutBooks(name, times);
    RunsCome(name, times, []);
    ComesTicks(d.steps, 0, name, times);
    ReportLowers(d.start, d.steps, n, d.digest, d.views, d.users, d.percentTime, name, times);
    NoReports(d.start, d.steps, 0, n - 1, d.digest);
    NothingShownYet(d.views[..|d.views| - 1], d.users[..|d.users| - 1], d.percentTime, name);
    LeastIsShown(d, name, Shown(times));
  }

  /** Reported in two parts, they show the lesser of what the parts show. */
  lemma CutShows(d: Session, name: string, a: seq<int>, b: seq<int>)
    requires a != [] && b != [] && d.steps == CutRun(name, a, b) && Happens(d)
    ensures Delivers(d, name, a + b)
    ensures ShowsMinimum(d, name, if Shown(a) < Shown(b) then Shown(a) else Shown(b))
  {
    hide Chain, Feasible, NewStats, CutRun, UncutRun, Comes, BookAfter, Sent, Shown, AllRows, ShowsMinimum, TimesOf;
    var k, n := |a| + 1, |a| + 1 + |b| + 1;
    CutBooks(name, a, b);
    RunsCome(name, a, b);
    ComesTicks(d.steps, 0, name, a);
    ComesTicks(d.steps, k, name, b);
    ReportLowers(d.start, d.steps, n, d.digest, d.views, d.users, d.percentTime, name, b);
    var views, users := d.views[..|d.views| - 1], d.users[..|d.users| - 1];
    NoReports(d.start, d.steps, k, n - 1, d.digest);
    ReportLowers(d.start, d.steps, k, d.digest, views, users, d.percentTime, name, a);
    NoReports(d.start, d.steps, 0, k - 1, d.digest);
    NothingShownYet(views[..|views| - 1], users[..|users| - 1], d.percentTime, name);
    LeastIsShown(d, name, if Shown(a) < Shown(b) then Shown(a) else Shown(b));
    var first, second := BookAfter(d.steps, |a|).pending, BookAfter(d.steps, |a| + 1 + |b|).pending;
    TimesConcat(first, second, |second|, name);
  }

  lemma SessionExists(steps: seq<Step>, digest: Digest, percentTime: int) returns (d: Session)
    requires Feasible(NewStats(STILL), steps, |steps|, digest)
    ensures d.steps == steps && d.digest == digest && d.percentTime == percentTime && Happens(d)
  {
    hide Chain, Feasible, NewStats;
    var views, users := ChainExists(Sent(NewStats(STILL), steps, |steps|, digest), percentTime);
    d := Session(STILL, steps, digest, percentTime, views, users);
  }

  /**
   * An extra report between the same requests shows: whenever some time is zero, the last one is not,
   * and none is negative, reporting right after the zero makes the summary's minimum differ.
   */
  lemma ExtraReportShows(name: string, times: seq<int>, zero: nat, uncut: Session, cut: Session)
    requires !Sure(times) && zero < |times| && times[zero] == 0
    requires Happens(uncut) && uncut.steps == UncutRun(name, times)
    requires Happens(cut) && zero + 1 < |times| && cut.steps == CutRun(name, times[..zero + 1], times[zero + 1..])
    ensures Delivers(uncut, name, times) && Delivers(cut, name, times)
    ensures Shown(times) > 0 && ShowsMinimum(uncut, name, Shown(times)) && ShowsMinimum(cut, name, 0)
  {
    hide Happens, ShowsMinimum, UncutRun, CutRun, Delivers;
    var a, b := times[..zero + 1], times[zero + 1..];
    assert a + b == times;
    UncutShows(uncut, name, times);
    CutShows(cut, name, a, b);
    MinimumIsExactIff(times);
    ShownMinimumSteps(a, |a|);
    ShownMinimumSteps(b, |b|);
  }

  lemma ShownOfTwo(a: int, b: int)
    ensures Shown([a]) == a && Shown([b]) == b && Shown([a, b]) == NewMinimum(a, b)
  {
    assert ShownMinimum([a], 0) == ShownMinimum([b], 0) == ShownMinimum([a, b], 0) == 0;
    assert ShownMinimum([a, b], 1) == NewMinimum(0, a);
  }

  /** The smallest case: a 0 and then a 5. */
  lemma ZeroTimeShowsReportPoints(name: string, digest: Digest, percentTime: int) returns (uncut: Session, cut: Session)
    ensures uncut.steps == [OneRequest(name, 0), OneRequest(name, 5), OneReport(name)]
    ensures cut.steps == [OneRequest(name, 0), OneReport(name), OneRequest(name, 5), OneReport(name)]
    ensures Delivers(uncut, name, [0, 5]) && ShowsMinimum(uncut, name, 5)
    ensures Delivers(cut, name, [0, 5]) && ShowsMinimum(cut, name, 0)
  {
    hide Happens, ShowsMinimum, Delivers, OneRequest, OneReport, NewStats, Feasible;
    UncutRunFeasible(STILL, name, [0, 5], digest);
    CutRunFeasible(STILL, name, [0], [5], digest);
    uncut := SessionExists(UncutRun(name, [0, 5]), digest, percentTime);
    cut := SessionExists(CutRun(name, [0], [5]), digest, percentTime);
    UncutShows(uncut, name, [0, 5]);
    CutShows(cut, name, [0], [5]);
    assert [0] + [5] == [0, 5];
    ShownOfTwo(0, 5);
  }

  lemma SureIsShown(d: Session, name: string, times: seq<int>)
    requires Delivers(d, name, times) && times != [] && Sure(times)
    ensures ShowsMinimum(d, name, Shown(times))
  {
    hide Chain, Feasible, NewStats, BookAfter, Sure, NeverReset, ShowsSame, DistinctNames, TimesOf;
    ReportPointsAreInvisible(d.start, d.steps, |d.steps|, d.digest, d.views, d.users, d.percentTime, name);
    var bs := BookAfter(d.steps, |d.steps|).delivered;
    NeverResetHoldsTimes(bs, |bs|, name);
  }

  /** The counterexample for any times that are not sure. */
  lemma UnsureSession(name: string, times: seq<int>, zero: nat) returns (cut: Session)
    requires !Sure(times) && zero < |times| && times[zero] == 0
    ensures Delivers(cut, name, times) && !ShowsMinimum(cut, name, Shown(times))
  {
    hide Happens, Delivers, Shown, NewStats, Feasible, CutRun, UncutRun;
    UnsureTimes(times);
    var a, b := times[..zero + 1], times[zero + 1..];
    UncutRunFeasible(STILL, name, times, x => x);
    CutRunFeasible(STILL, name, a, b, x => x);
    var uncut := SessionExists(UncutRun(name, times), x => x, 50);
    cut := SessionExists(CutRun(name, a, b), x => x, 50);
    ExtraReportShows(name, times, zero, uncut, cut);
  }

  /**
   * The exact condition. In every session that delivers these times under the name, whatever comes
   * between and beside them and wherever it is cut into reports, the summary shows the minimum of one
   * entry fed the times, if and only if no time is zero, or the last one is, or some time is negative.
   */
  lemma MinimumIgnoresReportsIff(name: string, times: seq<int>)
    requires times != []
    ensures (forall d :: Delivers(d, name, times) ==> ShowsMinimum(d, name, Shown(times))) <==> Sure(times)
  {
    hide Delivers, ShowsMinimum, Shown, Sure;
    if Sure(times) {
      forall d | Delivers(d, name, times)
        ensures ShowsMinimum(d, name, Shown(times))
      {
        SureIsShown(d, name, times);
      }
    } else {
      UnsureTimes(times);
      var zero :| 0 <= zero < |times| && times[zero] == 0;
      var cut := UnsureSession(name, times, zero);
    }
  }
}
