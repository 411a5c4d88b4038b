/** Two failures of the same request, reported together and apart. */
module FailureRuns {
  import opened Counters
  import opened MinimumRuns
  import opened Options
  import opened OutputRows
  import opened Rounding
  import opened RowHistory
  import opened SharedErrors
  import opened StatsModel
  import opened StatsRuns
  import opened Summary
  import opened SummaryRuns

  const TEXT: string := "e"

  function OneFailure(name: string, second: int): Step {
    Step(Failure("", name, 5, TEXT), (who, what) => second)
  }

  function Together(name: string, first: int, second: int): (steps: seq<Step>)
    ensures |steps| == 3
  {
    [OneFailure(name, first), OneFailure(name, second), OneReport(name)]
  }

  function Apart(name: string, first: int, second: int): (steps: seq<Step>)
    ensures |steps| == 4
  {
    [OneFailure(name, first), OneReport(name), OneFailure(name, second), OneReport(name)]
  }

  // ---------------------------------------------------------------------------------------------
  // The statistics in between
  // ---------------------------------------------------------------------------------------------

  function ErrorKey(name: string, digest: Digest): string {
    digest("" + name + TEXT)
  }

  /** Nothing but so many failures of this request since the last report. */
  predicate Counting(s: Stats, name: string, digest: Digest, failures: nat, seconds: Counts) {
    && s.entries.Keys <= {name}
    && (failures > 0 ==> name in s.entries)
    && (name in s.entries ==>
          var e := s.entries[name];
          e.name == name && e.numRequests == e.numFailures == failures && e.numFailPerSec == seconds)
    && (failures == 0 ==> seconds == map[])
    && s.errors == (if failures == 0 then map[] else map[ErrorKey(name, digest) := ErrorInfo(name, "", TEXT, failures)])
  }

  lemma NothingCounted(start: Clock, name: string, digest: Digest)
    ensures Counting(NewStats(start), name, digest, 0, map[])
  {
  }

  lemma FailureTurn(s: Stats, name: string, digest: Digest, failures: nat, seconds: Counts, second: int)
    requires Counting(s, name, digest, failures, seconds)
    ensures var r := Turn(s, OneFailure(name, second), digest);
            && Counting(r, name, digest, failures + 1, Bump(seconds, second))
            && r.entries[name].lastRequestTimestamp == second
  {
    hide Bump, Bucket, NewMinimum;
    assert name + "" == name;
  }

  lemma ReportTurn(s: Stats, name: string, digest: Digest, failures: nat, seconds: Counts)
    requires Counting(s, name, digest, failures, seconds) && failures > 0
    ensures Enumerates([name], s.entries.Keys)
    ensures ReportOf(s, [name]).stats == [s.entries[name]] && ReportOf(s, [name]).errors == s.errors
    ensures Counting(Turn(s, OneReport(name), digest), name, digest, 0, map[])
  {
    assert s.entries.Keys == {name};
    assert Rows(s.entries, [name], 0) == [];
  }

  /** What the reports hold: one entry with both failures, or two with one each. */
  lemma TogetherSends(start: Clock, name: string, digest: Digest, first: int, second: int)
    ensures Feasible(NewStats(start), Together(name, first, second), 3, digest)
    ensures var data := Sent(NewStats(start), Together(name, first, second), 3, digest);
            && |data| == 1 && |data[0].stats| == 1
            && var e := data[0].stats[0];
               e.name == name && e.numFailures == 2 && e.numFailPerSec == Bump(Bump(map[], first), second)
               && e.lastRequestTimestamp == second
  {
    hide Counting, Turn, NewStats, Enumerates, ReportOf;
    var steps := Together(name, first, second);
    NothingCounted(start, name, digest);
    FailureTurn(NewStats(start), name, digest, 0, map[], first);
    var s1 := Turn(NewStats(start), steps[0], digest);
    FailureTurn(s1, name, digest, 1, Bump(map[], first), second);
    var s2 := Turn(s1, steps[1], digest);
    ReportTurn(s2, name, digest, 2, Bump(Bump(map[], first), second));
    assert After(NewStats(start), steps, 0, digest) == NewStats(start);
    assert Feasible(NewStats(start), steps, 0, digest);
    assert After(NewStats(start), steps, 1, digest) == s1;
    assert After(NewStats(start), steps, 2, digest) == s2;
    CountingMeans(s2, name, digest, 2, Bump(Bump(map[], first), second));
    assert Feasible(NewStats(start), steps, 1, digest);
    assert Feasible(NewStats(start), steps, 2, digest);
    assert Sent(NewStats(start), steps, 1, digest) == [];
    assert Sent(NewStats(start), steps, 2, digest) == [];
  }

  lemma CountingMeans(s: Stats, name: string, digest: Digest, failures: nat, seconds: Counts)
    requires Counting(s, name, digest, failures, seconds) && failures > 0
    ensures name in s.entries
    ensures var e := s.entries[name]; e.name == name && e.numFailures == failures && e.numFailPerSec == seconds
    ensures s.errors == map[ErrorKey(name, digest) := ErrorInfo(name, "", TEXT, failures)]
  {
  }

  lemma ApartSends(start: Clock, name: string, digest: Digest, first: int, second: int)
    ensures Feasible(NewStats(start), Apart(name, first, second), 4, digest)
    ensures var data := Sent(NewStats(start), Apart(name, first, second), 4, digest);
            var errors := map[ErrorKey(name, digest) := ErrorInfo(name, "", TEXT, 1)];
            && |data| == 2 && |data[0].stats| == |data[1].stats| == 1
            && data[0].errors == data[1].errors == errors
            && (var e := data[0].stats[0];
                e.name == name && e.numFailures == 1 && e.numFailPerSec == map[first := 1]
                && e.lastRequestTimestamp == first)
            && var e := data[1].stats[0]; e.name == name && e.numFailures == 1 && e.numFailPerSec == map[second := 1]
  {
    hide Counting, Turn, NewStats, Enumerates, ReportOf;
    var steps := Apart(name, first, second);
    NothingCounted(start, name, digest);
    FailureTurn(NewStats(start), name, digest, 0, map[], first);
    var s1 := Turn(NewStats(start), steps[0], digest);
    ReportTurn(s1, name, digest, 1, Bump(map[], first));
    CountingMeans(s1, name, digest, 1, Bump(map[], first));
    var s2 := Turn(s1, steps[1], digest);
    FailureTurn(s2, name, digest, 0, map[], second);
    var s3 := Turn(s2, steps[2], digest);
    ReportTurn(s3, name, digest, 1, Bump(map[], second));
    CountingMeans(s3, name, digest, 1, Bump(map[], second));
    assert After(NewStats(start), steps, 0, digest) == NewStats(start);
    assert Feasible(NewStats(start), steps, 0, digest);
    assert After(NewStats(start), steps, 1, digest) == s1;
    assert After(NewStats(start), steps, 2, digest) == s2;
    assert After(NewStats(start), steps, 3, digest) == s3;
    assert Feasible(NewStats(start), steps, 1, digest);
    assert Feasible(NewStats(start), steps, 2, digest);
    assert Feasible(NewStats(start), steps, 3, digest);
    assert Sent(NewStats(start), steps, 1, digest) == [];
    assert Sent(NewStats(start), steps, 2, digest) == [ReportOf(s1, [name])];
    assert Sent(NewStats(start), steps, 3, digest) == [ReportOf(s1, [name])];
    assert Sent(NewStats(start), steps, 4, digest) == [ReportOf(s1, [name]), ReportOf(s3, [name])];
  }

  // ---------------------------------------------------------------------------------------------
  // What the summary shows
  // ---------------------------------------------------------------------------------------------

  lemma OneEntryReported(data: ReportData, name: string, percentTime: int)
    requires |data.stats| == 1 && data.stats[0].name == name
    ensures var rows := Decoded(data.stats, percentTime);
            RowGroup(rows, name, |rows|) == [RowOf(data.stats[0], percentTime)]
  {
    hide Percentiles.Percentile;
    var rows := Decoded(data.stats, percentTime);
    assert RowGroup(rows, name, 0) == [];
    assert rows[0].base == data.stats[0];
  }

  lemma OneReported(data: seq<ReportData>, name: string, percentTime: int)
    requires |data| == 1 && |data[0].stats| == 1 && data[0].stats[0].name == name
    ensures ReportedAs(data, 1, name, percentTime) == [RowOf(data[0].stats[0], percentTime)]
  {
    hide RowOf, Decoded, RowGroup;
    OneEntryReported(data[0], name, percentTime);
    assert ReportedAs(data, 0, name, percentTime) == [];
  }

  lemma TwoReported(data: seq<ReportData>, name: string, percentTime: int)
    requires |data| == 2 && |data[0].stats| == |data[1].stats| == 1
    requires data[0].stats[0].name == data[1].stats[0].name == name
    ensures ReportedAs(data, 2, name, percentTime) ==
            [RowOf(data[0].stats[0], percentTime), RowOf(data[1].stats[0], percentTime)]
  {
    hide RowOf, Decoded, RowGroup;
    OneEntryReported(data[0], name, percentTime);
    OneEntryReported(data[1], name, percentTime);
    assert ReportedAs(data, 0, name, percentTime) == [];
    assert ReportedAs(data, 1, name, percentTime) == [RowOf(data[0].stats[0], percentTime)];
  }

  /** The last summary's row of a name. */
  ghost function LastRow(d: Session, name: string): Option<Row>
    requires d.views != []
  {
    HeadOf(d.views[|d.views| - 1].stats, name)
  }

  lemma TogetherShows(d: Session, name: string, first: int, second: int)
    requires Happens(d) && d.steps == Together(name, first, second)
    ensures d.views != [] && LastRow(d, name).Some?
    ensures var e := LastRow(d, name).value.base;
            e.numFailures == 2 && AddsUp(e) && e.lastRequestTimestamp == second
  {
    hide Feasible, NewStats, Sent, Chain, RowOf, ReportedAs, Together;
    TogetherSends(d.start, name, d.digest, first, second);
    var data := Sent(NewStats(d.start), d.steps, 3, d.digest);
    RowIsHistory(data, d.views, d.users, d.percentTime, 1, name);
    OneReported(data, name, d.percentTime);
    ChainLength(data, d.views, d.users, d.percentTime);
    var os := ReportedAs(data, 1, name, d.percentTime);
    assert MergeOnto(None, os, 0, d.percentTime) == None;
    RowIs(data[0].stats[0], d.percentTime);
    BumpSum(map[], first);
    BumpSum(Bump(map[], first), second);
  }

  lemma RowIs(e: Entry, percentTime: int)
    ensures RowOf(e, percentTime).base == e
  {
  }

  lemma ApartShows(d: Session, name: string, first: int, second: int)
    requires Happens(d) && d.steps == Apart(name, first, second)
    ensures d.views != [] && LastRow(d, name).Some?
    ensures var e := LastRow(d, name).value.base;
            e.numFailures == 2 && (AddsUp(e) <==> first != second) && e.lastRequestTimestamp == first
  {
    hide Feasible, NewStats, Sent, Chain, RowOf, ReportedAs, Apart;
    ApartSends(d.start, name, d.digest, first, second);
    var data := Sent(NewStats(d.start), d.steps, 4, d.digest);
    RowIsHistory(data, d.views, d.users, d.percentTime, 2, name);
    TwoReported(data, name, d.percentTime);
    ChainLength(data, d.views, d.users, d.percentTime);
    var os := ReportedAs(data, 2, name, d.percentTime);
    assert MergeOnto(None, os, 0, d.percentTime) == None;
    assert MergeOnto(None, os, 1, d.percentTime) == Some(os[0]);
    RowIs(data[0].stats[0], d.percentTime);
    RowIs(data[1].stats[0], d.percentTime);
    MergedTwo(os[0], os[1].base, d.percentTime, first, second);
  }

  lemma MergedTwo(a: Row, o: Entry, percentTime: int, first: int, second: int)
    requires a.base.numFailures == o.numFailures == 1
    requires a.base.numFailPerSec == map[first := 1] && o.numFailPerSec == map[second := 1]
    ensures var e := MergedRow(a, o, percentTime).base;
            && e.numFailures == 2 && (AddsUp(e) <==> first != second)
            && e.lastRequestTimestamp == a.base.lastRequestTimestamp
  {
    hide SumOf, Plus;
    var e := MergedRow(a, o, percentTime).base;
    assert e.numFailPerSec == map[first := 1][second := 1];
    SumUpdate(map[], first, 1);
    SumUpdate(map[first := 1], second, 1);
    NoSum();
  }

  lemma NoSum()
    ensures SumOf<int>(map[]) == 0
  {
  }

  /**
   * The same two failures, with one more report in between or not. Apart, the row keeps the time of the
   * first request, and loses a count by second if both failures came in the same second.
   */
  lemma TwoFailuresShowReports(name: string, digest: Digest, percentTime: int, first: int, second: int)
    returns (together: Session, apart: Session)
    ensures Happens(together) && together.steps == Together(name, first, second)
    ensures Happens(apart) && apart.steps == Apart(name, first, second)
    ensures together.views != [] && LastRow(together, name).Some? && apart.views != [] && LastRow(apart, name).Some?
    ensures var t, a := LastRow(together, name).value.base, LastRow(apart, name).value.base;
            && t.lastRequestTimestamp == second && a.lastRequestTimestamp == first
            && t.numFailures == a.numFailures == 2
            && AddsUp(t) && (AddsUp(a) <==> first != second)
  {
    hide Happens, LastRow, AddsUp, Feasible, NewStats, OneFailure, OneReport;
    TogetherSends(STILL, name, digest, first, second);
    ApartSends(STILL, name, digest, first, second);
    together := SessionExists(Together(name, first, second), digest, percentTime);
    apart := SessionExists(Apart(name, first, second), digest, percentTime);
    TogetherShows(together, name, first, second);
    ApartShows(apart, name, first, second);
  }

  /** The record of the first report ends up with both failures, that of the second stays as it was. */
  lemma FirstRecordChanges(start: Clock, name: string, digest: Digest, first: int, second: int)
    ensures Feasible(NewStats(start), Apart(name, first, second), 4, digest)
    ensures var data, key := Sent(NewStats(start), Apart(name, first, second), 4, digest), ErrorKey(name, digest);
            && |data| == 2 && key in data[0].errors && key in data[1].errors
            && data[0].errors[key].occurrences == 1 && RecordAfter(data, 0, key).occurrences == 2
            && RecordAfter(data, 1, key) == data[1].errors[key]
  {
    hide Feasible, NewStats, Sent, Apart, ErrorKey;
    ApartSends(start, name, digest, first, second);
    var data, key := Sent(NewStats(start), Apart(name, first, second), 4, digest), ErrorKey(name, digest);
    assert AllOccurrences(data, 0, key) == 0 && AllOccurrences(data, 1, key) == 1;
  }
}
