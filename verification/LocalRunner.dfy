/** Standalone mode: the statistics loop, and one output that receives its reports. */
module LocalRunner {
  import opened ErrorRecords
  import opened LiveStats
  import opened ReportPoints
  import opened SharedErrors
  import opened StatsModel
  import opened StatsRuns
  import opened Summary
  import opened SummaryRuns

  /** Decoding a report copies the entries' maps; the error records are passed on as they are. */
  method Decode(report: LiveReport) returns (data: Reported)
    ensures data.Content() == report.Content() && data.errors == report.errors
  {
    var rows: seq<Entry> := [];
    for i := 0 to |report.stats|
      invariant |rows| == i
      invariant forall j :: 0 <= j < i ==> rows[j] == report.stats[j].Content()
    {
      var entry := DecodeEntry(report.stats[i]);
      rows := rows + [entry];
    }
    var total := DecodeEntry(report.total);
    data := Reported(rows, total, report.errors);
    assert rows == Contents(report.stats);
  }

  method DecodeEntry(r: Report) returns (e: Entry)
    ensures e == r.Content()
  {
    e := Entry(r.name, r.requestMethod, r.numRequests, r.numFailures, r.totalResponseTime, r.minResponseTime,
               r.maxResponseTime, r.maps.numReqsPerSec, r.maps.numFailPerSec, r.maps.responseTimes,
               r.totalContentLength, r.startTime, r.lastRequestTimestamp);
  }

  lemma EntriesAre(reports: seq<LiveReport>, data: seq<ReportData>)
    requires |reports| == |data| && forall i :: 0 <= i < |reports| ==> reports[i].Content() == data[i]
    ensures forall i :: 0 <= i < |reports| ==> reports[i].Entries() == (data[i].stats, data[i].total)
  {
  }

  /** For every error of the first n reports, the record of the first report that has it. */
  ghost function FirstRecords(reports: seq<LiveReport>, n: nat): Records
    requires n <= |reports|
  {
    if n == 0 then map[] else reports[n - 1].errors + FirstRecords(reports, n - 1)
  }

  /** All error records of the first n reports. */
  ghost function AllRecords(reports: seq<LiveReport>, n: nat): set<ErrorRecord>
    requires n <= |reports|
  {
    set i, k | 0 <= i < n && k in reports[i].errors :: reports[i].errors[k]
  }

  ghost function AllMaps(reports: seq<LiveReport>): set<CountMaps> {
    set i, m | 0 <= i < |reports| && m in reports[i].Maps() :: m
  }

  /** The reports from the n-th on are as they were sent, and of the others at least the entries are. */
  ghost predicate Waiting(reports: seq<LiveReport>, n: nat, data: seq<ReportData>)
    requires n <= |reports| == |data|
    reads AllRecords(reports, |reports|), AllMaps(reports)
  {
    && (forall i :: n <= i < |reports| ==> reports[i].Content() == data[i])
    && (forall i :: 0 <= i < |reports| ==> reports[i].Entries() == (data[i].stats, data[i].total))
  }

  /** None of these objects is in a report that waits, or holds the entries of any report. */
  ghost predicate Beside(reports: seq<LiveReport>, n: nat, mine: set<object>) {
    && (forall i :: n <= i < |reports| ==> reports[i].Footprint() !! mine)
    && (forall i :: 0 <= i < |reports| ==> reports[i].Maps() !! mine)
  }

  lemma ValuesOfBoth(a: Records, b: Records)
    ensures forall r :: r in (a + b).Values ==> r in a.Values || exists k :: k in b && b[k] == r
  {
    forall r | r in (a + b).Values
      ensures r in a.Values || exists k :: k in b && b[k] == r
    {
      var k :| k in a + b && (a + b)[k] == r;
      assert k in b ==> b[k] == r;
    }
  }

  /** The output takes a report in: its entries decoded, its errors as they are. */
  method TakeIn(output: Output, report: LiveReport, users: int, ghost content: ReportData)
    requires output.Valid() && Keyed(report.errors)
    requires report.Content() == content && report.Footprint() !! output.Footprint()
    modifies output.Footprint()
    ensures output.Valid() && output.Errors() == report.errors + old(output.Errors())
    ensures forall o :: o in output.Footprint() ==>
              o in old(output.Footprint()) || fresh(o) || (o in report.errors.Values && o in output.Errors().Values)
    ensures Absorbed(old(output.View()), content, users, output.percentTime, output.View())
  {
    hide Absorbed, Output.Valid, Output.View, Output.Errors, LiveReport.Content;
    ghost var mine, errors := output.Footprint(), output.Errors();
    output.ErrorsInFootprint();
    var decoded := Decode(report);
    output.OnEvent(decoded, users);
    ValuesOfBoth(report.errors, errors);
  }

  ghost function AllObjects(reports: seq<LiveReport>): set<object> {
    set i, o | 0 <= i < |reports| && o in reports[i].Footprint() :: o
  }

  lemma ObjectsAreThere(reports: seq<LiveReport>)
    ensures forall o :: o in AllObjects(reports) ==> allocated(o)
  {
  }

  lemma StillBeside(reports: seq<LiveReport>, n: nat, mine: set<object>, more: set<object>)
    requires n < |reports| && Beside(reports, n, mine) && NoSharedErrors(reports)
    requires forall o :: o in more ==> o in mine || o !in AllObjects(reports) || o in reports[n].errors.Values
    ensures Beside(reports, n + 1, more)
  {
    forall i, o | 0 <= i < |reports| && o in more && o in reports[i].Footprint()
      ensures o in mine || o in reports[n].errors.Values
    {
      assert o in AllObjects(reports);
    }
  }

  /** The next report is taken in; the others go on waiting. */
  method DeliverNext(output: Output, reports: seq<LiveReport>, n: nat, users: int, ghost data: seq<ReportData>)
    requires output.Valid() && n < |reports| == |data| && NoSharedErrors(reports)
    requires output.Errors() == FirstRecords(reports, n)
    requires Waiting(reports, n, data) && Beside(reports, n, output.Footprint())
    modifies output.Footprint()
    ensures output.Valid() && output.Errors() == FirstRecords(reports, n + 1)
    ensures forall o :: o in output.Footprint() ==>
              o in old(output.Footprint()) || fresh(o) || o in FirstRecords(reports, n + 1).Values
    ensures Absorbed(old(output.View()), data[n], users, output.percentTime, output.View())
    ensures Waiting(reports, n + 1, data) && Beside(reports, n + 1, output.Footprint())
  {
    hide Absorbed, Output.Valid, Output.View, Output.Errors, Output.Footprint, LiveReport.Content, LiveReport.Entries,
         AllObjects;
    ghost var mine := output.Footprint();
    ObjectsAreThere(reports);
    TakeIn(output, reports[n], users, data[n]);
    hide Beside;
    StillBeside(reports, n, mine, output.Footprint());
  }

  /** The records kept of the first n reports are not in any later report. */
  lemma {:induction false} KeptApart(reports: seq<LiveReport>, n: nat)
    requires n <= |reports| && NoSharedErrors(reports)
    ensures forall i :: n <= i < |reports| ==> reports[i].errors.Values !! FirstRecords(reports, n).Values
    ensures FirstRecords(reports, n).Values <= AllRecords(reports, |reports|)
  {
    if n > 0 {
      KeptApart(reports, n - 1);
      var kept := FirstRecords(reports, n);
      forall k | k in kept
        ensures kept[k] in FirstRecords(reports, n - 1).Values || kept[k] in reports[n - 1].errors.Values
        ensures kept[k] in AllRecords(reports, |reports|)
      {
        if k in FirstRecords(reports, n - 1) {
          assert kept[k] == FirstRecords(reports, n - 1)[k];
        } else {
          assert kept[k] == reports[n - 1].errors[k];
        }
      }
    }
  }

  /** A record passed over, because an earlier report has the error, is never among those kept. */
  lemma {:induction false} PassedIsNotKept(reports: seq<LiveReport>, i: nat, k: string, n: nat)
    requires i < n <= |reports| && NoSharedErrors(reports)
    requires k in reports[i].errors && k in FirstRecords(reports, i)
    ensures reports[i].errors[k] !in FirstRecords(reports, n).Values
  {
    hide FirstRecords;
    var r, before, next := reports[i].errors[k], FirstRecords(reports, n - 1), reports[n - 1].errors;
    assert r in reports[i].errors.Values;
    if i == n - 1 {
      KeptApart(reports, i);
      assert forall j :: j in next && next[j] == r ==> j == k;
    } else {
      PassedIsNotKept(reports, i, k, n - 1);
      forall j | j in next
        ensures next[j] != r
      {
        assert next[j] in next.Values;
      }
    }
    NotTakenOver(before, next, r);
    OneMoreReport(reports, n);
  }

  lemma OneMoreReport(reports: seq<LiveReport>, n: nat)
    requires 0 < n <= |reports|
    ensures FirstRecords(reports, n) == reports[n - 1].errors + FirstRecords(reports, n - 1)
  {
  }

  lemma NotTakenOver(kept: Records, next: Records, r: ErrorRecord)
    requires r !in kept.Values && forall k :: k in next && k !in kept ==> next[k] != r
    ensures r !in (next + kept).Values
  {
    ValuesOfBoth(next, kept);
    forall k | k in next + kept
      ensures (next + kept)[k] != r
    {
      assert k in kept ==> kept[k] in kept.Values;
    }
  }

  /**
   * The records that the first n reports have for errors of earlier reports are as they were sent, and
   * not among the given objects.
   */
  ghost predicate PassedOver(reports: seq<LiveReport>, n: nat, data: seq<ReportData>, mine: set<object>)
    requires n <= |reports| == |data|
    reads AllRecords(reports, |reports|)
  {
    forall i, k :: 0 <= i < n && k in reports[i].errors && k in FirstRecords(reports, i) ==>
      && k in data[i].errors && reports[i].errors[k].View() == data[i].errors[k]
      && reports[i].errors[k] !in mine
  }

  lemma ContentErrors(report: LiveReport, data: ReportData)
    requires report.Content() == data
    ensures forall k :: k in report.errors ==> k in data.errors && report.errors[k].View() == data.errors[k]
  {
  }

  /** The next report is taken in, and the records it brings for known errors are passed over. */
  method DeliverPast(output: Output, reports: seq<LiveReport>, n: nat, users: int, ghost data: seq<ReportData>)
    requires output.Valid() && n < |reports| == |data| && NoSharedErrors(reports)
    requires output.Errors() == FirstRecords(reports, n)
    requires Waiting(reports, n, data) && Beside(reports, n, output.Footprint())
    requires PassedOver(reports, n, data, output.Footprint())
    modifies output.Footprint()
    ensures output.Valid() && output.Errors() == FirstRecords(reports, n + 1)
    ensures forall o :: o in output.Footprint() ==>
              o in old(output.Footprint()) || fresh(o) || o in AllRecords(reports, |reports|)
    ensures Absorbed(old(output.View()), data[n], users, output.percentTime, output.View())
    ensures Waiting(reports, n + 1, data) && Beside(reports, n + 1, output.Footprint())
    ensures PassedOver(reports, n + 1, data, output.Footprint())
  {
    hide Absorbed, Output.Valid, Output.View, Output.Errors, Output.Footprint, LiveReport.Content, LiveReport.Entries,
         NoSharedErrors, FirstRecords;
    ghost var mine := output.Footprint();
    ContentErrors(reports[n], data[n]);
    KeptApart(reports, n + 1);
    DeliverNext(output, reports, n, users, data);
    forall i, k | 0 <= i < n + 1 && k in reports[i].errors && k in FirstRecords(reports, i)
      ensures k in data[i].errors && reports[i].errors[k].View() == data[i].errors[k]
      ensures reports[i].errors[k] !in output.Footprint()
    {
      PassedIsNotKept(reports, i, k, n + 1);
      assert reports[i].errors[k] in reports[i].errors.Values;
      assert reports[i].errors[k] !in mine;
    }
  }

  /**
   * The loop that hands every report to the output, with the number of users at that moment. The
   * entries of the reports stay as they are. Of their error records, those of the first report with an
   * error end up with the occurrences of all reports, and all others stay as they are too.
   */
  method Deliver(output: Output, reports: seq<LiveReport>, users: seq<int>, ghost data: seq<ReportData>)
    returns (ghost views: seq<SummaryView>)
    requires output.Valid() && output.View() == NO_SUMMARY && output.Errors() == map[]
    requires |users| == |reports| == |data| && NoSharedErrors(reports)
    requires Waiting(reports, 0, data) && Beside(reports, 0, output.Footprint())
    modifies output.Footprint(), AllRecords(reports, |reports|)
    ensures output.Valid() && Chain(data, views, users, output.percentTime)
    ensures output.View() == views[|views| - 1]
    ensures output.Errors() == FirstRecords(reports, |reports|)
    ensures Waiting(reports, |reports|, data)
    ensures forall i, k :: 0 <= i < |reports| && k in reports[i].errors ==>
              k in data[i].errors && reports[i].errors[k].View() == RecordAfter(data, i, k)
  {
    hide Absorbed, Output.Valid, Output.View, Output.Errors, Output.Footprint, NoSharedErrors, Waiting, Beside, Linked,
         PassedOver, RecordAfter, FirstRecords, AllRecords, Chain;
    views := [output.View()];
    FirstLink(data, views, users, output.percentTime);
    SameKeys(reports, data);
    NothingPassedOver(reports, data, output.Footprint());
    for n := 0 to |reports|
      invariant output.Valid() && output.Errors() == FirstRecords(reports, n)
      invariant forall o :: o in output.Footprint() ==>
                  o in old(output.Footprint()) || fresh(o) || o in AllRecords(reports, |reports|)
      invariant Waiting(reports, n, data) && Beside(reports, n, output.Footprint())
      invariant PassedOver(reports, n, data, output.Footprint())
      invariant Linked(data, views, users, output.percentTime, n, output.View())
    {
      ghost var v := output.View();
      DeliverPast(output, reports, n, users[n], data);
      views := NextLink(data, views, users, output.percentTime, n, v, output.View());
    }
    LastLink(data, views, users, output.percentTime, output.View());
    RecordsEndUp(output, reports, users, data, views);
  }

  lemma NothingPassedOver(reports: seq<LiveReport>, data: seq<ReportData>, mine: set<object>)
    requires |reports| == |data|
    ensures PassedOver(reports, 0, data, mine) && FirstRecords(reports, 0) == map[]
  {
  }

  lemma SameKeys(reports: seq<LiveReport>, data: seq<ReportData>)
    requires |reports| == |data| && Waiting(reports, 0, data)
    ensures forall i :: 0 <= i < |reports| ==> data[i].errors.Keys == reports[i].errors.Keys
  {
  }

  /** Put together: what every error record of the reports holds in the end. */
  lemma {:induction false} RecordsEndUp(output: Output, reports: seq<LiveReport>, users: seq<int>,
                                        data: seq<ReportData>, views: seq<SummaryView>)
    requires |reports| == |data| && Chain(data, views, users, output.percentTime)
    requires output.View() == views[|views| - 1] && output.Errors() == FirstRecords(reports, |reports|)
    requires PassedOver(reports, |reports|, data, output.Footprint())
    requires forall i :: 0 <= i < |reports| ==> data[i].errors.Keys == reports[i].errors.Keys
    ensures forall i, k :: 0 <= i < |reports| && k in reports[i].errors ==>
              k in data[i].errors && reports[i].errors[k].View() == RecordAfter(data, i, k)
  {
    hide Chain, AllOccurrences, Output.View, Output.Errors, Output.Footprint;
    forall i, k | 0 <= i < |reports| && k in reports[i].errors
      ensures k in data[i].errors && reports[i].errors[k].View() == RecordAfter(data, i, k)
    {
      RecordedBefore(reports, i, k);
      if IsFirstWith(data, i, k) {
        FirstReportCountsOn(output, reports, i, k);
        SummaryErrorIs(data, views, users, output.percentTime, |data|, i, k);
        ChainLength(data, views, users, output.percentTime);
      } else {
        assert k in FirstRecords(reports, i);
      }
    }
  }

  lemma {:induction false} RecordedBefore(reports: seq<LiveReport>, n: nat, key: string)
    requires n <= |reports|
    ensures key in FirstRecords(reports, n) <==> exists j :: 0 <= j < n && key in reports[j].errors
  {
    if n > 0 {
      RecordedBefore(reports, n - 1, key);
    }
  }

  /** The views so far follow from each other by the first n reports, and v is the last of them. */
  ghost predicate Linked(data: seq<ReportData>, views: seq<SummaryView>, users: seq<int>, percentTime: int, n: nat,
                         v: SummaryView)
  {
    && |views| == n + 1 && n <= |data| == |users| && views[0] == NO_SUMMARY && views[n] == v
    && forall i :: 0 <= i < n ==> Absorbed(views[i], data[i], users[i], percentTime, views[i + 1])
  }

  lemma FirstLink(data: seq<ReportData>, views: seq<SummaryView>, users: seq<int>, percentTime: int)
    requires |data| == |users| && views == [NO_SUMMARY]
    ensures Linked(data, views, users, percentTime, 0, NO_SUMMARY)
  {
  }

  lemma NextLink(data: seq<ReportData>, views: seq<SummaryView>, users: seq<int>, percentTime: int, n: nat,
                 v: SummaryView, r: SummaryView) returns (more: seq<SummaryView>)
    requires n < |data| == |users| && Linked(data, views, users, percentTime, n, v)
    requires Absorbed(v, data[n], users[n], percentTime, r)
    ensures Linked(data, more, users, percentTime, n + 1, r)
  {
    hide Absorbed;
    more := views + [r];
  }

  lemma LastLink(data: seq<ReportData>, views: seq<SummaryView>, users: seq<int>, percentTime: int, v: SummaryView)
    requires Linked(data, views, users, percentTime, |data|, v)
    ensures Chain(data, views, users, percentTime) && v == views[|views| - 1]
  {
    hide Absorbed;
  }

  /** The record kept for an error is that of the first report with it; what is counted later is counted there. */
  lemma {:induction false} FirstRecordOf(reports: seq<LiveReport>, i: nat, key: string, n: nat)
    requires i < n <= |reports| && key in reports[i].errors
    requires forall j :: 0 <= j < i ==> key !in reports[j].errors
    ensures key in FirstRecords(reports, n) && FirstRecords(reports, n)[key] == reports[i].errors[key]
    ensures n == i + 1 ==> key !in FirstRecords(reports, i)
  {
    if n == i + 1 {
      NotYetRecorded(reports, i, key);
    } else {
      FirstRecordOf(reports, i, key, n - 1);
    }
  }

  lemma {:induction false} NotYetRecorded(reports: seq<LiveReport>, n: nat, key: string)
    requires n <= |reports| && forall j :: 0 <= j < n ==> key !in reports[j].errors
    ensures key !in FirstRecords(reports, n)
  {
    if n > 0 {
      NotYetRecorded(reports, n - 1, key);
    }
  }

  /** So a report that was the first with an error does change later: its record ends up with all occurrences. */
  lemma FirstReportCountsOn(output: Output, reports: seq<LiveReport>, i: nat, key: string)
    requires output.Errors() == FirstRecords(reports, |reports|)
    requires i < |reports| && key in reports[i].errors && forall j :: 0 <= j < i ==> key !in reports[j].errors
    ensures key in output.View().errors && output.View().errors[key] == reports[i].errors[key].View()
  {
    FirstRecordOf(reports, i, key, |reports|);
  }

  lemma AllWait(reports: seq<LiveReport>, data: seq<ReportData>)
    requires |reports| == |data| && forall i :: 0 <= i < |reports| ==> reports[i].Content() == data[i]
    ensures Waiting(reports, 0, data)
  {
    EntriesAre(reports, data);
  }

  twostate lemma RecordsAreFresh(new reports: seq<LiveReport>)
    requires forall i :: 0 <= i < |reports| ==> fresh(reports[i].errors.Values)
    ensures fresh(AllRecords(reports, |reports|))
  {
    forall i, k | 0 <= i < |reports| && k in reports[i].errors
      ensures fresh(reports[i].errors[k])
    {
      assert reports[i].errors[k] in reports[i].errors.Values;
    }
  }

  /** The loop takes its turns. */
  method RunLoop(digest: Digest, start: Clock, steps: seq<Step>) returns (reports: seq<LiveReport>)
    requires Feasible(NewStats(start), steps, |steps|, digest)
    ensures |reports| == |Sent(NewStats(start), steps, |steps|, digest)| && NoSharedErrors(reports)
    ensures Waiting(reports, 0, Sent(NewStats(start), steps, |steps|, digest))
    ensures fresh(AllRecords(reports, |reports|))
  {
    hide Feasible, Sent, NewStats, RequestStats.Valid, RequestStats.View, LiveReport.Content, NoSharedErrors, Waiting,
         AllRecords;
    var stats := new RequestStats(digest, start);
    reports := stats.Start(steps);
    AllWait(reports, Sent(NewStats(start), steps, |steps|, digest));
    RecordsAreFresh(reports);
  }

  /** A new output has nothing to do with reports that are there already. */
  method NewOutput(percentTime: int, ghost reports: seq<LiveReport>, ghost data: seq<ReportData>)
    returns (output: Output)
    requires |reports| == |data| && Waiting(reports, 0, data)
    ensures fresh(output.Footprint()) && output.percentTime == percentTime
    ensures output.Valid() && output.View() == NO_SUMMARY && output.Errors() == map[]
    ensures Waiting(reports, 0, data) && Beside(reports, 0, output.Footprint())
  {
    hide Output.Valid, Output.View, Output.Errors, Output.Footprint, LiveReport.Content, LiveReport.Entries;
    output := new Output(percentTime);
    forall i | 0 <= i < |reports|
      ensures reports[i].Content() == data[i]
    {
      assert forall o :: o in reports[i].Footprint() ==> old(allocated(o)) && unchanged(o);
    }
    AllWait(reports, data);
  }

  /**
   * A standalone session, end to end: the loop takes its turns and the output receives the reports.
   * Whatever is shown for a name at the end is what one entry shows that is never reset and fed every
   * delivered event of the name.
   */
  method Session(digest: Digest, start: Clock, steps: seq<Step>, users: seq<int>, percentTime: int, ghost name: string)
    returns (output: Output)
    requires Feasible(NewStats(start), steps, |steps|, digest)
    requires |users| == |Sent(NewStats(start), steps, |steps|, digest)|
    ensures output.Valid() && ShowsBookings(output.View(), BookAfter(steps, |steps|).delivered, percentTime, name)
  {
    hide Chain, Feasible, Sent, NewStats, BookAfter, ShowsBookings, Output.Valid, Output.View, Output.Errors, Waiting,
         NoSharedErrors, Beside, Output.Footprint, AllRecords;
    var reports := RunLoop(digest, start, steps);
    ghost var data := Sent(NewStats(start), steps, |steps|, digest);
    output := NewOutput(percentTime, reports, data);
    ghost var views := Deliver(output, reports, users, data);
    ReportPointsAreInvisible(start, steps, |steps|, digest, views, users, percentTime, name);
  }
}
