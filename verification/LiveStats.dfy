/** The statistics as they live in memory: entries whose maps are handed over by reference. */
module LiveStats {
  import opened Counters
  import opened ErrorRecords
  import opened Rounding
  import opened StatsModel

  /**
   * The three maps of an entry. They are shared by reference and always replaced together, so they
   * are one object here.
   */
  class CountMaps {
    var numReqsPerSec: Counts
    var numFailPerSec: Counts
    var responseTimes: Counts
    ghost const owner: StatsEntry?

    constructor (ghost owner: StatsEntry?)
      ensures this.owner == owner
      ensures numReqsPerSec == numFailPerSec == responseTimes == map[]
    {
      this.owner := owner;
      numReqsPerSec, numFailPerSec, responseTimes := map[], map[], map[];
    }
  }

  /** A reported entry: numbers by value, maps by reference. */
  datatype Report = Report(
    name: string, requestMethod: string,
    numRequests: int, numFailures: int,
    totalResponseTime: int, minResponseTime: int, maxResponseTime: nat, maps: CountMaps,
    totalContentLength: int, startTime: int, lastRequestTimestamp: int)
  {
    ghost function Content(): Entry
      reads maps
    {
      Entry(name, requestMethod, numRequests, numFailures, totalResponseTime, minResponseTime, maxResponseTime,
            maps.numReqsPerSec, maps.numFailPerSec, maps.responseTimes,
            totalContentLength, startTime, lastRequestTimestamp)
    }
  }

  method Incremented(counts: Counts, key: int) returns (r: Counts)
    ensures r == Bump(counts, key)
  {
    if key !in counts {
      r := counts[key := 1];
    } else {
      r := counts[key := counts[key] + 1];
    }
  }

  class StatsEntry {
    const name: string
    const requestMethod: string
    ghost const key: string
    var numRequests: int
    var numFailures: int
    var totalResponseTime: int
    var minResponseTime: int
    var maxResponseTime: nat
    var maps: CountMaps
    var totalContentLength: int
    var startTime: int
    var lastRequestTimestamp: int

    /** The maps are this entry's own. */
    ghost predicate Valid()
      reads this
    {
      maps.owner == this
    }

    ghost function View(): Entry
      reads this, maps
    {
      Entry(name, requestMethod, numRequests, numFailures, totalResponseTime, minResponseTime, maxResponseTime,
            maps.numReqsPerSec, maps.numFailPerSec, maps.responseTimes,
            totalContentLength, startTime, lastRequestTimestamp)
    }

    constructor (name: string, requestMethod: string, start: int, last: int)
      ensures Valid() && fresh(maps)
      ensures key == name + requestMethod
      ensures View() == Blank(name, requestMethod, start, last)
    {
      this.name, this.requestMethod, key := name, requestMethod, name + requestMethod;
      maps := new CountMaps(null);
      new;
      Reset(start, last);
    }

    method Reset(start: int, last: int)
      modifies this
      ensures Valid() && fresh(maps)
      ensures View() == Blank(name, requestMethod, start, last)
    {
      startTime := start;
      numRequests, numFailures, totalResponseTime := 0, 0, 0;
      maps := new CountMaps(this);
      minResponseTime, maxResponseTime := 0, 0;
      lastRequestTimestamp := last;
      totalContentLength := 0;
    }

    method Log(responseTime: int, contentLength: int, now: int)
      modifies this, maps
      ensures maps == old(maps)
      ensures View() == Logged(old(View()), responseTime, contentLength, now)
      ensures exists r :: Rounds(responseTime, r)
                  && maps.responseTimes == old(maps.responseTimes)[r := At(old(maps.responseTimes), r) + 1]
    {
      BucketIff(responseTime, Bucket(responseTime));
      numRequests := numRequests + 1;
      LogTimeOfRequest(now);
      LogResponseTime(responseTime);
      totalContentLength := totalContentLength + contentLength;
    }

    method LogTimeOfRequest(now: int)
      modifies `lastRequestTimestamp, maps`numReqsPerSec
      ensures maps.numReqsPerSec == Bump(old(maps.numReqsPerSec), now)
      ensures lastRequestTimestamp == now
    {
      maps.numReqsPerSec := Incremented(maps.numReqsPerSec, now);
      lastRequestTimestamp := now;
    }

    method LogResponseTime(responseTime: int)
      modifies `totalResponseTime, `minResponseTime, `maxResponseTime, maps`responseTimes
      ensures totalResponseTime == old(totalResponseTime) + responseTime
      ensures minResponseTime == NewMinimum(old(minResponseTime), responseTime)
      ensures maxResponseTime == if responseTime > old(maxResponseTime) then responseTime else old(maxResponseTime)
      ensures maps.responseTimes == Bump(old(maps.responseTimes), Bucket(responseTime))
    {
      totalResponseTime := totalResponseTime + responseTime;
      if minResponseTime == 0 {
        minResponseTime := responseTime;
      }
      if responseTime < minResponseTime {
        minResponseTime := responseTime;
      }
      if responseTime > maxResponseTime {
        maxResponseTime := responseTime;
      }
      var rounded: int;
      if responseTime < 100 {
        rounded := responseTime;
      } else if responseTime < 1000 {
        rounded := RoundHalfUp(responseTime, 10);
      } else if responseTime < 10000 {
        rounded := RoundHalfUp(responseTime, 100);
      } else {
        rounded := RoundHalfUp(responseTime, 1000);
      }
      maps.responseTimes := Incremented(maps.responseTimes, rounded);
    }

    method LogError(now: int)
      modifies this, maps
      ensures maps == old(maps)
      ensures View() == Failed(old(View()), now)
    {
      numFailures := numFailures + 1;
      maps.numFailPerSec := Incremented(maps.numFailPerSec, now);
    }

    method GetStrippedReport(start: int, last: int) returns (report: Report)
      modifies this
      ensures Valid() && fresh(maps)
      ensures View() == Blank(name, requestMethod, start, last)
      ensures report.maps == old(maps) && report.Content() == old(View())
    {
      report := Report(name, requestMethod, numRequests, numFailures, totalResponseTime, minResponseTime,
                       maxResponseTime, maps, totalContentLength, startTime, lastRequestTimestamp);
      Reset(start, last);
    }
  }

  class StatsError {
    const name: string
    const requestMethod: string
    const error: string
    ghost const key: string
    var occurrences: int

    constructor (name: string, requestMethod: string, error: string, ghost key: string)
      ensures this.key == key
      ensures View() == ErrorInfo(name, requestMethod, error, 0)
    {
      this.name, this.requestMethod, this.error, this.key := name, requestMethod, error, key;
      occurrences := 0;
    }

    function View(): ErrorInfo
      reads this
    {
      ErrorInfo(name, requestMethod, error, occurrences)
    }

    method Occured()
      modifies this
      ensures View() == old(View()).(occurrences := old(View()).occurrences + 1)
    {
      occurrences := occurrences + 1;
    }
  }

  // ---------------------------------------------------------------------------------------------
  // All entries together
  // ---------------------------------------------------------------------------------------------

  class RequestStats {
    const digest: Digest
    var entries: map<string, StatsEntry>
    var errors: map<string, StatsError>
    var total: StatsEntry
    var startTime: int
    ghost var Repr: set<object>

    /** Entries are kept under their own keys and own their maps, so no two share an object. */
    ghost predicate Valid()
      reads this, Repr
      ensures Valid() ==> this in Repr
    {
      && this in Repr
      && total in Repr && total.maps in Repr && total.Valid()
      && (forall k :: k in entries ==>
            && entries[k] in Repr && entries[k].maps in Repr && entries[k].Valid()
            && entries[k] != total && entries[k].key == k)
      && (forall k :: k in errors ==> errors[k] in Repr && errors[k].key == k)
    }

    ghost function View(): Stats
      requires Valid()
      reads this, Repr
    {
      Stats(map k | k in entries :: entries[k].View(), map k | k in errors :: errors[k].View(),
            total.View(), startTime)
    }

    /** What it takes for the view to be a given value. */
    lemma ViewIs(v: Stats)
      requires Valid()
      requires entries.Keys == v.entries.Keys && forall k :: k in entries ==> entries[k].View() == v.entries[k]
      requires errors.Keys == v.errors.Keys && forall k :: k in errors ==> errors[k].View() == v.errors[k]
      requires total.View() == v.total && startTime == v.startTime
      ensures View() == v
    {
      assert View().entries == v.entries;
      assert View().errors == v.errors;
    }

    lemma EntryViewIs(before: Stats, key: string, e: Entry)
      requires Valid() && key in entries && entries.Keys == before.entries.Keys + {key}
      requires entries[key].View() == e
      requires forall k :: k in entries && k != key ==> entries[k].View() == before.entries[k]
      requires errors.Keys == before.errors.Keys && forall k :: k in errors ==> errors[k].View() == before.errors[k]
      requires total.View() == before.total && startTime == before.startTime
      ensures View() == before.(entries := before.entries[key := e])
    {
      ViewIs(before.(entries := before.entries[key := e]));
    }

    lemma ViewParts()
      requires Valid()
      ensures View().entries.Keys == entries.Keys && View().errors.Keys == errors.Keys
      ensures forall k :: k in entries ==> View().entries[k] == entries[k].View()
      ensures forall k :: k in errors ==> View().errors[k] == errors[k].View()
      ensures View().total == total.View() && View().startTime == startTime
    {
    }

    constructor (digest: Digest, clock: Clock)
      ensures Valid() && fresh(Repr) && this.digest == digest
      ensures View() == NewStats(clock)
    {
      this.digest := digest;
      entries, errors, startTime := map[], map[], 0;
      total := new StatsEntry("Total", "", clock(OfTotal, ResetStart), clock(OfTotal, ResetLast));
      new;
      Repr := {this, total, total.maps};
      ViewIs(NewStats(clock));
    }

    method Get(name: string, requestMethod: string, clock: Clock) returns (entry: StatsEntry)
      requires Valid()
      modifies `entries, `Repr
      ensures Valid() && fresh(Repr - old(Repr)) && old(Repr) <= Repr
      ensures name + requestMethod in entries && entry == entries[name + requestMethod]
      ensures View() == old(View()).(entries := old(View()).entries[name + requestMethod :=
                                                  Found(old(View()), name, requestMethod, clock)])
    {
      hide BlankAt, RequestStats.Valid, RequestStats.View;
      var key := name + requestMethod;
      ViewParts();
      if key in entries {
        entry := entries[key];
        assert View().entries == View().entries[key := View().entries[key]];
        return;
      }
      entry := AddEntry(key, name, requestMethod, clock);
    }

    method AddEntry(key: string, name: string, requestMethod: string, clock: Clock) returns (entry: StatsEntry)
      requires Valid() && key == name + requestMethod && key !in entries
      modifies `entries, `Repr
      ensures Valid() && fresh(Repr - old(Repr)) && old(Repr) <= Repr
      ensures key in entries && entry == entries[key]
      ensures View() == old(View()).(entries := old(View()).entries[key :=
                                                  BlankAt(name, requestMethod, clock, OfEntry(key))])
    {
      hide BlankAt;
      ghost var before := View();
      entry := new StatsEntry(name, requestMethod, clock(OfEntry(key), ResetStart), clock(OfEntry(key), ResetLast));
      entries := entries[key := entry];
      Repr := Repr + {entry, entry.maps};
      BlankAtIs(name, requestMethod, clock, OfEntry(key));
      EntryViewIs(before, key, BlankAt(name, requestMethod, clock, OfEntry(key)));
    }

    /** One entry, or the total, logs a request or a failure; nothing else changes. */
    method LogInEntry(key: string, responseTime: int, contentLength: int, now: int)
      requires Valid() && key in entries
      modifies Repr
      ensures Valid() && entries == old(entries) && Repr == old(Repr)
      ensures View() == old(View()).(entries := old(View()).entries[key :=
                                                  Logged(old(View()).entries[key], responseTime, contentLength, now)])
    {
      hide Logged, RequestStats.View, StatsEntry.View;
      ViewParts();
      ghost var before := View();
      entries[key].Log(responseTime, contentLength, now);
      EntryViewIs(before, key, Logged(before.entries[key], responseTime, contentLength, now));
    }

    method LogInTotal(responseTime: int, contentLength: int, now: int)
      requires Valid()
      modifies Repr
      ensures Valid() && entries == old(entries) && Repr == old(Repr)
      ensures View() == old(View()).(total := Logged(old(View()).total, responseTime, contentLength, now))
    {
      hide Logged;
      ghost var before := View();
      total.Log(responseTime, contentLength, now);
      ViewIs(before.(total := Logged(before.total, responseTime, contentLength, now)));
    }

    method FailInEntry(key: string, now: int)
      requires Valid() && key in entries
      modifies Repr
      ensures Valid() && entries == old(entries) && Repr == old(Repr)
      ensures View() == old(View()).(entries := old(View()).entries[key := Failed(old(View()).entries[key], now)])
    {
      hide Failed, RequestStats.View, StatsEntry.View;
      ViewParts();
      ghost var before := View();
      entries[key].LogError(now);
      EntryViewIs(before, key, Failed(before.entries[key], now));
    }

    method FailInTotal(now: int)
      requires Valid()
      modifies Repr
      ensures Valid() && entries == old(entries) && Repr == old(Repr)
      ensures View() == old(View()).(total := Failed(old(View()).total, now))
    {
      hide Failed;
      ghost var before := View();
      total.LogError(now);
      ViewIs(before.(total := Failed(before.total, now)));
    }

    method LogRequest(requestMethod: string, name: string, responseTime: int, contentLength: int, clock: Clock)
      requires Valid()
      modifies Repr
      ensures Valid() && fresh(Repr - old(Repr)) && old(Repr) <= Repr
      ensures View() == StatsModel.LogRequest(old(View()), requestMethod, name, responseTime, contentLength, clock)
    {
      hide Logged, BlankAt, RequestStats.Valid, RequestStats.View;
      ghost var before := View();
      var key := name + requestMethod;
      LogInTotal(responseTime, contentLength, clock(OfTotal, RequestTime));
      var entry := Get(name, requestMethod, clock);
      LogInEntry(key, responseTime, contentLength, clock(OfEntry(key), RequestTime));
      assert View().entries ==
             StatsModel.LogRequest(before, requestMethod, name, responseTime, contentLength, clock).entries;
    }

    method LogError(requestMethod: string, name: string, err: string, clock: Clock)
      requires Valid()
      modifies Repr
      ensures Valid() && fresh(Repr - old(Repr)) && old(Repr) <= Repr
      ensures View() == StatsModel.LogError(old(View()), requestMethod, name, err, clock, digest)
    {
      hide Failed, BlankAt, Occurred, RequestStats.Valid, RequestStats.View;
      ghost var before := View();
      var key := name + requestMethod;
      FailInTotal(clock(OfTotal, FailureTime));
      var entry := Get(name, requestMethod, clock);
      FailInEntry(key, clock(OfEntry(key), FailureTime));
      RecordError(digest(requestMethod + name + err), name, requestMethod, err);
      assert View().entries == StatsModel.LogError(before, requestMethod, name, err, clock, digest).entries;
    }

    method RecordError(key: string, name: string, requestMethod: string, err: string)
      requires Valid()
      modifies Repr
      ensures Valid() && fresh(Repr - old(Repr)) && old(Repr) <= Repr
      ensures View() == old(View()).(errors := Occurred(old(View()).errors, key, name, requestMethod, err))
    {
      hide RequestStats.Valid, RequestStats.View;
      ghost var before := View();
      ViewParts();
      if key !in errors {
        AddError(key, name, requestMethod, err);
      }
      CountError(key);
      assert View().errors == Occurred(before.errors, key, name, requestMethod, err);
    }

    method AddError(key: string, name: string, requestMethod: string, err: string)
      requires Valid() && key !in errors
      modifies `errors, `Repr
      ensures Valid() && fresh(Repr - old(Repr)) && old(Repr) <= Repr && key in errors
      ensures View() == old(View()).(errors := old(View()).errors[key := ErrorInfo(name, requestMethod, err, 0)])
    {
      ghost var before := View();
      var entry := new StatsError(name, requestMethod, err, key);
      errors := errors[key := entry];
      Repr := Repr + {entry};
      ViewIs(before.(errors := before.errors[key := ErrorInfo(name, requestMethod, err, 0)]));
    }

    method CountError(key: string)
      requires Valid() && key in errors
      modifies Repr
      ensures Valid() && Repr == old(Repr) && key in old(View()).errors
      ensures var info := old(View()).errors[key];
              View() == old(View()).(errors := old(View()).errors[key := info.(occurrences := info.occurrences + 1)])
    {
      ghost var before := View();
      ghost var info := before.errors[key];
      errors[key].Occured();
      ViewIs(before.(errors := before.errors[key := info.(occurrences := info.occurrences + 1)]));
    }

    method ClearAll(clock: Clock)
      requires Valid()
      modifies this
      ensures Valid() && fresh(Repr - {this})
      ensures View() == StatsModel.ClearAll(clock)
    {
      hide BlankAt;
      total := new StatsEntry("Total", "", clock(OfTotal, ResetStart), clock(OfTotal, ResetLast));
      entries, errors := map[], map[];
      startTime := clock(OfTotal, TestStart);
      Repr := {this, total, total.maps};
      BlankAtIs("Total", "", clock, OfTotal);
      ViewIs(StatsModel.ClearAll(clock));
    }

    /** An entry, or the total, hands over its counts and starts afresh with new maps. */
    method StripEntry(key: string, clock: Clock) returns (report: Report)
      requires Valid() && key in entries
      modifies `Repr, entries[key]
      ensures Valid() && fresh(Repr - old(Repr)) && entries == old(entries)
      ensures old(View()).entries.Keys == entries.Keys
      ensures View() == old(View()).(entries := old(View()).entries[key :=
                                                  StrippedNow(old(View()).entries[key], clock, key)])
      ensures report.Content() == old(View()).entries[key]
      ensures report.maps !in Repr && report.maps in old(Repr)
    {
      hide StrippedNow, RequestStats.Valid;
      ghost var before := View();
      report := DetachEntry(key, clock);
      EntryViewIs(before, key, StrippedNow(before.entries[key], clock, key));
    }

    /** The same, said about the objects: one new map object takes the place of the old one. */
    method DetachEntry(key: string, clock: Clock) returns (report: Report)
      requires Valid() && key in entries
      modifies `Repr, entries[key]
      ensures Valid() && fresh(Repr - old(Repr))
      ensures entries[key].View() == StrippedNow(old(entries[key].View()), clock, key)
      ensures report.Content() == old(entries[key].View())
      ensures report.maps !in Repr && report.maps in old(Repr)
      ensures forall k :: k in entries && k != key ==> entries[k].View() == old(entries[k].View())
      ensures total.View() == old(total.View())
    {
      var v := entries[key];
      report := v.GetStrippedReport(clock(OfEntry(key), ResetStart), clock(OfEntry(key), ResetLast));
      Repr := Repr - {report.maps} + {v.maps};
      assert Repr - old(Repr) <= {v.maps};
    }

    method StripTotal(clock: Clock) returns (report: Report)
      requires Valid()
      modifies `Repr, total
      ensures Valid() && fresh(Repr - old(Repr)) && entries == old(entries)
      ensures var e := old(View()).total;
              && View() == old(View()).(total := BlankAt(e.name, e.requestMethod, clock, OfTotal))
              && report.Content() == e
      ensures report.maps !in Repr && report.maps in old(Repr)
    {
      hide BlankAt;
      ghost var before := View();
      report := total.GetStrippedReport(clock(OfTotal, ResetStart), clock(OfTotal, ResetLast));
      Repr := Repr - {report.maps} + {total.maps};
      assert Repr - old(Repr) <= {total.maps};
      BlankAtIs(total.name, total.requestMethod, clock, OfTotal);
      ViewIs(before.(total := BlankAt(total.name, total.requestMethod, clock, OfTotal)));
    }

    method SerializeStats(order: seq<string>, clock: Clock) returns (rows: seq<Report>)
      requires Valid() && Enumerates(order, View().entries.Keys)
      modifies `Repr, entries.Values
      ensures Valid() && fresh(Repr - old(Repr))
      ensures View() == old(View()).(entries := StrippedAll(old(View()).entries, clock))
      ensures Contents(rows) == Rows(old(View()).entries, order, |order|)
      ensures MapsOf(rows) !! Repr
    {
      hide RequestStats.Valid, RequestStats.View, Rows, Active, Contents, MapsOf, StrippedFirst, Stripped, Enumerates,
           Listed;
      ghost var before := View().entries;
      EnumeratesLists(order, before.Keys);
      rows := [];
      NothingStripped(before, order, clock);
      for i := 0 to |order|
        invariant Valid() && fresh(Repr - old(Repr)) && entries == old(entries)
        invariant View() == old(View()).(entries := StrippedFirst(before, order, i, clock))
        invariant Contents(rows) == Rows(before, order, i)
        invariant MapsOf(rows) !! Repr
      {
        ViewParts();
        StripNext(before, order, i, clock);
        RowsNext(before, order, i);
        rows := SerializeNext(order[i], rows, clock);
      }
      EverythingStripped(before, order, clock);
    }

    /** The body of the loop: an entry with something to report hands it over. */
    method SerializeNext(key: string, rows: seq<Report>, clock: Clock) returns (more: seq<Report>)
      requires Valid() && key in entries && MapsOf(rows) !! Repr
      modifies `Repr, entries[key]
      ensures Valid() && fresh(Repr - old(Repr)) && entries == old(entries) && key in old(View()).entries
      ensures View() == old(View()).(entries := old(View()).entries[key :=
                                                  Stripped(old(View()).entries[key], clock, key)])
      ensures var e := old(View()).entries[key];
              Contents(more) == old(Contents(rows)) + (if Active(e) then [e] else [])
      ensures MapsOf(more) !! Repr
    {
      hide RequestStats.Valid, RequestStats.View, Active, Contents, Stripped, StrippedNow;
      ghost var before := View();
      var active := IsActive(key);
      StrippedCases(before.entries[key], clock, key);
      if active {
        var report := StripEntry(key, clock);
        assert Contents(rows) == old(Contents(rows)) && MapsOf(rows) !! Repr;
        OneMoreRow(rows, report);
        more := rows + [report];
        assert MapsOf(more) !! Repr;
      } else {
        more := rows;
        assert Contents(more) == old(Contents(rows)) + [];
        assert before.entries == before.entries[key := before.entries[key]];
      }
    }

    method IsActive(key: string) returns (active: bool)
      requires Valid() && key in entries
      ensures key in View().entries && active == Active(View().entries[key])
    {
      var v := entries[key];
      active := !(v.numRequests == 0 && v.numFailures == 0);
      assert View().entries[key] == v.View();
    }

    /** Every error becomes a new record of its own. */
    method SerializeErrors() returns (records: Records)
      requires Valid()
      ensures Keyed(records) && fresh(records.Values) && records.Values !! Repr
      ensures InfosOf(records) == View().errors
    {
      records := map[];
      var todo := errors.Keys;
      while todo != {}
        invariant todo <= errors.Keys
        invariant records.Keys == errors.Keys - todo
        invariant Keyed(records) && forall k :: k in records ==> fresh(records[k])
        invariant forall k :: k in records ==> records[k].View() == errors[k].View()
        decreases |todo|
      {
        var k :| k in todo;
        var record := new ErrorRecord(errors[k].View(), k);
        records := records[k := record];
        todo := todo - {k};
      }
      InfosAre(records, View().errors);
    }

    method ForgetErrors()
      requires Valid()
      modifies `errors
      ensures Valid() && View() == old(View()).(errors := map[])
    {
      ghost var before := View();
      errors := map[];
      ViewIs(before.(errors := map[]));
    }

    method CollectReportData(order: seq<string>, clock: Clock) returns (data: LiveReport)
      requires Valid() && Enumerates(order, View().entries.Keys)
      modifies Repr
      ensures Valid() && fresh(Repr - old(Repr))
      ensures View() == Collected(old(View()), clock)
      ensures data.Content() == ReportOf(old(View()), order)
      ensures data.Footprint() !! Repr && Keyed(data.errors) && fresh(data.errors.Values)
    {
      hide RequestStats.Valid, RequestStats.View, Contents, Rows, BlankAt, Stripped;
      ghost var before := View();
      OwnsEntries();
      var rows := SerializeStats(order, clock);
      var all := StripTotal(clock);
      assert Contents(rows) == Rows(before.entries, order, |order|);
      var records := SerializeErrors();
      ForgetErrors();
      data := LiveReport(rows, all, records);
    }

    /**
     * The event loop. It ends up where the model says; and every report it has sent still has, at
     * the end of the run, exactly the contents it was sent with, because no later turn touches a map
     * or an error record that was handed over.
     */
    method Start(steps: seq<Step>) returns (sent: seq<LiveReport>)
      requires Valid() && Feasible(View(), steps, |steps|, digest)
      modifies Repr
      ensures Valid() && fresh(Repr - old(Repr))
      ensures View() == After(old(View()), steps, |steps|, digest)
      ensures |sent| == |Sent(old(View()), steps, |steps|, digest)|
      ensures forall i :: 0 <= i < |sent| ==>
                sent[i].Content() == Sent(old(View()), steps, |steps|, digest)[i] && sent[i].Footprint() !! Repr
      ensures NoSharedErrors(sent) && forall i :: 0 <= i < |sent| ==> fresh(sent[i].errors.Values)
    {
      hide RequestStats.Valid, RequestStats.View, Turn, ReportOf, Enabled, NoSharedErrors, Holding;
      ghost var before := View();
      sent := [];
      NothingSent(Repr);
      for n := 0 to |steps|
        invariant Valid() && fresh(Repr - old(Repr))
        invariant Feasible(before, steps, |steps|, digest) && Feasible(before, steps, n, digest)
        invariant View() == After(before, steps, n, digest)
        invariant Holding(sent, Sent(before, steps, n, digest), Repr)
        invariant NoSharedErrors(sent) && forall i :: 0 <= i < |sent| ==> fresh(sent[i].errors.Values)
      {
        FeasiblePrefix(before, steps, n + 1, |steps|, digest);
        sent := TakeTurn(steps[n], sent, Sent(before, steps, n, digest));
      }
      HoldingMeans(sent, Sent(before, steps, |steps|, digest), Repr);
    }

    /** One turn of the loop: the select statement. */
    method TakeTurn(step: Step, sent: seq<LiveReport>, ghost data: seq<ReportData>) returns (more: seq<LiveReport>)
      requires Valid() && Enabled(View(), step)
      requires Holding(sent, data, Repr) && NoSharedErrors(sent)
      modifies Repr
      ensures Valid() && fresh(Repr - old(Repr))
      ensures View() == Turn(old(View()), step, digest)
      ensures step.event.Tick? ==> Holding(more, data + [ReportOf(old(View()), step.event.order)], Repr)
      ensures !step.event.Tick? ==> Holding(more, data, Repr)
      ensures NoSharedErrors(more)
      ensures more == sent || (more != [] && more[..|more| - 1] == sent && fresh(more[|more| - 1].errors.Values))
    {
      hide RequestStats.Valid, RequestStats.View, Turn, ReportOf, NoSharedErrors, Holding, Enumerates;
      if step.event.Tick? {
        TickCollects(View(), step);
        more := SendReport(step.event.order, step.clock, sent, data);
      } else {
        CountBeside(step, sent, data);
        more := sent;
      }
    }

    /** Counting leaves the reports alone. */
    method CountBeside(step: Step, ghost sent: seq<LiveReport>, ghost data: seq<ReportData>)
      requires Valid() && !step.event.Tick? && Holding(sent, data, Repr)
      modifies Repr
      ensures Valid() && fresh(Repr - old(Repr))
      ensures View() == Turn(old(View()), step, digest) && Holding(sent, data, Repr)
    {
      hide RequestStats.Valid, RequestStats.View, Turn, LiveReport.Content;
      CountTurn(step);
    }

    /** A request is counted, or everything is cleared. */
    method CountTurn(step: Step)
      requires Valid() && !step.event.Tick?
      modifies Repr
      ensures Valid() && fresh(Repr - old(Repr))
      ensures View() == Turn(old(View()), step, digest)
    {
      hide RequestStats.Valid, RequestStats.View, StatsModel.LogRequest, StatsModel.LogError, StatsModel.ClearAll;
      match step.event {
        case Success(m, name, time, length) =>
          LogRequest(m, name, time, length, step.clock);
        case Failure(m, name, time, error) =>
          LogRequest(m, name, time, 0, step.clock);
          LogError(m, name, error, step.clock);
        case Clear =>
          ClearAll(step.clock);
      }
    }

    lemma TickCollects(s: Stats, step: Step)
      requires step.event.Tick? && Enabled(s, step)
      ensures Turn(s, step, digest) == Collected(s, step.clock) && Enumerates(step.event.order, s.entries.Keys)
    {
      hide Enumerates;
    }

    /** A report is collected and sent. */
    method SendReport(order: seq<string>, clock: Clock, sent: seq<LiveReport>, ghost data: seq<ReportData>)
      returns (more: seq<LiveReport>)
      requires Valid() && Enumerates(order, View().entries.Keys)
      requires Holding(sent, data, Repr) && NoSharedErrors(sent)
      modifies Repr
      ensures Valid() && fresh(Repr - old(Repr))
      ensures View() == Collected(old(View()), clock)
      ensures Holding(more, data + [ReportOf(old(View()), order)], Repr) && NoSharedErrors(more)
      ensures more != [] && more[..|more| - 1] == sent && fresh(more[|more| - 1].errors.Values)
    {
      hide RequestStats.Valid, RequestStats.View, Collected, ReportOf, LiveReport.Content, NoSharedErrors, Enumerates;
      var report := CollectReportData(order, clock);
      more := sent + [report];
      NewErrorsAreOwn(sent, report);
      HoldingOneMore(sent, data, report, Repr);
    }

    lemma OwnsEntries()
      requires Valid()
      ensures entries.Values <= Repr && total in Repr
    {
    }
  }

  datatype LiveReport = LiveReport(stats: seq<Report>, total: Report, errors: Records) {
    ghost function Maps(): set<CountMaps> {
      MapsOf(stats) + {total.maps}
    }

    ghost function Footprint(): set<object> {
      Maps() + errors.Values
    }

    /** The reported entries and total, without the errors. */
    ghost function Entries(): (seq<Entry>, Entry)
      reads Maps()
    {
      (Contents(stats), total.Content())
    }

    ghost function Content(): ReportData
      reads Footprint()
    {
      ReportData(Contents(stats), total.Content(), InfosOf(errors))
    }
  }

  /** No two errors of these reports, or of one of them, share a record. */
  ghost predicate NoSharedErrors(reports: seq<LiveReport>) {
    && (forall i :: 0 <= i < |reports| ==> Keyed(reports[i].errors))
    && (forall i, j :: 0 <= i < j < |reports| ==> reports[i].errors.Values !! reports[j].errors.Values)
  }

  /** Reports that hold these contents, in objects that are none of the given ones. */
  ghost predicate Holding(sent: seq<LiveReport>, data: seq<ReportData>, others: set<object>)
    reads set r, o | r in sent && o in r.Footprint() :: o
  {
    && |sent| == |data|
    && forall i :: 0 <= i < |sent| ==> sent[i].Content() == data[i] && sent[i].Footprint() !! others
  }

  lemma HoldingMeans(sent: seq<LiveReport>, data: seq<ReportData>, others: set<object>)
    requires Holding(sent, data, others)
    ensures |sent| == |data|
    ensures forall i :: 0 <= i < |sent| ==> sent[i].Content() == data[i] && sent[i].Footprint() !! others
  {
  }

  lemma HoldingOneMore(sent: seq<LiveReport>, data: seq<ReportData>, report: LiveReport, others: set<object>)
    requires Holding(sent, data, others) && report.Footprint() !! others
    ensures Holding(sent + [report], data + [report.Content()], others)
  {
    hide LiveReport.Content;
  }

  lemma NothingSent(others: set<object>)
    ensures NoSharedErrors([]) && Holding([], [], others)
  {
  }

  twostate lemma NewErrorsAreOwn(sent: seq<LiveReport>, new report: LiveReport)
    requires NoSharedErrors(sent) && Keyed(report.errors) && fresh(report.errors.Values)
    ensures NoSharedErrors(sent + [report])
  {
  }

  /** The contents of reported entries, and the maps they refer to. */
  ghost function Contents(rows: seq<Report>): seq<Entry>
    reads MapsOf(rows)
  {
    seq(|rows|, i requires 0 <= i < |rows| reads MapsOf(rows) => rows[i].Content())
  }

  ghost function MapsOf(rows: seq<Report>): set<CountMaps> {
    set r | r in rows :: r.maps
  }

  lemma OneMoreRow(rows: seq<Report>, r: Report)
    ensures Contents(rows + [r]) == Contents(rows) + [r.Content()]
    ensures MapsOf(rows + [r]) == MapsOf(rows) + {r.maps}
  {
  }

  function StrippedAll(entries: map<string, Entry>, clock: Clock): map<string, Entry> {
    map k | k in entries :: Stripped(entries[k], clock, k)
  }

  /** The entries after the first n keys of the order have been visited. */
  function StrippedFirst(entries: map<string, Entry>, order: seq<string>, n: nat, clock: Clock): map<string, Entry>
    requires n <= |order|
  {
    map k | k in entries :: if k in order[..n] then Stripped(entries[k], clock, k) else entries[k]
  }

  lemma EnumeratesLists(order: seq<string>, keys: set<string>)
    requires Enumerates(order, keys)
    ensures Listed(order, keys)
  {
  }

  lemma NothingStripped(entries: map<string, Entry>, order: seq<string>, clock: Clock)
    requires Listed(order, entries.Keys)
    ensures StrippedFirst(entries, order, 0, clock) == entries
    ensures Contents([]) == Rows(entries, order, 0) && MapsOf([]) == {}
  {
  }

  lemma StripNext(entries: map<string, Entry>, order: seq<string>, i: nat, clock: Clock)
    requires i < |order| && Enumerates(order, entries.Keys)
    ensures var key := order[i];
            var now := StrippedFirst(entries, order, i, clock);
            && key in entries && now.Keys == entries.Keys && now[key] == entries[key]
            && StrippedFirst(entries, order, i + 1, clock) == now[key := Stripped(entries[key], clock, key)]
  {
    hide Stripped;
    assert order[..i + 1] == order[..i] + [order[i]];
    assert order[i] !in order[..i];
  }

  lemma StrippedCases(e: Entry, clock: Clock, key: string)
    ensures Stripped(e, clock, key) == if Active(e) then StrippedNow(e, clock, key) else e
  {
  }

  lemma RowsNext(entries: map<string, Entry>, order: seq<string>, i: nat)
    requires i < |order| && Listed(order, entries.Keys)
    ensures Rows(entries, order, i + 1) ==
            Rows(entries, order, i) + (if Active(entries[order[i]]) then [entries[order[i]]] else [])
    ensures !Active(entries[order[i]]) ==> Rows(entries, order, i + 1) == Rows(entries, order, i)
  {
  }

  lemma EverythingStripped(entries: map<string, Entry>, order: seq<string>, clock: Clock)
    requires Enumerates(order, entries.Keys)
    ensures StrippedFirst(entries, order, |order|, clock) == StrippedAll(entries, clock)
  {
    assert order[..|order|] == order;
  }

  function StrippedNow(e: Entry, clock: Clock, key: string): Entry {
    BlankAt(e.name, e.requestMethod, clock, OfEntry(key))
  }

  lemma BlankAtIs(name: string, requestMethod: string, clock: Clock, who: Reader)
    ensures BlankAt(name, requestMethod, clock, who) ==
            Blank(name, requestMethod, clock(who, ResetStart), clock(who, ResetLast))
  {
  }
}
