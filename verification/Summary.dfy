/** The running summary: every report is merged, by name, into the rows kept so far. */
module Summary {
  import opened Counters
  import opened ErrorRecords
  import opened OutputRows
  import opened RowOrder
  import opened StatsModel

  datatype SummaryView = SummaryView(
    userCount: int, stats: seq<Row>, totalRequests: int, totalFailures: int, errors: map<string, ErrorInfo>,
    totalRps: int, totalRequestCount: int, totalFailedCount: int, totalFailRatio: real)

  const NO_SUMMARY := SummaryView(0, [], 0, 0, map[], 0, 0, 0, 0.0)

  /** The first of the first n rows with the name; n if there is none. */
  function IndexOfName(rows: seq<Row>, name: string, n: nat): (i: nat)
    requires n <= |rows|
    ensures i <= n
  {
    if n == 0 then 0
    else
      var i := IndexOfName(rows, name, n - 1);
      if i < n - 1 || rows[n - 1].base.name == name then i else n
  }

  /** One reported row merged into the rows of the summary. */
  function MergeRow(rows: seq<Row>, o: Row, percentTime: int): seq<Row> {
    var i := IndexOfName(rows, o.base.name, |rows|);
    if i < |rows| then rows[i := MergedRow(rows[i], o.base, percentTime)] else rows + [o]
  }

  function MergeRows(rows: seq<Row>, os: seq<Row>, n: nat, percentTime: int): seq<Row>
    requires n <= |os|
  {
    if n == 0 then rows else MergeRow(MergeRows(rows, os, n - 1, percentTime), os[n - 1], percentTime)
  }

  function MergeErrors(a: map<string, ErrorInfo>, o: map<string, ErrorInfo>): map<string, ErrorInfo> {
    map k | k in a.Keys + o.Keys ::
      if k !in o then a[k]
      else if k !in a then o[k]
      else a[k].(occurrences := a[k].occurrences + o[k].occurrences)
  }

  function SumRps(rows: seq<Row>, n: nat): int
    requires n <= |rows|
  {
    if n == 0 then 0 else SumRps(rows, n - 1) + rows[n - 1].rps
  }

  function SumRequests(rows: seq<Row>, n: nat): int
    requires n <= |rows|
  {
    if n == 0 then 0 else SumRequests(rows, n - 1) + rows[n - 1].base.numRequests
  }

  function SumFailures(rows: seq<Row>, n: nat): int
    requires n <= |rows|
  {
    if n == 0 then 0 else SumFailures(rows, n - 1) + rows[n - 1].base.numFailures
  }

  /** The summary after a report with the given rows, total and errors. */
  function Built(s: SummaryView, userCount: int, os: seq<Row>, total: Entry, errors: map<string, ErrorInfo>,
                 percentTime: int): SummaryView
  {
    var rows := MergeRows(s.stats, os, |os|, percentTime);
    var requests, failures := SumRequests(rows, |rows|), SumFailures(rows, |rows|);
    SummaryView(userCount, rows, s.totalRequests + total.numRequests, s.totalFailures + total.numFailures,
                MergeErrors(s.errors, errors), SumRps(rows, |rows|), requests, failures,
                if requests != 0 then failures as real / requests as real else s.totalFailRatio)
  }

  ghost function RowsOf(ts: seq<StatsEntryOutput>): (rows: seq<Row>)
    reads ts
    ensures |rows| == |ts|
    ensures forall i :: 0 <= i < |ts| ==> rows[i] == ts[i].View()
  {
    seq(|ts|, i requires 0 <= i < |ts| reads ts => ts[i].View())
  }

  ghost function Objects(ts: seq<StatsEntryOutput>): set<StatsEntryOutput> {
    set o | o in ts
  }

  ghost predicate Distinct(ts: seq<StatsEntryOutput>) {
    forall i, j :: 0 <= i < j < |ts| ==> ts[i] != ts[j]
  }

  ghost predicate AllValid(ts: seq<StatsEntryOutput>)
    reads ts
  {
    forall i :: 0 <= i < |ts| ==> ts[i].Valid()
  }

  class DataOutput {
    var userCount: int
    var stats: seq<StatsEntryOutput>
    var totalRequests: int
    var totalFailures: int
    var errors: Records
    var totalRps: int
    var totalRequestCount: int
    var totalFailedCount: int
    var totalFailRatio: real

    ghost predicate Valid()
      reads this, stats
    {
      Distinct(stats) && AllValid(stats) && Keyed(errors)
    }

    ghost function View(): SummaryView
      reads this, stats, errors.Values
    {
      SummaryView(userCount, RowsOf(stats), totalRequests, totalFailures, InfosOf(errors),
                  totalRps, totalRequestCount, totalFailedCount, totalFailRatio)
    }

    constructor ()
      ensures Valid() && stats == [] && errors == map[] && View() == NO_SUMMARY
    {
      userCount, stats, totalRequests, totalFailures, errors := 0, [], 0, 0, map[];
      totalRps, totalRequestCount, totalFailedCount, totalFailRatio := 0, 0, 0, 0.0;
    }

    /** The inner loop of the merge: add the item to the row of its name, or append it. */
    method MergeItem(oItem: StatsEntryOutput, percentTime: int)
      requires Valid() && oItem.Valid() && oItem !in stats
      modifies `stats, Objects(stats)
      ensures Valid()
      ensures stats == old(stats) || stats == old(stats) + [oItem]
      ensures RowsOf(stats) == MergeRow(old(RowsOf(stats)), old(oItem.View()), percentTime)
    {
      hide MergedRow, RowsOf;
      ghost var rows := RowsOf(stats);
      var n := |stats|;
      for i := 0 to n
        invariant stats == old(stats) && RowsOf(stats) == rows && Valid()
        invariant forall j :: 0 <= j < n ==> stats[j].View() == rows[j]
        invariant IndexOfName(rows, oItem.name, i) == i
      {
        var aItem := stats[i];
        assert aItem.View() == rows[i];
        if oItem.name == aItem.name {
          IndexStays(rows, oItem.name, i, n);
          aItem.Absorb(oItem, percentTime);
          RowsAre(stats, rows[i := MergedRow(rows[i], old(oItem.View()).base, percentTime)]);
          return;
        }
      }
      stats := stats + [oItem];
      RowsAre(stats, rows + [old(oItem.View())]);
    }

    /** The outer loop of the merge: every reported row in turn. */
    method MergeItems(items: seq<StatsEntryOutput>, percentTime: int)
      requires Valid() && Distinct(items) && AllValid(items)
      requires Objects(stats) !! Objects(items)
      modifies `stats, Objects(stats), Objects(items)
      ensures Valid()
      ensures Objects(stats) <= old(Objects(stats)) + Objects(items)
      ensures RowsOf(stats) == MergeRows(old(RowsOf(stats)), old(RowsOf(items)), |items|, percentTime)
    {
      hide RowsOf, MergeRow;
      ghost var mine, theirs, rows, os := Objects(stats), Objects(items), RowsOf(stats), RowsOf(items);
      Apart(stats, items);
      for i := 0 to |items|
        invariant Valid()
        invariant Objects(stats) <= mine + theirs
        invariant forall j :: i <= j < |items| ==> items[j].Valid() && items[j].View() == os[j]
        invariant forall j :: i <= j < |items| ==> items[j] !in stats
        invariant RowsOf(stats) == MergeRows(rows, os, i, percentTime)
      {
        assert items[i] in items;
        MergeItem(items[i], percentTime);
      }
    }

    /**
     * Merges the report into this summary; sorting is left to the caller. An error not seen before
     * keeps its record: from then on the summary and the report share it.
     */
    method Build(output: DataOutput, total: Entry, percentTime: int)
      requires Valid() && output.Valid() && output != this
      requires Objects(stats) !! Objects(output.stats) && errors.Values !! output.errors.Values
      modifies this, Objects(stats), Objects(output.stats), errors.Values
      ensures Valid()
      ensures Objects(stats) <= old(Objects(stats)) + old(Objects(output.stats))
      ensures errors == output.errors + old(errors)
      ensures View() == Built(old(View()), output.userCount, old(RowsOf(output.stats)), total,
                              old(InfosOf(output.errors)), percentTime)
    {
      hide RowsOf, MergeRows, MergeErrors, SumRps, SumRequests, SumFailures, Distinct, AllValid, InfosOf, Keyed,
           DataOutput.View, DataOutput.Valid, Built;
      ghost var before, os, reported := View(), RowsOf(output.stats), InfosOf(output.errors);
      Fields();
      MergeAll(output, total, percentTime);
      Recount();
      BuiltFrom(before, output.userCount, os, total, reported, percentTime);
    }

    /** Everything but the numbers recomputed from the rows. */
    method MergeAll(output: DataOutput, total: Entry, percentTime: int)
      requires Valid() && output.Valid() && output != this
      requires Objects(stats) !! Objects(output.stats) && errors.Values !! output.errors.Values
      modifies `userCount, `stats, `totalRequests, `totalFailures, `errors
      modifies Objects(stats), Objects(output.stats), errors.Values
      ensures Valid() && userCount == output.userCount
      ensures Objects(stats) <= old(Objects(stats)) + old(Objects(output.stats))
      ensures errors == output.errors + old(errors)
      ensures RowsOf(stats) == MergeRows(old(RowsOf(stats)), old(RowsOf(output.stats)), |output.stats|, percentTime)
      ensures totalRequests == old(totalRequests) + total.numRequests
      ensures totalFailures == old(totalFailures) + total.numFailures
      ensures InfosOf(errors) == MergeErrors(old(InfosOf(errors)), old(InfosOf(output.errors)))
    {
      hide RowsOf, MergeRows, MergeErrors, InfosOf, Keyed, Objects, DataOutput.Valid;
      ValidKeyed();
      output.ValidKeyed();
      MergeOutput(output, total, percentTime);
      AddErrors(output.errors);
    }

    /** The rows and the running totals; errors are left to the caller. */
    method MergeOutput(output: DataOutput, total: Entry, percentTime: int)
      requires Valid() && output.Valid() && output != this
      requires Objects(stats) !! Objects(output.stats)
      modifies `userCount, `stats, `totalRequests, `totalFailures, Objects(stats), Objects(output.stats)
      ensures Valid() && userCount == output.userCount
      ensures Objects(stats) <= old(Objects(stats)) + old(Objects(output.stats))
      ensures RowsOf(stats) == MergeRows(old(RowsOf(stats)), old(RowsOf(output.stats)), |output.stats|, percentTime)
      ensures totalRequests == old(totalRequests) + total.numRequests
      ensures totalFailures == old(totalFailures) + total.numFailures
      ensures InfosOf(errors) == old(InfosOf(errors)) && InfosOf(output.errors) == old(InfosOf(output.errors))
    {
      hide RowsOf, MergeRows, Objects, InfosOf, DataOutput.Valid;
      MergeStats(output, percentTime);
      SetTotals(output.userCount, total);
    }

    /** Merging the rows leaves the errors of both sides alone. */
    method MergeStats(output: DataOutput, percentTime: int)
      requires Valid() && output.Valid() && output != this
      requires Objects(stats) !! Objects(output.stats)
      modifies `stats, Objects(stats), Objects(output.stats)
      ensures Valid()
      ensures Objects(stats) <= old(Objects(stats)) + old(Objects(output.stats))
      ensures RowsOf(stats) == MergeRows(old(RowsOf(stats)), old(RowsOf(output.stats)), |output.stats|, percentTime)
      ensures InfosOf(errors) == old(InfosOf(errors)) && InfosOf(output.errors) == old(InfosOf(output.errors))
    {
      hide RowsOf, MergeRows, Distinct, AllValid, InfosOf, Keyed;
      MergeItems(output.stats, percentTime);
    }

    method SetTotals(users: int, total: Entry)
      requires Valid()
      modifies `userCount, `totalRequests, `totalFailures
      ensures Valid() && userCount == users
      ensures totalRequests == old(totalRequests) + total.numRequests
      ensures totalFailures == old(totalFailures) + total.numFailures
    {
      userCount := users;
      totalRequests := totalRequests + total.numRequests;
      totalFailures := totalFailures + total.numFailures;
    }

    lemma Fields()
      ensures var v := View();
              && v.stats == RowsOf(stats) && v.errors == InfosOf(errors)
              && v.totalRequests == totalRequests && v.totalFailures == totalFailures
              && v.totalFailRatio == totalFailRatio
    {
      hide RowsOf, InfosOf;
    }

    lemma BuiltFrom(s: SummaryView, users: int, os: seq<Row>, total: Entry, reported: map<string, ErrorInfo>,
                    percentTime: int)
      requires userCount == users && RowsOf(stats) == MergeRows(s.stats, os, |os|, percentTime)
      requires totalRequests == s.totalRequests + total.numRequests
      requires totalFailures == s.totalFailures + total.numFailures
      requires InfosOf(errors) == MergeErrors(s.errors, reported)
      requires totalRps == SumRps(RowsOf(stats), |stats|)
      requires totalRequestCount == SumRequests(RowsOf(stats), |stats|)
      requires totalFailedCount == SumFailures(RowsOf(stats), |stats|)
      requires totalFailRatio == if totalRequestCount != 0 then totalFailedCount as real / totalRequestCount as real
                                 else s.totalFailRatio
      ensures View() == Built(s, users, os, total, reported, percentTime)
    {
      hide RowsOf, InfosOf, MergeRows, MergeErrors, SumRps, SumRequests, SumFailures;
    }

    method AddErrors(reported: Records)
      requires Valid() && Keyed(reported) && errors.Values !! reported.Values
      modifies `errors, errors.Values
      ensures Valid() && RowsOf(stats) == old(RowsOf(stats))
      ensures errors == reported + old(errors)
      ensures InfosOf(errors) == MergeErrors(old(InfosOf(errors)), old(InfosOf(reported)))
    {
      hide InfosOf, MergeErrors, Keyed, RowsOf, Taken, CountedUp, DataOutput.Valid, DataOutput.Untouched;
      ghost var before, mine, theirs := errors, InfosOf(errors), InfosOf(reported);
      ValidKeyed();
      UntouchedYet(reported);
      NothingMerged(mine, theirs, reported, before);
      var todo := reported.Keys;
      while todo != {}
        invariant todo <= reported.Keys == theirs.Keys
        invariant Valid() && RowsOf(stats) == old(RowsOf(stats))
        invariant errors == Taken(reported, before, todo) && Untouched(reported, theirs, todo)
        invariant InfosOf(errors) == CountedUp(mine, theirs, todo)
        decreases |todo|
      {
        var key :| key in todo;
        TakeNext(key, reported, before, mine, theirs, todo);
        todo := todo - {key};
      }
      EverythingMerged(mine, theirs, reported, before);
    }

    /** The records still to be merged have their contents. */
    ghost predicate Untouched(reported: Records, theirs: map<string, ErrorInfo>, todo: set<string>)
      reads reported.Values
    {
      forall k :: k in todo ==> k in reported && k in theirs && reported[k].View() == theirs[k]
    }

    lemma UntouchedYet(reported: Records)
      ensures Untouched(reported, InfosOf(reported), reported.Keys)
    {
    }

    /** The body of the loop. */
    method TakeNext(key: string, reported: Records, ghost before: Records, ghost mine: map<string, ErrorInfo>,
                    ghost theirs: map<string, ErrorInfo>, ghost todo: set<string>)
      requires Valid() && Keyed(reported) && Keyed(before) && before.Values !! reported.Values
      requires key in todo && todo <= reported.Keys == theirs.Keys
      requires errors == Taken(reported, before, todo) && Untouched(reported, theirs, todo)
      requires InfosOf(errors) == CountedUp(mine, theirs, todo)
      modifies `errors, before.Values
      ensures Valid() && RowsOf(stats) == old(RowsOf(stats))
      ensures errors == Taken(reported, before, todo - {key}) && Untouched(reported, theirs, todo - {key})
      ensures InfosOf(errors) == CountedUp(mine, theirs, todo - {key})
    {
      hide InfosOf, MergeErrors, Keyed, RowsOf, Taken, CountedUp, DataOutput.Valid;
      OthersApart(reported, before, todo, key);
      MergeOneMore(mine, theirs, todo, key);
      AddError(key, reported[key], theirs[key]);
    }

    lemma ValidKeyed()
      requires Valid()
      ensures Keyed(errors)
    {
    }

    /** A known error counts on in the record kept for it; the record of a new one is taken over. */
    method AddError(key: string, record: ErrorRecord, ghost info: ErrorInfo)
      requires Valid() && record.key == key && record !in errors.Values && record.View() == info
      modifies `errors, (if key in errors then {errors[key]} else {})
      ensures Valid() && RowsOf(stats) == old(RowsOf(stats))
      ensures errors == if key in old(errors) then old(errors) else old(errors)[key := record]
      ensures InfosOf(errors) == MergeErrors(old(InfosOf(errors)), map[key := info])
    {
      hide RowsOf, AllValid, Distinct;
      ghost var mine := InfosOf(errors);
      if key in errors {
        errors[key].occurrences := errors[key].occurrences + record.occurrences;
      } else {
        errors := errors[key := record];
      }
      InfosAre(errors, MergeErrors(mine, map[key := info]));
    }

    method Recount()
      requires Valid()
      modifies `totalRps, `totalRequestCount, `totalFailedCount, `totalFailRatio
      ensures Valid()
      ensures totalRps == SumRps(RowsOf(stats), |stats|)
      ensures totalRequestCount == SumRequests(RowsOf(stats), |stats|)
      ensures totalFailedCount == SumFailures(RowsOf(stats), |stats|)
      ensures totalFailRatio == if totalRequestCount != 0 then totalFailedCount as real / totalRequestCount as real
                                else old(totalFailRatio)
    {
      hide RowsOf;
      ghost var rows := RowsOf(stats);
      totalRps, totalRequestCount, totalFailedCount := 0, 0, 0;
      for i := 0 to |stats|
        invariant unchanged(`totalFailRatio)
        invariant totalRps == SumRps(rows, i)
        invariant totalRequestCount == SumRequests(rows, i)
        invariant totalFailedCount == SumFailures(rows, i)
      {
        var aItem := stats[i];
        assert aItem.View() == rows[i];
        totalRps := totalRps + aItem.rps;
        totalRequestCount := totalRequestCount + aItem.base.numRequests;
        totalFailedCount := totalFailedCount + aItem.base.numFailures;
      }
      assert RowsOf(stats) == rows;
      if totalRequestCount != 0 {
        totalFailRatio := totalFailedCount as real / totalRequestCount as real;
      }
    }
  }

  /** The records kept, and their contents, when only the errors in todo are still to be merged. */
  ghost function Taken(reported: Records, before: Records, todo: set<string>): Records {
    (reported - todo) + before
  }

  ghost function CountedUp(mine: map<string, ErrorInfo>, theirs: map<string, ErrorInfo>, todo: set<string>)
    : map<string, ErrorInfo>
  {
    MergeErrors(mine, theirs - todo)
  }

  lemma NothingMerged(mine: map<string, ErrorInfo>, theirs: map<string, ErrorInfo>, reported: Records, before: Records)
    requires theirs.Keys == reported.Keys
    ensures CountedUp(mine, theirs, reported.Keys) == mine && Taken(reported, before, reported.Keys) == before
  {
    assert theirs - reported.Keys == map[];
    assert reported - reported.Keys == map[];
  }

  lemma EverythingMerged(mine: map<string, ErrorInfo>, theirs: map<string, ErrorInfo>, reported: Records,
                         before: Records)
    ensures CountedUp(mine, theirs, {}) == MergeErrors(mine, theirs) && Taken(reported, before, {}) == reported + before
  {
    assert theirs - {} == theirs;
    assert reported - {} == reported;
  }

  lemma MergeOneMore(mine: map<string, ErrorInfo>, theirs: map<string, ErrorInfo>, todo: set<string>, key: string)
    requires key in todo && todo <= theirs.Keys
    ensures MergeErrors(CountedUp(mine, theirs, todo), map[key := theirs[key]]) == CountedUp(mine, theirs, todo - {key})
  {
  }

  /** A record still to be merged is in nobody else's hands, nor is the one it is merged into. */
  lemma OthersApart(reported: Records, before: Records, todo: set<string>, key: string)
    requires Keyed(reported) && Keyed(before) && before.Values !! reported.Values
    requires key in todo && todo <= reported.Keys
    ensures var errors := Taken(reported, before, todo);
            && reported[key].key == key && reported[key] !in errors.Values
            && (key in errors ==>
                  errors[key] in before.Values && forall k :: k in reported ==> reported[k] != errors[key])
            && Taken(reported, before, todo - {key}) == if key in errors then errors else errors[key := reported[key]]
  {
    var errors := Taken(reported, before, todo);
    assert reported[key] in reported.Values;
    if key in errors {
      assert errors[key] == before[key] && before[key] in before.Values;
      forall k | k in reported
        ensures reported[k] != errors[key]
      {
        assert reported[k] in reported.Values;
      }
    }
    forall j | j in errors
      ensures errors[j] != reported[key]
    {
      if j in before {
        assert before[j] in before.Values;
      }
    }
  }

  lemma Apart(a: seq<StatsEntryOutput>, b: seq<StatsEntryOutput>)
    requires Objects(a) !! Objects(b)
    ensures forall j :: 0 <= j < |b| ==> b[j] !in a
  {
    forall j | 0 <= j < |b|
      ensures b[j] !in a
    {
      assert b[j] in Objects(b);
    }
  }

  /** The rows with a given name, in order. */
  function RowGroup(rows: seq<Row>, name: string, n: nat): seq<Row>
    requires n <= |rows|
  {
    if n == 0 then []
    else RowGroup(rows, name, n - 1) + (if rows[n - 1].base.name == name then [rows[n - 1]] else [])
  }

  /** Sorted by name, with the rows of each name still in their old order. */
  ghost predicate StablySorted(before: seq<Row>, after: seq<Row>) {
    && |before| == |after|
    && (forall i, j :: 0 <= i < j < |after| ==> AtMost(after[i].base.name, after[j].base.name))
    && (forall name :: RowGroup(after, name, |after|) == RowGroup(before, name, |before|))
  }

  lemma {:induction false} GroupsOfRows(ts: seq<StatsEntryOutput>, name: string, n: nat)
    requires AllValid(ts) && n <= |ts|
    ensures RowGroup(RowsOf(ts), name, n) == RowsOf(Group(ts, name, n))
  {
    hide RowsOf;
    if n > 0 {
      GroupsOfRows(ts, name, n - 1);
      assert ts[n - 1].Valid();
      if ts[n - 1].name == name {
        RowsSnoc(Group(ts, name, n - 1), ts[n - 1]);
      }
    } else {
      RowsAre([], []);
    }
  }

  lemma RowsSnoc(ts: seq<StatsEntryOutput>, o: StatsEntryOutput)
    ensures RowsOf(ts + [o]) == RowsOf(ts) + [o.View()]
  {
  }

  lemma SortedRows(before: seq<StatsEntryOutput>, after: seq<StatsEntryOutput>)
    requires AllValid(before) && AllValid(after)
    requires SortedByName(after) && SameGroups(before, after)
    ensures StablySorted(RowsOf(before), RowsOf(after))
  {
    hide RowsOf, Group, RowGroup, AtMost;
    var b, a := RowsOf(before), RowsOf(after);
    forall name
      ensures RowGroup(a, name, |a|) == RowGroup(b, name, |b|)
    {
      GroupsOfRows(after, name, |after|);
      GroupsOfRows(before, name, |before|);
    }
    forall i, j | 0 <= i < j < |a|
      ensures AtMost(a[i].base.name, a[j].base.name)
    {
      assert after[i].Valid() && after[j].Valid();
    }
  }

  lemma {:induction false} GroupElements(s: seq<StatsEntryOutput>, o: StatsEntryOutput, n: nat)
    requires n <= |s|
    ensures multiset(Group(s, o.name, n))[o] == multiset(s[..n])[o]
  {
    if n > 0 {
      GroupElements(s, o, n - 1);
      KeptNext(s, n, o, Group(s, o.name, n - 1), Group(s, o.name, n));
    }
  }

  /** Same groups means the same objects, each as often as before. */
  lemma SameGroupsIsPermutation(s: seq<StatsEntryOutput>, t: seq<StatsEntryOutput>)
    requires SameGroups(s, t)
    ensures multiset(s) == multiset(t)
    ensures Objects(s) == Objects(t)
  {
    hide Group;
    assert s[..|s|] == s && t[..|t|] == t;
    forall o: StatsEntryOutput
      ensures multiset(s)[o] == multiset(t)[o]
    {
      GroupElements(s, o, |s|);
      GroupElements(t, o, |t|);
    }
    forall o
      ensures o in Objects(s) <==> o in Objects(t)
    {
      assert o in s <==> o in multiset(s);
      assert o in t <==> o in multiset(t);
    }
  }

  lemma RowsAre(ts: seq<StatsEntryOutput>, rows: seq<Row>)
    requires |ts| == |rows| && forall i :: 0 <= i < |ts| ==> ts[i].View() == rows[i]
    ensures RowsOf(ts) == rows
  {
  }

  lemma {:induction false} IndexStays(rows: seq<Row>, name: string, i: nat, n: nat)
    requires i < n <= |rows| && IndexOfName(rows, name, i) == i && rows[i].base.name == name
    ensures IndexOfName(rows, name, n) == i
    decreases n
  {
    if n > i + 1 {
      IndexStays(rows, name, i, n - 1);
    }
  }

  // ---------------------------------------------------------------------------------------------
  // One report
  // ---------------------------------------------------------------------------------------------

  function Decoded(entries: seq<Entry>, percentTime: int): (rows: seq<Row>)
    ensures |rows| == |entries|
    ensures forall i :: 0 <= i < |entries| ==> rows[i] == RowOf(entries[i], percentTime)
  {
    seq(|entries|, i requires 0 <= i < |entries| => RowOf(entries[i], percentTime))
  }

  /** The summary r follows from s by one report: its rows sorted, merged, and the result sorted again. */
  ghost predicate Absorbed(s: SummaryView, data: ReportData, userCount: int, percentTime: int, r: SummaryView) {
    exists os ::
      StablySorted(Decoded(data.stats, percentTime), os) && AbsorbedRows(s, data, userCount, percentTime, os, r)
  }

  ghost predicate AbsorbedRows(s: SummaryView, data: ReportData, userCount: int, percentTime: int, os: seq<Row>,
                               r: SummaryView)
  {
    var b := Built(s, userCount, os, data.total, data.errors, percentTime);
    StablySorted(b.stats, r.stats) && r == b.(stats := r.stats)
  }

  /** A report as an output gets it: entries and total decoded into values, the errors by reference. */
  datatype Reported = Reported(stats: seq<Entry>, total: Entry, errors: Records) {
    ghost function Content(): ReportData
      reads errors.Values
    {
      ReportData(stats, total, InfosOf(errors))
    }
  }

  /** The part of a console or file output that keeps the summary; printing is not modelled. */
  class Output {
    const percentTime: int
    var allStats: DataOutput?

    ghost function Footprint(): set<object>
      reads this, allStats
    {
      if allStats == null then {this} else {this, allStats} + Objects(allStats.stats) + allStats.errors.Values
    }

    ghost predicate Valid()
      reads Footprint(), this, allStats
    {
      allStats != null ==> allStats.Valid()
    }

    ghost function View(): SummaryView
      reads Footprint(), this, allStats
    {
      if allStats == null then NO_SUMMARY else allStats.View()
    }

    /** The records in which the summary counts errors. */
    ghost function Errors(): Records
      reads this, allStats
    {
      if allStats == null then map[] else allStats.errors
    }

    lemma ErrorsInFootprint()
      ensures forall k :: k in Errors() ==> Errors()[k] in Footprint()
    {
      forall k | k in Errors()
        ensures Errors()[k] in Footprint()
      {
        assert Errors()[k] in allStats.errors.Values;
      }
    }

    constructor (percentTime: int)
      ensures Valid() && fresh(Footprint()) && View() == NO_SUMMARY && this.percentTime == percentTime
      ensures Errors() == map[]
    {
      this.percentTime := percentTime;
      allStats := null;
    }

    method ConvertData(data: Reported, userCount: int) returns (output: DataOutput)
      requires Keyed(data.errors)
      ensures fresh(output) && fresh(Objects(output.stats)) && output.Valid()
      ensures output.userCount == userCount && output.errors == data.errors
      ensures RowsOf(output.stats) == Decoded(data.stats, percentTime)
      ensures output.totalRps == CurrentRps(data.total.numRequests, data.total.numReqsPerSec)
      ensures output.totalFailRatio == FailRatio(data.total.numRequests, data.total.numFailures)
      ensures IsRps(data.total.numRequests, |data.total.numReqsPerSec|, output.totalRps)
      ensures IsRatio(data.total.numFailures, data.total.numRequests, output.totalFailRatio)
    {
      hide RowsOf, Decoded, Distinct, AllValid, Objects, CurrentRps, FailRatio, IsRps, IsRatio;
      CurrentRpsIsRps(data.total.numRequests, data.total.numReqsPerSec);
      AveragesAreRatios(data.total.numRequests, data.total.numFailures);
      var rows := ConvertRows(data.stats);
      output := new DataOutput();
      output.userCount, output.errors, output.stats := userCount, data.errors, rows;
      output.totalRps := CurrentRps(data.total.numRequests, data.total.numReqsPerSec);
      output.totalFailRatio := FailRatio(data.total.numRequests, data.total.numFailures);
    }

    method ConvertRows(entries: seq<Entry>) returns (rows: seq<StatsEntryOutput>)
      ensures fresh(Objects(rows)) && Distinct(rows) && AllValid(rows)
      ensures RowsOf(rows) == Decoded(entries, percentTime)
    {
      hide RowsOf, RowOf, OwnNumbers;
      rows := [];
      ghost var decoded := Decoded(entries, percentTime);
      for i := 0 to |entries|
        invariant |rows| == i && fresh(Objects(rows)) && Distinct(rows) && AllValid(rows)
        invariant forall j :: 0 <= j < i ==> rows[j].View() == decoded[j]
      {
        var row := new StatsEntryOutput(entries[i], percentTime);
        assert forall j :: 0 <= j < i ==> rows[j] in Objects(rows);
        rows := rows + [row];
      }
      RowsAre(rows, decoded);
    }

    /** Makes the summary on first use and merges the report into it. */
    method BuildAllStats(output: DataOutput, total: Entry)
      requires Valid() && output.Valid() && output !in Footprint()
      requires Objects(output.stats) !! Footprint() && output.errors.Values !! Footprint()
      modifies Footprint(), Objects(output.stats)
      ensures Valid() && allStats != null && Errors() == output.errors + old(Errors())
      ensures allStats in old(Footprint()) || fresh(allStats)
      ensures forall o :: o in Footprint() ==>
              Known(o, old(Footprint()), old(Objects(output.stats)), Errors()) || fresh(o)
      ensures View() == Built(old(View()), output.userCount, old(RowsOf(output.stats)), total,
                              old(InfosOf(output.errors)), percentTime)
    {
      hide RowsOf, Built, Distinct, AllValid, InfosOf, Keyed;
      if allStats == null {
        allStats := new DataOutput();
      }
      allStats.Build(output, total, percentTime);
    }

    /** Sorts the rows of the summary. */
    method SortSummary()
      requires Valid() && allStats != null
      modifies allStats
      ensures Valid() && Footprint() == old(Footprint()) && Errors() == old(Errors())
      ensures StablySorted(old(View()).stats, View().stats) && View() == old(View()).(stats := View().stats)
    {
      hide RowsOf, StablySorted, Distinct, AllValid, InfosOf, Keyed;
      SortRows(allStats);
    }

    /** Merges a decoded and sorted report, and sorts the result. */
    method Summarize(output: DataOutput, data: Reported)
      requires Valid() && output.Valid() && output.errors == data.errors && output !in Footprint()
      requires Objects(output.stats) !! Footprint() && data.errors.Values !! Footprint()
      modifies Footprint(), Objects(output.stats)
      ensures Valid() && Errors() == data.errors + old(Errors())
      ensures forall o :: o in Footprint() ==>
              Known(o, old(Footprint()), old(Objects(output.stats)), Errors()) || fresh(o)
      ensures AbsorbedRows(old(View()), old(data.Content()), output.userCount, percentTime,
              old(RowsOf(output.stats)), View())
    {
      hide RowsOf, Built, StablySorted, Objects, InfosOf, Known, Output.Valid, Output.View, Output.Footprint,
           Output.Errors;
      BuildAllStats(output, data.total);
      SortSummary();
    }

    /**
     * Takes in a report. Errors the summary has not seen before stay in the report's own records, so
     * later reports will count on in them; known errors count on in the summary's records.
     */
    method OnEvent(data: Reported, userCount: int)
      requires Valid() && Keyed(data.errors) && data.errors.Values !! Footprint()
      modifies Footprint()
      ensures Valid() && Errors() == data.errors + old(Errors())
      ensures forall o :: o in Footprint() ==> o in old(Footprint()) || o in Errors().Values || fresh(o)
      ensures Absorbed(old(View()), old(data.Content()), userCount, percentTime, View())
    {
      hide RowsOf, Built, StablySorted, Decoded, Distinct, AllValid, AbsorbedRows, Objects, InfosOf,
           Output.Valid, Output.View, Output.Footprint, Output.Errors;
      ghost var mine, content := Footprint(), data.Content();
      var output := ConvertData(data, userCount);
      SortRows(output);
      ghost var os, theirs := RowsOf(output.stats), Objects(output.stats);
      assert fresh(theirs);
      OldApartFromNew(mine, output, theirs);
      Summarize(output, data);
      assert AbsorbedRows(old(View()), content, userCount, percentTime, os, View());
    }
  }

  ghost predicate Known(o: object, mine: set<object>, theirs: set<StatsEntryOutput>, errors: Records) {
    o in mine || o in theirs || o in errors.Values
  }

  twostate lemma OldApartFromNew(mine: set<object>, new output: object, new theirs: set<StatsEntryOutput>)
    requires forall o :: o in mine ==> old(allocated(o))
    requires fresh(output) && fresh(theirs)
    ensures output !in mine && theirs !! mine
  {
  }

  /** Sorting the rows of an output; the slice shares its array, so the output sees the new order. */
  method SortRows(output: DataOutput)
    requires output.Valid()
    modifies output`stats
    ensures output.Valid() && Objects(output.stats) == old(Objects(output.stats))
    ensures StablySorted(old(RowsOf(output.stats)), RowsOf(output.stats))
    ensures output.View() == old(output.View()).(stats := RowsOf(output.stats))
  {
    hide RowsOf, SortedByName, SameGroups, StablySorted, InfosOf, Keyed;
    var before := output.stats;
    var items := new StatsEntryOutput[|before|](i requires 0 <= i < |before| => before[i]);
    assert items[..] == before;
    SortOutput(items);
    SameGroupsIsPermutation(before, items[..]);
    KeepsValid(before, items[..]);
    SortedRows(before, items[..]);
    output.stats := items[..];
  }

  lemma KeepsValid(s: seq<StatsEntryOutput>, t: seq<StatsEntryOutput>)
    requires multiset(s) == multiset(t) && Distinct(s) && AllValid(s)
    ensures Distinct(t) && AllValid(t)
  {
    forall i | 0 <= i < |t|
      ensures t[i].Valid()
    {
      assert t[i] in multiset(t);
      assert t[i] in s;
    }
    DistinctIsOnce(s);
    forall i, j | 0 <= i < j < |t|
      ensures t[i] != t[j]
    {
      TwiceInMultiset(t, i, j);
    }
  }

  lemma {:induction false} DistinctIsOnce(s: seq<StatsEntryOutput>)
    requires Distinct(s)
    ensures forall o :: multiset(s)[o] <= 1
  {
    if s != [] {
      var n := |s| - 1;
      DistinctIsOnce(s[..n]);
      assert s == s[..n] + [s[n]];
      assert s[n] !in s[..n];
    }
  }

  lemma TwiceInMultiset<T>(t: seq<T>, i: nat, j: nat)
    requires i < j < |t|
    ensures t[i] == t[j] ==> multiset(t)[t[i]] >= 2
  {
    assert t == t[..i] + [t[i]] + t[i + 1..j] + [t[j]] + t[j + 1..];
  }
}
