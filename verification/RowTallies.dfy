/** Rows of reports and summaries, by what they add up to. */
module RowTallies {
  import opened Counters
  import opened OutputRows
  import opened Percentiles
  import opened RowOrder
  import opened StatsModel
  import opened StatsRuns
  import opened Summary
  import opened Tallies

  // ---------------------------------------------------------------------------------------------
  // Tallies of rows
  // ---------------------------------------------------------------------------------------------

  function RowPart(r: Row, scope: Scope): Tally {
    PartOf(r.base, scope, true)
  }

  /** The join of the first n rows in a scope. */
  function RowsTally(rows: seq<Row>, n: nat, scope: Scope): Tally
    requires n <= |rows|
  {
    if n == 0 then NOTHING else Join(RowsTally(rows, n - 1, scope), RowPart(rows[n - 1], scope))
  }

  function AllRows(rows: seq<Row>, scope: Scope): Tally {
    RowsTally(rows, |rows|, scope)
  }

  lemma {:induction false} RowsTallySame(a: seq<Row>, b: seq<Row>, n: nat, scope: Scope)
    requires n <= |a| && n <= |b| && forall i :: 0 <= i < n ==> a[i] == b[i]
    ensures RowsTally(a, n, scope) == RowsTally(b, n, scope)
  {
    hide Join, RowPart;
    if n > 0 {
      RowsTallySame(a, b, n - 1, scope);
    }
  }

  lemma {:induction false} RowsTallyUpdate(rows: seq<Row>, i: nat, r: Row, t: Tally, n: nat, scope: Scope)
    requires i < |rows| && n <= |rows| && RowPart(r, scope) == Join(RowPart(rows[i], scope), t)
    ensures RowsTally(rows[i := r], n, scope) ==
            if i < n then Join(RowsTally(rows, n, scope), t) else RowsTally(rows, n, scope)
  {
    hide Join, RowPart;
    if n > 0 {
      RowsTallyUpdate(rows, i, r, t, n - 1, scope);
      var before, last := RowsTally(rows, n - 1, scope), RowPart(rows[n - 1], scope);
      JoinAssociative(before, last, t);
      JoinAssociative(before, t, last);
      JoinCommutative(t, last);
    }
  }

  lemma {:induction false} AllRowsConcat(a: seq<Row>, b: seq<Row>, scope: Scope)
    ensures AllRows(a + b, scope) == Join(AllRows(a, scope), AllRows(b, scope))
    decreases |b|
  {
    hide Join, RowPart;
    if b == [] {
      assert a + b == a;
      JoinNothing(AllRows(a, scope));
    } else {
      var n := |b| - 1;
      AllRowsConcat(a, b[..n], scope);
      RowsTallySame(a + b, a + b[..n], |a| + n, scope);
      RowsTallySame(b, b[..n], n, scope);
      JoinAssociative(AllRows(a, scope), AllRows(b[..n], scope), RowPart(b[n], scope));
    }
  }

  lemma AllRowsWithout(s: seq<Row>, i: nat, rest: seq<Row>, scope: Scope)
    requires i < |s| && rest == s[..i] + s[i + 1..]
    ensures AllRows(s, scope) == Join(AllRows(rest, scope), RowPart(s[i], scope))
  {
    hide Join, RowPart;
    var x := RowPart(s[i], scope);
    var before, after := AllRows(s[..i], scope), AllRows(s[i + 1..], scope);
    assert s == s[..i] + ([s[i]] + s[i + 1..]);
    AllRowsConcat(s[..i], [s[i]] + s[i + 1..], scope);
    AllRowsConcat([s[i]], s[i + 1..], scope);
    AllRowsConcat(s[..i], s[i + 1..], scope);
    OneRow(s[i], scope);
    JoinCommutative(x, after);
    JoinAssociative(before, after, x);
  }

  lemma OneRow(r: Row, scope: Scope)
    ensures AllRows([r], scope) == RowPart(r, scope)
  {
    hide Join, RowPart;
    JoinNothing(RowPart(r, scope));
    assert RowsTally([r], 1, scope) == Join(RowsTally([r], 0, scope), RowPart([r][0], scope));
  }

  /** The order of the rows does not matter. */
  lemma {:induction false} AllRowsPermuted(s: seq<Row>, t: seq<Row>, scope: Scope)
    requires multiset(s) == multiset(t)
    ensures AllRows(s, scope) == AllRows(t, scope)
    decreases |s|
  {
    hide AllRows;
    if s == [] {
      assert |multiset(t)| == 0;
    } else {
      assert s[0] in multiset(s);
      var i := IndexOf(s[0], t);
      var tail, rest := s[1..], t[..i] + t[i + 1..];
      DropHead(s);
      DropOne(t, i);
      assert tail == s[..0] + s[1..];
      AllRowsWithout(s, 0, tail, scope);
      AllRowsWithout(t, i, rest, scope);
      AllRowsPermuted(tail, rest, scope);
    }
  }

  lemma {:induction false} GroupCount(rows: seq<Row>, r: Row, n: nat)
    requires n <= |rows|
    ensures multiset(RowGroup(rows, r.base.name, n))[r] == multiset(rows[..n])[r]
  {
    if n > 0 {
      GroupCount(rows, r, n - 1);
      KeptNext(rows, n, r, RowGroup(rows, r.base.name, n - 1), RowGroup(rows, r.base.name, n));
    }
  }

  lemma StablySortedIsPermutation(before: seq<Row>, after: seq<Row>)
    requires StablySorted(before, after)
    ensures multiset(before) == multiset(after)
  {
    hide RowGroup;
    assert before[..|before|] == before && after[..|after|] == after;
    forall r: Row
      ensures multiset(before)[r] == multiset(after)[r]
    {
      GroupCount(before, r, |before|);
      GroupCount(after, r, |after|);
    }
  }

  predicate InNameOrder(rows: seq<Row>) {
    forall i, j :: 0 <= i < j < |rows| ==> AtMost(rows[i].base.name, rows[j].base.name)
  }

  lemma NotAtMost(a: string, b: string)
    requires !AtMost(a, b)
    ensures AtMost(b, a) && a != b
  {
    BeforeMeans(b, a);
  }

  /** One more row goes behind all rows it need not precede. */
  lemma {:induction false} InsertRow(rows: seq<Row>, r: Row) returns (more: seq<Row>)
    requires InNameOrder(rows)
    ensures |more| == |rows| + 1 && InNameOrder(more) && forall x :: x in more ==> x in rows || x == r
    ensures forall name ::
              RowGroup(more, name, |more|) ==
              RowGroup(rows, name, |rows|) + (if r.base.name == name then [r] else [])
  {
    hide AtMost;
    var k := |rows| - 1;
    if rows == [] || AtMost(rows[k].base.name, r.base.name) {
      more := rows + [r];
      forall i | 0 <= i < |rows|
        ensures AtMost(rows[i].base.name, r.base.name)
      {
        if i < k {
          AtMostTransitive(rows[i].base.name, rows[k].base.name, r.base.name);
        }
      }
      forall name
        ensures RowGroup(more, name, |rows|) == RowGroup(rows, name, |rows|)
      {
        GroupPrefix(rows, more, name, |rows|);
      }
    } else {
      var fewer := InsertRow(rows[..k], r);
      more := fewer + [rows[k]];
      NotAtMost(rows[k].base.name, r.base.name);
      forall i | 0 <= i < |fewer|
        ensures AtMost(fewer[i].base.name, rows[k].base.name)
      {
        assert fewer[i] in fewer;
      }
      forall name
        ensures RowGroup(more, name, |more|) ==
                RowGroup(rows, name, |rows|) + (if r.base.name == name then [r] else [])
      {
        GroupPrefix(fewer, more, name, |fewer|);
        GroupPrefix(rows[..k], rows, name, k);
      }
    }
  }

  /** There is always a stable arrangement, so an output can take any sequence of reports. */
  lemma {:induction false} StableSortExists(rows: seq<Row>) returns (sorted: seq<Row>)
    ensures StablySorted(rows, sorted)
  {
    if rows == [] {
      sorted := [];
    } else {
      var k := |rows| - 1;
      var fewer := StableSortExists(rows[..k]);
      sorted := InsertRow(fewer, rows[k]);
      forall name
        ensures RowGroup(sorted, name, |sorted|) == RowGroup(rows, name, |rows|)
      {
        GroupPrefix(rows[..k], rows, name, k);
      }
    }
  }

  // ---------------------------------------------------------------------------------------------
  // Merging
  // ---------------------------------------------------------------------------------------------

  /** A row as it comes out of a report or a merge: it counts requests, and its numbers are its own. */
  ghost predicate GoodRow(r: Row, percentTime: int) {
    && r == RowOf(r.base, percentTime)
    && 0 <= r.base.numFailures <= r.base.numRequests
    && r.base.numRequests > 0
    && SumOf(r.base.numReqsPerSec) == r.base.numRequests
    && Positive(r.base.numFailPerSec)
    && SumOf(r.base.numFailPerSec) <= r.base.numFailures
  }

  ghost predicate GoodRows(rows: seq<Row>, percentTime: int) {
    forall i :: 0 <= i < |rows| ==> GoodRow(rows[i], percentTime)
  }

  lemma MergedTally(a: Entry, o: Entry)
    requires a.numRequests > 0 && o.numRequests > 0
    ensures TallyOf(Merged(a, o), true) == Join(TallyOf(a, true), TallyOf(o, true))
  {
    hide Plus;
  }

  /** A merged row's failures per second add up to its failures exactly when no second is repeated. */
  lemma FailuresPerSecondAddUpIff(a: Row, o: Row, percentTime: int)
    requires GoodRow(a, percentTime) && GoodRow(o, percentTime)
    ensures var r := MergedRow(a, o.base, percentTime).base;
            SumOf(r.numFailPerSec) == r.numFailures <==>
              && SumOf(a.base.numFailPerSec) == a.base.numFailures
              && SumOf(o.base.numFailPerSec) == o.base.numFailures
              && a.base.numFailPerSec.Keys !! o.base.numFailPerSec.Keys
  {
    hide SumOf, Percentile, AvgResponseTime, CurrentRps, CurrentFailPerSec, Plus;
    OverwrittenSum(a.base.numFailPerSec, o.base.numFailPerSec);
  }

  lemma MergedRowGood(a: Row, o: Row, percentTime: int)
    requires GoodRow(a, percentTime) && GoodRow(o, percentTime)
    ensures GoodRow(MergedRow(a, o.base, percentTime), percentTime)
  {
    hide SumOf, Percentile, AvgResponseTime, CurrentRps, CurrentFailPerSec, Plus;
    OverwrittenSum(a.base.numFailPerSec, o.base.numFailPerSec);
    SumPlus(a.base.numReqsPerSec, o.base.numReqsPerSec);
  }

  lemma {:induction false} IndexHasName(rows: seq<Row>, name: string, n: nat)
    requires n <= |rows|
    ensures var i := IndexOfName(rows, name, n);
            && (i < n ==> rows[i].base.name == name)
            && (i == n ==> RowGroup(rows, name, n) == [])
  {
    if n > 0 {
      IndexHasName(rows, name, n - 1);
      GroupStep(rows, name, n);
    }
  }

  lemma GroupStep(rows: seq<Row>, name: string, n: nat)
    requires 0 < n <= |rows|
    ensures rows[n - 1].base.name != name ==> RowGroup(rows, name, n) == RowGroup(rows, name, n - 1)
  {
  }

  lemma MergeRowGood(rows: seq<Row>, o: Row, percentTime: int)
    requires GoodRows(rows, percentTime) && GoodRow(o, percentTime)
    ensures GoodRows(MergeRow(rows, o, percentTime), percentTime)
  {
    hide GoodRow, MergedRow;
    var i := IndexOfName(rows, o.base.name, |rows|);
    if i < |rows| {
      MergedRowGood(rows[i], o, percentTime);
    }
  }

  /** Merging a row joins its tally into the rows. */
  lemma MergeRowTally(rows: seq<Row>, o: Row, percentTime: int, scope: Scope)
    requires GoodRows(rows, percentTime) && GoodRow(o, percentTime)
    ensures AllRows(MergeRow(rows, o, percentTime), scope) ==
            Join(AllRows(rows, scope), RowPart(o, scope))
    ensures GoodRows(MergeRow(rows, o, percentTime), percentTime)
  {
    hide Join, TallyOf, MergedRow, RowsTally, RowOf;
    MergeRowGood(rows, o, percentTime);
    var i := IndexOfName(rows, o.base.name, |rows|);
    if i < |rows| {
      assert GoodRow(rows[i], percentTime);
      IndexHasName(rows, o.base.name, |rows|);
      MergedRowBase(rows[i], o.base, percentTime);
      MergedTally(rows[i].base, o.base);
      JoinNothing(NOTHING);
      RowsTallyUpdate(rows, i, MergedRow(rows[i], o.base, percentTime), RowPart(o, scope), |rows|, scope);
    } else {
      AllRowsConcat(rows, [o], scope);
      OneRow(o, scope);
    }
  }

  lemma MergedRowBase(a: Row, o: Entry, percentTime: int)
    ensures MergedRow(a, o, percentTime).base == Merged(a.base, o)
    ensures Merged(a.base, o).name == a.base.name
  {
  }

  lemma {:induction false} MergeRowsTally(rows: seq<Row>, os: seq<Row>, n: nat, percentTime: int, scope: Scope)
    requires n <= |os| && GoodRows(rows, percentTime) && GoodRows(os, percentTime)
    ensures AllRows(MergeRows(rows, os, n, percentTime), scope) ==
            Join(AllRows(rows, scope), RowsTally(os, n, scope))
    ensures GoodRows(MergeRows(rows, os, n, percentTime), percentTime)
  {
    hide Join, MergeRow, RowPart, AllRows, GoodRow;
    if n == 0 {
      JoinNothing(AllRows(rows, scope));
    } else {
      MergeRowsTally(rows, os, n - 1, percentTime, scope);
      MergeRowTally(MergeRows(rows, os, n - 1, percentTime), os[n - 1], percentTime, scope);
      JoinAssociative(AllRows(rows, scope), RowsTally(os, n - 1, scope), RowPart(os[n - 1], scope));
    }
  }

  // ---------------------------------------------------------------------------------------------
  // Names
  // ---------------------------------------------------------------------------------------------

  ghost predicate DistinctNames(rows: seq<Row>) {
    forall name :: |RowGroup(rows, name, |rows|)| <= 1
  }

  lemma {:induction false} GroupAfterUpdate(rows: seq<Row>, i: nat, r: Row, name: string, n: nat)
    requires i < |rows| && n <= |rows| && r.base.name == rows[i].base.name
    ensures |RowGroup(rows[i := r], name, n)| == |RowGroup(rows, name, n)|
  {
    if n > 0 {
      GroupAfterUpdate(rows, i, r, name, n - 1);
    }
  }

  lemma {:induction false} GroupPrefix(rows: seq<Row>, longer: seq<Row>, name: string, n: nat)
    requires n <= |rows| <= |longer| && forall i :: 0 <= i < n ==> rows[i] == longer[i]
    ensures RowGroup(rows, name, n) == RowGroup(longer, name, n)
  {
    if n > 0 {
      GroupPrefix(rows, longer, name, n - 1);
    }
  }

  lemma MergeRowKeepsNames(rows: seq<Row>, o: Row, percentTime: int)
    requires DistinctNames(rows)
    ensures DistinctNames(MergeRow(rows, o, percentTime))
  {
    hide MergedRow;
    var i := IndexOfName(rows, o.base.name, |rows|);
    var merged := MergeRow(rows, o, percentTime);
    IndexHasName(rows, o.base.name, |rows|);
    forall name
      ensures |RowGroup(merged, name, |merged|)| <= 1
    {
      if i < |rows| {
        MergedRowBase(rows[i], o.base, percentTime);
        GroupAfterUpdate(rows, i, merged[i], name, |rows|);
      } else {
        GroupPrefix(rows, merged, name, |rows|);
      }
    }
  }

  lemma {:induction false} MergeRowsKeepNames(rows: seq<Row>, os: seq<Row>, n: nat, percentTime: int)
    requires n <= |os| && DistinctNames(rows)
    ensures DistinctNames(MergeRows(rows, os, n, percentTime))
  {
    hide DistinctNames, MergeRow;
    if n > 0 {
      MergeRowsKeepNames(rows, os, n - 1, percentTime);
      MergeRowKeepsNames(MergeRows(rows, os, n - 1, percentTime), os[n - 1], percentTime);
    }
  }

  /** With distinct names, the tally of a name is that of its one row. */
  lemma {:induction false} RowOfName(rows: seq<Row>, i: nat, n: nat)
    requires n <= |rows| && i < |rows| && |RowGroup(rows, rows[i].base.name, n)| <= 1
    ensures i < n ==> RowsTally(rows, n, Named(rows[i].base.name)) == TallyOf(rows[i].base, true)
    ensures RowGroup(rows, rows[i].base.name, n) == [] ==> RowsTally(rows, n, Named(rows[i].base.name)) == NOTHING
    ensures i < n ==> |RowGroup(rows, rows[i].base.name, n)| == 1
  {
    hide Join, TallyOf;
    if n > 0 {
      RowOfName(rows, i, n - 1);
      JoinNothing(RowsTally(rows, n - 1, Named(rows[i].base.name)));
      JoinNothing(TallyOf(rows[i].base, true));
    }
  }

  // ---------------------------------------------------------------------------------------------
  // One report
  // ---------------------------------------------------------------------------------------------

  /** The entries whose keys are among the first n of the order. */
  ghost function Visited(entries: map<string, Entry>, order: seq<string>, n: nat): map<string, Entry>
    requires n <= |order|
  {
    map k | k in entries && k in order[..n] :: entries[k]
  }

  /** The reported rows hold exactly what the visited entries hold. */
  lemma {:induction false} RowsHoldParts(s: Stats, order: seq<string>, n: nat, percentTime: int, scope: Scope)
    requires Healthy(s) && Enumerates(order, s.entries.Keys) && n <= |order|
    ensures AllRows(Decoded(Rows(s.entries, order, n), percentTime), scope) ==
            JoinAll(Parts(Visited(s.entries, order, n), scope, true))
    ensures GoodRows(Decoded(Rows(s.entries, order, n), percentTime), percentTime)
  {
    hide Join, JoinAll, PartOf, Consistent, RowOf, GoodRow, RowsTally;
    var rows := Rows(s.entries, order, n);
    if n == 0 {
      NoRows(scope);
      assert Parts(Visited(s.entries, order, 0), scope, true) == map[];
    } else {
      var k := order[n - 1];
      var e, before := s.entries[k], Rows(s.entries, order, n - 1);
      RowsHoldParts(s, order, n - 1, percentTime, scope);
      VisitOneMore(s.entries, order, n, scope);
      if Active(e) {
        assert Decoded(rows, percentTime) == Decoded(before, percentTime) + [RowOf(e, percentTime)];
        AllRowsConcat(Decoded(before, percentTime), [RowOf(e, percentTime)], scope);
        OneRow(RowOf(e, percentTime), scope);
        ActiveRowIsGood(e, percentTime, scope);
      } else {
        assert rows == before;
        InactiveIsNothing(e, scope, true);
        JoinNothing(JoinAll(Parts(Visited(s.entries, order, n - 1), scope, true)));
      }
    }
  }

  lemma NoRows(scope: Scope)
    ensures AllRows([], scope) == NOTHING == JoinAll(map[])
  {
  }

  lemma ActiveRowIsGood(e: Entry, percentTime: int, scope: Scope)
    requires Consistent(e) && Active(e)
    ensures GoodRow(RowOf(e, percentTime), percentTime)
    ensures RowPart(RowOf(e, percentTime), scope) == PartOf(e, scope, true)
  {
    hide SumOf, Percentile, CurrentRps;
  }

  lemma VisitOneMore(entries: map<string, Entry>, order: seq<string>, n: nat, scope: Scope)
    requires 0 < n <= |order| && Enumerates(order, entries.Keys)
    ensures JoinAll(Parts(Visited(entries, order, n), scope, true)) ==
            Join(JoinAll(Parts(Visited(entries, order, n - 1), scope, true)),
                 PartOf(entries[order[n - 1]], scope, true))
  {
    hide Join, JoinAll, PartOf;
    var k := order[n - 1];
    var parts := Parts(Visited(entries, order, n), scope, true);
    assert order[..n] == order[..n - 1] + [k];
    assert k !in order[..n - 1];
    JoinTakeOut(parts, k);
    assert parts - {k} == Parts(Visited(entries, order, n - 1), scope, true);
    JoinCommutative(parts[k], JoinAll(parts - {k}));
  }

  lemma ReportedRows(s: Stats, order: seq<string>, percentTime: int, scope: Scope)
    requires Healthy(s) && Enumerates(order, s.entries.Keys)
    ensures AllRows(Decoded(ReportOf(s, order).stats, percentTime), scope) == JoinAll(Parts(s.entries, scope, true))
    ensures GoodRows(Decoded(ReportOf(s, order).stats, percentTime), percentTime)
  {
    hide Healthy, JoinAll, AllRows, Decoded, GoodRows;
    RowsHoldParts(s, order, |order|, percentTime, scope);
    assert Visited(s.entries, order, |order|) == s.entries by {
      assert order[..|order|] == order;
    }
  }

  lemma SortedKeepsGood(before: seq<Row>, after: seq<Row>, percentTime: int, scope: Scope)
    requires StablySorted(before, after)
    ensures GoodRows(before, percentTime) ==> GoodRows(after, percentTime)
    ensures AllRows(after, scope) == AllRows(before, scope)
    ensures DistinctNames(before) ==> DistinctNames(after)
  {
    hide GoodRow, AllRows;
    StablySortedIsPermutation(before, after);
    AllRowsPermuted(before, after, scope);
    forall i | 0 <= i < |after|
      ensures after[i] in before
    {
      assert after[i] in multiset(before);
    }
  }

  lemma AllRowsIs(rows: seq<Row>, scope: Scope)
    ensures AllRows(rows, scope) == RowsTally(rows, |rows|, scope)
  {
  }

  /** Absorbing a report joins the tally of its rows into that of the summary. */
  lemma AbsorbedTally(v: SummaryView, data: ReportData, users: int, percentTime: int, r: SummaryView, scope: Scope)
    requires Absorbed(v, data, users, percentTime, r)
    requires GoodRows(v.stats, percentTime) && GoodRows(Decoded(data.stats, percentTime), percentTime)
    requires DistinctNames(v.stats)
    ensures AllRows(r.stats, scope) == Join(AllRows(v.stats, scope), AllRows(Decoded(data.stats, percentTime), scope))
    ensures GoodRows(r.stats, percentTime) && DistinctNames(r.stats)
  {
    hide AllRows, GoodRows, DistinctNames, MergeRows, StablySorted, Join;
    var os :| StablySorted(Decoded(data.stats, percentTime), os) && AbsorbedRows(v, data, users, percentTime, os, r);
    var merged := MergeRows(v.stats, os, |os|, percentTime);
    SortedKeepsGood(Decoded(data.stats, percentTime), os, percentTime, scope);
    AllRowsIs(os, scope);
    MergeRowsTally(v.stats, os, |os|, percentTime, scope);
    MergeRowsKeepNames(v.stats, os, |os|, percentTime);
    SortedKeepsGood(merged, r.stats, percentTime, scope);
  }
}
