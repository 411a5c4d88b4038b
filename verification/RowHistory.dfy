/** The row of a name, as the merge of everything ever reported under that name. */
module RowHistory {
  import opened Counters
  import opened Options
  import opened OutputRows
  import opened RowTallies
  import opened StatsModel
  import opened Summary
  import opened SummaryRuns

  /** The first row of a name. */
  function HeadOf(rows: seq<Row>, name: string): Option<Row> {
    var group := RowGroup(rows, name, |rows|);
    if group == [] then None else Some(group[0])
  }

  lemma {:induction false} IndexIsHead(rows: seq<Row>, name: string, n: nat)
    requires n <= |rows|
    ensures var i, group := IndexOfName(rows, name, n), RowGroup(rows, name, n);
            && (i == n <==> group == [])
            && (i < n ==> rows[i].base.name == name && group[0] == rows[i])
  {
    if n > 0 {
      IndexIsHead(rows, name, n - 1);
    }
  }

  lemma HeadIsFirst(rows: seq<Row>, name: string)
    ensures var i := IndexOfName(rows, name, |rows|);
            && HeadOf(rows, name) == (if i < |rows| then Some(rows[i]) else None)
            && (i < |rows| ==> rows[i].base.name == name)
  {
    IndexIsHead(rows, name, |rows|);
  }

  lemma {:induction false} SameNames(rows: seq<Row>, i: nat, m: Row, name: string, n: nat)
    requires i < |rows| && n <= |rows| && m.base.name == rows[i].base.name
    ensures IndexOfName(rows[i := m], name, n) == IndexOfName(rows, name, n)
  {
    if n > 0 {
      SameNames(rows, i, m, name, n - 1);
    }
  }

  /** Replacing the first row of its name replaces the head of that name, and no other. */
  lemma HeadAfterReplace(rows: seq<Row>, m: Row, name: string)
    requires var i := IndexOfName(rows, m.base.name, |rows|); i < |rows|
    ensures HeadOf(rows[IndexOfName(rows, m.base.name, |rows|) := m], name) ==
            if name == m.base.name then Some(m) else HeadOf(rows, name)
  {
    hide HeadOf, IndexOfName;
    var i := IndexOfName(rows, m.base.name, |rows|);
    HeadIsFirst(rows, m.base.name);
    HeadIsFirst(rows, name);
    HeadIsFirst(rows[i := m], name);
    SameNames(rows, i, m, name, |rows|);
  }

  lemma HeadAfterAppend(rows: seq<Row>, o: Row, name: string)
    ensures HeadOf(rows + [o], name) ==
            if HeadOf(rows, name).None? && name == o.base.name then Some(o) else HeadOf(rows, name)
  {
    GroupPrefix(rows, rows + [o], name, |rows|);
  }

  function MergedHead(head: Option<Row>, o: Row, percentTime: int): Option<Row> {
    Some(if head.None? then o else MergedRow(head.value, o.base, percentTime))
  }

  /** Merging a row concerns the head of its own name only. */
  lemma HeadAfterMerge(rows: seq<Row>, o: Row, percentTime: int, name: string)
    ensures HeadOf(MergeRow(rows, o, percentTime), name) ==
            if o.base.name == name then MergedHead(HeadOf(rows, name), o, percentTime) else HeadOf(rows, name)
  {
    hide MergedRow, HeadOf, IndexOfName;
    var i := IndexOfName(rows, o.base.name, |rows|);
    HeadIsFirst(rows, o.base.name);
    if i < |rows| {
      MergedRowBase(rows[i], o.base, percentTime);
      HeadAfterReplace(rows, MergedRow(rows[i], o.base, percentTime), name);
    } else {
      HeadAfterAppend(rows, o, name);
    }
  }

  /** The first n of these rows merged one after the other, onto a head if there is one. */
  function MergeOnto(head: Option<Row>, os: seq<Row>, n: nat, percentTime: int): Option<Row>
    requires n <= |os|
  {
    if n == 0 then head else MergedHead(MergeOnto(head, os, n - 1, percentTime), os[n - 1], percentTime)
  }

  lemma {:induction false} MergeOntoPrefix(head: Option<Row>, a: seq<Row>, b: seq<Row>, n: nat, percentTime: int)
    requires n <= |a| <= |b| && a == b[..|a|]
    ensures MergeOnto(head, a, n, percentTime) == MergeOnto(head, b, n, percentTime)
  {
    hide MergedHead;
    if n > 0 {
      MergeOntoPrefix(head, a, b, n - 1, percentTime);
    }
  }

  lemma {:induction false} MergeOntoConcat(head: Option<Row>, a: seq<Row>, b: seq<Row>, n: nat, percentTime: int)
    requires n <= |b|
    ensures MergeOnto(head, a + b, |a| + n, percentTime) ==
            MergeOnto(MergeOnto(head, a, |a|, percentTime), b, n, percentTime)
  {
    hide MergedHead;
    if n == 0 {
      MergeOntoPrefix(head, a, a + b, |a|, percentTime);
    } else {
      MergeOntoConcat(head, a, b, n - 1, percentTime);
    }
  }

  lemma {:induction false} HeadAfterMergeRows(rows: seq<Row>, os: seq<Row>, n: nat, percentTime: int, name: string)
    requires n <= |os|
    ensures var group := RowGroup(os, name, n);
            HeadOf(MergeRows(rows, os, n, percentTime), name) ==
            MergeOnto(HeadOf(rows, name), group, |group|, percentTime)
  {
    hide MergeRow, MergedHead, HeadOf;
    if n > 0 {
      HeadAfterMergeRows(rows, os, n - 1, percentTime, name);
      HeadAfterMerge(MergeRows(rows, os, n - 1, percentTime), os[n - 1], percentTime, name);
      var group := RowGroup(os, name, n - 1);
      if os[n - 1].base.name == name {
        assert RowGroup(os, name, n) == group + [os[n - 1]];
        MergeOntoPrefix(HeadOf(rows, name), group, group + [os[n - 1]], |group|, percentTime);
      } else {
        assert RowGroup(os, name, n) == group;
      }
    }
  }

  /** All rows ever reported under a name, in the order the entries were visited. */
  function ReportedAs(reports: seq<ReportData>, n: nat, name: string, percentTime: int): seq<Row>
    requires n <= |reports|
  {
    if n == 0 then []
    else
      var rows := Decoded(reports[n - 1].stats, percentTime);
      ReportedAs(reports, n - 1, name, percentTime) + RowGroup(rows, name, |rows|)
  }

  lemma AbsorbedHead(v: SummaryView, data: ReportData, users: int, percentTime: int, r: SummaryView, name: string)
    requires Absorbed(v, data, users, percentTime, r)
    ensures var rows := Decoded(data.stats, percentTime);
            var group := RowGroup(rows, name, |rows|);
            HeadOf(r.stats, name) == MergeOnto(HeadOf(v.stats, name), group, |group|, percentTime)
  {
    hide MergeRows, RowGroup, Decoded, MergeOnto;
    var os :| StablySorted(Decoded(data.stats, percentTime), os) && AbsorbedRows(v, data, users, percentTime, os, r);
    HeadAfterMergeRows(v.stats, os, |os|, percentTime, name);
  }

  /** In every summary the row of a name is the merge of all rows reported under it, in order. */
  lemma {:induction false} RowIsHistory(reports: seq<ReportData>, views: seq<SummaryView>, users: seq<int>,
                                        percentTime: int, n: nat, name: string)
    requires Chain(reports, views, users, percentTime) && n <= |reports|
    ensures n < |views|
    ensures var os := ReportedAs(reports, n, name, percentTime);
            HeadOf(views[n].stats, name) == MergeOnto(None, os, |os|, percentTime)
  {
    hide Absorbed, RowGroup, MergeOnto, HeadOf, Decoded;
    if n == 0 {
      NoHead(percentTime, name);
    } else {
      RowIsHistory(reports, views, users, percentTime, n - 1, name);
      assert Absorbed(views[n - 1], reports[n - 1], users[n - 1], percentTime, views[n]);
      AbsorbedHead(views[n - 1], reports[n - 1], users[n - 1], percentTime, views[n], name);
      var rows := Decoded(reports[n - 1].stats, percentTime);
      var group := RowGroup(rows, name, |rows|);
      MergeOntoConcat(None, ReportedAs(reports, n - 1, name, percentTime), group, |group|, percentTime);
    }
  }

  lemma NoHead(percentTime: int, name: string)
    ensures HeadOf([], name) == None == MergeOnto(None, [], 0, percentTime)
  {
  }

  // ---------------------------------------------------------------------------------------------
  // Time stamps
  // ---------------------------------------------------------------------------------------------

  /** What merging never touches. */
  predicate SameStamps(a: Row, b: Row) {
    && a.base.requestMethod == b.base.requestMethod
    && a.base.startTime == b.base.startTime
    && a.base.lastRequestTimestamp == b.base.lastRequestTimestamp
  }

  lemma {:induction false} MergeKeepsStamps(os: seq<Row>, n: nat, percentTime: int)
    requires 0 < n <= |os|
    ensures MergeOnto(None, os, n, percentTime).Some?
    ensures SameStamps(MergeOnto(None, os, n, percentTime).value, os[0])
  {
    if n > 1 {
      MergeKeepsStamps(os, n - 1, percentTime);
    } else {
      assert MergeOnto(None, os, 0, percentTime) == None;
    }
  }

  /**
   * The method and the time stamps of a row are those of the first entry ever reported under its name,
   * however many reports come after it; and a name has a row as soon as an entry was reported.
   */
  lemma RowHasFirstStamps(reports: seq<ReportData>, views: seq<SummaryView>, users: seq<int>, percentTime: int,
                          n: nat, name: string)
    requires Chain(reports, views, users, percentTime) && n <= |reports|
    ensures n < |views|
    ensures var os, head := ReportedAs(reports, n, name, percentTime), HeadOf(views[n].stats, name);
            && (head.Some? <==> os != [])
            && (head.Some? ==> SameStamps(head.value, os[0]))
  {
    hide Chain, RowGroup, HeadOf, MergeOnto, ReportedAs;
    RowIsHistory(reports, views, users, percentTime, n, name);
    var os := ReportedAs(reports, n, name, percentTime);
    if os == [] {
      NoHead(percentTime, name);
    } else {
      MergeKeepsStamps(os, |os|, percentTime);
    }
  }

  // ---------------------------------------------------------------------------------------------
  // Failures by second
  // ---------------------------------------------------------------------------------------------

  /** An entry's failures by second add up to its failures. */
  ghost predicate AddsUp(e: Entry) {
    SumOf(e.numFailPerSec) == e.numFailures
  }

  /** No second with failures occurs in two of the first n rows. */
  ghost predicate NoSharedSecond(os: seq<Row>, n: nat)
    requires n <= |os|
  {
    forall i, j :: 0 <= i < j < n ==> os[i].base.numFailPerSec.Keys !! os[j].base.numFailPerSec.Keys
  }

  /** A row as it is reported. */
  ghost predicate CleanRow(r: Row, percentTime: int) {
    GoodRow(r, percentTime) && AddsUp(r.base)
  }

  ghost predicate CleanRows(os: seq<Row>, percentTime: int) {
    forall i :: 0 <= i < |os| ==> CleanRow(os[i], percentTime)
  }

  /** These are the seconds with failures of the first n rows. */
  ghost predicate SecondsFrom(seconds: set<int>, os: seq<Row>, n: nat)
    requires n <= |os|
  {
    forall x :: x in seconds <==> exists i :: 0 <= i < n && x in os[i].base.numFailPerSec
  }

  lemma FirstSeconds(os: seq<Row>)
    requires os != []
    ensures SecondsFrom(os[0].base.numFailPerSec.Keys, os, 1)
  {
  }

  lemma {:induction false} MergeAddsUpIff(os: seq<Row>, n: nat, percentTime: int)
    requires 0 < n <= |os| && CleanRows(os, percentTime)
    ensures MergeOnto(None, os, n, percentTime).Some?
    ensures var r := MergeOnto(None, os, n, percentTime).value;
            && GoodRow(r, percentTime)
            && (AddsUp(r.base) <==> NoSharedSecond(os, n))
            && SecondsFrom(r.base.numFailPerSec.Keys, os, n)
  {
    hide GoodRow, AddsUp, SecondsFrom, MergedRow;
    if n == 1 {
      assert MergeOnto(None, os, 0, percentTime) == None;
      FirstSeconds(os);
    } else {
      MergeAddsUpIff(os, n - 1, percentTime);
      var r, o := MergeOnto(None, os, n - 1, percentTime).value, os[n - 1];
      MergedRowGood(r, o, percentTime);
      MergeStepAddsUpIff(r, o, percentTime);
      MoreSeconds(os, n, r.base.numFailPerSec.Keys);
      OneMoreSecond(os, n, r);
    }
  }

  lemma MergeStepAddsUpIff(r: Row, o: Row, percentTime: int)
    requires GoodRow(r, percentTime) && CleanRow(o, percentTime)
    ensures var m := MergedRow(r, o.base, percentTime).base;
            && (AddsUp(m) <==> AddsUp(r.base) && r.base.numFailPerSec.Keys !! o.base.numFailPerSec.Keys)
            && m.numFailPerSec.Keys == r.base.numFailPerSec.Keys + o.base.numFailPerSec.Keys
  {
    hide GoodRow, SumOf;
    FailuresPerSecondAddUpIff(r, o, percentTime);
    MergedSeconds(r, o.base, percentTime);
  }

  lemma MergedSeconds(r: Row, o: Entry, percentTime: int)
    ensures MergedRow(r, o, percentTime).base.numFailPerSec == r.base.numFailPerSec + o.numFailPerSec
  {
  }

  lemma MoreSeconds(os: seq<Row>, n: nat, seconds: set<int>)
    requires 0 < n <= |os| && SecondsFrom(seconds, os, n - 1)
    ensures SecondsFrom(seconds + os[n - 1].base.numFailPerSec.Keys, os, n)
  {
    var more := seconds + os[n - 1].base.numFailPerSec.Keys;
    forall x
      ensures x in more <==>
              exists i :: 0 <= i < n && x in os[i].base.numFailPerSec
    {
      assert x in seconds <==> exists i :: 0 <= i < n - 1 && x in os[i].base.numFailPerSec;
    }
  }

  lemma OneMoreSecond(os: seq<Row>, n: nat, r: Row)
    requires 1 < n <= |os|
    requires SecondsFrom(r.base.numFailPerSec.Keys, os, n - 1)
    ensures NoSharedSecond(os, n) <==>
            NoSharedSecond(os, n - 1) && r.base.numFailPerSec.Keys !! os[n - 1].base.numFailPerSec.Keys
  {
    var o := os[n - 1].base.numFailPerSec;
    if r.base.numFailPerSec.Keys !! o.Keys {
      forall i | 0 <= i < n - 1
        ensures os[i].base.numFailPerSec.Keys !! o.Keys
      {
        forall x | x in os[i].base.numFailPerSec
          ensures x !in o
        {
          assert x in r.base.numFailPerSec;
        }
      }
    } else {
      var x := CommonElement(r.base.numFailPerSec.Keys, o.Keys);
      var i :| 0 <= i < n - 1 && x in os[i].base.numFailPerSec;
      assert !(os[i].base.numFailPerSec.Keys !! os[n - 1].base.numFailPerSec.Keys);
    }
  }
}
