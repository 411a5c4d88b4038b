/** What becomes of the error records of reports that an output has taken in. */
module SharedErrors {
  import opened StatsModel
  import opened StatsRuns
  import opened Summary
  import opened SummaryRuns

  /** The occurrences of an error in the first n reports together. */
  function AllOccurrences(data: seq<ReportData>, n: nat, key: string): int
    requires n <= |data|
  {
    if n == 0 then 0 else AllOccurrences(data, n - 1, key) + OccurrencesAt(data[n - 1].errors, key)
  }

  /** Report i is the first with the error. */
  predicate IsFirstWith(data: seq<ReportData>, i: nat, key: string) {
    && i < |data| && key in data[i].errors
    && forall j :: 0 <= j < i ==> key !in data[j].errors
  }

  /** The record of an error in report i after all reports: the first report's counts all occurrences. */
  function RecordAfter(data: seq<ReportData>, i: nat, key: string): ErrorInfo
    requires i < |data| && key in data[i].errors
  {
    var info := data[i].errors[key];
    if IsFirstWith(data, i, key) then info.(occurrences := AllOccurrences(data, |data|, key)) else info
  }

  predicate NeverNegative(data: seq<ReportData>) {
    forall i, k :: 0 <= i < |data| && k in data[i].errors ==> data[i].errors[k].occurrences >= 0
  }

  lemma {:induction false} LaterOccurrences(data: seq<ReportData>, m: nat, n: nat, key: string)
    requires m <= n <= |data| && NeverNegative(data)
    ensures AllOccurrences(data, m, key) <= AllOccurrences(data, n, key)
    ensures AllOccurrences(data, m, key) != AllOccurrences(data, n, key) <==>
            exists j :: m <= j < n && key in data[j].errors && data[j].errors[key].occurrences != 0
    decreases n
  {
    if m < n {
      LaterOccurrences(data, m, n - 1, key);
    }
  }

  lemma {:induction false} NoOccurrencesYet(data: seq<ReportData>, n: nat, key: string)
    requires n <= |data| && forall j :: 0 <= j < n ==> key !in data[j].errors
    ensures AllOccurrences(data, n, key) == 0
  {
    if n > 0 {
      NoOccurrencesYet(data, n - 1, key);
    }
  }

  /** A record changes, if and only if its report is the first with the error and a later one counts some more. */
  lemma RecordChangesIff(data: seq<ReportData>, i: nat, key: string)
    requires i < |data| && key in data[i].errors && NeverNegative(data)
    ensures RecordAfter(data, i, key) != data[i].errors[key] <==>
            && IsFirstWith(data, i, key)
            && exists j :: i < j < |data| && key in data[j].errors && data[j].errors[key].occurrences != 0
  {
    if IsFirstWith(data, i, key) {
      NoOccurrencesYet(data, i, key);
      LaterOccurrences(data, i + 1, |data|, key);
      assert AllOccurrences(data, i + 1, key) == data[i].errors[key].occurrences;
    }
  }

  lemma AbsorbedErrors(v: SummaryView, data: ReportData, users: int, percentTime: int, r: SummaryView)
    requires Absorbed(v, data, users, percentTime, r)
    ensures r.errors == MergeErrors(v.errors, data.errors)
  {
    hide StablySorted, MergeRows, MergeErrors, Decoded, SumRps, SumRequests, SumFailures;
  }

  /** The summary keeps an error as its first report has it, with the occurrences of all reports so far. */
  lemma {:induction false} SummaryErrorIs(data: seq<ReportData>, views: seq<SummaryView>, users: seq<int>,
                                          percentTime: int, n: nat, i: nat, key: string)
    requires Chain(data, views, users, percentTime) && n <= |data| && IsFirstWith(data, i, key)
    ensures n < |views|
    ensures n <= i ==> key !in views[n].errors
    ensures i < n ==>
              && key in views[n].errors
              && views[n].errors[key] == data[i].errors[key].(occurrences := AllOccurrences(data, n, key))
  {
    hide Absorbed;
    if n > 0 {
      SummaryErrorIs(data, views, users, percentTime, n - 1, i, key);
      assert Absorbed(views[n - 1], data[n - 1], users[n - 1], percentTime, views[n]);
      AbsorbedErrors(views[n - 1], data[n - 1], users[n - 1], percentTime, views[n]);
      if n == i + 1 {
        NoOccurrencesYet(data, i, key);
      }
    }
  }

  // ---------------------------------------------------------------------------------------------
  // Over runs
  // ---------------------------------------------------------------------------------------------

  predicate ErrorsCount(errors: map<string, ErrorInfo>) {
    forall k :: k in errors ==> errors[k].occurrences >= 1
  }

  lemma TurnErrorsCount(s: Stats, step: Step, digest: Digest)
    requires ErrorsCount(s.errors)
    ensures ErrorsCount(Turn(s, step, digest).errors)
  {
    hide Logged, Failed, BlankAt, Found;
  }

  lemma {:induction false} KeptErrorsCount(start: Clock, steps: seq<Step>, n: nat, digest: Digest)
    requires n <= |steps|
    ensures ErrorsCount(After(NewStats(start), steps, n, digest).errors)
  {
    hide Turn, ErrorsCount;
    if n == 0 {
      NoneCounted();
    } else {
      KeptErrorsCount(start, steps, n - 1, digest);
      TurnErrorsCount(After(NewStats(start), steps, n - 1, digest), steps[n - 1], digest);
    }
  }

  lemma NoneCounted()
    ensures ErrorsCount(map[])
  {
  }

  lemma {:induction false} SentErrorsCount(start: Clock, steps: seq<Step>, n: nat, digest: Digest)
    requires n <= |steps| && Feasible(NewStats(start), steps, n, digest)
    ensures forall i :: 0 <= i < |Sent(NewStats(start), steps, n, digest)| ==>
              ErrorsCount(Sent(NewStats(start), steps, n, digest)[i].errors)
  {
    hide NewStats, After, ErrorsCount, Enumerates, Rows;
    if n > 0 {
      SentErrorsCount(start, steps, n - 1, digest);
      KeptErrorsCount(start, steps, n - 1, digest);
    }
  }

  /** Of the reports of a run: exactly the first record of an error changes, and only if the error is reported again. */
  lemma ReportedErrorChangesIff(start: Clock, steps: seq<Step>, n: nat, digest: Digest, i: nat, key: string)
    requires n <= |steps| && Feasible(NewStats(start), steps, n, digest)
    requires i < |Sent(NewStats(start), steps, n, digest)| && key in Sent(NewStats(start), steps, n, digest)[i].errors
    ensures var data := Sent(NewStats(start), steps, n, digest);
            RecordAfter(data, i, key) != data[i].errors[key] <==>
            IsFirstWith(data, i, key) && exists j :: i < j < |data| && key in data[j].errors
  {
    hide Feasible, NewStats, Sent, RecordAfter, IsFirstWith;
    SentErrorsCount(start, steps, n, digest);
    RecordChangesIff(Sent(NewStats(start), steps, n, digest), i, key);
  }
}
