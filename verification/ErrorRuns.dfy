/** Which errors are known, in the statistics and in the summary, and what they say. */
module ErrorRuns {
  import opened StatsModel
  import opened StatsRuns
  import opened Summary
  import opened SummaryRuns

  predicate IsFailureWith(ev: Event, key: string, digest: Digest) {
    ev.Failure? && digest(ev.requestMethod + ev.name + ev.error) == key
  }

  /** The position of the first failure with the digest among the first n bookings; n if there is none. */
  function FirstFailure(bs: seq<Booking>, n: nat, key: string, digest: Digest): (i: nat)
    requires n <= |bs|
    ensures i <= n && (i < n ==> IsFailureWith(bs[i].event, key, digest))
  {
    if n == 0 then 0
    else
      var i := FirstFailure(bs, n - 1, key, digest);
      if i < n - 1 || IsFailureWith(bs[n - 1].event, key, digest) then i else n
  }

  lemma {:induction false} FirstFailureConcat(a: seq<Booking>, b: seq<Booking>, n: nat, key: string, digest: Digest)
    requires n <= |b|
    ensures FirstFailure(a + b, |a| + n, key, digest) ==
            (var i := FirstFailure(a, |a|, key, digest);
             if i < |a| then i else |a| + FirstFailure(b, n, key, digest))
  {
    if n == 0 {
      FirstFailurePrefix(a, a + b, |a|, key, digest);
    } else {
      FirstFailureConcat(a, b, n - 1, key, digest);
    }
  }

  lemma {:induction false} FirstFailurePrefix(a: seq<Booking>, b: seq<Booking>, n: nat, key: string, digest: Digest)
    requires n <= |a| <= |b| && a == b[..|a|]
    ensures FirstFailure(a, n, key, digest) == FirstFailure(b, n, key, digest)
  {
    if n > 0 {
      FirstFailurePrefix(a, b, n - 1, key, digest);
    }
  }

  /**
   * An error is known under a digest if and only if some booked failure has it. It tells the name, the
   * method and the text of the first such failure, and how many there are.
   */
  predicate TellsErrors(errors: map<string, ErrorInfo>, bs: seq<Booking>, key: string, digest: Digest) {
    var i := FirstFailure(bs, |bs|, key, digest);
    && (key in errors <==> i < |bs|)
    && (i < |bs| ==>
          var ev := bs[i].event;
          errors[key] == ErrorInfo(ev.name, ev.requestMethod, ev.error, FailuresWith(bs, |bs|, key, digest)))
  }

  lemma {:induction false} NoneBeforeFirst(bs: seq<Booking>, n: nat, key: string, digest: Digest)
    requires n <= |bs| && FirstFailure(bs, n, key, digest) == n
    ensures FailuresWith(bs, n, key, digest) == 0
  {
    if n > 0 {
      NoneBeforeFirst(bs, n - 1, key, digest);
    }
  }

  lemma NothingToTell(key: string, digest: Digest)
    ensures TellsErrors(map[], [], key, digest)
  {
  }

  /** Telling what one event adds. */
  lemma TellsOneMore(errors: map<string, ErrorInfo>, bs: seq<Booking>, b: Booking, key: string, digest: Digest)
    requires TellsErrors(errors, bs, key, digest)
    ensures b.event.Failure? ==>
              var ev := b.event;
              var at := digest(ev.requestMethod + ev.name + ev.error);
              TellsErrors(Occurred(errors, at, ev.name, ev.requestMethod, ev.error), bs + [b], key, digest)
    ensures !b.event.Failure? ==> TellsErrors(errors, bs + [b], key, digest)
  {
    FirstFailurePrefix(bs, bs + [b], |bs|, key, digest);
    OneMoreBooking(bs, b, key, digest);
    if FirstFailure(bs, |bs|, key, digest) == |bs| {
      NoneBeforeFirst(bs, |bs|, key, digest);
    }
  }

  lemma TurnTells(s: Stats, b: Book, step: Step, key: string, digest: Digest)
    requires TellsErrors(s.errors, b.pending, key, digest)
    ensures TellsErrors(Turn(s, step, digest).errors, Record(b, step).pending, key, digest)
  {
    hide TellsErrors, Found, Logged, Failed, Occurred, BlankAt;
    var ev := step.event;
    if IsRequest(ev) {
      TellsOneMore(s.errors, b.pending, BookingOn(OwnerOf(b, KeyOf(ev), ev.name), step), key, digest);
    } else {
      NothingToTell(key, digest);
    }
  }

  /** In every reachable state the errors tell exactly the failures not yet reported. */
  lemma {:induction false} StatsTellErrors(start: Clock, steps: seq<Step>, n: nat, key: string, digest: Digest)
    requires n <= |steps|
    ensures TellsErrors(After(NewStats(start), steps, n, digest).errors, BookAfter(steps, n).pending, key, digest)
  {
    hide Turn, Record, TellsErrors;
    if n == 0 {
      NothingToTell(key, digest);
    } else {
      StatsTellErrors(start, steps, n - 1, key, digest);
      TurnTells(After(NewStats(start), steps, n - 1, digest), BookAfter(steps, n - 1), steps[n - 1], key, digest);
    }
  }

  lemma MergedTell(a: map<string, ErrorInfo>, o: map<string, ErrorInfo>, xs: seq<Booking>, ys: seq<Booking>,
                   key: string, digest: Digest)
    requires TellsErrors(a, xs, key, digest) && TellsErrors(o, ys, key, digest)
    ensures TellsErrors(MergeErrors(a, o), xs + ys, key, digest)
  {
    hide FirstFailure, FailuresWith;
    FirstFailureConcat(xs, ys, |ys|, key, digest);
    FailuresConcat(xs, ys, |ys|, key, digest);
    if FirstFailure(xs, |xs|, key, digest) == |xs| {
      NoneBeforeFirst(xs, |xs|, key, digest);
    }
    if FirstFailure(ys, |ys|, key, digest) == |ys| {
      NoneBeforeFirst(ys, |ys|, key, digest);
    }
  }

  lemma AbsorbedTells(v: SummaryView, data: ReportData, users: int, percentTime: int, r: SummaryView,
                      xs: seq<Booking>, ys: seq<Booking>, key: string, digest: Digest)
    requires Absorbed(v, data, users, percentTime, r)
    requires TellsErrors(v.errors, xs, key, digest) && TellsErrors(data.errors, ys, key, digest)
    ensures TellsErrors(r.errors, xs + ys, key, digest)
  {
    hide MergeRows, MergeErrors, StablySorted, SumRps, SumRequests, SumFailures, TellsErrors;
    MergedTell(v.errors, data.errors, xs, ys, key, digest);
  }

  /**
   * After any reports the errors of the summary tell exactly the delivered failures: each digest with
   * the name, method and text of the first failure that has it, however the reports were cut.
   */
  lemma {:induction false} SummaryTellsErrors(start: Clock, steps: seq<Step>, n: nat, digest: Digest,
      views: seq<SummaryView>, users: seq<int>, percentTime: int, key: string)
    requires n <= |steps| && Feasible(NewStats(start), steps, n, digest)
    requires Chain(Sent(NewStats(start), steps, n, digest), views, users, percentTime)
    ensures |views| > 0 && TellsErrors(views[|views| - 1].errors, BookAfter(steps, n).delivered, key, digest)
  {
    hide TellsErrors, Turn, Enabled, Chain, NewStats, Absorbed, Rows, Enumerates;
    ChainLength(Sent(NewStats(start), steps, n, digest), views, users, percentTime);
    if n == 0 {
      NothingToTell(key, digest);
      ChainStarts(views, users, percentTime);
    } else if steps[n - 1].event.Tick? {
      var s, b := After(NewStats(start), steps, n - 1, digest), BookAfter(steps, n - 1);
      var reports := Sent(NewStats(start), steps, n, digest);
      var m := |reports| - 1;
      assert reports[..m] == Sent(NewStats(start), steps, n - 1, digest);
      ChainPrefix(reports, views, users, percentTime);
      SummaryTellsErrors(start, steps, n - 1, digest, views[..m + 1], users[..m], percentTime, key);
      StatsTellErrors(start, steps, n - 1, key, digest);
      AbsorbedTells(views[m], reports[m], users[m], percentTime, views[m + 1], b.delivered, b.pending, key, digest);
    } else {
      SummaryTellsErrors(start, steps, n - 1, digest, views, users, percentTime, key);
    }
  }
}
