/** What a worker's fields and replies say about its past, in every run. */
module WorkerHistory {
  import opened GoInts
  import opened Options
  import opened Worker
  import opened WorkerRuns

  predicate IsKind(a: Action, kind: string) {
    a.Receive? && !a.msg.Unknown? && a.msg.kind == kind
  }

  /** In no run does a step end in a state other than these. */
  predicate Rests(w: Worker) {
    w.state == Ready || w.state == Spawning || w.state == Running
  }

  lemma {:induction false} AlwaysRests(actions: seq<Action>, n: nat)
    requires n <= |actions|
    ensures Rests(Run(actions, n))
  {
    hide Act;
    if n > 0 {
      AlwaysRests(actions, n - 1);
      ActKeepsRest(Run(actions, n - 1), actions[n - 1]);
    }
  }

  lemma ActKeepsRest(w: Worker, a: Action)
    requires Rests(w)
    ensures Rests(Act(w, a))
  {
    hide OnSpawnMessage, Wrap32;
    OnlySpawns(w, a);
  }

  /** Starting a group leaves these fields alone. */
  lemma OnlySpawns(w: Worker, a: Action)
    ensures a.Receive? ==> forall v: Worker ::
              var r := OnSpawnMessage(v, a.msg);
              r.state == v.state && r.statsCleared == v.statsCleared && r.acksAwaited == v.acksAwaited
  {
    hide Saved, Amount, CastToInt64;
  }

  // ---------------------------------------------------------------------------------------------
  // Clearing the statistics
  // ---------------------------------------------------------------------------------------------

  /** A spawn message received while idle. */
  predicate Clears(w: Worker, a: Action) {
    !w.panicked && w.state == Ready && IsKind(a, "spawn")
  }

  function Clearings(actions: seq<Action>, n: nat): nat
    requires n <= |actions|
  {
    if n == 0 then 0
    else Clearings(actions, n - 1) + (if Clears(Run(actions, n - 1), actions[n - 1]) then 1 else 0)
  }

  lemma ActClears(w: Worker, a: Action)
    requires Rests(w)
    ensures Act(w, a).statsCleared == w.statsCleared + (if Clears(w, a) then 1 else 0)
  {
    hide OnSpawnMessage, Wrap32;
    OnlySpawns(w, a);
  }

  /**
   * The statistics are cleared once for every spawn message received while idle, stale or malformed ones
   * included, and by nothing else: not by a spawn while workers are running.
   */
  lemma {:induction false} ClearedPerIdleSpawn(actions: seq<Action>, n: nat)
    requires n <= |actions|
    ensures Run(actions, n).statsCleared == Clearings(actions, n)
  {
    hide Act, Clears;
    if n > 0 {
      ClearedPerIdleSpawn(actions, n - 1);
      AlwaysRests(actions, n - 1);
      ActClears(Run(actions, n - 1), actions[n - 1]);
    }
  }

  /** The steps in which the worker goes from idle to active. */
  function Wakings(actions: seq<Action>, n: nat): nat
    requires n <= |actions|
  {
    if n == 0 then 0
    else
      Wakings(actions, n - 1) +
      (if !IsActive(Run(actions, n - 1).state) && IsActive(Run(actions, n).state) then 1 else 0)
  }

  lemma ClearsIffWakes(w: Worker, a: Action)
    requires LifecycleOk(w) && Benign(w, a)
    ensures Clears(w, a) <==> !IsActive(w.state) && IsActive(Act(w, a).state)
  {
    hide Saved, Amount, Wrap32, CastToInt64;
  }

  /** In an orderly run the statistics are cleared exactly when the worker goes from idle to active. */
  lemma {:induction false} ClearedPerWaking(actions: seq<Action>, n: nat)
    requires n <= |actions| && BenignRun(actions, n)
    ensures Run(actions, n).statsCleared == Wakings(actions, n)
    ensures LifecycleOk(Run(actions, n))
  {
    hide Act, Clears, Benign, LifecycleOk, IsActive, NewWorker;
    if n == 0 {
      NothingClearedYet();
    } else {
      ClearedPerWaking(actions, n - 1);
      var w, a := Run(actions, n - 1), actions[n - 1];
      assert Benign(w, a);
      LifecycleStepIff(w, a);
      AlwaysRests(actions, n - 1);
      ActClears(w, a);
      ClearsIffWakes(w, a);
    }
  }

  lemma NothingClearedYet()
    ensures NewWorker().statsCleared == 0 && LifecycleOk(NewWorker())
  {
  }

  // ---------------------------------------------------------------------------------------------
  // Spawning
  // ---------------------------------------------------------------------------------------------

  /** No accepted timestamp is as late as this one, and it is above zero; or there is none to read. */
  predicate IsNew(accepted: seq<int>, t: Option<int>) {
    t.None? || (t.value > 0 && forall i :: 0 <= i < |accepted| ==> t.value > accepted[i])
  }

  lemma NewIffNotStale(w: Worker, d: Data)
    requires TimestampsOk(w)
    ensures IsNew(w.accepted, TimestampOf(d)) <==> !IsStale(w, d)
  {
    hide CastToInt64, TimestampOf;
    if w.accepted != [] && TimestampOf(d).Some? {
      assert w.lastTimestamp == w.accepted[|w.accepted| - 1];
    }
  }

  /** Which data start a group of workers. */
  predicate CanStart(accepted: seq<int>, msg: Message) {
    && msg.Generic? && IsNew(accepted, TimestampOf(msg.data))
    && msg.data.userClasses.Some? && msg.data.userClasses.value.Table?
  }

  lemma OnSpawnStartsIff(w: Worker, msg: Message)
    requires TimestampsOk(w) && !w.panicked
    ensures var r := OnSpawnMessage(w, msg);
            && (r.made == w.made + 1 <==> CanStart(w.accepted, msg))
            && (r.made == w.made <==> r.groups == w.groups && r.stopChan == w.stopChan && r.made == w.made)
            && (CanStart(w.accepted, msg) ==>
                  var pairs := msg.data.userClasses.value.pairs;
                  && r.stopChan == Some(w.made) && r.numClients == 0 && !r.panicked
                  && r.groups == w.groups[w.made := Group(Amount(pairs, |pairs|), 0, false)]
                  && r.userClasses == Saved(pairs, |pairs|)
                  && r.sent == w.sent + [SpawningReply])
            && (!CanStart(w.accepted, msg) ==>
                  r.made == w.made &&
                  (r.panicked <==> !msg.Generic? || IsNew(w.accepted, TimestampOf(msg.data))))
            && r.closed == w.closed && r.state == w.state
  {
    hide Saved, Amount, CastToInt64, TimestampsOk, IsNew, TimestampOf;
    if msg.Generic? {
      NewIffNotStale(w, msg.data);
    }
  }

  /**
   * In every run, a spawn message that meets no closed channel starts a group of workers, and answers,
   * if and only if its timestamp is above zero and later than every accepted one, or unreadable, and it
   * has a table of classes. Then the new group is asked for what the table adds up to, under a new channel.
   */
  lemma SpawnStartsIff(actions: seq<Action>, n: nat, msg: Message)
    requires n <= |actions| && IsKind(Receive(msg), "spawn")
    requires var w := Run(actions, n); !w.panicked && (IsActive(w.state) ==> IsOpen(w))
    ensures var w, r := Run(actions, n), OnMessage(Run(actions, n), msg);
            && r.state == Spawning
            && (r.made == w.made + 1 <==> CanStart(w.accepted, msg))
            && (CanStart(w.accepted, msg) ==>
                  var pairs := msg.data.userClasses.value.pairs;
                  && r.stopChan == Some(w.made) && r.numClients == 0 && !r.panicked
                  && r.groups == w.groups[w.made := Group(Amount(pairs, |pairs|), 0, false)]
                  && r.userClasses == Saved(pairs, |pairs|)
                  && r.sent == w.sent + [SpawningReply])
            && (!CanStart(w.accepted, msg) ==>
                  r.made == w.made && r.groups == w.groups &&
                  (r.panicked <==> !msg.Generic? || IsNew(w.accepted, TimestampOf(msg.data))))
            && r.closed == w.closed + (if IsActive(w.state) then {w.stopChan.value} else {})
  {
    hide Run, OnSpawnMessage, TimestampsOk, CanStart, IsNew, TimestampOf;
    var w := Run(actions, n);
    AlwaysRests(actions, n);
    ReplayStartsNothing(actions, n, msg);
    var base, stopped := w.(state := Spawning, statsCleared := w.statsCleared + 1), StopWorkers(w.(state := Spawning));
    TimestampsOnly(w, base);
    TimestampsOnly(w, stopped);
    if w.state == Ready {
      OnSpawnStartsIff(base, msg);
    } else {
      OnSpawnStartsIff(stopped, msg);
    }
  }

  /** With distinct keys, the saved counts are exactly the readable pairs of the table. */
  lemma {:induction false} SavedIff(pairs: seq<(Value, Value)>, n: nat, s: string, v: int)
    requires n <= |pairs| && DistinctKeys(pairs)
    ensures s in Saved(pairs, n) && Saved(pairs, n)[s] == v <==>
            exists i :: 0 <= i < n && pairs[i].0 == Text(s) && CastToInt64(pairs[i].1) == Some(v)
  {
    hide CastToInt64;
    if n > 0 {
      SavedIff(pairs, n - 1, s, v);
      var p := pairs[n - 1];
      if p.0 == Text(s) {
        assert forall i :: 0 <= i < n - 1 ==> pairs[i].0 != p.0;
      }
    }
  }

  /** A 64-bit integer is read as it is; an unsigned one wraps around, and is kept if it is small enough. */
  lemma CastIff(v: Value, i: int)
    ensures CastToInt64(v) == Some(i) <==>
            v == Int64(i) ||
            (v.UInt64? && IsInt64(i) && (v.u - i) % 0x1_0000_0000_0000_0000 == 0)
    ensures v.UInt64? && v.u <= MAX_INT64 ==> CastToInt64(v) == Some(v.u)
  {
    if v.UInt64? {
      Wrap64Iff(v.u, i);
    }
  }

  // ---------------------------------------------------------------------------------------------
  // Replies
  // ---------------------------------------------------------------------------------------------

  /** What a step says: the pair of replies to a stop, the one to a quit, or at most one of the others. */
  lemma ActSays(w: Worker, a: Action) returns (said: seq<Reply>)
    requires Rests(w)
    ensures Act(w, a).sent == w.sent + said
    ensures !Act(w, a).panicked && IsKind(a, "quit") ==> said == [Quit]
    ensures !Act(w, a).panicked && IsKind(a, "stop") && w.state != Ready ==> said == [ClientStopped, ClientReady]
    ensures Act(w, a).panicked || !(IsKind(a, "quit") || (IsKind(a, "stop") && w.state != Ready)) ==>
              said == [] || said == [SpawningReply] || (a.Finish? && |said| == 1 && said[0].SpawningComplete?)
  {
    hide OnSpawnMessage, Wrap32;
    said := [];
    if !w.panicked {
      match a {
        case Receive(msg) =>
          if IsKind(a, "spawn") {
            said := SpawnSays(if w.state == Ready then w.(state := Spawning, statsCleared := w.statsCleared + 1)
                              else StopWorkers(w.(state := Spawning)), msg);
            if Act(w, a).sent == w.sent {
              said := [];
            }
          } else if Act(w, a).sent != w.sent {
            said := if msg.kind == "quit" then [Quit] else [ClientStopped, ClientReady];
          }
        case Round(_) =>
        case Finish(_) =>
          if Act(w, a).sent != w.sent {
            said := [SpawningComplete(w.numClients, w.userClasses)];
          }
      }
    }
  }

  lemma SpawnSays(w: Worker, msg: Message) returns (said: seq<Reply>)
    ensures said == [] || said == [SpawningReply]
    ensures OnSpawnMessage(w, msg).sent == w.sent + said
  {
    hide Saved, Amount, CastToInt64;
    said := if OnSpawnMessage(w, msg).sent == w.sent then [] else [SpawningReply];
  }

  /** How often each of these replies is sent in a step. */
  lemma ActCounts(w: Worker, a: Action)
    requires Rests(w)
    ensures CountOf(Act(w, a).sent, Quit) ==
            CountOf(w.sent, Quit) + (if IsKind(a, "quit") && !Act(w, a).panicked then 1 else 0)
    ensures CountOf(Act(w, a).sent, ClientReady) ==
            CountOf(w.sent, ClientReady) +
            (if IsKind(a, "stop") && w.state != Ready && !Act(w, a).panicked then 1 else 0)
  {
    hide Act;
    var said := ActSays(w, a);
    assert CountOf(w.sent + said, Quit) == CountOf(w.sent, Quit) + CountOf(said, Quit);
    assert CountOf(w.sent + said, ClientReady) == CountOf(w.sent, ClientReady) + CountOf(said, ClientReady);
  }

  // ---------------------------------------------------------------------------------------------
  // Acknowledgements
  // ---------------------------------------------------------------------------------------------

  /** Whether the last client_ready is still to be acknowledged. */
  function Awaiting(actions: seq<Action>, n: nat): bool
    requires n <= |actions|
  {
    if n == 0 then true
    else if CountOf(Run(actions, n).sent, ClientReady) > CountOf(Run(actions, n - 1).sent, ClientReady) then true
    else if Run(actions, n - 1).state == Ready && IsKind(actions[n - 1], "ack") then false
    else Awaiting(actions, n - 1)
  }

  /** What a step does to the acknowledgements awaited. */
  lemma ActAwaits(w: Worker, a: Action)
    requires Rests(w) && !w.panicked && !Act(w, a).panicked
    ensures Act(w, a).acksAwaited == (if IsKind(a, "stop") && w.state != Ready then 1
                                      else if w.state == Ready && IsKind(a, "ack") then w.acksAwaited - 1
                                      else w.acksAwaited)
  {
    hide OnSpawnMessage, Wrap32;
    OnlySpawns(w, a);
  }

  /**
   * In every run at most one acknowledgement is awaited, and it is that of the last client_ready. So an
   * acknowledgement received while idle panics if and only if that one has come already.
   */
  lemma {:induction false} AckPanicsIff(actions: seq<Action>, n: nat, ack: Message)
    requires n <= |actions| && !Run(actions, n).panicked && IsKind(Receive(ack), "ack")
    ensures var w := Run(actions, n);
            && w.acksAwaited == (if Awaiting(actions, n) then 1 else 0)
            && (w.state == Ready ==> (OnMessage(w, ack).panicked <==> !Awaiting(actions, n)))
            && (w.state != Ready ==> OnMessage(w, ack) == w)
  {
    hide Act, CountOf;
    AlwaysRests(actions, n);
    if n > 0 {
      var w, a := Run(actions, n - 1), actions[n - 1];
      PanicStays(w, a);
      AckPanicsIff(actions, n - 1, ack);
      AlwaysRests(actions, n - 1);
      ActAwaits(w, a);
      ActCounts(w, a);
      if w.state == Ready && IsKind(a, "ack") {
        AckCounts(w, a);
      }
    }
  }

  lemma PanicStays(w: Worker, a: Action)
    ensures w.panicked ==> Act(w, a).panicked
  {
  }

  lemma AckCounts(w: Worker, a: Action)
    requires !w.panicked && w.state == Ready && IsKind(a, "ack") && !Act(w, a).panicked
    ensures w.acksAwaited > 0
  {
  }

  // ---------------------------------------------------------------------------------------------
  // Quitting
  // ---------------------------------------------------------------------------------------------

  /** The quit messages handled without a panic. */
  function Quits(actions: seq<Action>, n: nat): nat
    requires n <= |actions|
  {
    if n == 0 then 0
    else Quits(actions, n - 1) + (if IsKind(actions[n - 1], "quit") && !Run(actions, n).panicked then 1 else 0)
  }

  /** Every quit message is answered once, unless it panics, and nothing else is answered so. */
  lemma {:induction false} QuitsAreAnswered(actions: seq<Action>, n: nat)
    requires n <= |actions|
    ensures CountOf(Run(actions, n).sent, Quit) == Quits(actions, n)
  {
    hide Act, CountOf, IsKind, NewWorker;
    if n == 0 {
      NoQuitYet();
    } else {
      QuitsAreAnswered(actions, n - 1);
      AlwaysRests(actions, n - 1);
      ActCounts(Run(actions, n - 1), actions[n - 1]);
    }
  }

  lemma NoQuitYet()
    ensures CountOf(NewWorker().sent, Quit) == 0
  {
    assert NewWorker().sent == [ClientReady];
  }
}
