/** Whole runs of the worker: messages from the master interleaved with the spawning of workers. */
module WorkerRuns {
  import opened Counters
  import opened GoInts
  import opened Options
  import opened Remainders
  import opened Worker

  datatype Action = Receive(msg: Message) | Round(group: nat) | Finish(group: nat)

  predicate CanRound(w: Worker, g: nat) {
    g in w.groups && !w.groups[g].ended && w.groups[g].spawned < w.groups[g].requested
  }

  predicate CanFinish(w: Worker, g: nat) {
    g in w.groups && !w.groups[g].ended && w.groups[g].spawned >= w.groups[g].requested
  }

  /** A step that cannot happen, or that comes after a panic, changes nothing. */
  function Act(w: Worker, a: Action): Worker {
    if w.panicked then w
    else
      match a
      case Receive(msg) => OnMessage(w, msg)
      case Round(g) => if CanRound(w, g) then SpawnOne(w, g) else w
      case Finish(g) => if CanFinish(w, g) then SpawnComplete(w, g) else w
  }

  function Run(actions: seq<Action>, n: nat): Worker
    requires n <= |actions|
  {
    if n == 0 then NewWorker() else Act(Run(actions, n - 1), actions[n - 1])
  }

  // ---------------------------------------------------------------------------------------------
  // The stop channel
  // ---------------------------------------------------------------------------------------------

  predicate IsActive(s: State) {
    s == Spawning || s == Running
  }

  /** The groups whose workers have not been told to stop. */
  ghost predicate Live(w: Worker, g: nat) {
    g in w.groups && g !in w.closed
  }

  /**
   * The stop channel is open exactly while the worker is spawning or running; then exactly its own
   * group is live, and otherwise none is. The worker never rests stopped or quitting.
   */
  ghost predicate LifecycleOk(w: Worker) {
    && !w.panicked
    && (w.state == Ready || IsActive(w.state))
    && (IsActive(w.state) <==> IsOpen(w))
    && (IsActive(w.state) ==> Live(w, w.stopChan.value))
    && (forall g :: g in w.groups ==> g in w.closed || (w.stopChan == Some(g) && IsActive(w.state)))
    && (forall g :: g in w.groups || g in w.closed ==> g < w.made)
    && (w.stopChan.Some? ==> w.stopChan.value < w.made)
  }

  /** A spawn message the worker can act on: its timestamp is new, and it carries a table of classes. */
  predicate GoodSpawn(w: Worker, msg: Message) {
    && msg.Generic?
    && !IsStale(w, msg.data)
    && msg.data.userClasses.Some? && msg.data.userClasses.value.Table?
  }

  /** What a step must not be: a bad spawn, a second acknowledgement, or a completion while idle. */
  predicate Benign(w: Worker, a: Action) {
    match a
    case Receive(msg) =>
      && (!msg.Unknown? && msg.kind == "spawn" ==> GoodSpawn(w, msg))
      && (!msg.Unknown? && msg.kind == "ack" && w.state == Ready ==> w.acksAwaited > 0)
    case Round(_) => true
    case Finish(g) => CanFinish(w, g) ==> IsActive(w.state)
  }

  /** A step keeps the lifecycle in order if and only if it is benign. */
  lemma LifecycleStepIff(w: Worker, a: Action)
    requires LifecycleOk(w)
    ensures LifecycleOk(Act(w, a)) <==> Benign(w, a)
  {
    hide Saved, Amount, Wrap64, Wrap32, CastToInt64;
    match a {
      case Receive(msg) => MessageStepIff(w, msg);
      case Round(_) =>
      case Finish(_) =>
    }
  }

  lemma MessageStepIff(w: Worker, msg: Message)
    requires LifecycleOk(w)
    ensures LifecycleOk(OnMessage(w, msg)) <==> Benign(w, Receive(msg))
  {
    hide Saved, Amount, Wrap64, CastToInt64;
  }

  ghost predicate BenignRun(actions: seq<Action>, n: nat)
    requires n <= |actions|
  {
    forall i :: 0 <= i < n ==> Benign(Run(actions, i), actions[i])
  }

  ghost predicate AlwaysOk(actions: seq<Action>, n: nat)
    requires n <= |actions|
  {
    forall i :: 0 <= i <= n ==> LifecycleOk(Run(actions, i))
  }

  /** A run is in order after every step if and only if every step of it is benign. */
  lemma {:induction false} LifecycleIff(actions: seq<Action>, n: nat)
    requires n <= |actions|
    ensures AlwaysOk(actions, n) <==> BenignRun(actions, n)
  {
    hide LifecycleOk, Benign, Act;
    if n == 0 {
      NewWorkerOk();
    } else {
      LifecycleIff(actions, n - 1);
      var before, a := Run(actions, n - 1), actions[n - 1];
      assert Run(actions, n) == Act(before, a);
      if LifecycleOk(before) {
        LifecycleStepIff(before, a);
      }
      assert BenignRun(actions, n) <==> BenignRun(actions, n - 1) && Benign(before, a);
      assert AlwaysOk(actions, n) <==> AlwaysOk(actions, n - 1) && LifecycleOk(Run(actions, n));
      assert AlwaysOk(actions, n - 1) ==> LifecycleOk(before);
    }
  }

  lemma NewWorkerOk()
    ensures LifecycleOk(NewWorker())
  {
  }

  /** In order, stopping closes a channel that is open, so it does not panic. */
  lemma StopClosesOpenChannel(w: Worker, msg: Message)
    requires LifecycleOk(w) && IsActive(w.state) && !msg.Unknown? && (msg.kind == "stop" || msg.kind == "quit")
    ensures var r := OnMessage(w, msg);
            && w.stopChan.value !in w.closed && r.closed == w.closed + {w.stopChan.value}
            && r.state == Ready && (forall g: nat :: !Live(r, g))
  {
  }

  /** What a stale spawn does: the running workers are stopped, none are started, and the next stop panics. */
  lemma StaleSpawnBreaks(w: Worker, msg: Message, stop: Message)
    requires LifecycleOk(w) && msg.Generic? && msg.kind == "spawn" && IsStale(w, msg.data)
    requires !stop.Unknown? && stop.kind == "stop"
    ensures var r := OnMessage(w, msg);
            && !r.panicked && r.state == Spawning && (forall g: nat :: !Live(r, g)) && r.made == w.made
            && OnMessage(r, stop).panicked
  {
  }

  /** What a completion after a stop does: the idle worker believes it is running, and the next stop panics. */
  lemma LateCompletionBreaks(w: Worker, g: nat, stop: Message)
    requires LifecycleOk(w) && w.state == Ready && CanFinish(w, g)
    requires !stop.Unknown? && stop.kind == "stop"
    ensures var r := Act(w, Finish(g)); !r.panicked && r.state == Running && OnMessage(r, stop).panicked
  {
  }

  const SPAWN: Message := Generic("spawn", Data(Some(Int64(1)), Some(Table([]))))
  const STOP: Message := Generic("stop", Data(None, None))

  /** The shortest such run: the same spawn twice, then a stop. */
  lemma StaleSpawnRun()
    ensures var actions := [Receive(SPAWN), Receive(SPAWN), Receive(STOP)];
            && LifecycleOk(Run(actions, 1)) && !Run(actions, 2).panicked
            && Run(actions, 2).state == Spawning && (forall g: nat :: !Live(Run(actions, 2), g))
            && Run(actions, 3).panicked
  {
    hide LifecycleOk, OnMessage, NewWorker;
    var actions := [Receive(SPAWN), Receive(SPAWN), Receive(STOP)];
    FirstSpawn();
    assert Run(actions, 0) == NewWorker();
    assert Run(actions, 1) == OnMessage(NewWorker(), SPAWN);
    StaleSpawnBreaks(Run(actions, 1), SPAWN, STOP);
  }

  /** A spawn of no workers, a stop, and only then the completion; the next stop panics. */
  lemma LateCompletionRun()
    ensures var actions := [Receive(SPAWN), Receive(STOP), Finish(0), Receive(STOP)];
            && LifecycleOk(Run(actions, 2)) && Run(actions, 2).state == Ready
            && !Run(actions, 3).panicked && Run(actions, 3).state == Running
            && Run(actions, 4).panicked
  {
    hide LifecycleOk, OnMessage, NewWorker;
    var actions := [Receive(SPAWN), Receive(STOP), Finish(0), Receive(STOP)];
    FirstSpawn();
    assert Run(actions, 0) == NewWorker();
    assert Run(actions, 1) == OnMessage(NewWorker(), SPAWN);
    assert Run(actions, 2) == OnMessage(OnMessage(NewWorker(), SPAWN), STOP);
    LateCompletionBreaks(Run(actions, 2), 0, STOP);
  }

  lemma FirstSpawn()
    ensures var w := OnMessage(NewWorker(), SPAWN);
            && !NewWorker().panicked && LifecycleOk(w) && !w.panicked && IsStale(w, SPAWN.data)
            && var stopped := OnMessage(w, STOP);
               LifecycleOk(stopped) && !stopped.panicked && stopped.state == Ready && CanFinish(stopped, 0)
  {
    assert Wrap64(0) == 0;
    var w := OnMessage(NewWorker(), SPAWN);
    assert w.groups == map[0 := Group(0, 0, false)] && w.closed == {} && w.stopChan == Some(0);
  }

  // ---------------------------------------------------------------------------------------------
  // Timestamps
  // ---------------------------------------------------------------------------------------------

  /** Accepted timestamps strictly increase from above zero, and the last received one is the latest of them. */
  ghost predicate TimestampsOk(w: Worker) {
    && (forall i, j :: 0 <= i < j < |w.accepted| ==> w.accepted[i] < w.accepted[j])
    && (forall i :: 0 <= i < |w.accepted| ==> 0 < w.accepted[i] <= w.lastTimestamp)
    && w.lastTimestamp == (if w.accepted == [] then 0 else w.accepted[|w.accepted| - 1])
  }

  lemma ActKeepsTimestamps(w: Worker, a: Action)
    requires TimestampsOk(w)
    ensures TimestampsOk(Act(w, a))
  {
    hide OnSpawn, OnSpawnMessage, TimestampsOk, Wrap32;
    TimestampsOnly(w, Act(w, a));
    if a.Receive? && a.msg.Generic? && a.msg.kind == "spawn" {
      var base := w.(state := Spawning, statsCleared := w.statsCleared + 1);
      TimestampsOnly(w, base);
      SpawnKeepsTimestamps(base, a.msg.data);
      var stopped := StopWorkers(w.(state := Spawning));
      TimestampsOnly(w, stopped);
      SpawnKeepsTimestamps(stopped, a.msg.data);
    }
    SpawnMessageCases(w, a);
  }

  /** Only these two fields matter. */
  lemma TimestampsOnly(w: Worker, r: Worker)
    requires TimestampsOk(w)
    ensures r.accepted == w.accepted && r.lastTimestamp == w.lastTimestamp ==> TimestampsOk(r)
  {
  }

  lemma SpawnMessageCases(w: Worker, a: Action)
    ensures forall v: Worker, msg: Message :: OnSpawnMessage(v, msg) ==
              if msg.Generic? then OnSpawn(v, msg.data) else v.(panicked := true)
  {
    hide OnSpawn;
  }

  lemma SpawnKeepsTimestamps(w: Worker, d: Data)
    requires TimestampsOk(w)
    ensures TimestampsOk(OnSpawn(w, d))
  {
    hide Saved, Amount, Wrap64, CastToInt64;
  }

  /** In every run, with or without panics, replaying an accepted timestamp starts no workers. */
  lemma {:induction false} ReplayStartsNothing(actions: seq<Action>, n: nat, msg: Message)
    requires n <= |actions|
    ensures TimestampsOk(Run(actions, n))
    ensures var w := Run(actions, n);
            msg.Generic? && TimestampOf(msg.data).Some? && TimestampOf(msg.data).value in w.accepted ==>
              OnMessage(w, msg).groups == w.groups && OnMessage(w, msg).made == w.made
  {
    hide Act, OnMessage, TimestampsOk;
    if n > 0 {
      ReplayStartsNothing(actions, n - 1, msg);
      ActKeepsTimestamps(Run(actions, n - 1), actions[n - 1]);
    } else {
      NoTimestampsYet();
    }
    ReplayIgnored(Run(actions, n), msg);
  }

  lemma NoTimestampsYet()
    ensures TimestampsOk(NewWorker())
  {
  }

  lemma ReplayIgnored(w: Worker, msg: Message)
    requires TimestampsOk(w)
    ensures msg.Generic? && TimestampOf(msg.data).Some? && TimestampOf(msg.data).value in w.accepted ==>
              OnMessage(w, msg).groups == w.groups && OnMessage(w, msg).made == w.made
  {
    hide OnSpawnMessage, TimestampsOk, TimestampOf;
    var base, stopped := w.(state := Spawning, statsCleared := w.statsCleared + 1), StopWorkers(w.(state := Spawning));
    TimestampsOnly(w, base);
    TimestampsOnly(w, stopped);
    SpawnIgnored(base, msg);
    SpawnIgnored(stopped, msg);
  }

  lemma SpawnIgnored(w: Worker, msg: Message)
    requires TimestampsOk(w)
    ensures msg.Generic? && TimestampOf(msg.data).Some? && TimestampOf(msg.data).value in w.accepted ==>
              OnSpawnMessage(w, msg).groups == w.groups && OnSpawnMessage(w, msg).made == w.made
  {
    hide Saved, Amount, Wrap64, CastToInt64;
  }

  // ---------------------------------------------------------------------------------------------
  // Replies
  // ---------------------------------------------------------------------------------------------

  function CountOf(sent: seq<Reply>, r: Reply): nat {
    multiset(sent)[r]
  }

  /** Each client_stopped is followed at once by a client_ready, and only the first of these has none before it. */
  ghost predicate RepliesPaired(sent: seq<Reply>) {
    && sent != [] && sent[0] == ClientReady
    && (forall i :: 0 <= i < |sent| && sent[i] == ClientStopped ==> i + 1 < |sent| && sent[i + 1] == ClientReady)
    && (forall i :: 0 < i < |sent| && sent[i] == ClientReady ==> sent[i - 1] == ClientStopped)
    && CountOf(sent, ClientReady) == CountOf(sent, ClientStopped) + 1
  }

  lemma OneReply(sent: seq<Reply>, r: Reply)
    requires RepliesPaired(sent) && r != ClientReady && r != ClientStopped
    ensures RepliesPaired(sent + [r])
  {
    assert sent[|sent| - 1] != ClientStopped;
  }

  lemma StoppedThenReady(sent: seq<Reply>)
    requires RepliesPaired(sent)
    ensures RepliesPaired(sent + [ClientStopped] + [ClientReady])
  {
    assert sent[|sent| - 1] != ClientStopped;
  }

  lemma ActKeepsReplies(w: Worker, a: Action)
    requires RepliesPaired(w.sent)
    ensures RepliesPaired(Act(w, a).sent)
  {
    hide Saved, Amount, Wrap64, Wrap32, CastToInt64, RepliesPaired;
    OneReply(w.sent, SpawningReply);
    OneReply(w.sent, Quit);
    OneReply(w.sent, SpawningComplete(w.numClients, w.userClasses));
    StoppedThenReady(w.sent);
  }

  /**
   * In every run the worker has reported itself ready once more than stopped, and every report of
   * being stopped is followed by one of being ready with no other reply between them.
   */
  lemma {:induction false} RepliesArePaired(actions: seq<Action>, n: nat)
    requires n <= |actions|
    ensures RepliesPaired(Run(actions, n).sent)
  {
    hide Act;
    if n == 0 {
      assert NewWorker().sent == [ClientReady];
    } else {
      RepliesArePaired(actions, n - 1);
      ActKeepsReplies(Run(actions, n - 1), actions[n - 1]);
    }
  }

  // ---------------------------------------------------------------------------------------------
  // Worker counts
  // ---------------------------------------------------------------------------------------------

  /** The keys of a table are different, as those of a map are. */
  ghost predicate DistinctKeys(pairs: seq<(Value, Value)>) {
    forall i, j :: 0 <= i < j < |pairs| ==> pairs[i].0 != pairs[j].0
  }

  ghost predicate WellFormed(a: Action) {
    a.Receive? && a.msg.Generic? && a.msg.data.userClasses.Some? && a.msg.data.userClasses.value.Table? ==>
      DistinctKeys(a.msg.data.userClasses.value.pairs)
  }

  lemma WrapAdds(a: int, b: int)
    ensures Wrap64(Wrap64(a) + b) == Wrap64(a + b)
  {
    var m := 2 * MAX_INT64 + 2;
    var h := MAX_INT64 + 1;
    var q := (a + h) / m;
    assert Wrap64(a) == a - q * m;
    SameRemainder(a + b + h, m, -q);
  }

  lemma {:induction false} SavedKeys(pairs: seq<(Value, Value)>, n: nat, s: string)
    requires n <= |pairs| && s in Saved(pairs, n)
    ensures exists i :: 0 <= i < n && pairs[i].0 == Text(s)
  {
    if n > 0 && s in Saved(pairs, n - 1) {
      SavedKeys(pairs, n - 1, s);
    } else {
      assert pairs[n - 1].0 == Text(s);
    }
  }

  /** The requested number of workers is the sum of the saved class counts, as a machine integer. */
  lemma {:induction false} AmountIsSumOfSaved(pairs: seq<(Value, Value)>, n: nat)
    requires n <= |pairs| && DistinctKeys(pairs)
    ensures Amount(pairs, n) == Wrap64(SumOf(Saved(pairs, n)))
  {
    hide SumOf, Wrap64, CastToInt64;
    if n == 0 {
      EmptySum();
    } else {
      AmountIsSumOfSaved(pairs, n - 1);
      if CountsPair(pairs[n - 1]) {
        var before, s, v := Saved(pairs, n - 1), pairs[n - 1].0.s, CastToInt64(pairs[n - 1].1).value;
        if s in before {
          SavedKeys(pairs, n - 1, s);
          assert false;
        }
        SumUpdate(before, s, v);
        WrapAdds(SumOf(before), v);
      }
    }
  }

  lemma EmptySum()
    ensures SumOf<string>(map[]) == 0 && Wrap64(0) == 0
  {
  }

  /**
   * The latest group was asked for the sum of the saved class counts; the clients are the workers it
   * has spawned so far.
   */
  ghost predicate CountsOk(w: Worker) {
    w.stopChan.Some? ==>
      var g := w.stopChan.value;
      && g in w.groups
      && w.groups[g].requested == Wrap64(SumOf(w.userClasses))
      && w.numClients == Wrap32(w.groups[g].spawned)
      && (w.groups[g].spawned == 0 || w.groups[g].spawned <= w.groups[g].requested)
  }

  lemma Wrap32Adds(n: nat)
    ensures Wrap32(Wrap32(n) + 1) == Wrap32(n + 1)
    ensures Wrap32(0) == 0
  {
    var x := n + MAX_INT32 + 1;
    assert 2 * MAX_INT32 + 2 == 4294967296;
    assert Wrap32(n) + MAX_INT32 + 1 == x % 4294967296;
    NextRemainder(x);
  }

  lemma NextRemainder(x: int)
    ensures (x % 4294967296 + 1) % 4294967296 == (x + 1) % 4294967296
  {
  }

  lemma ActKeepsCounts(w: Worker, a: Action)
    requires LifecycleOk(w) && CountsOk(w) && Benign(w, a) && WellFormed(a)
    ensures CountsOk(Act(w, a))
  {
    hide SumOf, Wrap64, Wrap32, Saved, Amount, CastToInt64;
    match a {
      case Receive(msg) =>
        if msg.Generic? && msg.kind == "spawn" {
          Wrap32Adds(0);
          var pairs := msg.data.userClasses.value.pairs;
          AmountIsSumOfSaved(pairs, |pairs|);
        }
      case Round(g) =>
        if CanRound(w, g) {
          Wrap32Adds(w.groups[g].spawned);
          assert g !in w.closed ==> Live(w, g);
        }
      case Finish(g) =>
    }
  }

  lemma {:induction false} CountsInRuns(actions: seq<Action>, n: nat)
    requires n <= |actions| && BenignRun(actions, n) && forall i :: 0 <= i < n ==> WellFormed(actions[i])
    ensures CountsOk(Run(actions, n)) && LifecycleOk(Run(actions, n))
  {
    hide LifecycleOk, CountsOk, Benign, Act, WellFormed, NewWorker;
    if n == 0 {
      NewWorkerOk();
      NoCountsYet();
    } else {
      CountsInRuns(actions, n - 1);
      assert Benign(Run(actions, n - 1), actions[n - 1]);
      LifecycleStepIff(Run(actions, n - 1), actions[n - 1]);
      ActKeepsCounts(Run(actions, n - 1), actions[n - 1]);
    }
  }

  lemma NoCountsYet()
    ensures CountsOk(NewWorker())
  {
  }

  /**
   * When the current group completes, the worker reports exactly the class counts it was asked for,
   * and as many clients as they add up to.
   */
  lemma CompletionReportsRequest(actions: seq<Action>, n: nat)
    requires n <= |actions| && BenignRun(actions, n) && forall i :: 0 <= i < n ==> WellFormed(actions[i])
    requires var w := Run(actions, n); w.stopChan.Some? && CanFinish(w, w.stopChan.value)
    ensures var w := Run(actions, n);
            var requested := Wrap64(SumOf(w.userClasses));
            Act(w, Finish(w.stopChan.value)).sent ==
            w.sent + [SpawningComplete(Wrap32(if requested < 0 then 0 else requested), w.userClasses)]
  {
    hide Run, SumOf, Wrap64, Wrap32;
    CountsInRuns(actions, n);
  }
}
