/** Handling a stop message in two steps, so that a spawning goroutine can report in between. */
module StopRuns {
  import opened Options
  import opened Worker
  import opened WorkerRuns

  /** The runner, and whether it has sent client_stopped but not yet client_ready. */
  datatype Midway = Midway(worker: Worker, stopping: bool)

  /** Settling sends client_ready; the message loop takes no other message before it. */
  datatype Fine = Whole(action: Action) | Settle

  predicate IsStop(w: Worker, msg: Message) {
    !msg.Unknown? && msg.kind == "stop" && IsActive(w.state)
  }

  function BeginStop(w: Worker): Worker {
    var stopped := StopWorkers(w);
    if stopped.panicked then stopped else stopped.(state := Stopped, sent := stopped.sent + [ClientStopped])
  }

  function EndStop(w: Worker): Worker {
    SendReady(w).(state := Ready)
  }

  function FineAct(m: Midway, a: Fine): Midway {
    if m.worker.panicked then m
    else
      match a
      case Settle => if m.stopping then Midway(EndStop(m.worker), false) else m
      case Whole(Receive(msg)) =>
        if m.stopping then m
        else if IsStop(m.worker, msg) then
          var begun := BeginStop(m.worker);
          Midway(begun, !begun.panicked)
        else Midway(OnMessage(m.worker, msg), false)
      case Whole(action) => m.(worker := Act(m.worker, action))
  }

  function FineRun(actions: seq<Fine>, n: nat): Midway
    requires n <= |actions|
  {
    if n == 0 then Midway(NewWorker(), false) else FineAct(FineRun(actions, n - 1), actions[n - 1])
  }

  /** With nothing in between, the two steps are the one step of the coarser model. */
  lemma HalvesMakeWhole(w: Worker, msg: Message)
    requires IsStop(w, msg) && !w.panicked
    ensures var m := FineAct(Midway(w, false), Whole(Receive(msg)));
            && FineAct(m, Settle).worker == OnMessage(w, msg)
            && !FineAct(m, Settle).stopping
  {
  }

  /** Everything sent but the completions, which other goroutines send. */
  function Spoken(sent: seq<Reply>, n: nat): seq<Reply>
    requires n <= |sent|
  {
    if n == 0 then []
    else Spoken(sent, n - 1) + (if sent[n - 1].SpawningComplete? then [] else [sent[n - 1]])
  }

  lemma {:induction false} SpokenPrefix(a: seq<Reply>, b: seq<Reply>, n: nat)
    requires n <= |a| <= |b| && a == b[..|a|]
    ensures Spoken(a, n) == Spoken(b, n)
  {
    if n > 0 {
      SpokenPrefix(a, b, n - 1);
    }
  }

  lemma SpokenSnoc(sent: seq<Reply>, r: Reply)
    ensures Spoken(sent + [r], |sent| + 1) == Spoken(sent, |sent|) + (if r.SpawningComplete? then [] else [r])
  {
    SpokenPrefix(sent, sent + [r], |sent|);
  }

  /** Between the two sends of a stop, client_stopped is the last thing spoken. */
  ghost predicate SpokenPaired(m: Midway) {
    var spoken := Spoken(m.worker.sent, |m.worker.sent|);
    if m.stopping then exists before :: spoken == before + [ClientStopped] && RepliesPaired(before)
    else RepliesPaired(spoken)
  }

  lemma SpawnSends(w: Worker, msg: Message)
    ensures OnSpawnMessage(w, msg).sent == w.sent || OnSpawnMessage(w, msg).sent == w.sent + [SpawningReply]
  {
    hide Saved, Amount, CastToInt64;
  }

  lemma MessageSends(w: Worker, msg: Message)
    requires !IsStop(w, msg)
    ensures var after := OnMessage(w, msg).sent;
            after == w.sent || after == w.sent + [SpawningReply] || after == w.sent + [Quit]
  {
    hide OnSpawnMessage;
    SpawnSends(w.(state := Spawning, statsCleared := w.statsCleared + 1), msg);
    SpawnSends(StopWorkers(w.(state := Spawning)), msg);
  }

  /** What a step sends: at most one reply. */
  lemma StepSends(m: Midway, a: Fine) returns (said: Option<Reply>)
    ensures said.None? ==> FineAct(m, a).worker.sent == m.worker.sent
    ensures said.Some? ==> FineAct(m, a).worker.sent == m.worker.sent + [said.value]
    ensures var r := FineAct(m, a);
            && (said == Some(ClientStopped) <==> !m.stopping && r.stopping)
            && (said == Some(ClientReady) <==> m.stopping && !r.stopping)
            && (m.stopping && r.stopping && said.Some? ==> said.value.SpawningComplete?)
  {
    hide Saved, Amount, OnMessage, CastToInt64;
    var sent, after := m.worker.sent, FineAct(m, a).worker.sent;
    if a.Whole? && a.action.Receive? && !m.stopping && !IsStop(m.worker, a.action.msg) {
      MessageSends(m.worker, a.action.msg);
    }
    said := if |after| > |sent| then Some(after[|sent|]) else None;
  }

  lemma FineActKeepsSpoken(m: Midway, a: Fine)
    requires SpokenPaired(m)
    ensures SpokenPaired(FineAct(m, a))
  {
    hide FineAct, RepliesPaired, Spoken;
    var said := StepSends(m, a);
    var r, spoken := FineAct(m, a), Spoken(m.worker.sent, |m.worker.sent|);
    if said.None? {
      assert r.worker.sent == m.worker.sent;
    } else {
      SpokenSnoc(m.worker.sent, said.value);
      if said.value.SpawningComplete? {
        assert spoken + [] == spoken;
      } else if m.stopping {
        var before :| spoken == before + [ClientStopped] && RepliesPaired(before);
        StoppedThenReady(before);
      } else if !r.stopping {
        OneReply(spoken, said.value);
      }
    }
  }

  /**
   * Whatever other goroutines report in between: of all that the message loop sends, client_ready comes
   * once more often than client_stopped, and follows each of them at once.
   */
  lemma {:induction false} SpokenArePaired(actions: seq<Fine>, n: nat)
    requires n <= |actions|
    ensures SpokenPaired(FineRun(actions, n))
  {
    hide FineAct, SpokenPaired, NewWorker;
    if n == 0 {
      FirstSpoken();
    } else {
      SpokenArePaired(actions, n - 1);
      FineActKeepsSpoken(FineRun(actions, n - 1), actions[n - 1]);
    }
  }

  lemma FirstSpoken()
    ensures SpokenPaired(Midway(NewWorker(), false))
  {
    hide RepliesPaired;
    assert NewWorker().sent == [ClientReady];
    assert Spoken([ClientReady], 0) == [];
    assert Spoken([ClientReady], 1) == [ClientReady];
    FirstReply();
  }

  lemma FirstReply()
    ensures RepliesPaired([ClientReady])
  {
  }

  // ---------------------------------------------------------------------------------------------
  // With the completions
  // ---------------------------------------------------------------------------------------------

  /** Every client_stopped is followed at once by client_ready, unless that is still to be sent. */
  ghost predicate Adjacent(m: Midway) {
    var sent := m.worker.sent;
    forall i :: 0 <= i < |sent| && sent[i] == ClientStopped ==> Answered(sent, m.stopping, i)
  }

  /** The reply after the i-th is client_ready, or still to come. */
  predicate Answered(sent: seq<Reply>, stopping: bool, i: nat)
    requires i < |sent|
  {
    (i + 1 < |sent| && sent[i + 1] == ClientReady) || (i + 1 == |sent| && stopping)
  }

  /** A completion that is reported between the two sends of a stop. */
  predicate Intrudes(m: Midway, a: Fine) {
    m.stopping && !m.worker.panicked && a.Whole? && a.action.Finish? && CanFinish(m.worker, a.action.group)
  }

  ghost predicate NothingIntrudes(actions: seq<Fine>, n: nat)
    requires n <= |actions|
  {
    forall i :: 0 <= i < n ==> !Intrudes(FineRun(actions, i), actions[i])
  }

  /** While stopping, client_stopped is the last reply, unless a completion has intruded. */
  ghost predicate EndsInStop(m: Midway) {
    m.stopping && !m.worker.panicked ==> m.worker.sent != [] && m.worker.sent[|m.worker.sent| - 1] == ClientStopped
  }

  lemma IntrudingSends(m: Midway, a: Fine)
    ensures Intrudes(m, a) ==>
              |FineAct(m, a).worker.sent| == |m.worker.sent| + 1
              && FineAct(m, a).worker.sent[|m.worker.sent|].SpawningComplete? && FineAct(m, a).stopping
    ensures !Intrudes(m, a) && m.stopping && FineAct(m, a).stopping ==> FineAct(m, a).worker.sent == m.worker.sent
    ensures m.worker.panicked ==> FineAct(m, a) == m
    ensures m.stopping && !m.worker.panicked ==> !FineAct(m, a).worker.panicked
    ensures FineAct(m, a).stopping && !m.stopping ==> !FineAct(m, a).worker.panicked
  {
    hide Saved, Amount;
  }

  lemma StepAdjacentIff(m: Midway, a: Fine)
    requires EndsInStop(m) && Adjacent(m) && (m.stopping ==> !m.worker.panicked)
    ensures Adjacent(FineAct(m, a)) <==> !Intrudes(m, a)
    ensures !Intrudes(m, a) ==> EndsInStop(FineAct(m, a))
    ensures FineAct(m, a).stopping ==> !FineAct(m, a).worker.panicked
  {
    hide FineAct, Intrudes;
    var said := StepSends(m, a);
    IntrudingSends(m, a);
    var sent, after := m.worker.sent, FineAct(m, a).worker.sent;
    if Intrudes(m, a) {
      assert after[|sent| - 1] == ClientStopped && !Answered(after, FineAct(m, a).stopping, |sent| - 1);
    } else {
      forall i | 0 <= i < |after| && after[i] == ClientStopped
        ensures Answered(after, FineAct(m, a).stopping, i)
      {
        if i < |sent| {
          assert sent[i] == after[i] && Answered(sent, m.stopping, i);
        }
      }
    }
  }

  lemma BrokenStays(m: Midway, a: Fine)
    requires !Adjacent(m) && (m.stopping ==> !m.worker.panicked)
    ensures !Adjacent(FineAct(m, a))
    ensures FineAct(m, a).stopping ==> !FineAct(m, a).worker.panicked
  {
    hide FineAct, Intrudes;
    var said := StepSends(m, a);
    IntrudingSends(m, a);
    var sent, after := m.worker.sent, FineAct(m, a).worker.sent;
    var i :| 0 <= i < |sent| && sent[i] == ClientStopped && !Answered(sent, m.stopping, i);
    assert after[i] == sent[i] && !Answered(after, FineAct(m, a).stopping, i);
  }

  /** Every client_stopped is followed at once by client_ready, if and only if no completion intrudes. */
  lemma {:induction false} AdjacentIff(actions: seq<Fine>, n: nat)
    requires n <= |actions|
    ensures var m := FineRun(actions, n);
            && (Adjacent(m) <==> NothingIntrudes(actions, n))
            && (m.stopping ==> !m.worker.panicked)
            && (Adjacent(m) ==> EndsInStop(m))
  {
    hide FineAct, Adjacent, Intrudes, EndsInStop, NewWorker;
    if n == 0 {
      FirstAdjacent();
    } else {
      AdjacentIff(actions, n - 1);
      var m, a := FineRun(actions, n - 1), actions[n - 1];
      assert NothingIntrudes(actions, n) <==> NothingIntrudes(actions, n - 1) && !Intrudes(m, a);
      if Adjacent(m) {
        StepAdjacentIff(m, a);
      } else {
        BrokenStays(m, a);
      }
    }
  }

  lemma FirstAdjacent()
    ensures Adjacent(Midway(NewWorker(), false)) && EndsInStop(Midway(NewWorker(), false))
  {
  }

  /** From start-up: a spawn of no workers is stopped, and completes between the two sends. */
  lemma CompletionIntrudes()
    ensures var actions := [Whole(Receive(SPAWN)), Whole(Receive(STOP)), Whole(Finish(0)), Settle];
            FineRun(actions, 4).worker.sent ==
            [ClientReady, SpawningReply, ClientStopped, SpawningComplete(0, map[]), ClientReady]
  {
    var actions := [Whole(Receive(SPAWN)), Whole(Receive(STOP)), Whole(Finish(0)), Settle];
    var w := OnMessage(NewWorker(), SPAWN);
    assert w.groups == map[0 := Group(0, 0, false)] && w.closed == {} && w.state == Spawning && !w.panicked;
    assert FineRun(actions, 1) == Midway(w, false);
    assert FineRun(actions, 2) == Midway(BeginStop(w), true);
    assert FineRun(actions, 3) == Midway(SpawnComplete(BeginStop(w), 0), true);
  }
}
