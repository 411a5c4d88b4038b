/** The worker's side of the protocol with the master. */
module Worker {
  import opened GoInts
  import opened Options

  datatype State = Ready | Spawning | Running | Stopped | Quitting

  /** A decoded field of a message; a table lists its pairs in the order they happen to be visited. */
  datatype Value = Int64(i: int) | UInt64(u: nat) | Text(s: string) | Table(pairs: seq<(Value, Value)>) | Other

  datatype Data = Data(timestamp: Option<Value>, userClasses: Option<Value>)

  /** Only generic messages carry data; messages of any other Go type are ignored. */
  datatype Message = Generic(kind: string, data: Data) | Custom(kind: string) | Unknown

  datatype Reply =
    | ClientReady | ClientStopped | SpawningReply
    | SpawningComplete(count: int, classes: map<string, int>) | Quit

  /** The goroutine that spawns the workers of one stop channel. */
  datatype Group = Group(requested: int, spawned: nat, ended: bool)

  /**
   * The fields of the runner, what it has sent, and the groups it has started, by stop channel. The
   * accepted timestamps are a history of the run.
   */
  datatype Worker = Worker(
    state: State, stopChan: Option<nat>, made: nat, closed: set<nat>, groups: map<nat, Group>,
    numClients: int, lastTimestamp: int, userClasses: map<string, int>, acksAwaited: nat,
    statsCleared: nat, sent: seq<Reply>, panicked: bool, accepted: seq<int>)

  function CastToInt64(v: Value): Option<int> {
    match v
    case Int64(i) => Some(i)
    case UInt64(u) => Some(Wrap64(u))
    case _ => None
  }

  /** The worker after start-up, when it has reported itself ready. */
  function NewWorker(): Worker {
    SendReady(Worker(Ready, None, 0, {}, map[], 0, 0, map[], 0, 0, [], false, []))
  }

  function SendReady(w: Worker): Worker {
    w.(acksAwaited := 1, sent := w.sent + [ClientReady])
  }

  /** A second acknowledgement takes the wait group below zero. */
  function OnAck(w: Worker): Worker {
    if w.acksAwaited == 0 then w.(panicked := true) else w.(acksAwaited := w.acksAwaited - 1)
  }

  function IsOpen(w: Worker): bool {
    w.stopChan.Some? && w.stopChan.value !in w.closed
  }

  /** Closing the stop channel panics if there is none or it is closed already. */
  function StopWorkers(w: Worker): Worker {
    if IsOpen(w) then w.(closed := w.closed + {w.stopChan.value}) else w.(panicked := true)
  }

  /** A pair counts if its key is a string and its value a 64-bit integer. */
  predicate CountsPair(p: (Value, Value)) {
    p.0.Text? && CastToInt64(p.1).Some?
  }

  /** The class counts saved from the first n pairs, and their sum in machine integers. */
  function Saved(pairs: seq<(Value, Value)>, n: nat): map<string, int>
    requires n <= |pairs|
  {
    if n == 0 then map[]
    else if CountsPair(pairs[n - 1]) then Saved(pairs, n - 1)[pairs[n - 1].0.s := CastToInt64(pairs[n - 1].1).value]
    else Saved(pairs, n - 1)
  }

  function Amount(pairs: seq<(Value, Value)>, n: nat): int
    requires n <= |pairs|
  {
    if n == 0 then 0
    else if CountsPair(pairs[n - 1]) then Wrap64(Amount(pairs, n - 1) + CastToInt64(pairs[n - 1].1).value)
    else Amount(pairs, n - 1)
  }

  function StartSpawning(w: Worker, count: int): Worker {
    w.(stopChan := Some(w.made), made := w.made + 1, numClients := 0,
       groups := w.groups[w.made := Group(count, 0, false)])
  }

  /** The timestamp of a spawn message, if it has one that can be read. */
  function TimestampOf(d: Data): Option<int> {
    if d.timestamp.Some? then CastToInt64(d.timestamp.value) else None
  }

  predicate IsStale(w: Worker, d: Data) {
    TimestampOf(d).Some? && TimestampOf(d).value <= w.lastTimestamp
  }

  function NoteTimestamp(w: Worker, d: Data): Worker {
    var t := TimestampOf(d);
    if t.Some? then w.(lastTimestamp := t.value, accepted := w.accepted + [t.value]) else w
  }

  /** A spawn message that is not stale starts a group; without a table of classes it panics. */
  function OnSpawn(w: Worker, d: Data): Worker {
    if IsStale(w, d) then w
    else
      var noted := NoteTimestamp(w, d);
      var replied := noted.(sent := noted.sent + [SpawningReply]);
      if d.userClasses.Some? && d.userClasses.value.Table? then
        var pairs := d.userClasses.value.pairs;
        StartSpawning(replied.(userClasses := Saved(pairs, |pairs|)), Amount(pairs, |pairs|))
      else replied.(panicked := true)
  }

  /** A custom message of this kind has no data to read. */
  function OnSpawnMessage(w: Worker, msg: Message): Worker {
    if msg.Generic? then OnSpawn(w, msg.data) else w.(panicked := true)
  }

  function PublishQuit(w: Worker): Worker {
    if w.state != Quitting then w.(sent := w.sent + [Quit]) else w
  }

  function Respawn(w: Worker, msg: Message): Worker {
    var stopped := StopWorkers(w.(state := Spawning));
    if stopped.panicked then stopped else OnSpawnMessage(stopped, msg)
  }

  function OnStop(w: Worker): Worker {
    var stopped := StopWorkers(w);
    if stopped.panicked then stopped
    else
      var told := stopped.(state := Stopped, sent := stopped.sent + [ClientStopped]);
      SendReady(told).(state := Ready)
  }

  function OnQuit(w: Worker): Worker {
    var stopped := StopWorkers(w);
    if stopped.panicked then stopped else PublishQuit(stopped).(state := Ready)
  }

  function Spawn(w: Worker, msg: Message): Worker {
    OnSpawnMessage(w.(state := Spawning, statsCleared := w.statsCleared + 1), msg)
  }

  function OnMessage(w: Worker, msg: Message): Worker {
    if msg.Unknown? then w
    else
      match w.state
      case Ready =>
        if msg.kind == "ack" then OnAck(w)
        else if msg.kind == "spawn" then Spawn(w, msg)
        else if msg.kind == "quit" then PublishQuit(w)
        else w
      case Spawning => OnMessageActive(w, msg)
      case Running => OnMessageActive(w, msg)
      case Stopped =>
        if msg.kind == "spawn" then Spawn(w, msg)
        else if msg.kind == "quit" then PublishQuit(w).(state := Ready)
        else w
      case Quitting => w
  }

  function OnMessageActive(w: Worker, msg: Message): Worker
    requires !msg.Unknown?
  {
    if msg.kind == "spawn" then Respawn(w, msg)
    else if msg.kind == "stop" then OnStop(w)
    else if msg.kind == "quit" then OnQuit(w)
    else w
  }

  /** One round of the spawning loop: it ends if its stop channel is closed, else one more worker runs. */
  function SpawnOne(w: Worker, g: nat): Worker
    requires g in w.groups
  {
    if g in w.closed then w.(groups := w.groups[g := w.groups[g].(ended := true)])
    else w.(groups := w.groups[g := w.groups[g].(spawned := w.groups[g].spawned + 1)],
            numClients := Wrap32(w.numClients + 1))
  }

  /** The loop is done: completion is reported without another look at the stop channel. */
  function SpawnComplete(w: Worker, g: nat): Worker
    requires g in w.groups
  {
    w.(groups := w.groups[g := w.groups[g].(ended := true)],
       sent := w.sent + [SpawningComplete(w.numClients, w.userClasses)], state := Running)
  }

  class SlaveRunner {
    var state: State
    var stopChan: Option<nat>
    var made: nat
    var closed: set<nat>
    var groups: map<nat, Group>
    var numClients: int
    var lastReceivedSpawnTimestamp: int
    var userClassesCountFromMaster: map<string, int>
    var acksAwaited: nat
    var statsCleared: nat
    var sent: seq<Reply>
    var panicked: bool
    ghost var accepted: seq<int>

    ghost function View(): Worker
      reads this
    {
      Worker(state, stopChan, made, closed, groups, numClients, lastReceivedSpawnTimestamp,
             userClassesCountFromMaster, acksAwaited, statsCleared, sent, panicked, accepted)
    }

    constructor ()
      ensures View() == NewWorker()
    {
      state, stopChan, made, closed, groups := Ready, None, 0, {}, map[];
      numClients, lastReceivedSpawnTimestamp, userClassesCountFromMaster := 0, 0, map[];
      acksAwaited, statsCleared, sent, panicked, accepted := 0, 0, [], false, [];
      new;
      SendClientReadyAndWaitForAck();
    }

    method SendClientReadyAndWaitForAck()
      modifies `acksAwaited, `sent
      ensures View() == SendReady(old(View()))
    {
      acksAwaited := 1;
      sent := sent + [ClientReady];
    }

    method Stop()
      modifies `closed, `panicked
      ensures View() == StopWorkers(old(View()))
    {
      if stopChan.None? || stopChan.value in closed {
        panicked := true;
        return;
      }
      closed := closed + {stopChan.value};
    }

    method SumUsersAmount(pairs: seq<(Value, Value)>) returns (amount: int)
      modifies `userClassesCountFromMaster
      ensures userClassesCountFromMaster == Saved(pairs, |pairs|)
      ensures amount == Amount(pairs, |pairs|)
    {
      userClassesCountFromMaster := map[];
      amount := 0;
      for i := 0 to |pairs|
        invariant userClassesCountFromMaster == Saved(pairs, i) && amount == Amount(pairs, i)
      {
        var n := CastToInt64(pairs[i].1);
        if !pairs[i].0.Text? || n.None? {
          continue;
        }
        userClassesCountFromMaster := userClassesCountFromMaster[pairs[i].0.s := n.value];
        amount := Wrap64(amount + n.value);
      }
    }

    method StartSpawningGroup(count: int)
      modifies `stopChan, `made, `numClients, `groups
      ensures View() == StartSpawning(old(View()), count)
    {
      stopChan := Some(made);
      numClients := 0;
      groups := groups[made := Group(count, 0, false)];
      made := made + 1;
    }

    method OnSpawnData(d: Data)
      modifies this
      ensures View() == OnSpawn(old(View()), d)
    {
      if d.timestamp.Some? {
        var t := CastToInt64(d.timestamp.value);
        if t.Some? {
          if t.value <= lastReceivedSpawnTimestamp {
            return;
          }
          lastReceivedSpawnTimestamp := t.value;
          accepted := accepted + [t.value];
        }
      }
      sent := sent + [SpawningReply];
      if d.userClasses.None? || !d.userClasses.value.Table? {
        panicked := true;
        return;
      }
      var workers := SumUsersAmount(d.userClasses.value.pairs);
      StartSpawningGroup(workers);
    }

    method OnSpawnMsg(msg: Message)
      modifies this
      ensures View() == OnSpawnMessage(old(View()), msg)
    {
      if !msg.Generic? {
        panicked := true;
        return;
      }
      OnSpawnData(msg.data);
    }

    method OnAckMessage()
      modifies `acksAwaited, `panicked
      ensures View() == OnAck(old(View()))
    {
      if acksAwaited == 0 {
        panicked := true;
        return;
      }
      acksAwaited := acksAwaited - 1;
    }

    method OnQuiting()
      modifies `sent
      ensures View() == PublishQuit(old(View()))
    {
      if state != Quitting {
        sent := sent + [Quit];
      }
    }

    /** The state machine. */
    method HandleMessage(msg: Message)
      requires !panicked
      modifies this
      ensures View() == OnMessage(old(View()), msg)
    {
      hide OnSpawnMessage;
      if msg.Unknown? {
        return;
      }
      var kind := msg.kind;
      match state {
        case Ready =>
          if kind == "ack" {
            OnAckMessage();
          } else if kind == "spawn" {
            state := Spawning;
            statsCleared := statsCleared + 1;
            OnSpawnMsg(msg);
          } else if kind == "quit" {
            OnQuiting();
          }
        case Spawning => HandleActive(msg);
        case Running => HandleActive(msg);
        case Stopped =>
          if kind == "spawn" {
            state := Spawning;
            statsCleared := statsCleared + 1;
            OnSpawnMsg(msg);
          } else if kind == "quit" {
            OnQuiting();
            state := Ready;
          }
        case Quitting =>
      }
    }

    method HandleActive(msg: Message)
      requires !panicked && !msg.Unknown?
      modifies this
      ensures View() == OnMessageActive(old(View()), msg)
    {
      hide OnSpawnMessage;
      if msg.kind == "spawn" {
        state := Spawning;
        Stop();
        if !panicked {
          OnSpawnMsg(msg);
        }
      } else if msg.kind == "stop" {
        Stop();
        if !panicked {
          state := Stopped;
          sent := sent + [ClientStopped];
          SendClientReadyAndWaitForAck();
          state := Ready;
        }
      } else if msg.kind == "quit" {
        Stop();
        if !panicked {
          OnQuiting();
          state := Ready;
        }
      }
    }

    method SpawnRound(g: nat)
      requires g in groups
      modifies `groups, `numClients
      ensures View() == SpawnOne(old(View()), g)
    {
      if g in closed {
        groups := groups[g := groups[g].(ended := true)];
        return;
      }
      numClients := Wrap32(numClients + 1);
      groups := groups[g := groups[g].(spawned := groups[g].spawned + 1)];
    }

    method Complete(g: nat)
      requires g in groups
      modifies `groups, `sent, `state
      ensures View() == SpawnComplete(old(View()), g)
    {
      groups := groups[g := groups[g].(ended := true)];
      sent := sent + [SpawningComplete(numClients, userClassesCountFromMaster)];
      state := Running;
    }
  }
}
