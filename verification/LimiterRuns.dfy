/** Every interleaving of callers, timers, starts and stops of a rate limiter. */
module LimiterRuns {
  import opened GoInts
  import opened Options
  import opened RateLimiter

  /** A timer goroutine: its quit channel, and whether it is asleep or about to look at that channel. */
  datatype Timer = Timer(quit: nat, asleep: bool)

  /**
   * A caller of Acquire: not in a call, holding a token, turned away but not yet waiting, or waiting
   * on a channel. The period is the number of installations so far when it was turned away.
   */
  datatype Caller = Idle | Granted | Denied(period: nat) | Waiting(channel: nat, period: nat)

  /** The history of a run. An installation stores a threshold in the bucket. */
  datatype Ledger = Ledger(
    installed: int, period: nat, attempts: nat, granted: nat,
    totalGrants: nat, allowance: nat, taskRuns: nat, refills: nat, updates: nat)

  datatype Machine = Machine(
    core: Core, refillers: map<nat, Timer>, updaters: map<nat, Timer>, callers: map<nat, Caller>,
    panicked: bool, ledger: Ledger)

  /** One atomic step. A timer reads its quit channel in one step and wakes up in another. */
  datatype Action =
    | Start | Stop
    | Take(caller: nat) | Park(caller: nat) | Release(caller: nat) | RunTask(caller: nat)
    | LookRefiller(generation: nat) | WakeRefiller(generation: nat)
    | LookUpdater(generation: nat) | WakeUpdater(generation: nat)

  function Positive(x: int): nat {
    if x < 0 then 0 else x
  }

  function Install(l: Ledger, threshold: int): Ledger {
    l.(installed := threshold, period := l.period + 1, attempts := 0, granted := 0,
       allowance := l.allowance + Positive(threshold))
  }

  function NewMachine(config: Config): Machine {
    var core := NewCore(config);
    Machine(core, map[], map[], map[], false, Install(Ledger(0, 0, 0, 0, 0, 0, 0, 0, 0), core.current))
  }

  function CallerOf(m: Machine, c: nat): Caller {
    if c in m.callers then m.callers[c] else Idle
  }

  function DoStart(m: Machine): Machine {
    var core := Started(m.core);
    var timer := Timer(m.core.made, false);
    m.(core := core,
       refillers := m.refillers[core.timerId := timer],
       updaters := if core.config.RampUp? then m.updaters[core.timerId := timer] else m.updaters,
       ledger := (if core.config.RampUp? then Install(m.ledger, core.current) else m.ledger).(updates := 0))
  }

  function DoStop(m: Machine): Machine {
    match Stopped(m.core)
    case None => m.(panicked := true)
    case Some(core) => m.(core := core)
  }

  function DoTake(m: Machine, c: nat): Machine {
    var core := Taken(m.core);
    var attempted := m.ledger.(attempts := m.ledger.attempts + 1);
    if core.current < 0 then m.(core := core, callers := m.callers[c := Denied(m.ledger.period)], ledger := attempted)
    else m.(core := core, callers := m.callers[c := Granted],
            ledger := attempted.(granted := attempted.granted + 1, totalGrants := attempted.totalGrants + 1))
  }

  /** A woken refiller of an older generation ends; the current one refills and releases the waiting. */
  function DoWakeRefiller(m: Machine, g: nat): Machine
    requires g in m.refillers
  {
    if m.core.timerId != g then m.(refillers := m.refillers - {g})
    else if m.core.broadcast in m.core.closed then m.(panicked := true)
    else
      m.(core := Refilled(m.core), refillers := m.refillers[g := m.refillers[g].(asleep := false)],
         ledger := Install(m.ledger, m.core.next).(refills := m.ledger.refills + 1))
  }

  function DoWakeUpdater(m: Machine, g: nat): Machine
    requires g in m.updaters
  {
    if m.core.timerId != g then m.(updaters := m.updaters - {g})
    else m.(core := Updated(m.core), updaters := m.updaters[g := m.updaters[g].(asleep := false)],
            ledger := m.ledger.(updates := m.ledger.updates + 1))
  }

  /** A step that cannot happen, or that comes after a panic, changes nothing. */
  function Act(m: Machine, a: Action): Machine {
    if m.panicked then m
    else
      match a
      case Start => DoStart(m)
      case Stop => DoStop(m)
      case Take(c) => if CallerOf(m, c).Idle? then DoTake(m, c) else m
      case Park(c) =>
        if CallerOf(m, c).Denied?
        then m.(callers := m.callers[c := Waiting(m.core.broadcast, m.callers[c].period)]) else m
      case Release(c) =>
        if CallerOf(m, c).Waiting? && m.callers[c].channel in m.core.closed
        then m.(callers := m.callers[c := Idle]) else m
      case RunTask(c) =>
        if CallerOf(m, c).Granted?
        then m.(callers := m.callers[c := Idle], ledger := m.ledger.(taskRuns := m.ledger.taskRuns + 1)) else m
      case LookRefiller(g) =>
        if g in m.refillers && !m.refillers[g].asleep then
          if m.refillers[g].quit in m.core.closed then m.(refillers := m.refillers - {g})
          else m.(refillers := m.refillers[g := m.refillers[g].(asleep := true)])
        else m
      case WakeRefiller(g) => if g in m.refillers && m.refillers[g].asleep then DoWakeRefiller(m, g) else m
      case LookUpdater(g) =>
        if g in m.updaters && !m.updaters[g].asleep then
          if m.updaters[g].quit in m.core.closed then m.(updaters := m.updaters - {g})
          else m.(updaters := m.updaters[g := m.updaters[g].(asleep := true)])
        else m
      case WakeUpdater(g) => if g in m.updaters && m.updaters[g].asleep then DoWakeUpdater(m, g) else m
  }

  function Run(m: Machine, actions: seq<Action>, n: nat): Machine
    requires n <= |actions|
  {
    if n == 0 then m else Act(Run(m, actions, n - 1), actions[n - 1])
  }

  // ---------------------------------------------------------------------------------------------
  // Channels
  // ---------------------------------------------------------------------------------------------

  /** The broadcast channel is open and is nobody's quit channel; no caller waits on any other open channel. */
  ghost predicate ChannelsOk(m: Machine) {
    var c := m.core;
    && c.broadcast < c.made && c.broadcast !in c.closed
    && (forall x :: x in c.closed ==> x < c.made)
    && (c.quit.Some? ==> c.quit.value < c.made && c.quit.value != c.broadcast)
    && (forall k :: k in m.callers && m.callers[k].Waiting? ==>
          m.callers[k].channel == c.broadcast || m.callers[k].channel in c.closed)
  }

  lemma ActKeepsChannels(m: Machine, a: Action)
    requires ChannelsOk(m)
    ensures ChannelsOk(Act(m, a))
  {
    hide Install, NextThreshold;
  }

  lemma {:induction false} ChannelsAlwaysOk(config: Config, actions: seq<Action>, n: nat)
    requires n <= |actions|
    ensures ChannelsOk(Run(NewMachine(config), actions, n))
  {
    hide Act;
    if n > 0 {
      ChannelsAlwaysOk(config, actions, n - 1);
      ActKeepsChannels(Run(NewMachine(config), actions, n - 1), actions[n - 1]);
    }
  }

  /** A refill releases every caller that was waiting when it happened, and never closes a channel twice. */
  lemma RefillReleasesAll(config: Config, actions: seq<Action>, n: nat, g: nat, k: nat)
    requires n <= |actions|
    ensures var m := Run(NewMachine(config), actions, n);
            var r := Act(m, WakeRefiller(g));
            && r.panicked == m.panicked
            && (r.ledger.refills > m.ledger.refills && CallerOf(m, k).Waiting? ==>
                  m.callers[k].channel in r.core.closed && CallerOf(Act(r, Release(k)), k).Idle?)
  {
    ChannelsAlwaysOk(config, actions, n);
  }

  // ---------------------------------------------------------------------------------------------
  // Tokens
  // ---------------------------------------------------------------------------------------------

  ghost predicate TokensOk(m: Machine) {
    var l := m.ledger;
    && m.core.current == l.installed - l.attempts
    && l.granted == (if l.attempts < Positive(l.installed) then l.attempts else Positive(l.installed))
    && l.totalGrants + Positive(l.installed) <= l.allowance + l.granted
  }

  lemma ActKeepsTokens(m: Machine, a: Action)
    requires TokensOk(m)
    ensures TokensOk(Act(m, a))
  {
    hide NextThreshold;
  }

  /** A threshold's worth of tokens for the beginning and for every refill. */
  function Budget(threshold: int, refills: nat): int {
    Positive(threshold) * (refills + 1)
  }

  lemma BudgetGrows(threshold: int, refills: nat)
    ensures Budget(threshold, refills + 1) == Budget(threshold, refills) + Positive(threshold)
    ensures Budget(threshold, 0) == Positive(threshold)
  {
  }

  ghost predicate ThresholdOk(m: Machine, config: Config) {
    && m.core.config == config
    && match config
       case Stable(threshold) =>
         && m.core.next == m.ledger.installed == threshold
         && m.ledger.allowance == Budget(threshold, m.ledger.refills)
       case RampUp(max, step) =>
         0 <= max && IsInt64(max) && IsInt64(step) ==> 0 <= m.core.next <= max && 0 <= m.ledger.installed <= max
  }

  lemma ActKeepsThreshold(m: Machine, a: Action, config: Config)
    requires ThresholdOk(m, config)
    ensures ThresholdOk(Act(m, a), config)
  {
    hide NextThreshold, Budget;
    match config {
      case Stable(threshold) =>
        BudgetGrows(threshold, m.ledger.refills);
      case RampUp(max, step) =>
        if 0 <= max && IsInt64(max) && IsInt64(step) {
          NextThresholdInRange(m.core.next, max, step);
        }
    }
  }

  /** How many callers hold a token they have not used yet. */
  ghost function Holders(callers: map<nat, Caller>): set<nat> {
    set k | k in callers && callers[k].Granted?
  }

  /** Callers turned away since the last installation. */
  ghost function TurnedAway(callers: map<nat, Caller>, period: nat): set<nat> {
    set k | k in callers && (callers[k].Denied? || callers[k].Waiting?) && callers[k].period == period
  }

  ghost predicate CallersOk(m: Machine) {
    && m.ledger.taskRuns + |Holders(m.callers)| == m.ledger.totalGrants
    && m.ledger.attempts - m.ledger.granted == |TurnedAway(m.callers, m.ledger.period)|
    && (forall k :: k in m.callers && (m.callers[k].Denied? || m.callers[k].Waiting?) ==>
          m.callers[k].period <= m.ledger.period)
    && (forall k :: k in m.callers && m.callers[k].Waiting? && m.callers[k].channel in m.core.closed ==>
          m.callers[k].period < m.ledger.period)
  }

  lemma HoldersAfter(callers: map<nat, Caller>, k: nat, c: Caller)
    ensures |Holders(callers[k := c])| ==
            |Holders(callers)| - (if k in callers && callers[k].Granted? then 1 else 0) + (if c.Granted? then 1 else 0)
  {
    var rest := Holders(callers) - {k};
    assert Holders(callers[k := c]) == if c.Granted? then rest + {k} else rest;
    assert Holders(callers) == if k in callers && callers[k].Granted? then rest + {k} else rest;
  }

  predicate AwaySince(c: Caller, period: nat) {
    (c.Denied? || c.Waiting?) && c.period == period
  }

  lemma TurnedAwayAfter(callers: map<nat, Caller>, k: nat, c: Caller, period: nat)
    ensures |TurnedAway(callers[k := c], period)| ==
            |TurnedAway(callers, period)| - (if k in callers && AwaySince(callers[k], period) then 1 else 0) +
            (if AwaySince(c, period) then 1 else 0)
  {
    var rest := TurnedAway(callers, period) - {k};
    assert TurnedAway(callers[k := c], period) == if AwaySince(c, period) then rest + {k} else rest;
    assert TurnedAway(callers, period) == if k in callers && AwaySince(callers[k], period) then rest + {k} else rest;
  }

  lemma NobodyAwayYet(m: Machine)
    requires CallersOk(m)
    ensures |TurnedAway(m.callers, m.ledger.period + 1)| == 0
  {
    assert TurnedAway(m.callers, m.ledger.period + 1) == {};
  }

  lemma ActKeepsCallers(m: Machine, a: Action)
    requires ChannelsOk(m) && TokensOk(m) && CallersOk(m)
    ensures CallersOk(Act(m, a))
  {
    hide NextThreshold, Holders, TurnedAway;
    NobodyAwayYet(m);
    match a {
      case Take(c) =>
        CallerBecomes(m, c, if Taken(m.core).current < 0 then Denied(m.ledger.period) else Granted);
      case Park(c) =>
        if CallerOf(m, c).Denied? {
          CallerBecomes(m, c, Waiting(m.core.broadcast, m.callers[c].period));
        }
      case Release(c) => CallerBecomes(m, c, Idle);
      case RunTask(c) => CallerBecomes(m, c, Idle);
      case _ =>
    }
  }

  lemma CallerBecomes(m: Machine, c: nat, now: Caller)
    ensures |Holders(m.callers[c := now])| ==
            |Holders(m.callers)| - (if CallerOf(m, c).Granted? then 1 else 0) + (if now.Granted? then 1 else 0)
    ensures |TurnedAway(m.callers[c := now], m.ledger.period)| ==
            |TurnedAway(m.callers, m.ledger.period)| - (if AwaySince(CallerOf(m, c), m.ledger.period) then 1 else 0) +
            (if AwaySince(now, m.ledger.period) then 1 else 0)
  {
    HoldersAfter(m.callers, c, now);
    TurnedAwayAfter(m.callers, c, now, m.ledger.period);
  }

  lemma NewMachineOk(config: Config)
    ensures ChannelsOk(NewMachine(config)) && TokensOk(NewMachine(config))
    ensures CallersOk(NewMachine(config)) && ThresholdOk(NewMachine(config), config)
  {
    hide Budget;
    if config.Stable? {
      BudgetGrows(config.threshold, 0);
    }
    assert Holders(map[]) == {};
    assert forall period :: TurnedAway(map[], period) == {};
  }

  lemma {:induction false} RunsAreSafe(config: Config, actions: seq<Action>, n: nat)
    requires n <= |actions|
    ensures var m := Run(NewMachine(config), actions, n);
            ChannelsOk(m) && TokensOk(m) && CallersOk(m) && ThresholdOk(m, config)
  {
    hide Act, ChannelsOk, TokensOk, CallersOk, ThresholdOk, NewMachine;
    if n == 0 {
      NewMachineOk(config);
    } else {
      RunsAreSafe(config, actions, n - 1);
      var m := Run(NewMachine(config), actions, n - 1);
      ActKeepsChannels(m, actions[n - 1]);
      ActKeepsTokens(m, actions[n - 1]);
      ActKeepsCallers(m, actions[n - 1]);
      ActKeepsThreshold(m, actions[n - 1], config);
    }
  }

  /**
   * Token safety, in every interleaving: since the last installation exactly as many calls were
   * granted as were made, up to the threshold; and the counter never falls further below the
   * threshold's sign than there are callers turned away, so decrementing it cannot wrap around.
   */
  lemma GrantsPerPeriod(config: Config, actions: seq<Action>, n: nat)
    requires n <= |actions|
    ensures var m := Run(NewMachine(config), actions, n);
            && m.ledger.granted == Min(m.ledger.attempts, Positive(m.ledger.installed))
            && m.core.current >= Min(m.ledger.installed, 0) - |m.callers.Keys|
  {
    hide Run, ChannelsOk, NewMachine;
    RunsAreSafe(config, actions, n);
    var m := Run(NewMachine(config), actions, n);
    SubsetSize(TurnedAway(m.callers, m.ledger.period), m.callers.Keys);
  }

  lemma {:induction false} SubsetSize<T>(a: set<T>, b: set<T>)
    requires a <= b
    ensures |a| <= |b|
  {
    assert b == a + (b - a);
  }

  /**
   * Over a whole run, tasks run at most as often as tokens were granted, and tokens at most up to
   * the sum of all thresholds installed. For a stable limiter that sum is the threshold for the
   * start and once more for every refill; for a ramp-up no installed threshold exceeds the maximum.
   */
  lemma TaskRunsAreBounded(config: Config, actions: seq<Action>, n: nat)
    requires n <= |actions|
    ensures var l := Run(NewMachine(config), actions, n).ledger;
            && l.taskRuns <= l.totalGrants <= l.allowance
            && (config.Stable? ==> l.totalGrants <= Budget(config.threshold, l.refills))
            && (config.RampUp? && 0 <= config.max && IsInt64(config.max) && IsInt64(config.step) ==>
                  0 <= l.installed <= config.max)
  {
    hide Run, Budget, ChannelsOk, NewMachine, IsInt64;
    RunsAreSafe(config, actions, n);
  }

  // ---------------------------------------------------------------------------------------------
  // Generations
  // ---------------------------------------------------------------------------------------------

  lemma {:induction false} GenerationsGrow(m: Machine, actions: seq<Action>, n: nat)
    requires n <= |actions|
    ensures Run(m, actions, n).core.timerId >= m.core.timerId
  {
    if n > 0 {
      GenerationsGrow(m, actions, n - 1);
      ActKeepsGeneration(Run(m, actions, n - 1), actions[n - 1]);
    }
  }

  lemma ActKeepsGeneration(m: Machine, a: Action)
    ensures Act(m, a).core.timerId == m.core.timerId + (if a.Start? && !m.panicked then 1 else 0)
  {
    hide NextThreshold;
  }

  /**
   * Once a generation is outdated, its timers never again refill the bucket or raise the threshold,
   * whatever happens later; so at any time only one generation can.
   */
  lemma OldGenerationsNeverWrite(m: Machine, actions: seq<Action>, n: nat, g: nat)
    requires n <= |actions| && g < m.core.timerId
    ensures var later := Run(m, actions, n);
            && Act(later, WakeRefiller(g)).core == later.core && Act(later, WakeRefiller(g)).ledger == later.ledger
            && Act(later, WakeUpdater(g)).core == later.core && Act(later, WakeUpdater(g)).ledger == later.ledger
  {
    GenerationsGrow(m, actions, n);
  }

  predicate NoStart(actions: seq<Action>) {
    forall i :: 0 <= i < |actions| ==> !actions[i].Start?
  }

  /** The refill that the sleeping timer of the current generation may still make. */
  function Outstanding(m: Machine): nat {
    if m.core.timerId in m.refillers && m.refillers[m.core.timerId].asleep then 1 else 0
  }

  ghost predicate Halted(m: Machine) {
    m.core.timerId in m.refillers ==> m.refillers[m.core.timerId].quit in m.core.closed
  }

  lemma ActWhileHalted(m: Machine, a: Action)
    requires Halted(m) && !a.Start?
    ensures Halted(Act(m, a))
    ensures Act(m, a).ledger.refills + Outstanding(Act(m, a)) <= m.ledger.refills + Outstanding(m)
  {
    hide NextThreshold;
  }

  lemma {:induction false} RefillsWhileHalted(m: Machine, actions: seq<Action>, n: nat)
    requires n <= |actions| && Halted(m) && NoStart(actions)
    ensures Halted(Run(m, actions, n))
    ensures Run(m, actions, n).ledger.refills + Outstanding(Run(m, actions, n)) <= m.ledger.refills + 1
  {
    hide Act, Halted;
    if n > 0 {
      RefillsWhileHalted(m, actions, n - 1);
      ActWhileHalted(Run(m, actions, n - 1), actions[n - 1]);
      RefillsOutstanding(m, actions, n - 1);
    } else {
      assert Outstanding(m) <= 1;
    }
  }

  lemma RefillsOutstanding(m: Machine, actions: seq<Action>, n: nat)
    requires n <= |actions|
    ensures Outstanding(Run(m, actions, n)) <= 1
  {
  }

  /** Stopping halts the current generation. */
  ghost predicate TimersOk(m: Machine) {
    && (m.core.timerId in m.refillers ==> m.core.quit == Some(m.refillers[m.core.timerId].quit))
    && (m.core.timerId in m.updaters ==> m.core.quit == Some(m.updaters[m.core.timerId].quit))
    && (forall g :: g in m.refillers ==> g <= m.core.timerId)
    && (forall g :: g in m.updaters ==> g <= m.core.timerId)
  }

  lemma ActKeepsTimers(m: Machine, a: Action)
    requires TimersOk(m)
    ensures TimersOk(Act(m, a))
    ensures a.Stop? && !m.panicked && !Act(m, a).panicked ==> Halted(Act(m, a))
  {
    hide NextThreshold, Install;
  }

  lemma {:induction false} StopHalts(config: Config, actions: seq<Action>, n: nat)
    requires n <= |actions|
    ensures var m := Run(NewMachine(config), actions, n);
            && TimersOk(m)
            && (!m.panicked && !Act(m, Stop).panicked ==> Halted(Act(m, Stop)))
  {
    hide Act, TimersOk, Halted;
    if n == 0 {
      NoTimers(config);
    } else {
      StopHalts(config, actions, n - 1);
      ActKeepsTimers(Run(NewMachine(config), actions, n - 1), actions[n - 1]);
    }
    ActKeepsTimers(Run(NewMachine(config), actions, n), Stop);
  }

  lemma NoTimers(config: Config)
    ensures TimersOk(NewMachine(config))
  {
  }

  /** After a stop, and until the next start, the bucket is refilled at most once more. */
  lemma AtMostOneRefillAfterStop(config: Config, actions: seq<Action>, n: nat, more: seq<Action>, k: nat)
    requires n <= |actions| && k <= |more| && NoStart(more)
    requires var m := Run(NewMachine(config), actions, n); !m.panicked && !Act(m, Stop).panicked
    ensures var m := Run(NewMachine(config), actions, n);
            Run(Act(m, Stop), more, k).ledger.refills <= m.ledger.refills + 1
  {
    hide Run, NewMachine, Halted, TimersOk, Outstanding;
    var m := Run(NewMachine(config), actions, n);
    StopHalts(config, actions, n);
    RefillsWhileHalted(Act(m, Stop), more, k);
  }

  // ---------------------------------------------------------------------------------------------
  // Panics
  // ---------------------------------------------------------------------------------------------

  /** Whether a start has come since the last stop, after n actions. */
  function Armed(actions: seq<Action>, n: nat): bool
    requires n <= |actions|
  {
    n > 0 && (actions[n - 1].Start? || (!actions[n - 1].Stop? && Armed(actions, n - 1)))
  }

  /** Every stop has its own start before it. */
  predicate StopsAreArmed(actions: seq<Action>, n: nat)
    requires n <= |actions|
  {
    forall i :: 0 <= i < n && actions[i].Stop? ==> Armed(actions, i)
  }

  ghost predicate ArmedOk(m: Machine, armed: bool) {
    armed <==> m.core.quit.Some? && m.core.quit.value !in m.core.closed
  }

  lemma ActKeepsArmed(m: Machine, a: Action, armed: bool)
    requires ChannelsOk(m) && ArmedOk(m, armed) && !m.panicked
    ensures Act(m, a).panicked <==> a.Stop? && !armed
    ensures !Act(m, a).panicked ==> ArmedOk(Act(m, a), a.Start? || (!a.Stop? && armed))
  {
    hide NextThreshold, Install;
  }

  /** A limiter panics exactly when it is stopped without a start since the last stop. */
  lemma {:induction false} PanicsIffStopUnarmed(config: Config, actions: seq<Action>, n: nat)
    requires n <= |actions|
    ensures var m := Run(NewMachine(config), actions, n);
            && (!m.panicked <==> StopsAreArmed(actions, n))
            && (!m.panicked ==> ArmedOk(m, Armed(actions, n)))
  {
    hide Act, ArmedOk;
    if n == 0 {
      NotArmed(config);
    } else {
      PanicsIffStopUnarmed(config, actions, n - 1);
      ChannelsAlwaysOk(config, actions, n - 1);
      var m := Run(NewMachine(config), actions, n - 1);
      if m.panicked {
        PanicStays(m, actions[n - 1]);
      } else {
        ActKeepsArmed(m, actions[n - 1], Armed(actions, n - 1));
      }
    }
  }

  lemma NotArmed(config: Config)
    ensures ArmedOk(NewMachine(config), false) && !NewMachine(config).panicked
  {
  }

  /** A limiter that is started has timers of its current generation, with an open quit channel. */
  ghost predicate Ticking(m: Machine) {
    var t := m.core.timerId;
    m.core.quit.Some? && m.core.quit.value !in m.core.closed ==>
      && t in m.refillers && m.refillers[t].quit == m.core.quit.value
      && (m.core.config.RampUp? ==> t in m.updaters && m.updaters[t].quit == m.core.quit.value)
  }

  lemma ActKeepsTicking(m: Machine, a: Action)
    requires ChannelsOk(m) && Ticking(m)
    ensures Ticking(Act(m, a))
  {
    hide NextThreshold, Install;
  }

  lemma {:induction false} AlwaysTicking(config: Config, actions: seq<Action>, n: nat)
    requires n <= |actions|
    ensures Ticking(Run(NewMachine(config), actions, n))
  {
    hide Act, Ticking, ChannelsOk;
    if n == 0 {
      NotTicking(config);
    } else {
      AlwaysTicking(config, actions, n - 1);
      ChannelsAlwaysOk(config, actions, n - 1);
      ActKeepsTicking(Run(NewMachine(config), actions, n - 1), actions[n - 1]);
    }
  }

  lemma NotTicking(config: Config)
    ensures Ticking(NewMachine(config))
  {
  }

  /** Two steps of a current timer, whether it is asleep or not. */
  lemma RefillerTicks(m: Machine)
    requires ChannelsOk(m) && Ticking(m) && ArmedOk(m, true) && !m.panicked
    ensures var t := m.core.timerId;
            var r := Act(Act(m, LookRefiller(t)), WakeRefiller(t));
            && !r.panicked && r.ledger.refills == m.ledger.refills + 1 && r.core.current == m.core.next
            && (forall k :: CallerOf(m, k).Waiting? ==>
                  Act(r, Release(k)) == r.(callers := m.callers[k := Idle]))
  {
    hide NextThreshold, Install;
  }

  lemma UpdaterTicks(m: Machine)
    requires Ticking(m) && ArmedOk(m, true) && !m.panicked && m.core.config.RampUp?
    ensures var t := m.core.timerId;
            var u := Act(Act(m, LookUpdater(t)), WakeUpdater(t));
            u.core == Updated(m.core) && u.ledger.updates == m.ledger.updates + 1
  {
    hide NextThreshold;
  }

  /**
   * A limiter never gets stuck: in every run without a panic, as long as there was a start since the
   * last stop, two steps of the current timer refill the bucket with the next threshold and release
   * everyone who waits, and for a ramp-up two steps of its updater raise that threshold.
   */
  lemma StartedLimiterTicks(config: Config, actions: seq<Action>, n: nat)
    requires n <= |actions| && StopsAreArmed(actions, n) && Armed(actions, n)
    ensures var m := Run(NewMachine(config), actions, n);
            var t := m.core.timerId;
            var r := Act(Act(m, LookRefiller(t)), WakeRefiller(t));
            var u := Act(Act(m, LookUpdater(t)), WakeUpdater(t));
            && !r.panicked && r.ledger.refills == m.ledger.refills + 1 && r.core.current == m.core.next
            && (forall k :: CallerOf(m, k).Waiting? ==>
                  Act(r, Release(k)) == r.(callers := m.callers[k := Idle]))
            && (config.RampUp? ==>
                  u.core.next == NextThreshold(m.core.next, config.max, config.step)
                  && u.ledger.updates == m.ledger.updates + 1)
  {
    hide Run, Act, NewMachine, ChannelsOk, Ticking, ArmedOk, ThresholdOk, NextThreshold;
    PanicsIffStopUnarmed(config, actions, n);
    ReachableOk(config, actions, n);
    AlwaysTicking(config, actions, n);
    ConfigStays(config, actions, n);
    RefillerTicks(Run(NewMachine(config), actions, n));
    if config.RampUp? {
      UpdaterTicks(Run(NewMachine(config), actions, n));
    }
  }

  lemma ConfigStays(config: Config, actions: seq<Action>, n: nat)
    requires n <= |actions|
    ensures Run(NewMachine(config), actions, n).core.config == config
  {
    hide Run, ChannelsOk, NewMachine;
    ReachableOk(config, actions, n);
  }

  lemma PanicStays(m: Machine, a: Action)
    requires m.panicked
    ensures Act(m, a).panicked
  {
  }

  // ---------------------------------------------------------------------------------------------
  // The ramp over runs
  // ---------------------------------------------------------------------------------------------

  /** Neither a start nor a stop. */
  predicate Calm(actions: seq<Action>) {
    forall i :: 0 <= i < |actions| ==> !actions[i].Start? && !actions[i].Stop?
  }

  /** The next threshold is where k updates after a start from zero have to bring it. */
  predicate OnRamp(m: Machine, max: int, step: int) {
    m.core.next == Min(max, (m.ledger.updates + 1) * step)
  }

  ghost predicate Ramping(m: Machine, max: int, step: int) {
    && !m.panicked && m.core.config == RampUp(max, step)
    && m.core.next == Ramp(max, step, m.ledger.updates)
  }

  lemma ActKeepsRamp(m: Machine, a: Action, max: int, step: int)
    requires ChannelsOk(m) && Ramping(m, max, step) && !a.Stop? && !a.Start?
    ensures Ramping(Act(m, a), max, step)
  {
    hide NextThreshold;
    RampNext(max, step, m.ledger.updates);
  }

  lemma RampNext(max: int, step: int, k: nat)
    ensures Ramp(max, step, 0) == NextThreshold(0, max, step)
    ensures Ramp(max, step, k + 1) == NextThreshold(Ramp(max, step, k), max, step)
  {
  }

  lemma {:induction false} RampGoesOn(m: Machine, max: int, step: int, more: seq<Action>, k: nat)
    requires ChannelsOk(m) && Ramping(m, max, step) && Calm(more) && k <= |more|
    ensures ChannelsOk(Run(m, more, k)) && Ramping(Run(m, more, k), max, step)
  {
    hide Act, Ramping, ChannelsOk;
    if k > 0 {
      RampGoesOn(m, max, step, more, k - 1);
      ActKeepsChannels(Run(m, more, k - 1), more[k - 1]);
      ActKeepsRamp(Run(m, more, k - 1), more[k - 1], max, step);
    }
  }

  /** A start begins the ramp if the next threshold was zero, or if one step reaches the maximum anyway. */
  lemma StartRamps(m: Machine, max: int, step: int)
    requires IsInt64(max) && IsInt64(step) && 0 <= step
    requires ChannelsOk(m) && ThresholdOk(m, RampUp(max, step)) && !m.panicked
    requires m.core.next == 0 || max <= step
    ensures ChannelsOk(Act(m, Start)) && Ramping(Act(m, Start), max, step)
  {
    hide NextThreshold, ChannelsOk;
    ActKeepsChannels(m, Start);
    RampNext(max, step, 0);
    if max < 0 {
      NegativeMaximum(m.core.next, max, step);
      NegativeMaximum(0, max, step);
    } else {
      NextThresholdSaturates(m.core.next, max, step);
      NextThresholdSaturates(0, max, step);
    }
  }

  lemma ReachableOk(config: Config, actions: seq<Action>, n: nat)
    requires n <= |actions|
    ensures ChannelsOk(Run(NewMachine(config), actions, n)) && ThresholdOk(Run(NewMachine(config), actions, n), config)
  {
    hide Run, ChannelsOk, ThresholdOk;
    RunsAreSafe(config, actions, n);
  }

  /**
   * The ramp in machine integers: after any start that finds the next threshold at zero, and k
   * threshold updates with anything but a start or a stop in between, it is min(max, (k+1)*step).
   */
  lemma RampClosedForm(max: int, step: int, actions: seq<Action>, n: nat, more: seq<Action>, k: nat)
    requires IsInt64(max) && IsInt64(step) && 0 <= step
    requires n <= |actions| && Calm(more) && k <= |more|
    requires var m := Run(NewMachine(RampUp(max, step)), actions, n); !m.panicked && m.core.next == 0
    ensures OnRamp(Run(Act(Run(NewMachine(RampUp(max, step)), actions, n), Start), more, k), max, step)
  {
    hide Run, Act, ChannelsOk, ThresholdOk, NewMachine;
    var m := Run(NewMachine(RampUp(max, step)), actions, n);
    ReachableOk(RampUp(max, step), actions, n);
    StartRamps(m, max, step);
    RampGoesOn(Act(m, Start), max, step, more, k);
    RampIsLinear(max, step, Run(Act(m, Start), more, k).ledger.updates);
  }

  /** A start fills the bucket with the threshold it installs, one step above the one it finds. */
  lemma StartInstalls(max: int, step: int, actions: seq<Action>, n: nat)
    requires IsInt64(max) && IsInt64(step) && 0 <= step && n <= |actions|
    requires !Run(NewMachine(RampUp(max, step)), actions, n).panicked
    ensures var m := Run(NewMachine(RampUp(max, step)), actions, n);
            var r := Act(m, Start);
            && r.core.current == r.ledger.installed == r.core.next
            && r.core.next == (if max < 0 then max else Min(max, m.core.next + step))
            && r.ledger.attempts == r.ledger.granted == 0
  {
    hide Run, NewMachine, ChannelsOk, NextThreshold;
    ReachableOk(RampUp(max, step), actions, n);
    var m := Run(NewMachine(RampUp(max, step)), actions, n);
    if max < 0 {
      NegativeMaximum(m.core.next, max, step);
    } else {
      NextThresholdSaturates(m.core.next, max, step);
    }
  }

  /** Until the first refill the bucket is the one the start has filled. */
  lemma {:induction false} NoRefillYet(m: Machine, more: seq<Action>, k: nat)
    requires Calm(more) && k <= |more|
    ensures var r := Run(m, more, k);
            r.ledger.refills >= m.ledger.refills &&
            (r.ledger.refills == m.ledger.refills ==> r.ledger.installed == m.ledger.installed)
  {
    hide Act;
    if k > 0 {
      NoRefillYet(m, more, k - 1);
      OnlyRefillsInstall(Run(m, more, k - 1), more[k - 1]);
    }
  }

  lemma OnlyRefillsInstall(m: Machine, a: Action)
    requires !a.Start? && !a.Stop?
    ensures Act(m, a).ledger.refills >= m.ledger.refills
    ensures Act(m, a).ledger.refills == m.ledger.refills ==> Act(m, a).ledger.installed == m.ledger.installed
    ensures Act(m, a).ledger.refills > m.ledger.refills ==>
              Act(m, a).core.current == Act(m, a).ledger.installed == m.core.next
              && Act(m, a).ledger.updates == m.ledger.updates
  {
    hide NextThreshold;
  }

  /**
   * The bucket follows the ramp. After any start that finds the next threshold at zero, exactly as many
   * calls as min(max, step) allows are granted before the first refill, and every refill fills the
   * bucket with the value of the ramp at that moment.
   */
  lemma BucketFollowsRamp(max: int, step: int, actions: seq<Action>, n: nat, more: seq<Action>, k: nat, g: nat)
    requires IsInt64(max) && IsInt64(step) && 0 <= step
    requires n <= |actions| && Calm(more) && k <= |more|
    requires var m := Run(NewMachine(RampUp(max, step)), actions, n); !m.panicked && m.core.next == 0
    ensures var m := Run(NewMachine(RampUp(max, step)), actions, n);
            var r := Run(Act(m, Start), more, k);
            var after := Act(r, WakeRefiller(g));
            && (r.ledger.refills == m.ledger.refills ==>
                  r.ledger.granted == Min(r.ledger.attempts, Positive(Min(max, step))))
            && (after.ledger.refills > r.ledger.refills ==>
                  after.core.current == after.ledger.installed == Min(max, (r.ledger.updates + 1) * step))
  {
    hide Run, Act, NewMachine, Min, Calm;
    var config := RampUp(max, step);
    var m := Run(NewMachine(config), actions, n);
    RampClosedForm(max, step, actions, n, more, k);
    StartInstalls(max, step, actions, n);
    StartRefillsNothing(m);
    FirstThreshold(max, step);
    NoRefillYet(Act(m, Start), more, k);
    OnlyRefillsInstall(Run(Act(m, Start), more, k), WakeRefiller(g));
    var whole := actions[..n] + [Start] + more[..k];
    RunThen(NewMachine(config), actions, n, more, k);
    GrantsPerPeriod(config, whole, n + 1 + k);
  }

  lemma FirstThreshold(max: int, step: int)
    requires 0 <= step
    ensures (if max < 0 then max else Min(max, 0 + step)) == Min(max, step)
  {
  }

  lemma StartRefillsNothing(m: Machine)
    ensures Act(m, Start).ledger.refills == m.ledger.refills
  {
    hide NextThreshold;
  }

  /** A run, a start and another run are one run. */
  lemma {:induction false} RunThen(m: Machine, actions: seq<Action>, n: nat, more: seq<Action>, k: nat)
    requires n <= |actions| && k <= |more|
    ensures Run(m, actions[..n] + [Start] + more[..k], n + 1 + k) == Run(Act(Run(m, actions, n), Start), more, k)
  {
    hide Act;
    var whole := actions[..n] + [Start] + more[..k];
    if k == 0 {
      RunPrefix(m, actions, whole, n);
      assert whole[n] == Start;
    } else {
      RunThen(m, actions, n, more, k - 1);
      RunPrefix(m, actions[..n] + [Start] + more[..k - 1], whole, n + k);
      assert whole[n + k] == more[k - 1];
    }
  }

  lemma {:induction false} RunPrefix(m: Machine, a: seq<Action>, b: seq<Action>, n: nat)
    requires n <= |a| && n <= |b| && a[..n] == b[..n]
    ensures Run(m, a, n) == Run(m, b, n)
  {
    hide Act;
    if n > 0 {
      assert a[..n - 1] == a[..n][..n - 1] && b[..n - 1] == b[..n][..n - 1];
      assert a[n - 1] == a[..n][n - 1] == b[..n][n - 1];
      RunPrefix(m, a, b, n - 1);
    }
  }

  /** A ramp-up limiter grants nothing before it is started for the first time. */
  lemma {:induction false} NothingBeforeStart(max: int, step: int, actions: seq<Action>, n: nat)
    requires n <= |actions| && NoStart(actions)
    ensures var m := Run(NewMachine(RampUp(max, step)), actions, n);
            m.core.next == 0 && m.ledger.installed == 0 && m.ledger.totalGrants == 0
            && m.refillers == m.updaters == map[] && m.core.current + m.ledger.attempts == 0
  {
    hide Act;
    if n > 0 {
      NothingBeforeStart(max, step, actions, n - 1);
      NotStarted(Run(NewMachine(RampUp(max, step)), actions, n - 1), actions[n - 1]);
    }
  }

  lemma NotStarted(m: Machine, a: Action)
    requires m.core.next == 0 && m.ledger.installed == 0 && m.ledger.totalGrants == 0 && !a.Start?
    requires m.refillers == m.updaters == map[] && m.core.current + m.ledger.attempts == 0
    ensures var r := Act(m, a);
            r.core.next == 0 && r.ledger.installed == 0 && r.ledger.totalGrants == 0
            && r.refillers == r.updaters == map[] && r.core.current + r.ledger.attempts == 0
  {
  }

  /** Started now, the limiter ramps as after its first start, until it is started or stopped again. */
  ghost predicate RampsAnew(m: Machine, max: int, step: int) {
    forall more, k :: Calm(more) && 0 <= k <= |more| ==> OnRamp(Run(Act(m, Start), more, k), max, step)
  }

  lemma RampsAnewIff(m: Machine, max: int, step: int)
    requires IsInt64(max) && IsInt64(step) && 0 <= step
    requires ChannelsOk(m) && ThresholdOk(m, RampUp(max, step)) && !m.panicked
    ensures RampsAnew(m, max, step) <==> m.core.next == 0 || max <= step
  {
    hide Run, Act, ChannelsOk, ThresholdOk, OnRamp;
    if m.core.next == 0 || max <= step {
      StartRamps(m, max, step);
      forall more, k | Calm(more) && 0 <= k <= |more|
        ensures OnRamp(Run(Act(m, Start), more, k), max, step)
      {
        RampGoesOn(Act(m, Start), max, step, more, k);
        RampingIsOnRamp(Run(Act(m, Start), more, k), max, step);
      }
    } else {
      StartTooHigh(m, max, step);
      var none: seq<Action> := [];
      NothingRun(Act(m, Start), none);
      assert Calm(none) && !OnRamp(Run(Act(m, Start), none, 0), max, step);
    }
  }

  /**
   * Exactly which starts begin the ramp anew: those that find the next threshold at zero, and all of
   * them if a single step reaches the maximum.
   */
  lemma RestartRampsIff(max: int, step: int, actions: seq<Action>, n: nat)
    requires IsInt64(max) && IsInt64(step) && 0 <= step && n <= |actions|
    requires !Run(NewMachine(RampUp(max, step)), actions, n).panicked
    ensures var m := Run(NewMachine(RampUp(max, step)), actions, n);
            RampsAnew(m, max, step) <==> m.core.next == 0 || max <= step
  {
    hide Run, ChannelsOk, ThresholdOk, NewMachine, RampsAnew;
    ReachableOk(RampUp(max, step), actions, n);
    RampsAnewIff(Run(NewMachine(RampUp(max, step)), actions, n), max, step);
  }

  lemma NothingRun(m: Machine, actions: seq<Action>)
    ensures Run(m, actions, 0) == m
  {
  }

  lemma RampingIsOnRamp(m: Machine, max: int, step: int)
    requires IsInt64(max) && IsInt64(step) && 0 <= step && Ramping(m, max, step)
    ensures OnRamp(m, max, step)
  {
    RampIsLinear(max, step, m.ledger.updates);
  }

  lemma StartTooHigh(m: Machine, max: int, step: int)
    requires IsInt64(max) && IsInt64(step) && 0 <= step < max && m.core.next != 0
    requires ThresholdOk(m, RampUp(max, step)) && !m.panicked
    ensures !OnRamp(Act(m, Start), max, step)
  {
    hide NextThreshold;
    NextThresholdSaturates(m.core.next, max, step);
  }

  /** How a start can find it elsewhere: an updater asleep during the stop wakes up before the start. */
  lemma OldUpdaterBreaksRamp()
    ensures var actions := [Start, LookUpdater(1), Stop, WakeUpdater(1), Start];
            var m := Run(NewMachine(RampUp(10, 1)), actions, 5);
            !m.panicked && m.ledger.updates == 0 && m.core.next == 2 && !OnRamp(m, 10, 1)
  {
    hide NextThreshold, Install;
    var actions := [Start, LookUpdater(1), Stop, WakeUpdater(1), Start];
    var start := NewMachine(RampUp(10, 1));
    NextThresholdSaturates(0, 10, 1);
    NextThresholdSaturates(1, 10, 1);
    var m := Run(start, actions, 2);
    assert Run(start, actions, 1) == DoStart(start);
    assert m.updaters == map[1 := Timer(1, true)] && m.core.next == 1 && m.core.closed == {} && m.core.timerId == 1;
    assert Run(start, actions, 3) == DoStop(m);
    assert Run(start, actions, 4) == DoWakeUpdater(DoStop(m), 1);
  }

  /** The updater of the current generation, if there is one, is awake. */
  predicate UpdaterAwake(m: Machine) {
    m.core.timerId in m.updaters ==> !m.updaters[m.core.timerId].asleep
  }

  /**
   * The next threshold is zero and stays so: the current updater, if it still runs, is about to see its
   * closed channel, or a step from zero leads nowhere.
   */
  ghost predicate Quiet(m: Machine, max: int, step: int) {
    && m.core.next == 0 && m.core.config == RampUp(max, step) && !m.panicked
    && ((UpdaterAwake(m) && (m.core.timerId in m.updaters ==> m.updaters[m.core.timerId].quit in m.core.closed))
        || NextThreshold(0, max, step) == 0)
  }

  lemma ActKeepsQuiet(m: Machine, a: Action, max: int, step: int)
    requires ChannelsOk(m) && Quiet(m, max, step) && !a.Start? && !a.Stop?
    ensures ChannelsOk(Act(m, a)) && Quiet(Act(m, a), max, step)
  {
    hide NextThreshold, Install;
    ActKeepsChannels(m, a);
  }

  lemma {:induction false} QuietGoesOn(m: Machine, max: int, step: int, more: seq<Action>, k: nat)
    requires ChannelsOk(m) && Quiet(m, max, step) && Calm(more) && k <= |more|
    ensures ChannelsOk(Run(m, more, k)) && Quiet(Run(m, more, k), max, step)
  {
    hide Act, Quiet, ChannelsOk;
    if k > 0 {
      QuietGoesOn(m, max, step, more, k - 1);
      ActKeepsQuiet(Run(m, more, k - 1), more[k - 1], max, step);
    }
  }

  lemma StopIsQuiet(m: Machine, max: int, step: int)
    requires TimersOk(m) && m.core.config == RampUp(max, step) && !m.panicked && !Act(m, Stop).panicked
    requires UpdaterAwake(m) || NextThreshold(0, max, step) == 0
    ensures Quiet(Act(m, Stop), max, step)
  {
    hide NextThreshold, Install;
  }

  /** What a sleeping updater does when it wakes up after the stop. */
  lemma SleeperWakes(m: Machine, max: int, step: int)
    requires m.core.config == RampUp(max, step) && !m.panicked && !Act(m, Stop).panicked && !UpdaterAwake(m)
    ensures Run(Act(m, Stop), [WakeUpdater(m.core.timerId)], 1).core.next == NextThreshold(0, max, step)
  {
    hide NextThreshold;
    NothingRun(Act(m, Stop), [WakeUpdater(m.core.timerId)]);
  }

  /** Whatever happens after a stop, the next threshold is zero until the next start. */
  ghost predicate StaysAtZero(m: Machine) {
    forall more, k :: Calm(more) && 0 <= k <= |more| ==> Run(Act(m, Stop), more, k).core.next == 0
  }

  /**
   * A stop keeps the next threshold at zero, if and only if it finds the updater awake, or a step from
   * zero would leave it there.
   */
  lemma StopKeepsZeroIff(max: int, step: int, actions: seq<Action>, n: nat)
    requires n <= |actions|
    requires var m := Run(NewMachine(RampUp(max, step)), actions, n); !m.panicked && !Act(m, Stop).panicked
    ensures var m := Run(NewMachine(RampUp(max, step)), actions, n);
            StaysAtZero(m) <==> UpdaterAwake(m) || NextThreshold(0, max, step) == 0
  {
    hide Run, Act, NewMachine, TimersOk, ChannelsOk, NextThreshold, UpdaterAwake;
    var m := Run(NewMachine(RampUp(max, step)), actions, n);
    StopHalts(RampUp(max, step), actions, n);
    ReachableOk(RampUp(max, step), actions, n);
    if UpdaterAwake(m) || NextThreshold(0, max, step) == 0 {
      StopIsQuiet(m, max, step);
      ActKeepsChannels(m, Stop);
      forall more, k | Calm(more) && 0 <= k <= |more|
        ensures Run(Act(m, Stop), more, k).core.next == 0
      {
        QuietGoesOn(Act(m, Stop), max, step, more, k);
      }
    } else {
      SleeperWakes(m, max, step);
      var wakes := [WakeUpdater(m.core.timerId)];
      assert Calm(wakes) && Run(Act(m, Stop), wakes, 1).core.next != 0;
    }
  }

  /** Whenever it is started again after the stop, the limiter ramps anew. */
  ghost predicate AlwaysRampsAnew(m: Machine, max: int, step: int) {
    forall more, k :: Calm(more) && 0 <= k <= |more| ==> RampsAnew(Run(Act(m, Stop), more, k), max, step)
  }

  lemma {:induction false} CalmKeepsOk(m: Machine, config: Config, more: seq<Action>, k: nat)
    requires ChannelsOk(m) && ThresholdOk(m, config) && !m.panicked && Calm(more) && k <= |more|
    ensures ChannelsOk(Run(m, more, k)) && ThresholdOk(Run(m, more, k), config) && !Run(m, more, k).panicked
  {
    hide Act, ChannelsOk, ThresholdOk;
    if k > 0 {
      CalmKeepsOk(m, config, more, k - 1);
      ActKeepsChannels(Run(m, more, k - 1), more[k - 1]);
      ActKeepsThreshold(Run(m, more, k - 1), more[k - 1], config);
      CalmNeverPanics(Run(m, more, k - 1), more[k - 1]);
    }
  }

  lemma CalmNeverPanics(m: Machine, a: Action)
    requires ChannelsOk(m) && !m.panicked && !a.Stop?
    ensures !Act(m, a).panicked
  {
    hide NextThreshold, Install;
  }

  /**
   * Exactly which stops lead to a fresh ramp at any later start: those that find the updater awake, and
   * all of them if a single step reaches the maximum or is none.
   */
  lemma StopRampsAnewIff(max: int, step: int, actions: seq<Action>, n: nat)
    requires IsInt64(max) && IsInt64(step) && 0 <= step && n <= |actions|
    requires var m := Run(NewMachine(RampUp(max, step)), actions, n); !m.panicked && !Act(m, Stop).panicked
    ensures var m := Run(NewMachine(RampUp(max, step)), actions, n);
            AlwaysRampsAnew(m, max, step) <==> UpdaterAwake(m) || max <= step || step == 0
  {
    hide Run, Act, NewMachine, ChannelsOk, ThresholdOk, RampsAnew, UpdaterAwake, NextThreshold;
    var config := RampUp(max, step);
    var m := Run(NewMachine(config), actions, n);
    ReachableOk(config, actions, n);
    ActKeepsChannels(m, Stop);
    ActKeepsThreshold(m, Stop, config);
    StopKeepsZeroIff(max, step, actions, n);
    if step < max {
      NextThresholdSaturates(0, max, step);
    }
    forall more, k | Calm(more) && 0 <= k <= |more|
      ensures RampsAnew(Run(Act(m, Stop), more, k), max, step) <==>
              Run(Act(m, Stop), more, k).core.next == 0 || max <= step
    {
      CalmKeepsOk(Act(m, Stop), config, more, k);
      RampsAnewIff(Run(Act(m, Stop), more, k), max, step);
    }
  }
}
