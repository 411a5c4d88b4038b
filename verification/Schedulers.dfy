/** The three ways of picking a task by weight serve every task equally often. */
module Schedulers {
  import opened Options
  import opened Remainders
  import opened Tasks
  import opened RoundRobin
  import opened Weighing

  /** The tasks on which the rolls 0..n-1 fall. */
  function RolledTasks(ws: seq<int>, n: nat): (ps: seq<nat>)
    ensures |ps| == n
  {
    if n == 0 then [] else RolledTasks(ws, n - 1) + [FirstAbove(ws, n - 1, |ws|)]
  }

  /** The tasks picked by the first n round-robin calls. */
  function RoundRobinTasks(s: seq<Slot>, n: nat): (ps: seq<nat>)
    requires s != []
    ensures |ps| == n
  {
    if n == 0 then [] else RoundRobinTasks(s, n - 1) + [Pick(Run(s, n - 1))]
  }

  lemma {:induction false} RollsPerTask(ws: seq<int>, n: nat, i: nat)
    requires AllPositive(ws) && i < |ws| && n <= Total(ws)
    ensures multiset(RolledTasks(ws, n))[i] ==
            if n <= PrefixSum(ws, i) then 0
            else if n <= PrefixSum(ws, i + 1) then n - PrefixSum(ws, i)
            else ws[i]
  {
    hide FirstAbove;
    PrefixSumsIncrease(ws, 0, i);
    if n > 0 {
      RollsPerTask(ws, n - 1, i);
      IntervalIsUnique(ws, n - 1, i);
    }
  }

  lemma {:induction false} RollsAreTasks(ws: seq<int>, n: nat, x: nat)
    requires AllPositive(ws) && n <= Total(ws) && x >= |ws|
    ensures multiset(RolledTasks(ws, n))[x] == 0
  {
    if n > 0 {
      RollsAreTasks(ws, n - 1, x);
      ScanNeverFallsOff(ws, n - 1);
    }
  }

  lemma {:induction false} PicksPerTask(s: seq<Slot>, n: nat, i: nat)
    requires s != []
    ensures multiset(RoundRobinTasks(s, n))[i] == PicksOf(s, 0, n, i)
  {
    hide Next, Pick;
    if n > 0 {
      PicksPerTask(s, n - 1, i);
    }
  }

  lemma {:induction false} PicksAreTasks(s: seq<Slot>, n: nat, x: nat)
    requires s != [] && x >= |s|
    ensures PicksOf(s, 0, n, x) == 0
  {
    hide Next;
    if n > 0 {
      PicksAreTasks(s, n - 1, x);
    }
  }

  /** Exactly w(i) of the W rolls fall on task i. */
  lemma RollsMatchWeights(ws: seq<int>, i: nat)
    requires AllPositive(ws) && i < |ws|
    ensures multiset(RolledTasks(ws, WeightSum(ws)))[i] == ws[i]
  {
    RollsPerTask(ws, WeightSum(ws), i);
    PrefixSumsIncrease(ws, i + 1, |ws|);
  }

  /**
   * One pass over all W rolls, through the linear scan or the binary search, picks exactly the
   * multiset of tasks that one W-call round-robin cycle picks.
   */
  lemma SchedulersAgree(ws: seq<int>)
    requires |ws| >= 2 && AllPositive(ws)
    ensures multiset(RolledTasks(ws, WeightSum(ws))) == multiset(RoundRobinTasks(FreshSlots(ws), WeightSum(ws)))
  {
    var s, w := FreshSlots(ws), WeightSum(ws);
    forall x: nat
      ensures multiset(RolledTasks(ws, w))[x] == multiset(RoundRobinTasks(s, w))[x]
    {
      PicksPerTask(s, w, x);
      if x < |ws| {
        RollsMatchWeights(ws, x);
        EveryWindowIsFair(ws, 0, x);
      } else {
        RollsAreTasks(ws, w, x);
        PicksAreTasks(s, w, x);
      }
    }
  }

  /** A draw sends both prefix-sum pickers to the same task. */
  lemma ScanAndSearchAgree(tasks: seq<Task>, draw: nat)
    requires |tasks| >= 2 && AllPositive(WeightsOf(tasks))
    ensures var ws := WeightsOf(tasks);
            var roll := draw % WeightSum(ws);
            var at := FirstAbove(ws, roll, |ws|);
            && at < |tasks|
            && Picked(tasks, at) == Some(tasks[at])
            && ChooseTask(tasks, draw) == Chosen(tasks[at])
            && PrefixSum(ws, at) <= roll < PrefixSum(ws, at + 1)
  {
    var ws := WeightsOf(tasks);
    var roll := draw % WeightSum(ws);
    ScanNeverFallsOff(ws, roll);
    IntervalIsUnique(ws, roll, FirstAbove(ws, roll, |ws|));
  }

  // ---------------------------------------------------------------------------------------------
  // The runner's random draws
  // ---------------------------------------------------------------------------------------------

  /** What n consecutive draws choose. */
  function Choices(tasks: seq<Task>, from: nat, n: nat): (cs: seq<Choice>)
    ensures |cs| == n
    ensures forall i :: 0 <= i < n ==> cs[i] == ChooseTask(tasks, from + i)
  {
    if n == 0 then [] else Choices(tasks, from, n - 1) + [ChooseTask(tasks, from + n - 1)]
  }

  /** The number of different draws: without a positive total, one for each task, else one for each unit of weight. */
  function Outcomes(tasks: seq<Task>): nat {
    var total := Total(WeightsOf(tasks));
    if |tasks| == 1 || total <= 0 then |tasks| else total
  }

  lemma DrawsRepeat(tasks: seq<Task>, draw: nat)
    ensures ChooseTask(tasks, draw + Outcomes(tasks)) == ChooseTask(tasks, draw)
  {
    hide FirstAbove, Total;
    if Outcomes(tasks) > 0 {
      SameRemainder(draw, Outcomes(tasks), 1);
    }
  }

  /** Any window of as many draws as there are outcomes chooses the same tasks, each as often. */
  lemma {:induction false} WindowsAgree(tasks: seq<Task>, from: nat)
    ensures var p := Outcomes(tasks);
            multiset(Choices(tasks, from, p)) == multiset(Choices(tasks, 0, p))
  {
    hide ChooseTask, Outcomes, Choices;
    var p := Outcomes(tasks);
    if from > 0 && p > 0 {
      WindowsAgree(tasks, from - 1);
      DrawsRepeat(tasks, from - 1);
      MovedOn(Choices(tasks, from - 1, p), Choices(tasks, from, p));
    }
  }

  /** The first element dropped and put at the end. */
  lemma MovedOn<T>(a: seq<T>, b: seq<T>)
    requires |a| == |b| > 0 && b[|b| - 1] == a[0] && forall i :: 0 <= i < |a| - 1 ==> b[i] == a[i + 1]
    ensures multiset(a) == multiset(b)
  {
    assert a == [a[0]] + a[1..];
    assert b == a[1..] + [a[0]];
  }

  /** A task list without a positive total weight is drawn from evenly: every window chooses each task once. */
  lemma DrawsAreUniform(tasks: seq<Task>, from: nat)
    requires tasks != [] && Total(WeightsOf(tasks)) <= 0
    ensures multiset(Choices(tasks, from, |tasks|)) ==
            multiset(seq(|tasks|, i requires 0 <= i < |tasks| => Chosen(tasks[i])))
  {
    hide Choices, Total;
    WindowsAgree(tasks, from);
    var all := seq(|tasks|, i requires 0 <= i < |tasks| => Chosen(tasks[i]));
    forall i | 0 <= i < |tasks|
      ensures Choices(tasks, 0, |tasks|)[i] == all[i]
    {
      EvenDraw(tasks, i);
    }
    assert Choices(tasks, 0, |tasks|) == all;
  }

  lemma EvenDraw(tasks: seq<Task>, i: nat)
    requires i < |tasks| && Total(WeightsOf(tasks)) <= 0
    ensures ChooseTask(tasks, i) == Chosen(tasks[i])
  {
    hide Total, FirstAbove;
  }

  /** Otherwise every window of W draws falls on the tasks as the W rolls do, so on task i exactly w(i) times. */
  lemma DrawsMatchWeights(tasks: seq<Task>, from: nat)
    requires |tasks| >= 2 && AllPositive(WeightsOf(tasks))
    ensures var ws := WeightsOf(tasks);
            var rolled := RolledTasks(ws, WeightSum(ws));
            && (forall i :: 0 <= i < |rolled| ==> rolled[i] < |tasks|)
            && (forall i :: 0 <= i < |tasks| ==> multiset(rolled)[i] == ws[i])
            && multiset(Choices(tasks, from, WeightSum(ws))) ==
               multiset(seq(|rolled|, i requires 0 <= i < |rolled| => Chosen(tasks[rolled[i]])))
  {
    hide Choices, Total, FirstAbove, ChooseTask, RolledTasks;
    var ws := WeightsOf(tasks);
    var w := WeightSum(ws);
    var rolled := RolledTasks(ws, w);
    forall i: nat | i < |tasks|
      ensures multiset(rolled)[i] == ws[i]
    {
      RollsMatchWeights(ws, i);
    }
    forall i | 0 <= i < w
      ensures rolled[i] < |tasks| && ChooseTask(tasks, i) == Chosen(tasks[rolled[i]])
    {
      RolledAt(ws, w, i);
      SmallRemainder(i, w);
      ScanAndSearchAgree(tasks, i);
    }
    AllOutcomes(tasks);
    WindowsAgree(tasks, from);
    assert Choices(tasks, 0, w) == seq(|rolled|, i requires 0 <= i < |rolled| => Chosen(tasks[rolled[i]]));
  }

  lemma SmallRemainder(i: nat, w: nat)
    requires i < w
    ensures i % w == i
  {
  }

  lemma AllOutcomes(tasks: seq<Task>)
    requires |tasks| >= 2 && AllPositive(WeightsOf(tasks))
    ensures Outcomes(tasks) == WeightSum(WeightsOf(tasks))
  {
    hide Total;
  }

  lemma {:induction false} RolledAt(ws: seq<int>, n: nat, i: nat)
    requires i < n
    ensures RolledTasks(ws, n)[i] == FirstAbove(ws, i, |ws|)
  {
    if i < n - 1 {
      RolledAt(ws, n - 1, i);
    }
  }
}
