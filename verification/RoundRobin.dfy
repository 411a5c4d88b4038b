/** Smooth weighted round-robin: the scheduler of SmoothRoundRobinTaskSet. */
module RoundRobin {
  import opened Tasks

  /** The three numbers the scheduler keeps per task. */
  datatype Slot = Slot(weight: int, current: int, effective: int)

  function Fresh(w: int): Slot {
    Slot(w, 0, w)
  }

  function Raise(s: Slot): Slot {
    Slot(s.weight, s.current + s.effective, if s.effective < s.weight then s.effective + 1 else s.effective)
  }

  function RaiseAll(s: seq<Slot>): (r: seq<Slot>)
    ensures |r| == |s|
  {
    seq(|s|, i requires 0 <= i < |s| => Raise(s[i]))
  }

  function Weights(s: seq<Slot>): (ws: seq<int>)
    ensures |ws| == |s|
  {
    seq(|s|, i requires 0 <= i < |s| => s[i].weight)
  }

  function Currents(s: seq<Slot>): (cs: seq<int>)
    ensures |cs| == |s|
  {
    seq(|s|, i requires 0 <= i < |s| => s[i].current)
  }

  function Effectives(s: seq<Slot>): (es: seq<int>)
    ensures |es| == |s|
  {
    seq(|s|, i requires 0 <= i < |s| => s[i].effective)
  }

  /** Among the first n slots, the first one whose current weight is the largest. */
  function Leader(s: seq<Slot>, n: nat): (l: nat)
    requires 0 < n <= |s|
    ensures l < n
  {
    if n == 1 then 0
    else
      var l := Leader(s, n - 1);
      if s[l].current < s[n - 1].current then n - 1 else l
  }

  lemma {:induction false} LeaderIsFirstMaximum(s: seq<Slot>, n: nat)
    requires 0 < n <= |s|
    ensures forall i :: 0 <= i < n ==> s[i].current <= s[Leader(s, n)].current
    ensures forall i :: 0 <= i < Leader(s, n) ==> s[i].current < s[Leader(s, n)].current
  {
    if n > 1 {
      LeaderIsFirstMaximum(s, n - 1);
    }
  }

  /** The slot one call picks, and the slots after the call. */
  function Pick(s: seq<Slot>): (p: nat)
    requires s != []
    ensures p < |s|
  {
    if |s| == 1 then 0 else Leader(RaiseAll(s), |s|)
  }

  function Next(s: seq<Slot>): (r: seq<Slot>)
    ensures |r| == |s|
  {
    if |s| < 2 then s
    else
      var up := RaiseAll(s);
      var p := Pick(s);
      up[p := up[p].(current := up[p].current - Total(Effectives(s)))]
  }

  lemma NextOfFew(s: seq<Slot>)
    requires |s| < 2
    ensures Next(s) == s
    ensures |s| == 1 ==> Pick(s) == 0
  {
  }

  /** What the loop of GetTask has worked out from the first i slots. */
  ghost predicate Scanned(s: seq<Slot>, i: nat, totalWeight: int, lead: nat)
    requires i <= |s|
  {
    && totalWeight == PrefixSum(Effectives(s), i)
    && (i > 0 ==> lead == Leader(RaiseAll(s), i))
  }

  lemma ScanStarts(s: seq<Slot>)
    ensures Scanned(s, 0, 0, 0)
  {
  }

  lemma ScanStep(s: seq<Slot>, i: nat, totalWeight: int, lead: nat)
    requires i < |s| && Scanned(s, i, totalWeight, lead)
    ensures i > 0 ==> lead < i
    ensures var up := RaiseAll(s);
            Scanned(s, i + 1, totalWeight + s[i].effective,
                    if i == 0 || up[lead].current < up[i].current then i else lead)
  {
  }

  lemma ScanEnds(s: seq<Slot>, totalWeight: int, lead: nat)
    requires |s| >= 2 && Scanned(s, |s|, totalWeight, lead)
    ensures lead == Pick(s)
    ensures Next(s) == RaiseAll(s)[lead := RaiseAll(s)[lead].(current := RaiseAll(s)[lead].current - totalWeight)]
  {
  }

  /** One entry of the task set, shared by pointer in the source. */
  class RoundRobinTask {
    const task: Task
    var currentWeight: int
    var effectiveWeight: int

    constructor (task: Task)
      ensures this.task == task && View() == Fresh(task.weight)
    {
      this.task := task;
      currentWeight := 0;
      effectiveWeight := task.weight;
    }

    function View(): Slot
      reads this
    {
      Slot(task.weight, currentWeight, effectiveWeight)
    }
  }

  class SmoothRoundRobinTaskSet {
    var rrTasks: seq<RoundRobinTask>

    ghost predicate Valid()
      reads this
    {
      forall i, j :: 0 <= i < j < |rrTasks| ==> rrTasks[i] != rrTasks[j]
    }

    ghost function View(): (s: seq<Slot>)
      reads this, rrTasks
      ensures |s| == |rrTasks|
    {
      Views(rrTasks)
    }

    constructor ()
      ensures Valid() && rrTasks == [] && View() == []
    {
      rrTasks := [];
    }

    method AddTask(task: Task)
      requires Valid()
      modifies this
      ensures Valid() && View() == Added(old(View()), task.weight)
      ensures task.weight <= 0 ==> rrTasks == old(rrTasks)
      ensures task.weight > 0 ==>
                |rrTasks| == |old(rrTasks)| + 1 && rrTasks[..|rrTasks| - 1] == old(rrTasks) &&
                fresh(rrTasks[|rrTasks| - 1]) && rrTasks[|rrTasks| - 1].task == task
    {
      if task.weight <= 0 {
        return;
      }
      var rrTask := new RoundRobinTask(task);
      rrTasks := rrTasks + [rrTask];
    }

    method GetTask() returns (task: RoundRobinTask?)
      requires Valid()
      modifies rrTasks
      ensures rrTasks == old(rrTasks)
      ensures task == null <==> rrTasks == []
      ensures rrTasks != [] ==> task == rrTasks[Pick(old(View()))]
      ensures View() == Next(old(View()))
    {
      hide Scanned, Views, Effectives, Next, Pick, Leader, PrefixSum;
      var n := |rrTasks|;
      if n < 2 {
        NextOfFew(View());
      }
      if n == 0 {
        return null;
      }
      if n == 1 {
        return rrTasks[0];
      }
      ghost var before, raised := View(), RaiseAll(View());
      var totalWeight := 0;
      var picked: RoundRobinTask? := null;
      ghost var lead := 0;
      ScanStarts(before);
      var i := 0;
      while i < n
        invariant 0 <= i <= n == |rrTasks| && rrTasks == old(rrTasks)
        invariant forall j :: 0 <= j < i ==> rrTasks[j].View() == raised[j]
        invariant forall j :: i <= j < n ==> rrTasks[j].View() == before[j]
        invariant i == 0 ==> picked == null
        invariant i > 0 ==> 0 <= lead < i && picked == rrTasks[lead]
        invariant Scanned(before, i, totalWeight, lead)
      {
        var rrTask := rrTasks[i];
        ghost var leadBefore := lead;
        rrTask.currentWeight := rrTask.currentWeight + rrTask.effectiveWeight;
        totalWeight := totalWeight + rrTask.effectiveWeight;
        if rrTask.effectiveWeight < rrTask.task.weight {
          rrTask.effectiveWeight := rrTask.effectiveWeight + 1;
        }
        if picked == null || picked.currentWeight < rrTask.currentWeight {
          picked, lead := rrTask, i;
        }
        ScanStep(before, i, totalWeight - before[i].effective, leadBefore);
        i := i + 1;
      }
      ScanEnds(before, totalWeight, lead);
      picked.currentWeight := picked.currentWeight - totalWeight;
      ViewsAre(rrTasks, Next(before));
      return picked;
    }
  }

  ghost function Views(ts: seq<RoundRobinTask>): (s: seq<Slot>)
    reads ts
    ensures |s| == |ts|
    ensures forall i :: 0 <= i < |ts| ==> s[i] == ts[i].View()
  {
    seq(|ts|, i requires 0 <= i < |ts| reads ts => ts[i].View())
  }

  lemma ViewsAre(ts: seq<RoundRobinTask>, s: seq<Slot>)
    requires |s| == |ts|
    requires forall i :: 0 <= i < |ts| ==> ts[i].View() == s[i]
    ensures Views(ts) == s
  {
  }

  function Added(s: seq<Slot>, w: int): seq<Slot> {
    if w <= 0 then s else s + [Fresh(w)]
  }

  // ---------------------------------------------------------------------------------------------
  // Whole runs
  // ---------------------------------------------------------------------------------------------

  datatype Op = Add(weight: int) | Get

  function Apply(s: seq<Slot>, op: Op): seq<Slot> {
    match op
    case Add(w) => Added(s, w)
    case Get => Next(s)
  }

  /** The slots after a run of calls on a new task set. */
  function After(ops: seq<Op>): seq<Slot> {
    if ops == [] then [] else Apply(After(ops[..|ops| - 1]), ops[|ops| - 1])
  }

  /** Between calls the current weights sum to zero and each lies above minus the total weight. */
  ghost predicate Balanced(s: seq<Slot>) {
    && (forall i :: 0 <= i < |s| ==> s[i].effective == s[i].weight > 0)
    && Total(Currents(s)) == 0
    && (forall i :: 0 <= i < |s| ==> s[i].current >= 1 - Total(Weights(s)))
  }

  lemma PositiveTotal(s: seq<Slot>)
    requires forall i :: 0 <= i < |s| ==> s[i].weight > 0
    ensures Total(Weights(s)) >= |s|
  {
    PrefixSumsIncrease(Weights(s), 0, |s|);
  }

  lemma AddedKeepsBalance(s: seq<Slot>, w: int)
    requires Balanced(s)
    ensures Balanced(Added(s, w))
  {
    if w > 0 {
      var r := Added(s, w);
      assert Currents(r) == Currents(s) + [0];
      assert Weights(r) == Weights(s) + [w];
      TotalSnoc(Currents(s), 0);
      TotalSnoc(Weights(s), w);
      PositiveTotal(s);
    }
  }

  /** The picked slot has a positive weight before the total is taken from it. */
  lemma LeaderIsPositive(s: seq<Slot>)
    requires s != [] && Balanced(s)
    ensures Total(Currents(RaiseAll(s))) == Total(Weights(s))
    ensures RaiseAll(s)[Leader(RaiseAll(s), |s|)].current >= 1
  {
    var up := RaiseAll(s);
    PrefixSumAdd(Currents(s), Weights(s), Currents(up), |s|);
    PositiveTotal(s);
    LeaderIsFirstMaximum(up, |s|);
    if Currents(up)[Leader(up, |s|)] <= 0 {
      PrefixSumNotPositive(Currents(up), |s|);
    }
  }

  lemma NextKeepsBalance(s: seq<Slot>)
    requires Balanced(s)
    ensures Balanced(Next(s))
    ensures Weights(Next(s)) == Weights(s)
  {
    if |s| >= 2 {
      var up, p, r := RaiseAll(s), Pick(s), Next(s);
      var w := Total(Weights(s));
      assert Effectives(s) == Weights(s) == Weights(r);
      LeaderIsPositive(s);
      assert Currents(r) == Currents(up)[p := up[p].current - w];
      PrefixSumUpdate(Currents(up), p, up[p].current - w, |s|);
    }
  }

  /** Every state any sequence of AddTask and GetTask calls can reach is balanced. */
  lemma {:induction false} ReachableIsBalanced(ops: seq<Op>)
    ensures Balanced(After(ops))
  {
    if ops != [] {
      var before, op := ops[..|ops| - 1], ops[|ops| - 1];
      ReachableIsBalanced(before);
      match op {
        case Add(w) => AddedKeepsBalance(After(before), w);
        case Get => NextKeepsBalance(After(before));
      }
    }
  }

  lemma BalancedBounds(s: seq<Slot>, i: nat)
    requires Balanced(s) && i < |s|
    ensures var w := Total(Weights(s)); 1 - w <= s[i].current <= (|s| - 1) * (w - 1)
  {
    var w := Total(Weights(s));
    TotalBoundsTerm(Currents(s), i, 1 - w);
    Distribute(|s| - 1, w, 1);
    Distribute(|s| - 1, 1, w);
  }

  /** In every reachable state a current weight lies in [1-W, (k-1)(W-1)] for k tasks of total weight W. */
  lemma SmoothnessBounds(ops: seq<Op>, i: nat)
    requires i < |After(ops)|
    ensures var s := After(ops); var w := Total(Weights(s));
            1 - w <= s[i].current <= (|s| - 1) * (w - 1)
  {
    hide Balanced;
    ReachableIsBalanced(ops);
    BalancedBounds(After(ops), i);
  }

  /** The slots after n calls. */
  function Run(s: seq<Slot>, n: nat): (r: seq<Slot>)
    ensures |r| == |s|
  {
    if n == 0 then s else Next(Run(s, n - 1))
  }

  /** How many of the n calls that follow the first m calls pick slot i. */
  function PicksOf(s: seq<Slot>, m: nat, n: nat, i: nat): nat
    requires s != []
  {
    if n == 0 then 0
    else PicksOf(s, m, n - 1, i) + (if Pick(Run(s, m + n - 1)) == i then 1 else 0)
  }

  function FreshSlots(ws: seq<int>): (s: seq<Slot>)
    ensures |s| == |ws|
  {
    seq(|ws|, i requires 0 <= i < |ws| => Fresh(ws[i]))
  }

  lemma FreshIsBalanced(ws: seq<int>)
    requires AllPositive(ws)
    ensures Balanced(FreshSlots(ws)) && Weights(FreshSlots(ws)) == ws
  {
    var s := FreshSlots(ws);
    assert Weights(s) == ws;
    PositiveTotal(s);
    PrefixSumAdd(Currents(s), Currents(s), Currents(s), |s|);
  }

  lemma {:induction false} RunKeepsBalance(s: seq<Slot>, n: nat)
    requires Balanced(s)
    ensures Balanced(Run(s, n)) && Weights(Run(s, n)) == Weights(s)
  {
    if n > 0 {
      RunKeepsBalance(s, n - 1);
      NextKeepsBalance(Run(s, n - 1));
    }
  }

  lemma NextCurrent(s: seq<Slot>, i: nat)
    requires |s| >= 2 && Balanced(s) && i < |s|
    ensures Next(s)[i].current == s[i].current + s[i].weight - (if Pick(s) == i then Total(Weights(s)) else 0)
  {
    assert Effectives(s) == Weights(s);
  }

  /** What n calls owe a task of weight v after c picks, in units of the total weight w. */
  function Credit(n: nat, v: int, w: int, c: nat): int {
    n * v - w * c
  }

  lemma CreditStarts(v: int, w: int)
    ensures Credit(0, v, w, 0) == 0
  {
  }

  lemma CreditStep(n: nat, v: int, w: int, c: nat)
    requires n > 0
    ensures Credit(n, v, w, c) == Credit(n - 1, v, w, c) + v
    ensures Credit(n, v, w, c + 1) == Credit(n - 1, v, w, c) + v - w
  {
    Distribute(v, n, 1);
    Distribute(w, c, 1);
  }

  lemma OneMoreCall(s: seq<Slot>, n: nat, i: nat)
    requires |s| >= 2 && Balanced(s) && i < |s| && n > 0
    ensures Run(s, n)[i].current ==
            Run(s, n - 1)[i].current + s[i].weight - (if Pick(Run(s, n - 1)) == i then Total(Weights(s)) else 0)
  {
    RunKeepsBalance(s, n - 1);
    NextCurrent(Run(s, n - 1), i);
    assert Weights(Run(s, n - 1))[i] == Weights(s)[i];
  }

  /** What a slot's current weight means: n times its weight less the total weight for each pick of it. */
  lemma {:induction false} CurrentIsCredit(s: seq<Slot>, n: nat, i: nat)
    requires |s| >= 2 && Balanced(s) && i < |s|
    ensures Run(s, n)[i].current == s[i].current + Credit(n, s[i].weight, Total(Weights(s)), PicksOf(s, 0, n, i))
  {
    hide Next, Pick, Credit, Balanced, Weights;
    CreditStarts(s[i].weight, Total(Weights(s)));
    if n > 0 {
      CurrentIsCredit(s, n - 1, i);
      OneMoreCall(s, n, i);
      CreditStep(n, s[i].weight, Total(Weights(s)), PicksOf(s, 0, n - 1, i));
    }
  }

  /** No task is ever a full pick ahead of its share, at any number n of calls. */
  lemma NeverAheadOfShare(ws: seq<int>, n: nat, i: nat)
    requires |ws| >= 2 && AllPositive(ws) && i < |ws|
    ensures Total(ws) * PicksOf(FreshSlots(ws), 0, n, i) <= n * ws[i] + Total(ws) - 1
  {
    var s := FreshSlots(ws);
    FreshIsBalanced(ws);
    CurrentIsCredit(s, n, i);
    RunKeepsBalance(s, n);
  }

  /** And none is ever further behind than the other tasks can be ahead. */
  lemma NeverFarBehindShare(ws: seq<int>, n: nat, i: nat)
    requires |ws| >= 2 && AllPositive(ws) && i < |ws|
    ensures Total(ws) * PicksOf(FreshSlots(ws), 0, n, i) >= n * ws[i] - (|ws| - 1) * (Total(ws) - 1)
  {
    hide Balanced, Run, PicksOf;
    var s := FreshSlots(ws);
    FreshIsBalanced(ws);
    CurrentIsCredit(s, n, i);
    RunKeepsBalance(s, n);
    BalancedBounds(Run(s, n), i);
  }

  lemma OwedArithmetic(g: nat, cycle: nat, v: int, c: nat)
    requires g > 0
    requires Credit(cycle, g * v, g * cycle, c) >= 1 - g * cycle
    ensures Credit(cycle, g * v, g * cycle, c) == (g * cycle) * (v - c) >= 0
  {
    var total := g * cycle;
    assert cycle * (g * v) == total * v;
    Distribute(total, v, c);
    if v - c <= -1 {
      MulMonotone(total, v - c, -1);
    }
    MulMonotone(total, 0, v - c);
  }

  /** After one cycle no current weight is negative; it counts the picks still owed to the task. */
  lemma OwedAfterCycle(vs: seq<int>, g: nat, i: nat)
    requires |vs| >= 2 && AllPositive(vs) && g > 0 && i < |vs|
    requires AllPositive(Scale(g, vs))
    ensures var s := FreshSlots(Scale(g, vs)); var n := WeightSum(vs);
            Run(s, n)[i].current == (g * n) * (vs[i] - PicksOf(s, 0, n, i)) >= 0
  {
    var ws := Scale(g, vs);
    var s, n := FreshSlots(ws), WeightSum(vs);
    PrefixSumScale(g, vs, |vs|);
    FreshIsBalanced(ws);
    RunKeepsBalance(s, n);
    CurrentIsCredit(s, n, i);
    OwedArithmetic(g, n, vs[i], PicksOf(s, 0, n, i));
  }

  lemma ScaleIsPositive(g: nat, vs: seq<int>)
    requires g > 0 && AllPositive(vs)
    ensures AllPositive(Scale(g, vs))
  {
    forall i | 0 <= i < |vs|
      ensures Scale(g, vs)[i] > 0
    {
      MulMonotone(g, 1, vs[i]);
    }
  }

  lemma ZeroProduct(k: int, a: int)
    requires k > 0 && k * a == 0
    ensures a == 0
  {
  }

  lemma NothingOwedAfterCycle(vs: seq<int>, g: nat, i: nat)
    requires |vs| >= 2 && AllPositive(vs) && g > 0 && i < |vs|
    ensures var s := FreshSlots(Scale(g, vs)); var n := WeightSum(vs);
            Run(s, n)[i].current == 0 && PicksOf(s, 0, n, i) == vs[i]
  {
    var ws := Scale(g, vs);
    var s, n := FreshSlots(ws), WeightSum(vs);
    ScaleIsPositive(g, vs);
    FreshIsBalanced(ws);
    RunKeepsBalance(s, n);
    var cs := Currents(Run(s, n));
    forall j | 0 <= j < |vs|
      ensures cs[j] >= 0
    {
      OwedAfterCycle(vs, g, j);
    }
    TotalBoundsTerm(cs, i, 0);
    OwedAfterCycle(vs, g, i);
    MulMonotone(g, 1, n);
    ZeroProduct(g * n, vs[i] - PicksOf(s, 0, n, i));
  }

  /**
   * Exact fairness. Let the weights be g*v(i), for any common divisor g. From a fresh set, after as
   * many calls as the v(i) sum to, task i has been picked exactly v(i) times and the scheduler is
   * back where it started.
   */
  lemma ExactFairness(vs: seq<int>, g: nat)
    requires |vs| >= 2 && AllPositive(vs) && g > 0
    ensures var s := FreshSlots(Scale(g, vs)); var n := WeightSum(vs);
            && Run(s, n) == s
            && forall i :: 0 <= i < |vs| ==> PicksOf(s, 0, n, i) == vs[i]
  {
    var ws := Scale(g, vs);
    var s, n := FreshSlots(ws), WeightSum(vs);
    ScaleIsPositive(g, vs);
    FreshIsBalanced(ws);
    RunKeepsBalance(s, n);
    var r := Run(s, n);
    forall i | 0 <= i < |vs|
      ensures r[i] == s[i] && PicksOf(s, 0, n, i) == vs[i]
    {
      NothingOwedAfterCycle(vs, g, i);
      assert Weights(r)[i] == Weights(s)[i];
    }
    assert r == s;
  }

  lemma {:induction false} RunsCompose(s: seq<Slot>, m: nat, n: nat)
    ensures Run(s, m + n) == Run(Run(s, m), n)
  {
    if n > 0 {
      RunsCompose(s, m, n - 1);
    }
  }

  /** The schedule repeats: the state after any m calls is the state one cycle later. */
  lemma SchedulePeriodic(vs: seq<int>, g: nat, m: nat)
    requires |vs| >= 2 && AllPositive(vs) && g > 0
    ensures Run(FreshSlots(Scale(g, vs)), WeightSum(vs) + m) == Run(FreshSlots(Scale(g, vs)), m)
  {
    hide Next, Pick;
    ExactFairness(vs, g);
    RunsCompose(FreshSlots(Scale(g, vs)), WeightSum(vs), m);
  }

  lemma {:induction false} PicksSplit(s: seq<Slot>, m: nat, n: nat, i: nat)
    requires s != []
    ensures PicksOf(s, 0, m + n, i) == PicksOf(s, 0, m, i) + PicksOf(s, m, n, i)
  {
    hide Next, Pick;
    if n > 0 {
      PicksSplit(s, m, n - 1, i);
    }
  }

  lemma WindowArithmetic(w: nat, m: nat, v: int, earlier: nat, inside: nat)
    requires w > 0
    requires Credit(m, v, w, earlier) == Credit(m + w, v, w, earlier + inside)
    ensures inside == v
  {
    Distribute(w, earlier, inside);
    Distribute(v, m, w);
    MulCancel(w, inside, v);
  }

  lemma SameCreditLater(ws: seq<int>, m: nat, i: nat)
    requires |ws| >= 2 && AllPositive(ws) && i < |ws|
    ensures var s, w := FreshSlots(ws), WeightSum(ws);
            Credit(m, ws[i], w, PicksOf(s, 0, m, i)) == Credit(m + w, ws[i], w, PicksOf(s, 0, m + w, i))
  {
    hide Next, Pick, Credit, Balanced;
    var s, w := FreshSlots(ws), WeightSum(ws);
    FreshIsBalanced(ws);
    assert Scale(1, ws) == ws;
    SchedulePeriodic(ws, 1, m);
    assert s[i] == Fresh(ws[i]);
    CurrentIsCredit(s, m, i);
    CurrentIsCredit(s, m + w, i);
  }

  /** No starvation: any W consecutive calls, wherever they start, pick task i exactly w(i) times. */
  lemma EveryWindowIsFair(ws: seq<int>, m: nat, i: nat)
    requires |ws| >= 2 && AllPositive(ws) && i < |ws|
    ensures PicksOf(FreshSlots(ws), m, WeightSum(ws), i) == ws[i]
  {
    hide Next, Pick, Credit;
    var s, w := FreshSlots(ws), WeightSum(ws);
    SameCreditLater(ws, m, i);
    PicksSplit(s, m, w, i);
    WindowArithmetic(w, m, ws[i], PicksOf(s, 0, m, i), PicksOf(s, m, w, i));
  }
}
