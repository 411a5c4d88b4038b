/** Picking a task by prefix sums of the weights: WeighingTaskSet and the runner's own task list. */
module Weighing {
  import opened Options
  import opened Tasks

  /** The first i (below n) whose weights up to and including i sum to more than the roll; n if none. */
  function FirstAbove(ws: seq<int>, roll: int, n: nat): (k: nat)
    requires n <= |ws|
    ensures k <= n
  {
    if n == 0 then 0
    else
      var k := FirstAbove(ws, roll, n - 1);
      if k < n - 1 || PrefixSum(ws, n) > roll then k else n
  }

  lemma {:induction false} FirstAboveIsFirst(ws: seq<int>, roll: int, n: nat)
    requires n <= |ws|
    ensures var k := FirstAbove(ws, roll, n);
            && (k < n ==> PrefixSum(ws, k + 1) > roll)
            && (forall j :: 1 <= j <= k ==> PrefixSum(ws, j) <= roll)
  {
    if n > 0 {
      FirstAboveIsFirst(ws, roll, n - 1);
    }
  }

  /** A roll below the total always falls on some task, whatever the signs of the weights. */
  lemma ScanNeverFallsOff(ws: seq<int>, roll: int)
    requires 0 <= roll < Total(ws)
    ensures FirstAbove(ws, roll, |ws|) < |ws|
  {
    FirstAboveIsFirst(ws, roll, |ws|);
  }

  /** With positive weights the picked task is the only one whose interval of prefix sums holds the roll. */
  lemma IntervalIsUnique(ws: seq<int>, roll: int, i: nat)
    requires AllPositive(ws) && i < |ws| && 0 <= roll
    ensures FirstAbove(ws, roll, |ws|) == i <==> PrefixSum(ws, i) <= roll < PrefixSum(ws, i + 1)
  {
    var k := FirstAbove(ws, roll, |ws|);
    FirstAboveIsFirst(ws, roll, |ws|);
    if k < i {
      PrefixSumsIncrease(ws, k + 1, i);
    }
  }

  class WeighingTaskSet {
    var offset: int
    var tasks: seq<Task>
    var index: seq<int>

    /** The index array holds the prefix sums of the weights, and the offset is the last of them. */
    ghost predicate Valid()
      reads this
    {
      && AllPositive(WeightsOf(tasks))
      && |index| == |tasks|
      && (forall i :: 0 <= i < |index| ==> index[i] == PrefixSum(WeightsOf(tasks), i + 1))
      && offset == Total(WeightsOf(tasks))
    }

    constructor ()
      ensures Valid() && tasks == []
    {
      offset, tasks, index := 0, [], [];
    }

    method AddTask(task: Task)
      requires Valid()
      modifies this
      ensures Valid()
      ensures tasks == if task.weight <= 0 then old(tasks) else old(tasks) + [task]
    {
      if task.weight <= 0 {
        return;
      }
      ghost var before := WeightsOf(tasks);
      tasks := tasks + [task];
      offset := offset + task.weight;
      index := index + [offset];
      assert WeightsOf(tasks) == before + [task.weight];
      TotalSnoc(before, task.weight);
      forall i | 0 <= i < |index|
        ensures index[i] == PrefixSum(WeightsOf(tasks), i + 1)
      {
        if i < |before| {
          PrefixSumSame(WeightsOf(tasks), before, i + 1);
        }
      }
    }

    /** Narrows [left, right] around the task the roll falls on; both neighbours it reads are in range. */
    method BinarySearch(roll: int) returns (task: Option<Task>)
      requires Valid() && 0 <= roll < offset
      ensures var at := FirstAbove(WeightsOf(tasks), roll, |tasks|);
              at < |tasks| && task == Some(tasks[at])
    {
      ghost var ws := WeightsOf(tasks);
      ghost var target := FirstAbove(ws, roll, |tasks|);
      ScanNeverFallsOff(ws, roll);
      FirstAboveIsFirst(ws, roll, |tasks|);
      var left, right := 0, |index| - 1;
      while left <= right
        invariant 0 <= left <= target <= right < |index|
      {
        var mid := (left + right) / 2;
        IntervalIsUnique(ws, roll, mid);
        if left == mid {
          if roll < index[mid] {
            SearchStep(ws, roll, mid);
            return Some(tasks[mid]);
          }
          SearchStep(ws, roll, mid);
          return Some(tasks[mid + 1]);
        }
        assert index[mid - 1] == PrefixSum(ws, mid);
        if index[mid - 1] <= roll && roll < index[mid] {
          return Some(tasks[mid]);
        }
        SearchStep(ws, roll, mid);
        if roll < index[mid - 1] {
          SearchStep(ws, roll, mid - 1);
          right := mid - 1;
        } else {
          left := mid + 1;
        }
      }
      return None;
    }

    method GetTask(roll: int) returns (task: Option<Task>)
      requires Valid()
      ensures task == if 0 <= roll < Total(WeightsOf(tasks))
                      then Picked(tasks, FirstAbove(WeightsOf(tasks), roll, |tasks|))
                      else None
    {
      if roll < 0 || roll >= offset {
        return None;
      }
      task := BinarySearch(roll);
    }
  }

  function Picked(tasks: seq<Task>, i: nat): Option<Task> {
    if i < |tasks| then Some(tasks[i]) else None
  }

  /** Comparing the roll with one prefix sum says on which side of that position its task lies. */
  lemma SearchStep(ws: seq<int>, roll: int, i: nat)
    requires AllPositive(ws) && i < |ws| && 0 <= roll < Total(ws)
    ensures roll < PrefixSum(ws, i + 1) <==> FirstAbove(ws, roll, |ws|) <= i
  {
    var k := FirstAbove(ws, roll, |ws|);
    FirstAboveIsFirst(ws, roll, |ws|);
    ScanNeverFallsOff(ws, roll);
    if k <= i {
      PrefixSumsIncrease(ws, k + 1, i + 1);
    }
  }

  // ---------------------------------------------------------------------------------------------
  // The runner's task list
  // ---------------------------------------------------------------------------------------------

  /** What picking a task can do: deliver one, deliver nil, or panic because there is nothing to draw from. */
  datatype Choice = Chosen(task: Task) | Nothing | Panics

  class TaskRunner {
    var tasks: seq<Task>
    var totalTaskWeight: int

    ghost predicate Valid()
      reads this
    {
      totalTaskWeight == Total(WeightsOf(tasks))
    }

    constructor (t: seq<Task>)
      ensures Valid() && tasks == t
    {
      tasks, totalTaskWeight := [], 0;
      new;
      SetTasks(t);
    }

    method SetTasks(t: seq<Task>)
      modifies this
      ensures Valid() && tasks == t
    {
      tasks := t;
      var weightSum := 0;
      for i := 0 to |tasks|
        invariant tasks == t && weightSum == PrefixSum(WeightsOf(t), i)
      {
        weightSum := weightSum + tasks[i].weight;
      }
      totalTaskWeight := weightSum;
    }

    /** The draw stands for the random source: Intn(n) is its remainder by n, and panics for n <= 0. */
    method GetTask(draw: nat) returns (choice: Choice)
      requires Valid()
      ensures choice == ChooseTask(tasks, draw)
    {
      if |tasks| == 1 {
        return Chosen(tasks[0]);
      }
      if totalTaskWeight <= 0 {
        if |tasks| == 0 {
          return Panics;
        }
        return Chosen(tasks[draw % |tasks|]);
      }
      var randNum := draw % totalTaskWeight;
      var runningSum := 0;
      ghost var ws := WeightsOf(tasks);
      for i := 0 to |tasks|
        invariant runningSum == PrefixSum(ws, i)
        invariant FirstAbove(ws, randNum, i) == i
      {
        runningSum := runningSum + tasks[i].weight;
        if runningSum > randNum {
          FirstAboveStays(ws, randNum, i, |tasks|);
          return Chosen(tasks[i]);
        }
      }
      return Nothing;
    }
  }

  lemma {:induction false} FirstAboveStays(ws: seq<int>, roll: int, i: nat, n: nat)
    requires i < n <= |ws| && FirstAbove(ws, roll, i) == i && PrefixSum(ws, i + 1) > roll
    ensures FirstAbove(ws, roll, n) == i
    decreases n
  {
    if n > i + 1 {
      FirstAboveStays(ws, roll, i, n - 1);
    }
  }

  /** Which task a draw selects: by weight when the weights add up to something positive, else uniformly. */
  function ChooseTask(tasks: seq<Task>, draw: nat): Choice {
    var total := Total(WeightsOf(tasks));
    if |tasks| == 1 then Chosen(tasks[0])
    else if tasks == [] then Panics
    else if total <= 0 then Chosen(tasks[draw % |tasks|])
    else
      var at := FirstAbove(WeightsOf(tasks), draw % total, |tasks|);
      if at < |tasks| then Chosen(tasks[at]) else Nothing
  }

  /** A non-empty task list always yields a task, even with negative weights in it. */
  lemma RunnerAlwaysChooses(tasks: seq<Task>, draw: nat)
    ensures ChooseTask(tasks, draw).Chosen? <==> tasks != []
    ensures !ChooseTask(tasks, draw).Nothing?
  {
    var total := Total(WeightsOf(tasks));
    if |tasks| > 1 && total > 0 {
      ScanNeverFallsOff(WeightsOf(tasks), draw % total);
    }
  }
}
