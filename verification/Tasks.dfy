/** Tasks and sums of their weights. */
module Tasks {
  /** A task: its weight, the identity of the function it runs, and its name. */
  datatype Task = Task(weight: int, fn: nat, name: string)

  /** The sum of the first n weights. */
  function PrefixSum(ws: seq<int>, n: nat): int
    requires n <= |ws|
  {
    if n == 0 then 0 else PrefixSum(ws, n - 1) + ws[n - 1]
  }

  function Total(ws: seq<int>): int {
    PrefixSum(ws, |ws|)
  }

  ghost predicate AllPositive(ws: seq<int>) {
    forall i :: 0 <= i < |ws| ==> ws[i] > 0
  }

  function WeightsOf(tasks: seq<Task>): (ws: seq<int>)
    ensures |ws| == |tasks|
    ensures forall i :: 0 <= i < |tasks| ==> ws[i] == tasks[i].weight
  {
    seq(|tasks|, i requires 0 <= i < |tasks| => tasks[i].weight)
  }

  lemma {:induction false} PrefixSumSame(a: seq<int>, b: seq<int>, n: nat)
    requires n <= |a| && n <= |b|
    requires forall i :: 0 <= i < n ==> a[i] == b[i]
    ensures PrefixSum(a, n) == PrefixSum(b, n)
  {
    if n > 0 {
      PrefixSumSame(a, b, n - 1);
    }
  }

  lemma TotalSnoc(ws: seq<int>, w: int)
    ensures Total(ws + [w]) == Total(ws) + w
  {
    PrefixSumSame(ws + [w], ws, |ws|);
  }

  lemma {:induction false} PrefixSumUpdate(ws: seq<int>, i: nat, w: int, n: nat)
    requires i < |ws| && n <= |ws|
    ensures PrefixSum(ws[i := w], n) == PrefixSum(ws, n) + (if i < n then w - ws[i] else 0)
  {
    if n > 0 {
      PrefixSumUpdate(ws, i, w, n - 1);
    }
  }

  lemma {:induction false} PrefixSumAdd(a: seq<int>, b: seq<int>, c: seq<int>, n: nat)
    requires |a| == |b| == |c| && n <= |a|
    requires forall i :: 0 <= i < |a| ==> c[i] == a[i] + b[i]
    ensures PrefixSum(c, n) == PrefixSum(a, n) + PrefixSum(b, n)
  {
    if n > 0 {
      PrefixSumAdd(a, b, c, n - 1);
    }
  }

  /** A sum is at least the number of its terms times a lower bound of every term. */
  lemma {:induction false} PrefixSumAtLeast(ws: seq<int>, low: int, n: nat)
    requires n <= |ws|
    requires forall i :: 0 <= i < n ==> ws[i] >= low
    ensures PrefixSum(ws, n) >= n * low
  {
    if n > 0 {
      PrefixSumAtLeast(ws, low, n - 1);
      Distribute(low, n, 1);
    }
  }

  lemma {:induction false} PrefixSumNotPositive(ws: seq<int>, n: nat)
    requires n <= |ws|
    requires forall i :: 0 <= i < n ==> ws[i] <= 0
    ensures PrefixSum(ws, n) <= 0
  {
    if n > 0 {
      PrefixSumNotPositive(ws, n - 1);
    }
  }

  /** A term of a sum is bounded by the whole sum and a lower bound of the other terms. */
  lemma TotalBoundsTerm(ws: seq<int>, i: nat, low: int)
    requires i < |ws|
    requires forall j :: 0 <= j < |ws| ==> ws[j] >= low
    ensures Total(ws) >= ws[i] + (|ws| - 1) * low
  {
    PrefixSumUpdate(ws, i, low, |ws|);
    PrefixSumAtLeast(ws[i := low], low, |ws|);
    Distribute(low, |ws|, 1);
  }

  lemma {:induction false} PrefixSumsIncrease(ws: seq<int>, i: nat, j: nat)
    requires AllPositive(ws) && i <= j <= |ws|
    ensures PrefixSum(ws, i) + (j - i) <= PrefixSum(ws, j)
    decreases j
  {
    if i < j {
      PrefixSumsIncrease(ws, i, j - 1);
    }
  }

  /** The total weight of a list of positive weights. */
  ghost function WeightSum(ws: seq<int>): (w: nat)
    requires AllPositive(ws)
    ensures w == Total(ws) >= |ws|
  {
    PrefixSumsIncrease(ws, 0, |ws|);
    Total(ws)
  }

  /** Every weight multiplied by g. */
  function Scale(g: int, vs: seq<int>): (ws: seq<int>)
    ensures |ws| == |vs|
  {
    seq(|vs|, i requires 0 <= i < |vs| => g * vs[i])
  }

  lemma {:induction false} PrefixSumScale(g: int, vs: seq<int>, n: nat)
    requires n <= |vs|
    ensures PrefixSum(Scale(g, vs), n) == g * PrefixSum(vs, n)
  {
    if n > 0 {
      PrefixSumScale(g, vs, n - 1);
      Distribute(g, PrefixSum(vs, n - 1), vs[n - 1]);
    }
  }

  lemma Distribute(k: int, a: int, b: int)
    ensures k * (a + b) == k * a + k * b
    ensures k * (a - b) == k * a - k * b
  {
  }

  lemma MulMonotone(k: int, a: int, b: int)
    requires 0 <= k && a <= b
    ensures k * a <= k * b
  {
    assert 0 <= k * (b - a);
  }

  lemma MulCancel(k: int, a: int, b: int)
    requires k > 0 && k * a == k * b
    ensures a == b
  {
    Distribute(k, a, b);
    assert k * (a - b) == 0;
  }
}
