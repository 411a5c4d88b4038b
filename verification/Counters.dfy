/** Finite maps from a number to a count, as the statistics use them. */
module Counters {
  type Counts = map<int, int>

  function At<K>(m: map<K, int>, k: K): int {
    if k in m then m[k] else 0
  }

  /** One more occurrence of k. */
  function Bump(m: Counts, k: int): Counts {
    m[k := At(m, k) + 1]
  }

  /** Two counts added key by key. */
  function Plus<K>(a: map<K, int>, b: map<K, int>): map<K, int> {
    map k | k in a.Keys + b.Keys :: At(a, k) + At(b, k)
  }

  predicate Positive<K>(m: map<K, int>) {
    forall k :: k in m ==> m[k] > 0
  }

  lemma PlusBump(a: Counts, b: Counts, k: int)
    ensures Plus(a, Bump(b, k)) == Bump(Plus(a, b), k)
  {
  }

  lemma PlusAssociative(a: Counts, b: Counts, c: Counts)
    ensures Plus(Plus(a, b), c) == Plus(a, Plus(b, c))
  {
    assert Plus(Plus(a, b), c).Keys == Plus(a, Plus(b, c)).Keys;
  }

  lemma PlusCommutative(a: Counts, b: Counts)
    ensures Plus(a, b) == Plus(b, a)
  {
  }

  lemma PlusEmpty(a: Counts)
    ensures Plus(a, map[]) == a == Plus(map[], a)
  {
  }

  lemma AnElement<T>(s: set<T>) returns (x: T)
    requires |s| > 0
    ensures x in s
  {
    x :| x in s;
  }

  lemma CommonElement<T>(a: set<T>, b: set<T>) returns (x: T)
    requires !(a !! b)
    ensures x in a && x in b
  {
    x :| x in a && x in b;
  }

  /** The sum of all values of a map. */
  ghost function SumOf<K>(m: map<K, int>): int
    decreases |m|
  {
    if m == map[] then 0
    else
      var k :| k in m;
      m[k] + SumOf(m - {k})
  }

  /** Any key can be taken out of the sum first. */
  lemma {:induction false} SumTakeOut<K>(m: map<K, int>, k: K)
    requires k in m
    ensures SumOf(m) == m[k] + SumOf(m - {k})
    decreases |m|
  {
    var j :| j in m && SumOf(m) == m[j] + SumOf(m - {j});
    if j != k {
      SumTakeOut(m - {j}, k);
      SumTakeOut(m - {k}, j);
      assert m - {j} - {k} == m - {k} - {j};
    }
  }

  lemma SumUpdate<K>(m: map<K, int>, k: K, v: int)
    ensures SumOf(m[k := v]) == SumOf(m) - (if k in m then m[k] else 0) + v
  {
    SumTakeOut(m[k := v], k);
    if k in m {
      SumTakeOut(m, k);
      assert m[k := v] - {k} == m - {k};
    } else {
      assert m[k := v] - {k} == m;
    }
  }

  lemma PlusWithout<K>(a: map<K, int>, b: map<K, int>, k: K)
    requires k in b
    ensures Plus(a, b) == Plus(a, b - {k})[k := At(a, k) + b[k]]
    ensures At(Plus(a, b - {k}), k) == At(a, k)
  {
  }

  lemma {:induction false} SumPlus<K>(a: map<K, int>, b: map<K, int>)
    ensures SumOf(Plus(a, b)) == SumOf(a) + SumOf(b)
    decreases |b|
  {
    if b == map[] {
      assert Plus(a, b) == a;
    } else {
      var k :| k in b && SumOf(b) == b[k] + SumOf(b - {k});
      hide SumOf;
      SumPlus(a, b - {k});
      PlusWithout(a, b, k);
      SumUpdate(Plus(a, b - {k}), k, At(a, k) + b[k]);
    }
  }

  lemma OverwriteLast<K>(a: map<K, int>, o: map<K, int>, k: K)
    requires k in o
    ensures a + o == (a + (o - {k}))[k := o[k]]
    ensures At(a + (o - {k}), k) == At(a, k) && (k in a + (o - {k}) <==> k in a)
    ensures a.Keys !! o.Keys <==> a.Keys !! (o - {k}).Keys && k !in a
  {
    assert o.Keys == (o - {k}).Keys + {k};
  }

  /** Overwriting loses the old count of every repeated key. */
  lemma {:induction false} OverwrittenSum<K>(a: map<K, int>, o: map<K, int>)
    requires Positive(a)
    ensures SumOf(a + o) <= SumOf(a) + SumOf(o)
    ensures SumOf(a + o) == SumOf(a) + SumOf(o) <==> a.Keys !! o.Keys
    decreases |o|
  {
    if o == map[] {
      assert a + o == a;
    } else {
      var k :| k in o && SumOf(o) == o[k] + SumOf(o - {k});
      hide SumOf;
      OverwrittenSum(a, o - {k});
      OverwriteLast(a, o, k);
      SumUpdate(a + (o - {k}), k, o[k]);
    }
  }

  /** One key moved from the keys left to do to those done. */
  lemma PlusNext<K>(a: map<K, int>, o: map<K, int>, todo: set<K>, key: K)
    requires key in todo && todo <= o.Keys
    ensures var r := Plus(a, o - todo);
            Plus(a, o - (todo - {key})) == r[key := At(r, key) + o[key]] && At(r, key) == At(a, key)
  {
    assert o - (todo - {key}) == (o - todo)[key := o[key]];
  }

  /** One count overwritten by another, with some keys still to do. */
  function Overwritten<K>(a: map<K, int>, o: map<K, int>, todo: set<K>): map<K, int> {
    a + (o - todo)
  }

  lemma OverwriteEnds<K>(a: map<K, int>, o: map<K, int>)
    ensures Overwritten(a, o, o.Keys) == a && Overwritten(a, o, {}) == a + o
  {
    assert o - o.Keys == map[] && o - {} == o;
  }

  lemma OverwriteNext<K>(a: map<K, int>, o: map<K, int>, todo: set<K>, key: K)
    requires key in todo && todo <= o.Keys
    ensures Overwritten(a, o, todo - {key}) == Overwritten(a, o, todo)[key := o[key]]
  {
    assert o - (todo - {key}) == (o - todo)[key := o[key]];
  }

  lemma CountNext<T>(s: seq<T>, n: nat, x: T)
    requires 0 < n <= |s|
    ensures multiset(s[..n])[x] == multiset(s[..n - 1])[x] + (if s[n - 1] == x then 1 else 0)
  {
    assert s[..n] == s[..n - 1] + [s[n - 1]];
  }

  lemma SplitAt<T>(s: seq<T>, i: nat)
    requires i < |s|
    ensures s == s[..i] + [s[i]] + s[i + 1..]
  {
  }

  /** A group that takes in every x takes it in as often as it comes. */
  lemma KeptNext<T>(s: seq<T>, n: nat, x: T, group: seq<T>, next: seq<T>)
    requires 0 < n <= |s| && multiset(group)[x] == multiset(s[..n - 1])[x]
    requires next == group + [s[n - 1]] || (next == group && s[n - 1] != x)
    ensures multiset(next)[x] == multiset(s[..n])[x]
  {
    CountNext(s, n, x);
  }
}
