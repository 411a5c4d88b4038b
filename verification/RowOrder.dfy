/** Sorting rows by name, in place. */
module RowOrder {
  import opened OutputRows

  /** Strings compare character by character; a proper prefix comes first. */
  predicate Before(a: string, b: string) {
    if b == [] then false
    else if a == [] then true
    else if a[0] != b[0] then a[0] < b[0]
    else Before(a[1..], b[1..])
  }

  /** The strings agree before position k, where the first has ended or has the lesser character. */
  predicate DiffersAt(a: string, b: string, k: nat) {
    k <= |a| && k < |b| && a[..k] == b[..k] && (k == |a| || a[k] < b[k])
  }

  /** The order of strings, told by the position that decides. */
  lemma {:induction false} BeforeIff(a: string, b: string)
    ensures Before(a, b) <==> exists k: nat :: DiffersAt(a, b, k)
  {
    if a != [] && b != [] && a[0] == b[0] {
      BeforeIff(a[1..], b[1..]);
      assert forall k: nat :: DiffersAt(a[1..], b[1..], k) ==> DiffersAt(a, b, k + 1) by {
        forall k: nat | DiffersAt(a[1..], b[1..], k)
          ensures DiffersAt(a, b, k + 1)
        {
          assert a[..k + 1] == [a[0]] + a[1..][..k] && b[..k + 1] == [b[0]] + b[1..][..k];
        }
      }
      assert forall k: nat :: DiffersAt(a, b, k) ==> k > 0 && DiffersAt(a[1..], b[1..], k - 1) by {
        forall k: nat | DiffersAt(a, b, k)
          ensures k > 0 && DiffersAt(a[1..], b[1..], k - 1)
        {
          assert a[1..][..k - 1] == a[..k][1..] && b[1..][..k - 1] == b[..k][1..];
        }
      }
    } else if Before(a, b) {
      assert DiffersAt(a, b, 0);
    } else {
      forall k: nat
        ensures !DiffersAt(a, b, k)
      {
        if 0 < k <= |a| && k < |b| {
          assert a[..k][0] == a[0] && b[..k][0] == b[0];
        }
      }
    }
  }

  predicate AtMost(a: string, b: string) {
    !Before(b, a)
  }

  lemma {:induction false} AtMostTransitive(a: string, b: string, c: string)
    requires AtMost(a, b) && AtMost(b, c)
    ensures AtMost(a, c)
  {
    if a != [] && b != [] && c != [] && a[0] == b[0] == c[0] {
      AtMostTransitive(a[1..], b[1..], c[1..]);
    }
  }

  lemma {:induction false} BeforeIsTotal(a: string, b: string)
    ensures AtMost(a, b) || AtMost(b, a)
    ensures AtMost(a, b) && AtMost(b, a) ==> a == b
  {
    if a != [] && b != [] && a[0] == b[0] {
      BeforeIsTotal(a[1..], b[1..]);
      assert a == [a[0]] + a[1..] && b == [b[0]] + b[1..];
    }
  }

  ghost predicate SortedByName(s: seq<StatsEntryOutput>) {
    forall i, j :: 0 <= i < j < |s| ==> AtMost(s[i].name, s[j].name)
  }

  /** The rows with a given name among the first n, in the order they stand. */
  ghost function Group(s: seq<StatsEntryOutput>, name: string, n: nat): seq<StatsEntryOutput>
    requires n <= |s|
  {
    if n == 0 then []
    else Group(s, name, n - 1) + (if s[n - 1].name == name then [s[n - 1]] else [])
  }

  /** Rearranged without exchanging rows of the same name. */
  ghost predicate SameGroups(s: seq<StatsEntryOutput>, t: seq<StatsEntryOutput>) {
    |s| == |t| && forall name :: Group(s, name, |s|) == Group(t, name, |t|)
  }

  lemma {:induction false} SwapKeepsGroup(s: seq<StatsEntryOutput>, t: seq<StatsEntryOutput>, j: nat,
                                          name: string, n: nat)
    requires 0 < j < |s| && t == s[j - 1 := s[j]][j := s[j - 1]] && s[j].name != s[j - 1].name
    requires n <= |s|
    ensures n != j ==> Group(t, name, n) == Group(s, name, n)
  {
    if n > 0 {
      if n == j + 1 {
        SwapKeepsGroup(s, t, j, name, j - 1);
        assert Group(t, name, j + 1) == Group(t, name, j - 1) + (if s[j].name == name then [s[j]] else []) +
                                        (if s[j - 1].name == name then [s[j - 1]] else []);
      } else {
        SwapKeepsGroup(s, t, j, name, n - 1);
      }
    }
  }

  lemma SwapKeepsGroups(s: seq<StatsEntryOutput>, t: seq<StatsEntryOutput>, u: seq<StatsEntryOutput>, j: nat)
    requires 0 < j < |s| && t == s[j - 1 := s[j]][j := s[j - 1]] && s[j].name != s[j - 1].name
    requires SameGroups(u, s)
    ensures SameGroups(u, t)
  {
    forall name
      ensures Group(u, name, |u|) == Group(t, name, |t|)
    {
      SwapKeepsGroup(s, t, j, name, |s|);
    }
  }

  /** The last k rows are in their final places. */
  ghost predicate Settled(s: seq<StatsEntryOutput>, k: nat) {
    forall i, j :: 0 <= i < j < |s| && j >= |s| - k ==> AtMost(s[i].name, s[j].name)
  }

  /** No row before position j is after the row at j in name order. */
  ghost predicate Bubbled(s: seq<StatsEntryOutput>, j: nat)
    requires j < |s|
  {
    forall i :: 0 <= i < j ==> AtMost(s[i].name, s[j].name)
  }

  lemma SwapBubbles(s: seq<StatsEntryOutput>, t: seq<StatsEntryOutput>, j: nat, k: nat)
    requires 0 < j < |s| - k && t == s[j - 1 := s[j]][j := s[j - 1]]
    requires Settled(s, k) && Bubbled(s, j - 1) && AtMost(s[j].name, s[j - 1].name)
    ensures Settled(t, k) && Bubbled(t, j)
  {
  }

  lemma KeepBubbles(s: seq<StatsEntryOutput>, j: nat)
    requires 0 < j < |s| && Bubbled(s, j - 1) && AtMost(s[j - 1].name, s[j].name)
    ensures Bubbled(s, j)
  {
    forall i | 0 <= i < j
      ensures AtMost(s[i].name, s[j].name)
    {
      if i < j - 1 {
        AtMostTransitive(s[i].name, s[j - 1].name, s[j].name);
      }
    }
  }

  lemma OneMoreSettled(s: seq<StatsEntryOutput>, k: nat)
    requires k < |s| && Settled(s, k) && Bubbled(s, |s| - k - 1)
    ensures Settled(s, k + 1)
  {
  }

  /** Bubble sort: the rows end up in name order, and rows of equal name keep their order. */
  method SortOutput(stats: array<StatsEntryOutput>)
    modifies stats
    ensures SortedByName(stats[..])
    ensures SameGroups(old(stats[..]), stats[..])
  {
    hide Settled, Bubbled, SameGroups, Before;
    ghost var before := stats[..];
    GroupsReflexive(before);
    NothingSettled(before);
    var n := stats.Length;
    for i := 0 to n
      invariant Settled(stats[..], i)
      invariant SameGroups(before, stats[..])
    {
      NothingBubbled(stats[..]);
      var j := 1;
      while j < n - i
        invariant 1 <= j <= n - i
        invariant Settled(stats[..], i) && Bubbled(stats[..], j - 1)
        invariant SameGroups(before, stats[..])
      {
        ghost var s := stats[..];
        if Before(stats[j].name, stats[j - 1].name) {
          var tmp := stats[j - 1];
          stats[j - 1] := stats[j];
          stats[j] := tmp;
          BeforeMeans(s[j].name, s[j - 1].name);
          assert stats[..] == s[j - 1 := s[j]][j := s[j - 1]];
          SwapBubbles(s, stats[..], j, i);
          SwapKeepsGroups(s, stats[..], before, j);
        } else {
          KeepBubbles(s, j);
        }
        j := j + 1;
      }
      OneMoreSettled(stats[..], i);
    }
    AllSettled(stats[..]);
  }

  lemma BeforeMeans(a: string, b: string)
    requires Before(a, b)
    ensures AtMost(a, b) && a != b
  {
    BeforeIsTotal(a, b);
    BeforeIsIrreflexive(a);
  }

  lemma {:induction false} BeforeIsIrreflexive(a: string)
    ensures !Before(a, a)
  {
    if a != [] {
      BeforeIsIrreflexive(a[1..]);
    }
  }

  lemma GroupsReflexive(s: seq<StatsEntryOutput>)
    ensures SameGroups(s, s)
  {
  }

  lemma NothingSettled(s: seq<StatsEntryOutput>)
    ensures Settled(s, 0)
  {
  }

  lemma NothingBubbled(s: seq<StatsEntryOutput>)
    requires s != []
    ensures Bubbled(s, 0)
  {
  }

  lemma AllSettled(s: seq<StatsEntryOutput>)
    requires Settled(s, |s|)
    ensures SortedByName(s)
  {
  }

  lemma {:induction false} GroupMember(s: seq<StatsEntryOutput>, name: string, n: nat)
    requires 0 < n <= |s| && Group(s, name, n) != [] && SortedByName(s)
    ensures AtMost(name, s[n - 1].name)
  {
    if s[n - 1].name == name {
      BeforeIsIrreflexive(name);
    } else {
      GroupMember(s, name, n - 1);
      AtMostTransitive(name, s[n - 2].name, s[n - 1].name);
    }
  }

  /** Name order and unchanged groups leave only one arrangement. */
  lemma {:induction false} StableSortIsUnique(s: seq<StatsEntryOutput>, t: seq<StatsEntryOutput>, n: nat)
    requires n <= |s| && n <= |t| && SortedByName(s) && SortedByName(t)
    requires forall name :: Group(s, name, n) == Group(t, name, n)
    ensures s[..n] == t[..n]
  {
    if n > 0 {
      var a, b := s[n - 1].name, t[n - 1].name;
      assert Group(s, a, n) == Group(t, a, n) && Group(s, b, n) == Group(t, b, n);
      GroupMember(t, a, n);
      GroupMember(s, b, n);
      BeforeIsTotal(a, b);
      var ends := Group(s, a, n);
      assert ends[|ends| - 1] == s[n - 1] == t[n - 1];
      var m := n - 1;
      forall name
        ensures Group(s, name, m) == Group(t, name, m)
      {
        assert Group(s, name, n) == Group(t, name, n);
        DropLast(Group(s, name, m), Group(t, name, m), s[m]);
        if s[m].name != name {
          assert Group(s, name, n) == Group(s, name, m) && Group(t, name, n) == Group(t, name, m);
        }
      }
      StableSortIsUnique(s, t, n - 1);
    }
  }

  lemma DropLast<T>(a: seq<T>, b: seq<T>, x: T)
    ensures a + [x] == b + [x] ==> a == b
  {
    if a + [x] == b + [x] {
      assert a == (a + [x])[..|a|] && b == (b + [x])[..|b|];
    }
  }
}
