/** The list edits of ruleset/rule.go: `merge`, and `remove` with its two in-place forms. */
module RuleList {
  import opened Common

  // ---- what the edits compute ----------------------------------------------------

  function Merge(s: seq<string>, items: seq<string>): seq<string> {
    s + items
  }

  function IndexOf(s: seq<string>, x: string): (i: nat)
    requires x in s
    ensures i < |s| && s[i] == x && x !in s[..i]
  {
    if s[0] == x then 0 else 1 + IndexOf(s[1..], x)
  }

  /** One item: its first occurrence is overwritten with the last element, which is cut off. */
  function RemoveFirst(s: seq<string>, x: string): seq<string> {
    if x in s then s[IndexOf(s, x) := s[|s| - 1]][..|s| - 1] else s
  }

  /** Several items: an element to drop is overwritten with the last one still in play, which is
      examined next in its new place. */
  function Sweep(s: seq<string>, items: set<string>): seq<string>
    decreases |s|
  {
    if s == [] then []
    else if s[0] !in items then [s[0]] + Sweep(s[1..], items)
    else if |s| == 1 then []
    else Sweep([s[|s| - 1]] + s[1..|s| - 1], items)
  }

  function Remove(s: seq<string>, items: seq<string>): seq<string> {
    if s == [] || items == [] then s
    else if |items| == 1 then RemoveFirst(s, items[0])
    else Sweep(s, Range(items))
  }

  // ---- the in-place algorithm ----------------------------------------------------

  /** `remove` on the first `n` places of a slice's array: the result is its first `n'` places.
      Nothing is written beyond the slice. */
  method RemoveInPlace(a: array<string>, n: nat, items: seq<string>) returns (n': nat)
    requires n <= a.Length
    modifies a
    ensures n' <= n && a[..n'] == Remove(old(a[..n]), items)
    ensures a[n..] == old(a[n..])
  {
    if n == 0 || |items| == 0 {
      return n;
    }
    if |items| == 1 {
      n' := RemoveFirstInPlace(a, n, items[0]);
      return;
    }
    n' := SweepInPlace(a, n, Range(items));
  }

  method SweepInPlace(a: array<string>, n: nat, itemSet: set<string>) returns (n': nat)
    requires n <= a.Length
    modifies a
    ensures n' <= n && a[..n'] == Sweep(old(a[..n]), itemSet)
    ensures a[n..] == old(a[n..])
  {
    var i, j := 0, n;   // the source's j is one less
    assert a[..0] + Sweep(a[0..n], itemSet) == Sweep(a[..n], itemSet);
    while i < j
      invariant i <= j <= n && a[n..] == old(a[n..])
      invariant a[..i] + Sweep(a[i..j], itemSet) == Sweep(old(a[..n]), itemSet)
      decreases j - i
    {
      ghost var before, kept := a[i..j], a[..i];
      if a[i] in itemSet {
        a[i] := a[j - 1];
        j := j - 1;
        assert a[..i] == kept;
        SweepDrops(before, a[i..j], itemSet);
      } else {
        i := i + 1;
        assert a[..i] == kept + [before[0]];
        SweepKeeps(kept, before, a[i..j], itemSet);
      }
    }
    assert a[i..j] == [];
    return i;
  }

  lemma SweepDrops(s: seq<string>, s': seq<string>, items: set<string>)
    requires s != [] && s[0] in items && |s'| == |s| - 1
    requires forall k :: 0 <= k < |s'| ==> s'[k] == if k == 0 then s[|s| - 1] else s[k]
    ensures Sweep(s', items) == Sweep(s, items)
  {
    if |s| > 1 {
      assert s' == [s[|s| - 1]] + s[1..|s| - 1];
    }
  }

  lemma SweepKeeps(kept: seq<string>, s: seq<string>, s': seq<string>, items: set<string>)
    requires s != [] && s[0] !in items && s' == s[1..]
    ensures kept + [s[0]] + Sweep(s', items) == kept + Sweep(s, items)
  {}

  method RemoveFirstInPlace(a: array<string>, n: nat, item: string) returns (n': nat)
    requires 0 < n <= a.Length
    modifies a
    ensures n' <= n && a[..n'] == RemoveFirst(old(a[..n]), item)
    ensures a[n..] == old(a[n..])
  {
    var idx := 0;
    while idx < n && a[idx] != item
      invariant idx <= n && item !in a[..idx]
    {
      assert a[..idx + 1] == a[..idx] + [a[idx]];
      idx := idx + 1;
    }
    if idx == n {
      return n;
    }
    ghost var s := a[..n];
    assert s[idx] == item && IndexOf(s, item) == idx by {
      FirstIsUnique(s, item, idx);
    }
    a[idx] := a[n - 1];
    assert a[..n - 1] == s[idx := s[n - 1]][..n - 1];
    return n - 1;
  }

  lemma FirstIsUnique(s: seq<string>, x: string, i: nat)
    requires i < |s| && s[i] == x && x !in s[..i]
    ensures IndexOf(s, x) == i
  {
    NotBefore(s, x, i);
    NotBefore(s, x, IndexOf(s, x));
  }

  lemma NotBefore(s: seq<string>, x: string, i: nat)
    requires i <= |s| && x !in s[..i]
    ensures forall k :: 0 <= k < i ==> s[k] != x
  {
    forall k | 0 <= k < i ensures s[k] != x {
      assert s[..i][k] in s[..i];
    }
  }

  // ---- what they mean ------------------------------------------------------------

  /** `kept` is what is left of `m` when every occurrence of an item is dropped. */
  ghost predicate Filters(m: multiset<string>, items: set<string>, kept: multiset<string>) {
    forall x :: kept[x] == if x in items then 0 else m[x]
  }

  lemma HeadAndRest(s: seq<string>, x: string)
    requires s != []
    ensures multiset(s)[x] == multiset(s[1..])[x] + if s[0] == x then 1 else 0
  {
    assert s == [s[0]] + s[1..];
  }

  /** Moving the last element to the front changes no count. */
  lemma LastToFront(s: seq<string>, x: string)
    requires s != []
    ensures multiset([s[|s| - 1]] + s[..|s| - 1])[x] == multiset(s)[x]
  {
    assert s == s[..|s| - 1] + [s[|s| - 1]];
  }

  lemma {:induction false} SweepCounts(s: seq<string>, items: set<string>, x: string)
    ensures multiset(Sweep(s, items))[x] == if x in items then 0 else multiset(s)[x]
    decreases |s|
  {
    if s == [] {
    } else if s[0] !in items {
      SweepCounts(s[1..], items, x);
      HeadAndRest(s, x);
      ConsCount(s[0], Sweep(s[1..], items), x);
    } else if |s| == 1 {
      HeadAndRest(s, x);
    } else {
      SweepCounts([s[|s| - 1]] + s[1..|s| - 1], items, x);
      LastReplacesFirst(s, x);
    }
  }

  lemma ConsCount(head: string, rest: seq<string>, x: string)
    ensures multiset([head] + rest)[x] == multiset(rest)[x] + if head == x then 1 else 0
  {}

  lemma LastReplacesFirst(s: seq<string>, x: string)
    requires |s| > 1
    ensures multiset([s[|s| - 1]] + s[1..|s| - 1])[x] == multiset(s)[x] - if s[0] == x then 1 else 0
  {
    HeadAndRest(s, x);
    LastToFront(s[1..], x);
    assert s[1..][..|s| - 2] == s[1..|s| - 1];
  }

  /** The two-index loop keeps exactly the elements outside the item set, each as often as it occurred. */
  lemma SweepFilters(s: seq<string>, items: set<string>)
    ensures Filters(multiset(s), items, multiset(Sweep(s, items)))
  {
    forall x ensures multiset(Sweep(s, items))[x] == if x in items then 0 else multiset(s)[x] {
      SweepCounts(s, items, x);
    }
  }

  /** The one-item form drops exactly one occurrence, if there is one. */
  lemma RemoveFirstDropsOne(s: seq<string>, x: string)
    ensures multiset(RemoveFirst(s, x)) == multiset(s) - multiset{x}
  {
    if x in s {
      MoveLast(s, IndexOf(s, x));
    }
  }

  lemma MoveLast(s: seq<string>, i: nat)
    requires i < |s|
    ensures multiset(s[i := s[|s| - 1]][..|s| - 1]) == multiset(s) - multiset{s[i]}
  {
    var j := |s| - 1;
    if i == j {
      assert s == s[..j] + [s[i]];
      assert s[i := s[j]][..j] == s[..j];
    } else {
      SplitAround(s, i);
      SwapCounts(s[..i], s[i], s[i + 1..j], s[j]);
    }
  }

  lemma SplitAround(s: seq<string>, i: nat)
    requires i < |s| - 1
    ensures var (a, b, j) := (s[..i], s[i + 1..|s| - 1], |s| - 1);
            s == a + [s[i]] + b + [s[j]] && s[i := s[j]][..j] == a + [s[j]] + b
  {}

  lemma SwapCounts(a: seq<string>, x: string, b: seq<string>, y: string)
    ensures multiset(a + [y] + b) == multiset(a + [x] + b + [y]) - multiset{x}
  {}

  /** Where things end up. One item: its first occurrence gives way to the last element. */
  lemma RemoveFirstMeans(s: seq<string>, x: string, i: nat)
    requires i < |s| && s[i] == x && x !in s[..i]
    ensures RemoveFirst(s, x) == if i == |s| - 1 then s[..i] else s[..i] + [s[|s| - 1]] + s[i + 1..|s| - 1]
  {
    FirstIsUnique(s, x, i);
  }

  /** Several items: whatever is kept and not needed further ahead stays where it is; so only the
      places of dropped elements are filled, from the end. */
  lemma {:induction false} SweepInPlaceStays(s: seq<string>, items: set<string>, p: nat)
    requires p < |Sweep(s, items)|
    ensures p < |s| && (s[p] !in items ==> Sweep(s, items)[p] == s[p])
    decreases |s|
  {
    if s[0] !in items {
      if p > 0 {
        SweepInPlaceStays(s[1..], items, p - 1);
      }
    } else if |s| > 1 {
      SweepInPlaceStays([s[|s| - 1]] + s[1..|s| - 1], items, p);
    }
  }

  /** ... and the last kept element goes to the first of those places. */
  lemma {:induction false} SweepMoves(a: seq<string>, x: string, b: seq<string>, y: string, items: set<string>)
    requires (forall k :: 0 <= k < |a| ==> a[k] !in items) && x in items && y !in items
    ensures Sweep(a + [x] + b + [y], items) == a + [y] + Sweep(b, items)
  {
    var s := a + [x] + b + [y];
    if a == [] {
      assert s == [x] + b + [y] && s[1..|s| - 1] == b && s[|s| - 1] == y;
      assert Sweep(s, items) == Sweep([y] + b, items);
      assert ([y] + b)[1..] == b;
    } else {
      assert s[1..] == a[1..] + [x] + b + [y];
      SweepMoves(a[1..], x, b, y, items);
      assert [a[0]] + (a[1..] + [y] + Sweep(b, items)) == a + [y] + Sweep(b, items);
    }
  }

  /** ... where a trailing run of dropped elements does not count. */
  lemma {:induction false} SweepDropsTail(s: seq<string>, y: string, items: set<string>)
    requires y in items
    ensures Sweep(s + [y], items) == Sweep(s, items)
    decreases |s|
  {
    var w := s + [y];
    if s == [] {
      assert w == [y];
    } else if s[0] !in items {
      assert w[1..] == s[1..] + [y];
      SweepDropsTail(s[1..], y, items);
    } else {
      // the dropped tail replaces the dropped head, and is dropped there
      assert w[1..|w| - 1] == s[1..] && w[|w| - 1] == y;
      DroppedHead(y, s, items);
    }
  }

  lemma DroppedHead(y: string, s: seq<string>, items: set<string>)
    requires s != [] && y in items && s[0] in items
    ensures Sweep([y] + s[1..], items) == Sweep(s, items)
  {
    if |s| > 1 {
      SweepHead(s, items);
      SweepHead([y] + s[1..], items);
      SameRest(y, s);
    }
  }

  lemma SweepHead(s: seq<string>, items: set<string>)
    requires |s| > 1 && s[0] in items
    ensures Sweep(s, items) == Sweep([s[|s| - 1]] + s[1..|s| - 1], items)
  {}

  lemma SameRest(y: string, s: seq<string>)
    requires |s| > 1
    ensures var w := [y] + s[1..]; [w[|w| - 1]] + w[1..|w| - 1] == [s[|s| - 1]] + s[1..|s| - 1]
  {}

  /** Removing what was just merged gives back the very same sequence, even if it was there before. */
  lemma MergeThenRemove(s: seq<string>, x: string)
    ensures Remove(Merge(s, [x]), [x]) == s
  {
    var t := s + [x];
    if x in s {
      var i := IndexOf(s, x);
      assert t[..i] == s[..i];
      FirstIsUnique(t, x, i);
      assert t[i := t[|s|]] == t;
    } else {
      assert t[..|s|] == s;
      FirstIsUnique(t, x, |s|);
    }
  }

  /** On duplicate-free lists the two forms agree as multisets. */
  lemma FormsAgree(s: seq<string>, x: string)
    requires Distinct(s)
    ensures multiset(RemoveFirst(s, x)) == multiset(Sweep(s, {x}))
  {
    RemoveFirstDropsOne(s, x);
    SweepFilters(s, {x});
    DistinctCounts(s, x);
    forall y ensures multiset(RemoveFirst(s, x))[y] == multiset(Sweep(s, {x}))[y] {}
  }

  lemma {:induction false} DistinctCounts(s: seq<string>, x: string)
    requires Distinct(s)
    ensures multiset(s)[x] <= 1
  {
    if s != [] {
      assert s == [s[0]] + s[1..];
      DistinctCounts(s[1..], x);
      assert x == s[0] ==> x !in s[1..];
    }
  }

  /** A removal leaves a list as it is exactly when none of its items is there. */
  lemma RemoveIdleIff(s: seq<string>, items: seq<string>)
    ensures Remove(s, items) == s <==> forall x :: x in items ==> x !in s
  {
    if s != [] && |items| == 1 {
      RemoveFirstDropsOne(s, items[0]);
    } else if s != [] && |items| > 1 {
      if forall x :: x in items ==> x !in s {
        SweepIdle(s, Range(items));
      } else {
        var x :| x in items && x in s;
        SweepFilters(s, Range(items));
        assert multiset(Sweep(s, Range(items)))[x] == 0 < multiset(s)[x];
      }
    }
  }

  /** A removal leaves nothing exactly when every element is one of its items and, in the one-item
      form, there is at most one element. */
  lemma RemoveClearsIff(s: seq<string>, items: seq<string>)
    ensures Remove(s, items) == [] <==> (forall x :: x in s ==> x in items) && (|items| == 1 ==> |s| <= 1)
  {
    if s != [] && |items| == 1 {
      if |s| == 1 {
        assert s[0] in s;
      }
    } else if s != [] && |items| > 1 {
      SweepFilters(s, Range(items));
      var kept := Sweep(s, Range(items));
      if kept != [] {
        assert multiset(kept)[kept[0]] > 0;
        assert multiset(s)[kept[0]] > 0;
      }
      forall x | x in s && x !in items ensures kept != [] {
        assert multiset(kept)[x] == multiset(s)[x] > 0;
      }
    } else if s != [] {
      assert s[0] in s;
    }
  }

  lemma {:induction false} SweepIdle(s: seq<string>, items: set<string>)
    requires forall x :: x in s ==> x !in items
    ensures Sweep(s, items) == s
  {
    if s != [] {
      assert s[0] in s;
      SweepIdle(s[1..], items);
    }
  }

  /** The multiset specification of a removal. */
  function Dropped(m: multiset<string>, items: seq<string>): multiset<string> {
    if |items| == 1 then m - multiset{items[0]} else Zeroed(m, items)
  }

  function Zeroed(m: multiset<string>, items: seq<string>): multiset<string> {
    if items == [] then m else Zeroed(m, items[1..])[items[0] := 0]
  }

  lemma {:induction false} ZeroedCounts(m: multiset<string>, items: seq<string>, x: string)
    ensures Zeroed(m, items)[x] == if x in items then 0 else m[x]
  {
    if items != [] {
      ZeroedCounts(m, items[1..], x);
    }
  }

  lemma RemoveRefines(s: seq<string>, items: seq<string>)
    ensures multiset(Remove(s, items)) == Dropped(multiset(s), items)
  {
    if s != [] && |items| == 1 {
      RemoveFirstDropsOne(s, items[0]);
    } else {
      forall x ensures multiset(Remove(s, items))[x] == Dropped(multiset(s), items)[x] {
        if |items| != 1 {
          ZeroedCounts(multiset(s), items, x);
          SweepCounts(s, Range(items), x);
        }
      }
    }
  }
}
