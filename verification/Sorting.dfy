/** Insertion sort as the reference definition of "sorted", and order statistics by
    counting. */
module Sorting {
  predicate SortedUp(s: seq<nat>) {
    forall i, j | 0 <= i < j < |s| :: s[i] <= s[j]
  }

  function Insert(x: nat, s: seq<nat>): (r: seq<nat>)
    ensures |r| == |s| + 1
  {
    if s == [] || x <= s[0] then [x] + s else [s[0]] + Insert(x, s[1..])
  }

  function Sort(s: seq<nat>): (r: seq<nat>)
    ensures |r| == |s|
  {
    if s == [] then [] else Insert(s[0], Sort(s[1..]))
  }

  lemma {:induction false} InsertKeeps(x: nat, s: seq<nat>)
    ensures multiset(Insert(x, s)) == multiset{x} + multiset(s)
    ensures forall y | y in Insert(x, s) :: y == x || y in s
  {
    if s == [] || x <= s[0] {
    } else {
      InsertKeeps(x, s[1..]);
      assert s == [s[0]] + s[1..];
    }
  }

  lemma {:induction false} InsertSorts(x: nat, s: seq<nat>)
    requires SortedUp(s)
    ensures SortedUp(Insert(x, s))
  {
    if s == [] || x <= s[0] {
    } else {
      InsertSorts(x, s[1..]);
      InsertKeeps(x, s[1..]);
      var rest := Insert(x, s[1..]);
      forall j | 0 <= j < |rest|
        ensures s[0] <= rest[j]
      {
        assert rest[j] in rest;
      }
    }
  }

  /** Sort is a sorting function. */
  lemma {:induction false} SortSorts(s: seq<nat>)
    ensures SortedUp(Sort(s)) && multiset(Sort(s)) == multiset(s)
  {
    if s != [] {
      SortSorts(s[1..]);
      InsertSorts(s[0], Sort(s[1..]));
      InsertKeeps(s[0], Sort(s[1..]));
      assert s == [s[0]] + s[1..];
    }
  }

  /** How many elements are at most v. */
  function CountAtMost(s: seq<nat>, v: int): (n: nat)
    ensures n <= |s|
  {
    if s == [] then 0
    else CountAtMost(s[..|s| - 1], v) + if s[|s| - 1] <= v then 1 else 0
  }

  /** How many elements equal v. */
  function CountEqual(s: seq<nat>, v: int): (n: nat)
    ensures n <= |s|
  {
    if s == [] then 0
    else CountEqual(s[..|s| - 1], v) + if s[|s| - 1] == v then 1 else 0
  }

  lemma {:induction false} CountStep(s: seq<nat>, v: int)
    ensures CountAtMost(s, v) == CountAtMost(s, v - 1) + CountEqual(s, v)
  {
    if s != [] {
      CountStep(s[..|s| - 1], v);
    }
  }

  lemma {:induction false} CountConcat(s: seq<nat>, t: seq<nat>, v: int)
    ensures CountAtMost(s + t, v) == CountAtMost(s, v) + CountAtMost(t, v)
  {
    if t == [] {
      assert s + t == s;
    } else {
      assert (s + t)[..|s + t| - 1] == s + t[..|t| - 1];
      CountConcat(s, t[..|t| - 1], v);
    }
  }

  lemma CountOne(x: nat, v: int)
    ensures CountAtMost([x], v) == if x <= v then 1 else 0
  {
    assert [x][..0] == [];
  }

  lemma {:induction false} InsertCount(x: nat, s: seq<nat>, v: int)
    ensures CountAtMost(Insert(x, s), v) == CountAtMost(s, v) + if x <= v then 1 else 0
  {
    CountOne(x, v);
    if s == [] || x <= s[0] {
      CountConcat([x], s, v);
    } else {
      InsertCount(x, s[1..], v);
      CountConcat([s[0]], Insert(x, s[1..]), v);
      CountConcat([s[0]], s[1..], v);
      assert s == [s[0]] + s[1..];
    }
  }

  lemma {:induction false} SortCount(s: seq<nat>, v: int)
    ensures CountAtMost(Sort(s), v) == CountAtMost(s, v)
  {
    if s != [] {
      SortCount(s[1..], v);
      InsertCount(s[0], Sort(s[1..]), v);
      CountOne(s[0], v);
      CountConcat([s[0]], s[1..], v);
      assert s == [s[0]] + s[1..];
    }
  }

  lemma {:induction false} SortedCount(t: seq<nat>, k: nat, v: int)
    requires SortedUp(t) && k < |t|
    ensures k < CountAtMost(t, v) <==> t[k] <= v
  {
    var init := t[..|t| - 1];
    if k < |init| {
      SortedCount(init, k, v);
      assert init[k] == t[k];
      if t[|t| - 1] <= v {
        assert t[k] <= v;
      }
    } else if v < t[k] {
    } else {
      AllCounted(t, v);
    }
  }

  lemma {:induction false} AllCounted(t: seq<nat>, v: int)
    requires forall i | 0 <= i < |t| :: t[i] <= v
    ensures CountAtMost(t, v) == |t|
  {
    if t != [] {
      AllCounted(t[..|t| - 1], v);
    }
  }

  /** The k-th smallest element is at most v exactly when more than k elements are. */
  lemma OrderStatistic(s: seq<nat>, k: nat, v: int)
    requires k < |s|
    ensures Sort(s)[k] <= v <==> k < CountAtMost(s, v)
  {
    SortSorts(s);
    SortCount(s, v);
    SortedCount(Sort(s), k, v);
  }

  /** An element of the sorted sequence is an element of the sequence. */
  lemma SortElement(s: seq<nat>, k: nat)
    requires k < |s|
    ensures Sort(s)[k] in s
  {
    SortSorts(s);
    assert Sort(s)[k] in multiset(Sort(s));
  }
}
