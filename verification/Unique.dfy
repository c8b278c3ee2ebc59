/** A list without its duplicates, in one of three ways (agent/mmc/database/utilities.py:29-95). */
module Unique {
  import opened Basics

  ghost predicate SameElements<T>(s: seq<T>, t: seq<T>) {
    (forall x | x in s :: x in t) && forall x | x in t :: x in s
  }

  /** What every way of doing it promises. */
  ghost predicate WithoutDuplicates<T>(r: seq<T>, s: seq<T>) { Distinct(r) && SameElements(r, s) }

  /** The order that elements are assumed to have if they can be sorted. */
  ghost predicate TotalOrder<T(!new)>(leq: (T, T) -> bool) {
    && (forall x, y :: leq(x, y) || leq(y, x))
    && (forall x, y :: leq(x, y) && leq(y, x) ==> x == y)
    && (forall x, y, z :: leq(x, y) && leq(y, z) ==> leq(x, z))
  }

  ghost predicate Ascending<T>(s: seq<T>, leq: (T, T) -> bool) {
    forall i, j | 0 <= i < j < |s| :: leq(s[i], s[j])
  }

  ghost predicate StrictlyAscending<T>(s: seq<T>, leq: (T, T) -> bool) {
    forall i, j | 0 <= i < j < |s| :: leq(s[i], s[j]) && s[i] != s[j]
  }

  /** The elements at their first occurrences, in order. */
  function FirstOccurrences<T(==)>(s: seq<T>): seq<T> {
    if s == [] then []
    else
      var front, last := s[..|s| - 1], s[|s| - 1];
      FirstOccurrences(front) + if last in front then [] else [last]
  }

  // ----- the results agree -----

  lemma {:induction false} CountOnce<T>(s: seq<T>, x: T)
    requires Distinct(s)
    ensures multiset(s)[x] == if x in s then 1 else 0
    decreases s
  {
    if s != [] {
      var front, last := s[..|s| - 1], s[|s| - 1];
      assert s == front + [last];
      CountOnce(front, x);
      assert last !in front;
    }
  }

  /** Any two results are permutations of each other. */
  lemma ResultsArePermutations<T(!new)>(r: seq<T>, r': seq<T>, s: seq<T>)
    requires WithoutDuplicates(r, s) && WithoutDuplicates(r', s)
    ensures multiset(r) == multiset(r') && |r| == |r'|
  {
    forall x ensures multiset(r)[x] == multiset(r')[x] {
      CountOnce(r, x);
      CountOnce(r', x);
    }
    assert multiset(r) == multiset(r');
    assert |r| == |multiset(r)| && |r'| == |multiset(r')|;
  }

  function IndexOf<T(==)>(s: seq<T>, x: T): (i: nat)
    requires x in s
    ensures i < |s| && s[i] == x && x !in s[..i]
  {
    if s[0] == x then 0
    else
      assert s == [s[0]] + s[1..];
      var i := IndexOf(s[1..], x);
      assert s[..1 + i] == [s[0]] + s[1..][..i];
      1 + i
  }

  /** First occurrences are distinct, complete, and in the order of their first places. */
  lemma {:induction false} FirstOccurrencesAre<T>(s: seq<T>)
    ensures WithoutDuplicates(FirstOccurrences(s), s)
    ensures forall i, j | 0 <= i < j < |FirstOccurrences(s)| ::
      FirstOccurrences(s)[i] in s && FirstOccurrences(s)[j] in s &&
      IndexOf(s, FirstOccurrences(s)[i]) < IndexOf(s, FirstOccurrences(s)[j])
    decreases s
  {
    if s != [] {
      var front, last := s[..|s| - 1], s[|s| - 1];
      var f, r := FirstOccurrences(front), FirstOccurrences(s);
      assert s == front + [last];
      FirstOccurrencesAre(front);
      assert SameElements(r, s);
      forall x | x in front ensures IndexOf(s, x) == IndexOf(front, x) < |front| {
        IndexGrows(front, last, x);
      }
      if last !in front {
        assert s[..|front|] == front;
        IndexIs(s, last, |front|);
      }
      assert forall i | 0 <= i < |f| :: f[i] in f;
    }
  }

  lemma IndexGrows<T>(front: seq<T>, last: T, x: T)
    requires x in front
    ensures x in front + [last] && IndexOf(front + [last], x) == IndexOf(front, x)
  {
    var i := IndexOf(front, x);
    assert (front + [last])[..i] == front[..i];
    IndexIs(front + [last], x, i);
  }

  lemma {:induction false} IndexIs<T>(s: seq<T>, x: T, i: nat)
    requires i < |s| && s[i] == x && x !in s[..i]
    ensures x in s && IndexOf(s, x) == i
  {
    var j := IndexOf(s, x);
    assert forall k | 0 <= k < j :: s[k] in s[..j];
    assert forall k | 0 <= k < i :: s[k] in s[..i];
  }

  // ----- the three ways -----

  /** The keys of a dictionary, in no particular order; none if an element cannot be hashed. */
  method ByDict<T(==, !new)>(s: seq<T>, hashable: T -> bool) returns (r: Option<seq<T>>)
    ensures r.None? <==> exists x :: x in s && !hashable(x)
    ensures r.Some? ==> WithoutDuplicates(r.value, s)
  {
    var u: set<T> := {};
    for i := 0 to |s|
      invariant forall x :: x in u <==> x in s[..i]
      invariant forall x | x in s[..i] :: hashable(x)
    {
      assert s[..i + 1] == s[..i] + [s[i]];
      if !hashable(s[i]) { return None; }
      u := u + {s[i]};
    }
    assert s[..|s|] == s;
    var keys := Enumerate(u);
    return Some(keys);
  }

  method Enumerate<T(==, !new)>(u: set<T>) returns (r: seq<T>)
    ensures Distinct(r) && forall x :: x in r <==> x in u
  {
    var left := u;
    r := [];
    while left != {}
      invariant left <= u && Distinct(r)
      invariant forall x :: x in r <==> x in u && x !in left
      decreases |left|
    {
      var x :| x in left;
      left := left - {x};
      r := r + [x];
    }
  }

  /** The compaction: equal elements are side by side, and each group leaves one behind. */
  method Compact<T(==, !new)>(t: array<T>, ghost leq: (T, T) -> bool) returns (lasti: nat)
    requires t.Length > 0 && TotalOrder(leq) && Ascending(t[..], leq)
    modifies t
    ensures 1 <= lasti <= t.Length
    ensures StrictlyAscending(t[..lasti], leq) && SameElements(t[..lasti], old(t[..]))
  {
    ghost var was := t[..];
    var last := t[0];
    lasti := 1;
    var i := 1;
    assert was[..1] == [was[0]] && t[..1] == [t[0]];
    while i < t.Length
      invariant 1 <= lasti <= i <= t.Length
      invariant last == t[lasti - 1] == was[i - 1]
      invariant StrictlyAscending(t[..lasti], leq) && SameElements(t[..lasti], was[..i])
      invariant forall k | i <= k < t.Length :: t[k] == was[k]
    {
      ghost var kept := t[..lasti];
      assert was[..i + 1] == was[..i] + [was[i]];
      if t[i] != last {
        var x := t[i];
        assert leq(was[i - 1], was[i]);
        t[lasti], last := x, x;
        lasti := lasti + 1;
        assert t[..lasti] == kept + [x];
      } else {
        assert kept[|kept| - 1] == was[i];
      }
      i := i + 1;
    }
    assert was[..t.Length] == was;
  }

  function Insert<T>(x: T, s: seq<T>, leq: (T, T) -> bool): seq<T> {
    if s == [] then [x] else if leq(x, s[0]) then [x] + s else [s[0]] + Insert(x, s[1..], leq)
  }

  /** The list's own sort. */
  function Sorted<T>(s: seq<T>, leq: (T, T) -> bool): seq<T> {
    if s == [] then [] else Insert(s[0], Sorted(s[1..], leq), leq)
  }

  lemma {:induction false} InsertMembers<T(!new)>(x: T, s: seq<T>, leq: (T, T) -> bool)
    ensures forall y :: y in Insert(x, s, leq) <==> y == x || y in s
    decreases s
  {
    if s != [] && !leq(x, s[0]) {
      InsertMembers(x, s[1..], leq);
      assert forall y :: y in s <==> y == s[0] || y in s[1..];
    }
  }

  lemma {:induction false} InsertSorts<T(!new)>(x: T, s: seq<T>, leq: (T, T) -> bool)
    requires TotalOrder(leq) && Ascending(s, leq)
    ensures Ascending(Insert(x, s, leq), leq)
    decreases s
  {
    if s != [] {
      if leq(x, s[0]) {
        forall i | 0 <= i < |s| ensures leq(x, s[i]) {
          if i > 0 { assert leq(s[0], s[i]); }
        }
      } else {
        var rest := Insert(x, s[1..], leq);
        InsertSorts(x, s[1..], leq);
        InsertMembers(x, s[1..], leq);
        forall i | 0 <= i < |rest| ensures leq(s[0], rest[i]) {
          assert rest[i] in rest;
        }
      }
    }
  }

  lemma {:induction false} SortedSorts<T(!new)>(s: seq<T>, leq: (T, T) -> bool)
    requires TotalOrder(leq)
    ensures Ascending(Sorted(s, leq), leq) && SameElements(Sorted(s, leq), s)
    decreases s
  {
    if s != [] {
      SortedSorts(s[1..], leq);
      InsertSorts(s[0], Sorted(s[1..], leq), leq);
      InsertMembers(s[0], Sorted(s[1..], leq), leq);
      assert forall y :: y in s <==> y == s[0] || y in s[1..];
    }
  }

  method BySort<T(==, !new)>(s: seq<T>, leq: (T, T) -> bool) returns (r: seq<T>)
    requires s != [] && TotalOrder(leq)
    ensures WithoutDuplicates(r, s) && StrictlyAscending(r, leq)
  {
    SortedSorts(s, leq);
    var sorted := Sorted(s, leq);
    assert s[0] in sorted;
    var t := new T[|sorted|](i requires 0 <= i < |sorted| => sorted[i]);
    assert t[..] == sorted;
    var lasti := Compact(t, leq);
    r := t[..lasti];
  }

  method ByBruteForce<T(==)>(s: seq<T>) returns (r: seq<T>)
    ensures r == FirstOccurrences(s) && WithoutDuplicates(r, s)
  {
    r := [];
    for i := 0 to |s|
      invariant r == FirstOccurrences(s[..i])
    {
      FirstOccurrencesAre(s[..i]);
      assert s[..i + 1][..i] == s[..i];
      if s[i] !in r { r := r + [s[i]]; }
    }
    assert s[..|s|] == s;
    FirstOccurrencesAre(s);
  }

  /** `unique`.  `sortable` is whether sorting the list raises no exception; then its order is
      assumed to be total. */
  method Unique<T(==, !new)>(s: seq<T>, hashable: T -> bool, sortable: bool, leq: (T, T) -> bool) returns (r: seq<T>)
    requires sortable ==> TotalOrder(leq)
    ensures WithoutDuplicates(r, s)
    ensures (exists x :: x in s && !hashable(x)) ==>
      if sortable then StrictlyAscending(r, leq) else r == FirstOccurrences(s)
  {
    if s == [] { return []; }
    var keys := ByDict(s, hashable);
    if keys.Some? { return keys.value; }
    if sortable {
      r := BySort(s, leq);
    } else {
      r := ByBruteForce(s);
    }
  }
}
