/** Small things that several modules use. */
module Basics {
  datatype Option<+T> = None | Some(value: T)

  predicate Digit(c: char) { '0' <= c <= '9' }

  predicate Distinct<T(==)>(s: seq<T>) {
    forall i, j | 0 <= i < j < |s| :: s[i] != s[j]
  }

  predicate Increasing(s: seq<int>) {
    forall i, j | 0 <= i < j < |s| :: s[i] < s[j]
  }

  lemma Assoc<T>(a: seq<T>, b: seq<T>, c: seq<T>)
    ensures a + b + c == a + (b + c)
  {
  }

  lemma EmptyOrNot(keys: set<int>)
    ensures keys == {} || exists x: int :: x in keys
  {
    if forall x: int :: x !in keys { assert keys == {}; }
  }

  /** There is only one way to put elements in increasing order. */
  lemma {:induction false} IncreasingUnique(r: seq<int>, r': seq<int>)
    requires Increasing(r) && Increasing(r') && forall x :: x in r <==> x in r'
    ensures r == r'
    decreases r
  {
    if r == [] {
      assert forall i | 0 <= i < |r'| :: r'[i] in r;
    } else {
      assert r[0] in r && r[0] in r';
      LastIsGreatest(r);
      LastIsGreatest(r');
      assert r[|r| - 1] == r'[|r'| - 1];
      var front, front' := r[..|r| - 1], r'[..|r'| - 1];
      forall x ensures x in front <==> x in front' {
        assert x in r <==> x in r';
      }
      IncreasingUnique(front, front');
      assert r == r[..|r| - 1] + [r[|r| - 1]];
    }
  }

  lemma LastIsGreatest(r: seq<int>)
    requires Increasing(r) && r != []
    ensures var last := r[|r| - 1];
      last in r && forall x :: x in r[..|r| - 1] <==> x in r && x < last
  {
    var last, front := r[|r| - 1], r[..|r| - 1];
    assert r == front + [last];
  }

  lemma WithOrWithout<T>(ts: set<T>, t: T)
    ensures |ts| == |ts - {t}| + if t in ts then 1 else 0
  {
    assert ts == if t in ts then (ts - {t}) + {t} else ts - {t};
  }

  lemma AtLeastTwo<T>(ts: set<T>, t: T, u: T)
    requires t in ts && u in ts && t != u
    ensures |ts| >= 2
  {
    assert |ts - {t}| == |ts| - 1;
    assert u in ts - {t};
  }
}
