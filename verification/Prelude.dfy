/** Small shared vocabulary: optional values and facts about finite sets and sequences. */
module Prelude {
  datatype Option<+T> = None | Some(value: T)

  ghost predicate Distinct<T>(s: seq<T>) {
    forall i, j :: 0 <= i < j < |s| ==> s[i] != s[j]
  }

  /** The slots of `s` that are still empty. */
  function Empties<T>(s: seq<Option<T>>): nat {
    if s == [] then 0 else Empties(s[..|s| - 1]) + (if s[|s| - 1].None? then 1 else 0)
  }

  lemma {:induction false} EmptiesZero<T>(s: seq<Option<T>>)
    ensures Empties(s) == 0 <==> forall i :: 0 <= i < |s| ==> s[i].Some?
  {
    if s != [] {
      EmptiesZero(s[..|s| - 1]);
      assert forall i :: 0 <= i < |s| - 1 ==> s[..|s| - 1][i] == s[i];
    }
  }

  /** Filling one empty slot lowers the count by exactly one. */
  lemma {:induction false} EmptiesFill<T>(s: seq<Option<T>>, i: nat, v: T)
    requires i < |s| && s[i].None?
    ensures Empties(s[i := Some(v)]) == Empties(s) - 1
  {
    var last := |s| - 1;
    if i < last {
      EmptiesFill(s[..last], i, v);
      assert s[i := Some(v)][..last] == s[..last][i := Some(v)];
    } else {
      assert s[i := Some(v)][..last] == s[..last];
    }
  }

  lemma {:induction false} EmptiesFresh<T>(s: seq<Option<T>>)
    requires forall i :: 0 <= i < |s| ==> s[i].None?
    ensures Empties(s) == |s|
  {
    if s != [] {
      EmptiesFresh(s[..|s| - 1]);
    }
  }

  lemma {:induction false} SubsetCard<T>(a: set<T>, b: set<T>)
    requires a <= b
    ensures |a| <= |b|
    ensures a < b ==> |a| < |b|
  {
    assert b == a + (b - a);
    assert a !! (b - a);
    if a < b {
      var x :| x in b && x !in a;
      assert x in b - a;
    }
  }

  /** An injective map from `a` into `b` shows that `a` is no larger than `b`. */
  lemma {:induction false} InjectionCard<S, T>(a: set<S>, b: set<T>, f: map<S, T>)
    requires a <= f.Keys
    requires forall x :: x in a ==> f[x] in b
    requires forall x, y :: x in a && y in a && f[x] == f[y] ==> x == y
    ensures |a| <= |b|
    decreases a
  {
    if a != {} {
      var x :| x in a;
      InjectionCard(a - {x}, b - {f[x]}, f);
    }
  }

  /** An injective map from `a` onto `b` shows that they are equally large. */
  lemma {:induction false} BijectionCard<S, T>(a: set<S>, b: set<T>, f: map<S, T>)
    requires a <= f.Keys
    requires forall x :: x in a ==> f[x] in b
    requires forall x, y :: x in a && y in a && f[x] == f[y] ==> x == y
    requires forall y :: y in b ==> exists x :: x in a && f[x] == y
    ensures |a| == |b|
    decreases a
  {
    if a != {} {
      var x :| x in a;
      BijectionCard(a - {x}, b - {f[x]}, f);
    }
  }

  lemma {:induction false} DistinctCard<T>(s: seq<T>)
    requires Distinct(s)
    ensures |set x | x in s| == |s|
  {
    if s != [] {
      var front, last := s[..|s| - 1], s[|s| - 1];
      DistinctCard(front);
      assert (set x | x in s) == (set x | x in front) + {last};
    }
  }
}
