/** The candidate queue: a binary heap with the greatest score at its root. */
module SearchQueue {
  import opened SearchModel

  function Parent(i: nat): nat
    requires i > 0
  {
    (i - 1) / 2
  }

  /** No item beats its parent. */
  ghost predicate IsHeap(s: seq<Item>) {
    forall i :: 0 < i < |s| ==> s[Parent(i)].score >= s[i].score
  }

  lemma {:induction false} RootIsMax(s: seq<Item>, i: nat)
    requires IsHeap(s) && i < |s|
    ensures s[0].score >= s[i].score
  {
    if i > 0 {
      RootIsMax(s, Parent(i));
    }
  }

  /** A heap but for the item at `j`, which may beat its parent. */
  ghost predicate Rising(s: seq<Item>, j: nat) {
    && j < |s|
    && (forall i :: 0 < i < |s| && i != j ==> s[Parent(i)].score >= s[i].score)
    && (forall i :: 0 < i < |s| && 0 < j == Parent(i) ==> s[Parent(j)].score >= s[i].score)
  }

  /** The first `n` items are a heap but for the item at `i`, which its children may beat. */
  ghost predicate Sinking(s: seq<Item>, n: nat, i: nat) {
    && i <= n <= |s|
    && (forall k :: 0 < k < n && Parent(k) != i ==> s[Parent(k)].score >= s[k].score)
    && (forall k :: 0 < k < n && 0 < i == Parent(k) ==> s[Parent(i)].score >= s[k].score)
  }

  function Swapped(s: seq<Item>, i: nat, j: nat): (r: seq<Item>)
    requires i < |s| && j < |s|
    ensures |r| == |s| && multiset(r) == multiset(s)
  {
    s[i := s[j]][j := s[i]]
  }

  lemma RiseStep(s: seq<Item>, j: nat)
    requires Rising(s, j) && j > 0 && s[j].score > s[Parent(j)].score
    ensures Rising(Swapped(s, Parent(j), j), Parent(j))
  {
  }

  /** `j` is a child of `i` that no other child beats. */
  predicate BestChild(s: seq<Item>, n: nat, i: nat, j: nat) {
    && i < j < n <= |s| && (j == 2 * i + 1 || j == 2 * i + 2)
    && (j == 2 * i + 1 && j + 1 < n ==> s[j + 1].score <= s[j].score)
    && (j == 2 * i + 2 ==> s[j - 1].score <= s[j].score)
  }

  lemma Greatest(s: seq<Item>, n: nat, i: nat, j: nat)
    requires BestChild(s, n, i, j)
    ensures Parent(j) == i && forall k :: 0 < k < n && Parent(k) == i ==> s[j].score >= s[k].score
  {
    forall k | 0 < k < n && Parent(k) == i ensures k == 2 * i + 1 || k == 2 * i + 2 {
    }
  }

  lemma SinkStep(s: seq<Item>, n: nat, i: nat, j: nat)
    requires Sinking(s, n, i) && BestChild(s, n, i, j) && s[j].score > s[i].score
    ensures Sinking(Swapped(s, i, j), n, j) && Swapped(s, i, j)[n..] == s[n..]
  {
    Greatest(s, n, i, j);
  }

  lemma Unbeaten(s: seq<Item>, n: nat, i: nat, j: nat)
    requires Sinking(s, n, i) && BestChild(s, n, i, j) && s[j].score <= s[i].score
    ensures IsHeap(s[..n])
  {
    Greatest(s, n, i, j);
  }

  lemma NoChild(s: seq<Item>, n: nat, i: nat)
    requires Sinking(s, n, i) && 2 * i + 1 >= n
    ensures IsHeap(s[..n])
  {
  }

  lemma SinkingSize(s: seq<Item>, n: nat, i: nat)
    requires Sinking(s, n, i)
    ensures i <= n <= |s|
  {
  }

  lemma Appended(s: seq<Item>, item: Item)
    requires IsHeap(s)
    ensures Rising(s + [item], |s|)
  {
  }

  lemma RootSwapped(s: seq<Item>)
    requires IsHeap(s) && s != []
    ensures Sinking(Swapped(s, 0, |s| - 1), |s| - 1, 0)
  {
  }

  class PriorityQueue {
    var items: seq<Item>

    constructor ()
      ensures items == [] && IsHeap(items)
    {
      items := [];
    }

    predicate Less(i: nat, j: nat)
      requires i < |items| && j < |items|
      reads this
    {
      items[i].score > items[j].score
    }

    method Swap(i: nat, j: nat)
      requires i < |items| && j < |items|
      modifies this
      ensures items == Swapped(old(items), i, j)
    {
      items := items[i := items[j]][j := items[i]];
    }

    /** Adds an item; the heap keeps its order and its other items. */
    method Push(item: Item)
      requires IsHeap(items)
      modifies this
      ensures IsHeap(items) && multiset(items) == multiset(old(items)) + multiset{item}
    {
      Appended(items, item);
      items := items + [item];
      Up(|items| - 1);
    }

    method Up(start: nat)
      requires Rising(items, start)
      modifies this
      ensures IsHeap(items) && multiset(items) == multiset(old(items))
    {
      var j := start;
      while j > 0 && Less(j, Parent(j))
        invariant Rising(items, j) && multiset(items) == multiset(old(items))
        decreases j
      {
        RiseStep(items, j);
        Swap(Parent(j), j);
        j := Parent(j);
      }
    }

    method Down(n: nat)
      requires Sinking(items, n, 0)
      modifies this
      ensures |items| == |old(items)| && IsHeap(items[..n]) && items[n..] == old(items)[n..]
      ensures multiset(items) == multiset(old(items))
    {
      hide Sinking, IsHeap, Swapped, Parent;
      SinkingSize(items, n, 0);
      var i := 0;
      while 2 * i + 1 < n
        invariant Sinking(items, n, i) && multiset(items) == multiset(old(items))
        invariant i <= n <= |items| == |old(items)| && items[n..] == old(items)[n..]
        decreases n - i
      {
        var j := 2 * i + 1;
        if j + 1 < n && Less(j + 1, j) {
          j := j + 1;
        }
        if !Less(j, i) {
          Unbeaten(items, n, i, j);
          return;
        }
        SinkStep(items, n, i, j);
        Swap(i, j);
        i := j;
      }
      NoChild(items, n, i);
    }

    /** Removes an item of the greatest score. */
    method Pop() returns (item: Item)
      requires items != [] && IsHeap(items)
      modifies this
      ensures IsHeap(items) && multiset(old(items)) == multiset(items) + multiset{item}
      ensures |items| == |old(items)| - 1
      ensures forall x :: x in old(items) ==> x.score <= item.score
    {
      var n := |items| - 1;
      forall k | 0 <= k < |items| ensures items[0].score >= items[k].score {
        RootIsMax(items, k);
      }
      RootSwapped(items);
      Swap(0, n);
      Down(n);
      item := items[n];
      assert items == items[..n] + [item];
      items := items[..n];
    }
  }
}
