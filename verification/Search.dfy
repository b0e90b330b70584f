/** The search itself: a queue, two maps, and the convergence test. */
module Search {
  import opened Prelude
  import opened Strings
  import opened SearchModel
  import opened SearchQueue
  import opened SearchSteps
  import opened SearchLaws

  datatype Ranked = Ranked(uri: string, score: real)

  ghost predicate Descending(items: seq<Ranked>) {
    forall i, j :: 0 <= i < j < |items| ==> items[i].score >= items[j].score
  }

  /** The order of equal scores is left open. */
  method SortDescending(items: seq<Ranked>) returns (r: seq<Ranked>)
    ensures multiset(r) == multiset(items) && |r| == |items| && Descending(r)
  {
    hide Descending;
    NothingDescending();
    r := [];
    for i := 0 to |items|
      invariant multiset(r) == multiset(items[..i]) && |r| == i && Descending(r)
    {
      assert items[..i + 1] == items[..i] + [items[i]];
      var k := FindSlot(r, items[i]);
      assert r == r[..k] + r[k..];
      Inserted(r[..k], items[i], r[k..]);
      r := r[..k] + [items[i]] + r[k..];
    }
    assert items[..|items|] == items;
  }

  method FindSlot(r: seq<Ranked>, x: Ranked) returns (k: nat)
    ensures k <= |r| && (k > 0 ==> r[k - 1].score >= x.score)
    ensures forall j :: k <= j < |r| ==> r[j].score < x.score
  {
    k := |r|;
    while k > 0 && r[k - 1].score < x.score
      invariant k <= |r|
      invariant forall j :: k <= j < |r| ==> r[j].score < x.score
    {
      k := k - 1;
    }
  }

  lemma NothingDescending()
    ensures Descending([])
  {
  }

  lemma Inserted(a: seq<Ranked>, x: Ranked, b: seq<Ranked>)
    requires Descending(a + b)
    requires a != [] ==> a[|a| - 1].score >= x.score
    requires b != [] ==> b[0].score < x.score
    ensures Descending(a + [x] + b) && multiset(a + [x] + b) == multiset(a + b) + multiset{x}
  {
    hide Descending;
    DescendingParts(a, b, x);
    DescendingJoin(a, [x]);
    DescendingJoin(a + [x], b);
  }

  lemma DescendingParts(a: seq<Ranked>, b: seq<Ranked>, x: Ranked)
    requires Descending(a + b)
    ensures Descending(a) && Descending(b) && Descending([x])
  {
    assert (a + b)[..|a|] == a && (a + b)[|a|..] == b;
  }

  lemma DescendingJoin(a: seq<Ranked>, b: seq<Ranked>)
    requires Descending(a) && Descending(b)
    requires a != [] && b != [] ==> a[|a| - 1].score >= b[0].score
    ensures Descending(a + b)
  {
  }

  ghost predicate Lists(items: seq<Ranked>, collected: Collected, rank: Record -> real) {
    && |items| == |collected|
    && (forall i :: 0 <= i < |items| ==> items[i].uri in collected && items[i].score == rank(collected[items[i].uri]))
    && (forall i, j :: 0 <= i < j < |items| ==> items[i].uri != items[j].uri)
  }

  /** Every collected URI once, with its rank, in the order of a map iteration. */
  method ListRanks(collected: Collected, rank: Record -> real) returns (items: seq<Ranked>)
    ensures Lists(items, collected, rank)
    ensures forall u :: u in collected ==> Ranked(u, rank(collected[u])) in items
  {
    items := [];
    var rest := collected.Keys;
    while rest != {}
      invariant rest <= collected.Keys && |items| == |collected.Keys| - |rest|
      invariant forall i :: 0 <= i < |items| ==>
                              && items[i].uri in collected.Keys - rest
                              && items[i].score == rank(collected[items[i].uri])
      invariant forall i, j :: 0 <= i < j < |items| ==> items[i].uri != items[j].uri
      invariant forall u :: u in collected.Keys - rest ==> Ranked(u, rank(collected[u])) in items
      decreases |rest|
    {
      var u :| u in rest;
      items := items + [Ranked(u, rank(collected[u]))];
      rest := rest - {u};
    }
  }

  lemma PermutedLists(items: seq<Ranked>, sorted: seq<Ranked>, collected: Collected, rank: Record -> real)
    requires Lists(items, collected, rank) && multiset(sorted) == multiset(items)
    ensures Lists(sorted, collected, rank)
  {
    assert |sorted| == |multiset(sorted)| == |multiset(items)| == |items|;
    forall i | 0 <= i < |sorted|
      ensures sorted[i].uri in collected && sorted[i].score == rank(collected[sorted[i].uri])
    {
      assert sorted[i] in multiset(items);
      assert sorted[i] in items;
    }
    forall i, j | 0 <= i < j < |sorted| ensures sorted[i].uri != sorted[j].uri {
      assert sorted[i] in multiset(items) && sorted[i] in items;
      assert sorted[j] in multiset(items) && sorted[j] in items;
      if sorted[i] == sorted[j] {
        OnceEach(items, sorted[i]);
        TwiceIn(sorted, i, j);
      }
    }
  }

  lemma {:induction false} OnceEach(items: seq<Ranked>, x: Ranked)
    requires forall i, j :: 0 <= i < j < |items| ==> items[i].uri != items[j].uri
    ensures multiset(items)[x] <= 1
  {
    if items != [] {
      var last := |items| - 1;
      OnceEach(items[..last], x);
      assert items == items[..last] + [items[last]];
      if x == items[last] {
        assert x !in items[..last];
        assert x !in multiset(items[..last]);
      }
    }
  }

  lemma TwiceIn(s: seq<Ranked>, i: nat, j: nat)
    requires i < j < |s| && s[i] == s[j]
    ensures multiset(s)[s[i]] >= 2
  {
    assert s == s[..i] + [s[i]] + s[i + 1..j] + [s[j]] + s[j + 1..];
  }

  /** The URIs of the `k` best records. */
  method TopKURIs(collected: Collected, k: nat) returns (top: set<string>)
    ensures IsTop(collected, top) && |top| == if k < |collected| then k else |collected|
  {
    hide IsTop, Descending, Lists;
    var items := ListRanks(collected, PlainScore);
    var sorted := SortDescending(items);
    PermutedLists(items, sorted, collected, PlainScore);
    ListsDistinct(sorted, collected, PlainScore);
    var n := if k < |sorted| then k else |sorted|;
    top := FirstUris(sorted, n);
    FirstAreTop(collected, items, sorted, n, top);
  }

  function PlainScore(r: Record): real {
    r.finalScore
  }

  lemma ListsDistinct(items: seq<Ranked>, collected: Collected, rank: Record -> real)
    requires Lists(items, collected, rank)
    ensures |items| == |collected| && forall i, j :: 0 <= i < j < |items| ==> items[i].uri != items[j].uri
  {
  }

  method FirstUris(sorted: seq<Ranked>, n: nat) returns (top: set<string>)
    requires n <= |sorted| && forall i, j :: 0 <= i < j < |sorted| ==> sorted[i].uri != sorted[j].uri
    ensures top == (set j | 0 <= j < n :: sorted[j].uri) && |top| == n
  {
    top := {};
    for i := 0 to n
      invariant top == (set j | 0 <= j < i :: sorted[j].uri) && |top| == i
    {
      top := top + {sorted[i].uri};
    }
  }

  /** The URIs of a prefix of the sorted list are a top set. */
  lemma FirstAreTop(collected: Collected, items: seq<Ranked>, sorted: seq<Ranked>, n: nat, top: set<string>)
    requires Lists(sorted, collected, PlainScore) && Descending(sorted) && n <= |sorted|
    requires multiset(sorted) == multiset(items)
    requires forall u :: u in collected ==> Ranked(u, PlainScore(collected[u])) in items
    requires top == set j | 0 <= j < n :: sorted[j].uri
    ensures IsTop(collected, top)
  {
    forall a, b | a in top && b in collected && b !in top ensures collected[a].finalScore >= collected[b].finalScore {
      var x :| 0 <= x < n && sorted[x].uri == a;
      assert Ranked(b, PlainScore(collected[b])) in multiset(items);
      assert Ranked(b, PlainScore(collected[b])) in multiset(sorted);
      var y :| 0 <= y < |sorted| && sorted[y] == Ranked(b, PlainScore(collected[b]));
      assert y >= n;
    }
  }

  method SetsEqual(a: set<string>, b: set<string>) returns (equal: bool)
    ensures equal <==> a == b
  {
    if |a| != |b| {
      return false;
    }
    var rest := a;
    while rest != {}
      invariant rest <= a && a - rest <= b
      decreases |rest|
    {
      var k :| k in rest;
      if k !in b {
        return false;
      }
      rest := rest - {k};
    }
    assert a - rest == a;
    SubsetCard(a, b);
    return true;
  }

  /** The first of the best seeds for its URI. */
  ghost predicate FirstBest(seeds: seq<Record>, r: Record) {
    exists i :: IsFirstBest(seeds, r, i)
  }

  ghost predicate IsFirstBest(seeds: seq<Record>, r: Record, i: nat) {
    && i < |seeds| && seeds[i] == r
    && (forall j :: 0 <= j < i && seeds[j].uri == r.uri ==> seeds[j].finalScore < r.finalScore)
    && (forall j :: i < j < |seeds| && seeds[j].uri == r.uri ==> seeds[j].finalScore <= r.finalScore)
  }

  ghost predicate AllFirstBest(seeds: seq<Record>, collected: Collected) {
    SeedsIn(seeds, collected) && forall u :: u in collected ==> u != "" && collected[u].uri == u && FirstBest(seeds, collected[u])
  }

  lemma SeedStep(front: seq<Record>, r: Record, collected: Collected)
    requires AllFirstBest(front, collected)
    ensures AllFirstBest(front + [r], if r.uri != "" then Improve(collected, r) else collected)
  {
    hide FirstBest, AtLeast;
    var collected' := if r.uri != "" then Improve(collected, r) else collected;
    forall u | u in collected' ensures u != "" && collected'[u].uri == u && FirstBest(front + [r], collected'[u]) {
      if u in collected && collected'[u] == collected[u] {
        StaysFirst(front, r, collected, u);
      } else {
        BecomesFirst(front, r, collected);
      }
    }
    ImproveGrows(collected, r);
    SeedsStayIn(front, collected, collected');
  }

  lemma StaysFirst(front: seq<Record>, r: Record, collected: Collected, u: string)
    requires u in collected && collected[u].uri == u && FirstBest(front, collected[u])
    requires r.uri == u ==> r.finalScore <= collected[u].finalScore
    ensures FirstBest(front + [r], collected[u])
  {
    var i :| IsFirstBest(front, collected[u], i);
    assert IsFirstBest(front + [r], collected[u], i);
  }

  lemma BecomesFirst(front: seq<Record>, r: Record, collected: Collected)
    requires SeedsIn(front, collected) && r.uri != ""
    requires r.uri !in collected || r.finalScore > collected[r.uri].finalScore
    ensures FirstBest(front + [r], r)
  {
    forall j | 0 <= j < |front| && (front + [r])[j].uri == r.uri ensures (front + [r])[j].finalScore < r.finalScore {
      assert front[j] in front && AtLeast(collected, front[j].uri, front[j].finalScore);
    }
    assert IsFirstBest(front + [r], r, |front|);
  }

  /** The best final score seen for each seed URI; seeds without a URI are ignored. */
  method Seed(seeds: seq<Record>) returns (collected: Collected)
    ensures SeedsIn(seeds, collected)
    ensures forall u :: u in collected ==> u != "" && collected[u].uri == u && collected[u] in seeds && FirstBest(seeds, collected[u])
  {
    collected := map[];
    for i := 0 to |seeds|
      invariant AllFirstBest(seeds[..i], collected)
    {
      assert seeds[..i + 1] == seeds[..i] + [seeds[i]];
      SeedStep(seeds[..i], seeds[i], collected);
      hide AllFirstBest;
      if seeds[i].uri != "" {
        if seeds[i].uri !in collected || seeds[i].finalScore > collected[seeds[i].uri].finalScore {
          collected := collected[seeds[i].uri := seeds[i]];
        }
      }
    }
    assert seeds[..|seeds|] == seeds;
    FirstBestIsSeed(seeds, collected);
  }

  lemma FirstBestIsSeed(seeds: seq<Record>, collected: Collected)
    requires AllFirstBest(seeds, collected)
    ensures SeedsIn(seeds, collected)
    ensures forall u :: u in collected ==> u != "" && collected[u].uri == u && collected[u] in seeds && FirstBest(seeds, collected[u])
  {
  }

  /** The raw scores of the children of `v`, reranked when the reranker answers for each of them. */
  method ChildScores(env: Env, v: string) returns (scores: seq<real>)
    ensures |scores| == |Kids(env, v)| && forall i :: 0 <= i < |scores| ==> scores[i] == Raw(env, v, i)
  {
    var hits := Kids(env, v);
    scores := [];
    for i := 0 to |hits|
      invariant |scores| == i && forall j :: 0 <= j < i ==> scores[j] == hits[j].score
    {
      scores := scores + [hits[i].score];
    }
    var reranked := env.rerank(v, Summaries(hits));
    if reranked.Some? && |reranked.value| == |hits| {
      scores := reranked.value;
    }
  }

  /** Offers one child of a directory that is being expanded. */
  method OfferChild(env: Env, ghost starts: seq<Item>, ghost seeds: seq<Record>, ghost universe: set<string>,
                    collected0: Collected, visited: set<string>, ghost expanded: map<string, real>, pq: PriorityQueue,
                    v: string, parentScore: real, i: nat, rawScore: real)
    returns (collected: Collected)
    requires SearchInv(env, starts, seeds, universe, collected0, expanded, pq.items, Some(v)) && Universe(env, starts, universe)
    requires v in expanded && expanded[v] == parentScore && visited == expanded.Keys
    requires i < |Kids(env, v)| && rawScore == Raw(env, v, i)
    requires ChildrenDone(env, v, parentScore, i, collected0, expanded, pq.items) && IsHeap(pq.items)
    modifies pq
    ensures IsHeap(pq.items) && SearchInv(env, starts, seeds, universe, collected, expanded, pq.items, Some(v))
    ensures ChildrenDone(env, v, parentScore, i + 1, collected, expanded, pq.items)
    ensures Grows(collected0, collected)
    ensures var c, offer := Kids(env, v)[i].context, if parentScore > 0.0 then (rawScore + parentScore) / 2.0 else rawScore;
            && collected == (if offer > env.threshold && (c.uri !in collected0 || offer > collected0[c.uri].finalScore)
                             then collected0[c.uri := Record(c.uri, c.summary, rawScore, offer, c)] else collected0)
            && multiset(pq.items) == multiset(old(pq.items))
                 + if offer > env.threshold && c.uri !in visited && IsDirectory(c) then multiset{Item(c.uri, offer)} else multiset{}
  {
    hide SearchInv, Universe, ChildrenDone, Grows, IsHeap;
    collected := collected0;
    var hit := Kids(env, v)[i];
    var uri := hit.context.uri;
    var finalScore := rawScore;
    if parentScore > 0.0 {
      finalScore := SCORE_PROP_ALPHA * rawScore + (1.0 - SCORE_PROP_ALPHA) * parentScore;
    }
    assert finalScore == Offer(env, v, parentScore, i);
    if finalScore <= env.threshold {
      BelowThreshold(env, v, parentScore, i, collected, expanded, pq.items);
      return;
    }
    ghost var queue := pq.items;
    if uri !in collected || finalScore > collected[uri].finalScore {
      collected := collected[uri := Record(uri, hit.context.summary, rawScore, finalScore, hit.context)];
    }
    assert collected == Improve(collected0, ChildRecord(env, v, parentScore, i));
    if uri !in visited && !IsLeaf(hit.context) {
      pq.Push(Item(uri, finalScore));
      OfferKeeps(env, starts, seeds, universe, collected0, expanded, queue, v, i, queue + [Item(uri, finalScore)]);
      Reordered(env, starts, seeds, universe, collected, expanded, queue + [Item(uri, finalScore)], v, i + 1, pq.items);
    } else {
      OfferKeeps(env, starts, seeds, universe, collected0, expanded, queue, v, i, queue);
    }
  }

  lemma BelowThreshold(env: Env, v: string, s: real, i: nat, collected: Collected, expanded: map<string, real>, queue: seq<Item>)
    requires ChildrenDone(env, v, s, i, collected, expanded, queue) && i < |Kids(env, v)| && Offer(env, v, s, i) <= env.threshold
    ensures ChildrenDone(env, v, s, i + 1, collected, expanded, queue) && Grows(collected, collected)
  {
  }

  lemma Reordered(env: Env, starts: seq<Item>, seeds: seq<Record>, universe: set<string>, collected: Collected,
                  expanded: map<string, real>, queue: seq<Item>, v: string, n: nat, queue': seq<Item>)
    requires SearchInv(env, starts, seeds, universe, collected, expanded, queue, Some(v)) && v in expanded
    requires ChildrenDone(env, v, expanded[v], n, collected, expanded, queue) && multiset(queue) == multiset(queue')
    ensures SearchInv(env, starts, seeds, universe, collected, expanded, queue', Some(v))
    ensures ChildrenDone(env, v, expanded[v], n, collected, expanded, queue')
  {
    hide SearchInv, ChildrenDone, InQueue, Grows;
    ReorderKeeps(env, starts, seeds, universe, collected, expanded, queue, Some(v), queue');
    SameItems(queue, queue');
    GrowsItself(collected);
    ChildrenStayDone(env, v, expanded[v], n, collected, expanded, queue, collected, expanded, queue');
  }

  /** Expands `v`: offers each of its children. */
  method Expand(env: Env, ghost starts: seq<Item>, ghost seeds: seq<Record>, ghost universe: set<string>,
                collected0: Collected, visited: set<string>, ghost expanded: map<string, real>, pq: PriorityQueue,
                v: string, parentScore: real)
    returns (collected: Collected)
    requires SearchInv(env, starts, seeds, universe, collected0, expanded, pq.items, Some(v)) && Universe(env, starts, universe)
    requires v in expanded && expanded[v] == parentScore && visited == expanded.Keys && IsHeap(pq.items)
    modifies pq
    ensures IsHeap(pq.items) && SearchInv(env, starts, seeds, universe, collected, expanded, pq.items, None)
    ensures Grows(collected0, collected)
  {
    hide SearchInv, Universe, ChildrenDone, Grows, Kids, IsHeap;
    collected := collected0;
    var scores := ChildScores(env, v);
    ExpandBegins(env, v, parentScore, collected, expanded, pq.items);
    for i := 0 to |scores|
      invariant IsHeap(pq.items) && SearchInv(env, starts, seeds, universe, collected, expanded, pq.items, Some(v))
      invariant ChildrenDone(env, v, parentScore, i, collected, expanded, pq.items)
      invariant Grows(collected0, collected)
    {
      ghost var before := collected;
      collected := OfferChild(env, starts, seeds, universe, collected, visited, expanded, pq, v, parentScore, i, scores[i]);
      GrowsOn(collected0, before, collected);
    }
    ExpandEnds(env, starts, seeds, universe, v, collected, expanded, pq.items);
  }

  lemma ExpandBegins(env: Env, v: string, s: real, collected: Collected, expanded: map<string, real>, queue: seq<Item>)
    ensures ChildrenDone(env, v, s, 0, collected, expanded, queue) && Grows(collected, collected)
  {
  }

  lemma GrowsOn(a: Collected, b: Collected, c: Collected)
    requires Grows(a, b) && Grows(b, c)
    ensures Grows(a, c)
  {
  }

  lemma ExpandEnds(env: Env, starts: seq<Item>, seeds: seq<Record>, universe: set<string>, v: string, collected: Collected,
                   expanded: map<string, real>, queue: seq<Item>)
    requires SearchInv(env, starts, seeds, universe, collected, expanded, queue, Some(v)) && v in expanded
    requires ChildrenDone(env, v, expanded[v], |Kids(env, v)|, collected, expanded, queue)
    ensures SearchInv(env, starts, seeds, universe, collected, expanded, queue, None)
  {
  }

  lemma SearchBegins(env: Env, starts: seq<Item>, seeds: seq<Record>, universe: set<string>, collected: Collected)
    requires SeedsIn(seeds, collected) && Universe(env, starts, universe)
    requires forall u :: u in collected ==> collected[u].uri == u && collected[u] in seeds
    ensures SearchInv(env, starts, seeds, universe, collected, map[], starts, None)
  {
    forall k | 0 <= k < |starts|
      ensures Reached(env, starts, map[], starts[k].uri, starts[k].score) && Entered(env, starts, map[], starts[k].uri, starts[k].score)
    {
      StartReached(env, starts, map[], k);
      assert starts[k] == Item(starts[k].uri, starts[k].score);
    }
  }

  /** Dropping a queue item whose URI has been expanded changes nothing. */
  lemma SkipKeeps(env: Env, starts: seq<Item>, seeds: seq<Record>, universe: set<string>, collected: Collected,
                  expanded: map<string, real>, queue: seq<Item>, k: nat)
    requires SearchInv(env, starts, seeds, universe, collected, expanded, queue, None)
    requires k < |queue| && queue[k].uri in expanded
    ensures SearchInv(env, starts, seeds, universe, collected, expanded, queue[..k] + queue[k + 1..], None)
  {
    hide InQueue, AllDone, Reached, Found, Entered, Origins;
    var left := queue[..k] + queue[k + 1..];
    QueuePop(queue, k);
    OriginsStay(env, starts, expanded, queue, expanded, left);
    AllStayDone(env, None, collected, expanded, queue, collected, expanded, left);
  }

  /** A popped URI that is new is marked as expanded, with its score. */
  lemma MarkKeeps(env: Env, starts: seq<Item>, seeds: seq<Record>, universe: set<string>, collected: Collected,
                  expanded: map<string, real>, queue: seq<Item>, k: nat)
    requires SearchInv(env, starts, seeds, universe, collected, expanded, queue, None)
    requires k < |queue| && queue[k].uri !in expanded
    ensures var item := queue[k];
            SearchInv(env, starts, seeds, universe, collected, expanded[item.uri := item.score],
                      queue[..k] + queue[k + 1..], Some(item.uri))
    ensures queue[k].uri in universe && Reached(env, starts, expanded, queue[k].uri, queue[k].score)
  {
    hide InQueue, AllDone, Reached, Found, Entered;
    var left, item := queue[..k] + queue[k + 1..], queue[k];
    QueuePop(queue, k);
    OriginsStay(env, starts, expanded, queue, expanded[item.uri := item.score], left);
    ExpandSound(env, starts, seeds, collected, expanded, left, item);
    AllStayNew(env, collected, expanded, queue, item, left);
  }

  lemma AllStayNew(env: Env, collected: Collected, expanded: map<string, real>, queue: seq<Item>, item: Item, left: seq<Item>)
    requires AllDone(env, None, collected, expanded, queue) && item.uri !in expanded
    requires forall u :: InQueue(queue, u) ==> u == item.uri || InQueue(left, u)
    ensures AllDone(env, Some(item.uri), collected, expanded[item.uri := item.score], left)
  {
  }

  /**
   * Best-first search. It ends for every environment whose URIs stay in a finite universe, expands no URI twice, and
   * its result is sound (every score has a trail), complete for what was expanded, and, unless it stopped on
   * convergence, closed under the directories above the threshold. `tops` records the best URIs after each expansion
   * that found children: the search stops early exactly when the last four of these sets are full and equal.
   */
  method RecursiveSearch(env: Env, starts: seq<Item>, seeds: seq<Record>, limit: nat, ghost universe: set<string>)
    returns (collected: Collected, ghost expanded: map<string, real>, ghost order: seq<string>, ghost queue: seq<Item>,
             ghost tops: seq<set<string>>)
    requires Universe(env, starts, universe)
    ensures SearchInv(env, starts, seeds, universe, collected, expanded, queue, None)
    ensures Grounded(env, starts, seeds, collected, expanded)
    ensures queue == [] ==> Closed(env, starts, seeds, collected, expanded)
    ensures Distinct(order) && (forall v :: v in order <==> v in expanded)
    ensures EndsStable(collected, tops, limit, queue != [])
    ensures queue == [] || |collected| >= limit
    ensures Answer(env, starts, seeds, universe, limit, collected)
  {
    hide *;
    collected := Seed(seeds);
    var visited: set<string> := {};
    expanded := map[];
    order := [];
    NoOrder();
    tops := [];
    NoStreak(collected, limit);
    var pq := QueueOf(starts);
    SearchBegins(env, starts, seeds, universe, collected);
    ReorderKeeps(env, starts, seeds, universe, collected, expanded, starts, None, pq.items);
    var prevTopK: set<string> := {};
    var convergenceRounds := 0;
    while pq.items != []
      invariant fresh(pq) && IsHeap(pq.items) && visited == expanded.Keys
      invariant SearchInv(env, starts, seeds, universe, collected, expanded, pq.items, None)
      invariant Distinct(order) && forall v :: v in order <==> v in expanded
      invariant Tracked(collected, tops, prevTopK, convergenceRounds, limit)
      decreases |universe - visited|, |pq.items|
    {
      queue := pq.items;
      var item := pq.Pop();
      if item.uri in visited {
        SeenTaken(env, starts, seeds, universe, collected, expanded, queue, item, pq.items);
        continue;
      }
      NewTaken(env, starts, seeds, universe, collected, visited, expanded, queue, item, pq.items);
      visited := visited + {item.uri};
      expanded := expanded[item.uri := item.score];
      OneMoreInOrder(order, item.uri);
      order := order + [item.uri];
      if |Kids(env, item.uri)| == 0 {
        ChildlessDone(env, starts, seeds, universe, item.uri, collected, expanded, pq.items);
        continue;
      }
      ghost var collected0 := collected;
      collected := Expand(env, starts, seeds, universe, collected, visited, expanded, pq, item.uri, item.score);
      var topK := TopKURIs(collected, limit);
      var same := SetsEqual(topK, prevTopK);
      TrackStep(collected0, collected, tops, prevTopK, convergenceRounds, limit, topK);
      tops := tops + [topK];
      if same && |topK| >= limit {
        convergenceRounds := convergenceRounds + 1;
        if convergenceRounds >= MAX_CONVERGENCE_ROUNDS {
          queue := pq.items;
          EndsAnyway(collected, tops, limit, queue != []);
          AnswerIs(env, starts, seeds, universe, limit, collected, expanded, queue);
          Explained(env, starts, seeds, universe, collected, expanded, queue);
          return;
        }
      } else {
        convergenceRounds := 0;
        prevTopK := topK;
      }
    }
    queue := pq.items;
    TrackEnds(collected, tops, prevTopK, convergenceRounds, limit);
    AnswerIs(env, starts, seeds, universe, limit, collected, expanded, queue);
    Explained(env, starts, seeds, universe, collected, expanded, queue);
  }

  /** An early end means four full and equal sets in a row, the first compared with the empty set, and never before. */
  lemma StableTold(collected: Collected, tops: seq<set<string>>, limit: nat, early: bool)
    requires EndsStable(collected, tops, limit, early)
    ensures var h, n := [{}] + tops, |tops|;
            && (early ==> n >= 3 && |h[n]| >= limit && h[n] == h[n - 1] == h[n - 2] == h[n - 3])
            && forall i :: 3 <= i < n ==> !(|h[i]| >= limit && h[i] == h[i - 1] == h[i - 2] == h[i - 3])
  {
    hide IsTop;
    var h := [{}] + tops;
    forall i | 3 <= i < |tops| ensures !(|h[i]| >= limit && h[i] == h[i - 1] == h[i - 2] == h[i - 3]) {
      assert !Stable(tops[..i], limit);
      var g := [{}] + tops[..i];
      assert g[i] == h[i] && g[i - 1] == h[i - 1] && g[i - 2] == h[i - 2] && g[i - 3] == h[i - 3];
    }
  }

  lemma Explained(env: Env, starts: seq<Item>, seeds: seq<Record>, universe: set<string>, collected: Collected,
                  expanded: map<string, real>, queue: seq<Item>)
    requires SearchInv(env, starts, seeds, universe, collected, expanded, queue, None)
    ensures Grounded(env, starts, seeds, collected, expanded)
    ensures queue == [] ==> Closed(env, starts, seeds, collected, expanded)
  {
    hide *;
    SearchGrounded(env, starts, seeds, universe, collected, expanded, queue);
    if queue == [] {
      ExhaustedIsClosed(env, starts, seeds, universe, collected, expanded);
    }
  }

  function LastTop(tops: seq<set<string>>): set<string> {
    if tops == [] then {} else tops[|tops| - 1]
  }

  /** How many of the latest sets were full and equal to the one before. */
  function Streak(tops: seq<set<string>>, limit: nat): nat {
    if tops == [] then 0
    else
      var init, last := tops[..|tops| - 1], tops[|tops| - 1];
      if last == LastTop(init) && |last| >= limit then Streak(init, limit) + 1 else 0
  }

  /** The last four sets are full and equal; the first one is compared with the empty set. */
  predicate Stable(tops: seq<set<string>>, limit: nat) {
    var h, n := [{}] + tops, |tops|;
    n >= 3 && |h[n]| >= limit && h[n] == h[n - 1] == h[n - 2] == h[n - 3]
  }

  /** Before each turn: what the convergence counters mean. */
  ghost predicate Tracked(collected: Collected, tops: seq<set<string>>, prevTopK: set<string>, rounds: nat, limit: nat) {
    && (tops != [] ==> IsTop(collected, tops[|tops| - 1]))
    && prevTopK == LastTop(tops) && rounds == Streak(tops, limit) && rounds < MAX_CONVERGENCE_ROUNDS
    && forall i :: 0 <= i <= |tops| ==> !Stable(tops[..i], limit)
  }

  /** At the end: the latest set is that of the result, the sets were never stable before, and now if it stopped early. */
  ghost predicate EndsStable(collected: Collected, tops: seq<set<string>>, limit: nat, early: bool) {
    && (tops != [] ==> IsTop(collected, tops[|tops| - 1]))
    && (early ==> Stable(tops, limit))
    && forall i :: 0 <= i < |tops| ==> !Stable(tops[..i], limit)
  }

  lemma NoStreak(collected: Collected, limit: nat)
    ensures Tracked(collected, [], {}, 0, limit)
  {
  }

  lemma TrackStep(collected0: Collected, collected: Collected, tops: seq<set<string>>, prevTopK: set<string>, rounds: nat,
                  limit: nat, topK: set<string>)
    requires Tracked(collected0, tops, prevTopK, rounds, limit) && IsTop(collected, topK)
    ensures var same := topK == prevTopK && |topK| >= limit;
            var rounds' := if same then rounds + 1 else 0;
            if rounds' < MAX_CONVERGENCE_ROUNDS then Tracked(collected, tops + [topK], topK, rounds', limit)
            else EndsStable(collected, tops + [topK], limit, true)
  {
    hide IsTop, Stable, Streak;
    StreakStep(tops, topK, limit);
  }

  lemma EndsAnyway(collected: Collected, tops: seq<set<string>>, limit: nat, early: bool)
    requires EndsStable(collected, tops, limit, true)
    ensures EndsStable(collected, tops, limit, early)
    ensures |collected| >= limit
  {
    var top := tops[|tops| - 1];
    SubsetCard(top, collected.Keys);
    assert |collected.Keys| == |collected|;
  }

  lemma TrackEnds(collected: Collected, tops: seq<set<string>>, prevTopK: set<string>, rounds: nat, limit: nat)
    requires Tracked(collected, tops, prevTopK, rounds, limit)
    ensures EndsStable(collected, tops, limit, false)
  {
    hide IsTop, Stable, Streak;
  }

  lemma StreakStep(tops: seq<set<string>>, topK: set<string>, limit: nat)
    requires Streak(tops, limit) < 3 && forall i :: 0 <= i <= |tops| ==> !Stable(tops[..i], limit)
    ensures var tops' := tops + [topK];
            && LastTop(tops') == topK
            && Streak(tops', limit) == (if topK == LastTop(tops) && |topK| >= limit then Streak(tops, limit) + 1 else 0)
            && (Stable(tops', limit) <==> Streak(tops', limit) >= 3)
            && tops'[..|tops'|] == tops'
            && forall i :: 0 <= i < |tops'| ==> !Stable(tops'[..i], limit)
  {
    hide Stable, Streak;
    var tops' := tops + [topK];
    StreakUnfold(tops, topK, limit);
    StableExactly(tops', limit);
    forall i | 0 <= i < |tops'| ensures !Stable(tops'[..i], limit) {
      assert tops'[..i] == tops[..i];
    }
  }

  lemma StreakUnfold(tops: seq<set<string>>, top: set<string>, limit: nat)
    ensures LastTop(tops + [top]) == top
    ensures Streak(tops + [top], limit) == if top == LastTop(tops) && |top| >= limit then Streak(tops, limit) + 1 else 0
  {
    assert (tops + [top])[..|tops|] == tops;
  }

  lemma StableExactly(tops: seq<set<string>>, limit: nat)
    ensures Stable(tops, limit) <==> Streak(tops, limit) >= 3
  {
    hide Streak;
    var n := |tops|;
    if n >= 3 {
      var a, b, c := tops[..n - 1], tops[..n - 2], tops[..n - 3];
      assert tops == a + [tops[n - 1]] && a == b + [tops[n - 2]] && b == c + [tops[n - 3]];
      StreakUnfold(a, tops[n - 1], limit);
      StreakUnfold(b, tops[n - 2], limit);
      StreakUnfold(c, tops[n - 3], limit);
    } else {
      StreakShort(tops, limit);
    }
  }

  lemma {:induction false} StreakShort(tops: seq<set<string>>, limit: nat)
    ensures Streak(tops, limit) <= |tops|
  {
    if tops != [] {
      StreakShort(tops[..|tops| - 1], limit);
    }
  }

  /** Some set of expansions accounts for everything collected, and only convergence leaves a queue behind. */
  ghost predicate Answer(env: Env, starts: seq<Item>, seeds: seq<Record>, universe: set<string>, limit: nat,
                         collected: Collected)
  {
    (exists expanded :: SearchInv(env, starts, seeds, universe, collected, expanded, [], None)) ||
    (|collected| >= limit &&
     exists expanded, queue :: SearchInv(env, starts, seeds, universe, collected, expanded, queue, None))
  }

  lemma AnswerIs(env: Env, starts: seq<Item>, seeds: seq<Record>, universe: set<string>, limit: nat, collected: Collected,
                 expanded: map<string, real>, queue: seq<Item>)
    requires SearchInv(env, starts, seeds, universe, collected, expanded, queue, None)
    requires queue == [] || |collected| >= limit
    ensures Answer(env, starts, seeds, universe, limit, collected)
  {
    hide SearchInv;
  }

  method QueueOf(starts: seq<Item>) returns (pq: PriorityQueue)
    ensures fresh(pq) && IsHeap(pq.items) && multiset(pq.items) == multiset(starts)
  {
    hide IsHeap;
    pq := new PriorityQueue();
    for i := 0 to |starts|
      invariant fresh(pq) && IsHeap(pq.items) && multiset(pq.items) == multiset(starts[..i])
    {
      assert starts[..i + 1] == starts[..i] + [starts[i]];
      pq.Push(starts[i]);
    }
    assert starts[..|starts|] == starts;
  }

  /** Where the removed item was. */
  lemma PlaceOf(queue: seq<Item>, item: Item, left: seq<Item>) returns (k: nat)
    requires multiset(queue) == multiset(left) + multiset{item}
    ensures k < |queue| && queue[k] == item && multiset(queue[..k] + queue[k + 1..]) == multiset(left)
  {
    assert item in multiset(queue);
    k :| k < |queue| && queue[k] == item;
    assert queue == queue[..k] + [queue[k]] + queue[k + 1..];
    CancelOne(multiset(queue[..k] + queue[k + 1..]), multiset(left), item);
  }

  lemma CancelOne(a: multiset<Item>, b: multiset<Item>, x: Item)
    requires a + multiset{x} == b + multiset{x}
    ensures a == b
  {
    forall y ensures a[y] == b[y] {
      assert (a + multiset{x})[y] == (b + multiset{x})[y];
    }
  }

  lemma SeenTaken(env: Env, starts: seq<Item>, seeds: seq<Record>, universe: set<string>, collected: Collected,
                  expanded: map<string, real>, queue: seq<Item>, item: Item, left: seq<Item>)
    requires SearchInv(env, starts, seeds, universe, collected, expanded, queue, None) && item.uri in expanded
    requires multiset(queue) == multiset(left) + multiset{item}
    ensures SearchInv(env, starts, seeds, universe, collected, expanded, left, None)
  {
    hide SearchInv;
    var k := PlaceOf(queue, item, left);
    SkipKeeps(env, starts, seeds, universe, collected, expanded, queue, k);
    ReorderKeeps(env, starts, seeds, universe, collected, expanded, queue[..k] + queue[k + 1..], None, left);
  }

  lemma NewTaken(env: Env, starts: seq<Item>, seeds: seq<Record>, universe: set<string>, collected: Collected,
                 visited: set<string>, expanded: map<string, real>, queue: seq<Item>, item: Item, left: seq<Item>)
    requires SearchInv(env, starts, seeds, universe, collected, expanded, queue, None)
    requires visited == expanded.Keys && item.uri !in visited
    requires multiset(queue) == multiset(left) + multiset{item}
    ensures var expanded' := expanded[item.uri := item.score];
            && SearchInv(env, starts, seeds, universe, collected, expanded', left, Some(item.uri))
            && expanded'.Keys == visited + {item.uri}
            && |universe - (visited + {item.uri})| < |universe - visited|
  {
    hide *;
    var k := PlaceOf(queue, item, left);
    var expanded' := expanded[item.uri := item.score];
    MarkKeeps(env, starts, seeds, universe, collected, expanded, queue, k);
    ReorderKeeps(env, starts, seeds, universe, collected, expanded', queue[..k] + queue[k + 1..], Some(item.uri), left);
    UniverseShrinks(universe, visited, item.uri);
  }

  lemma NoOrder()
    ensures Distinct<string>([])
  {
  }

  lemma OneMoreInOrder(order: seq<string>, v: string)
    requires Distinct(order) && v !in order
    ensures Distinct(order + [v])
  {
  }

  lemma UniverseShrinks(universe: set<string>, visited: set<string>, v: string)
    requires v in universe && v !in visited
    ensures |universe - (visited + {v})| < |universe - visited|
  {
    SubsetCard(universe - (visited + {v}), universe - visited);
    assert v in universe - visited;
  }

  lemma ChildlessDone(env: Env, starts: seq<Item>, seeds: seq<Record>, universe: set<string>, v: string, collected: Collected,
                      expanded: map<string, real>, queue: seq<Item>)
    requires SearchInv(env, starts, seeds, universe, collected, expanded, queue, Some(v)) && v in expanded
    requires |Kids(env, v)| == 0
    ensures SearchInv(env, starts, seeds, universe, collected, expanded, queue, None)
  {
  }

  // ----- The ranked answer -----

  predicate HasSuffix(s: string, suffix: string) {
    |suffix| <= |s| && s[|s| - |suffix|..] == suffix
  }

  const ABSTRACT_FILE := ".abstract.md"
  const OVERVIEW_FILE := ".overview.md"

  predicate IsLevelFile(uri: string) {
    HasSuffix(uri, "/" + ABSTRACT_FILE) || HasSuffix(uri, "/" + OVERVIEW_FILE)
  }

  function AppendLevelSuffix(uri: string, level: int): string {
    if (level != 0 && level != 1) || uri == "" || IsLevelFile(uri) then uri
    else TrimRightSlashes(uri) + ("/" + if level == 0 then ABSTRACT_FILE else OVERVIEW_FILE)
  }

  /** A level suffix is added at most once. */
  lemma SuffixAppendedOnce(uri: string, level: int, again: int)
    requires level == 0 || level == 1
    ensures AppendLevelSuffix(AppendLevelSuffix(uri, level), again) == AppendLevelSuffix(uri, level)
  {
  }

  datatype MatchedContext = MatchedContext(uri: string, contextType: string, level: int, summary: string, category: string,
                                           score: real)

  function Matched(r: Record): MatchedContext {
    var level := if r.context.level.Some? then r.context.level.value else 2;
    MatchedContext(AppendLevelSuffix(r.uri, level), r.context.contextType, level, r.summary, r.context.category, FinalScore(r))
  }

  /** A directory is shown by the file of its level, unless its URI names one of these files already. */
  ghost predicate ShownAs(uri: string, level: int, shown: string) {
    if uri == "" || (level != 0 && level != 1) || (exists front: string :: uri == front + "/.abstract.md" || uri == front + "/.overview.md")
    then shown == uri
    else exists base: string :: && base <= uri && (forall i :: |base| <= i < |uri| ==> uri[i] == '/')
                                && (base == "" || base[|base| - 1] != '/')
                                && shown == base + if level == 0 then "/.abstract.md" else "/.overview.md"
  }

  /** What is shown of a record: four fifths of its score and one fifth of its hotness. */
  ghost predicate Shows(r: Record, m: MatchedContext) {
    && m.level == (if r.context.level.Some? then r.context.level.value else 2)
    && m.contextType == r.context.contextType && m.category == r.context.category && m.summary == r.summary
    && m.score == 0.8 * r.finalScore + 0.2 * r.context.hotness
    && ShownAs(r.uri, m.level, m.uri)
  }

  lemma MatchedShows(r: Record)
    ensures Shows(r, Matched(r))
  {
    hide AppendLevelSuffix;
    var level := if r.context.level.Some? then r.context.level.value else 2;
    SuffixShown(r.uri, level);
  }

  lemma SuffixShown(uri: string, level: int)
    ensures ShownAs(uri, level, AppendLevelSuffix(uri, level))
  {
    EndsIn(uri, "/.abstract.md");
    EndsIn(uri, "/.overview.md");
    assert "/" + ABSTRACT_FILE == "/.abstract.md" && "/" + OVERVIEW_FILE == "/.overview.md";
    hide HasSuffix;
    if (exists front: string :: uri == front + "/.abstract.md" || uri == front + "/.overview.md") {
      assert IsLevelFile(uri);
    } else if level == 0 || level == 1 {
      assert !IsLevelFile(uri);
      var base := TrimRightSlashes(uri);
    }
  }

  lemma EndsIn(s: string, suffix: string)
    ensures HasSuffix(s, suffix) <==> exists front: string :: s == front + suffix
  {
    if HasSuffix(s, suffix) {
      assert s == s[..|s| - |suffix|] + suffix;
    }
  }

  /** The list shows distinct collected entries, best first, and no entry left out beats one shown. */
  ghost predicate BestOf(collected: Collected, keys: seq<string>, result: seq<MatchedContext>) {
    && |keys| == |result| && Distinct(keys)
    && (forall i :: 0 <= i < |keys| ==> keys[i] in collected && Shows(collected[keys[i]], result[i]))
    && (forall i, j :: 0 <= i < j < |result| ==> result[i].score >= result[j].score)
    && (forall i, u :: 0 <= i < |result| && u in collected && u !in keys ==>
                         result[i].score >= 0.8 * collected[u].finalScore + 0.2 * collected[u].context.hotness)
  }

  method ToMatchedContexts(collected: Collected, limit: nat) returns (result: seq<MatchedContext>)
    ensures |result| == if |collected| < limit then |collected| else limit
    ensures exists keys :: BestOf(collected, keys, result)
  {
    hide FinalScore, AppendLevelSuffix, Descending;
    var rank := (r: Record) => FinalScore(r);
    var items := ListRanks(collected, rank);
    var sorted := SortDescending(items);
    PermutedLists(items, sorted, collected, rank);
    var n := if |sorted| > limit then limit else |sorted|;
    result := [];
    ghost var keys: seq<string> := [];
    for i := 0 to n
      invariant |result| == |keys| == i
      invariant forall j :: 0 <= j < i ==> keys[j] == sorted[j].uri && result[j] == Matched(collected[keys[j]])
    {
      result := result + [Matched(collected[sorted[i].uri])];
      keys := keys + [sorted[i].uri];
    }
    ShownAreBest(collected, items, sorted, rank, keys, result);
  }

  lemma ShownAreBest(collected: Collected, items: seq<Ranked>, sorted: seq<Ranked>, rank: Record -> real, keys: seq<string>,
                     result: seq<MatchedContext>)
    requires Lists(sorted, collected, rank) && Descending(sorted) && multiset(sorted) == multiset(items)
    requires (forall r :: rank(r) == FinalScore(r)) && forall u :: u in collected ==> Ranked(u, rank(collected[u])) in items
    requires |keys| == |result| <= |sorted|
    requires forall j :: 0 <= j < |keys| ==> keys[j] == sorted[j].uri && result[j] == Matched(collected[keys[j]])
    ensures BestOf(collected, keys, result)
  {
    hide AppendLevelSuffix, Shows;
    forall i | 0 <= i < |keys| ensures keys[i] in collected && Shows(collected[keys[i]], result[i]) {
      MatchedShows(collected[keys[i]]);
    }
    assert forall r :: FinalScore(r) == 0.8 * r.finalScore + 0.2 * r.context.hotness;
    hide FinalScore;
    assert forall j :: 0 <= j < |keys| ==> result[j].score == sorted[j].score && sorted[j].uri in keys;
    forall i, u | 0 <= i < |result| && u in collected && u !in keys ensures result[i].score >= FinalScore(collected[u]) {
      assert Ranked(u, rank(collected[u])) in multiset(items);
      assert Ranked(u, rank(collected[u])) in multiset(sorted);
      var y :| 0 <= y < |sorted| && sorted[y] == Ranked(u, rank(collected[u]));
    }
  }
}
