/** What each action of the search loop keeps. */
module SearchSteps {
  import opened Prelude
  import opened SearchModel

  lemma ReachedLasts(env: Env, starts: seq<Item>, expanded: map<string, real>, expanded': map<string, real>, uri: string, score: real)
    requires Extends(expanded, expanded') && Reached(env, starts, expanded, uri, score)
    ensures Reached(env, starts, expanded', uri, score)
  {
    var t :| ValidTrail(env, starts, expanded, t) && TrailEnd(env, starts, t) == uri && TrailScore(env, starts, t) == score;
    TrailLasts(env, starts, expanded, expanded', t);
  }

  lemma FoundLasts(env: Env, starts: seq<Item>, expanded: map<string, real>, expanded': map<string, real>, r: Record)
    requires Extends(expanded, expanded') && Found(env, starts, expanded, r)
    ensures Found(env, starts, expanded', r)
  {
    var t :| FoundBy(env, starts, expanded, r, t);
    TrailLasts(env, starts, expanded, expanded', t);
    assert FoundBy(env, starts, expanded', r, t);
  }

  lemma StartReached(env: Env, starts: seq<Item>, expanded: map<string, real>, k: nat)
    requires k < |starts|
    ensures Reached(env, starts, expanded, starts[k].uri, starts[k].score)
  {
    assert ValidTrail(env, starts, expanded, Start(k));
  }

  /** A popped item is expanded with its score. */
  lemma ExpandSound(env: Env, starts: seq<Item>, seeds: seq<Record>, collected: Collected, expanded: map<string, real>,
                    queue: seq<Item>, item: Item)
    requires Sound(env, starts, seeds, collected, expanded, queue)
    requires Reached(env, starts, expanded, item.uri, item.score) && item.uri !in expanded
    ensures Sound(env, starts, seeds, collected, expanded[item.uri := item.score], queue)
  {
    hide Reached, Found;
    var expanded' := expanded[item.uri := item.score];
    forall k | 0 <= k < |queue| ensures Reached(env, starts, expanded', queue[k].uri, queue[k].score) {
      ReachedLasts(env, starts, expanded, expanded', queue[k].uri, queue[k].score);
    }
    forall v | v in expanded' ensures Reached(env, starts, expanded', v, expanded'[v]) {
      ReachedLasts(env, starts, expanded, expanded', v, expanded'[v]);
    }
    forall u | u in collected && collected[u] !in seeds ensures Found(env, starts, expanded', collected[u]) {
      FoundLasts(env, starts, expanded, expanded', collected[u]);
    }
  }

  function ChildRecord(env: Env, v: string, s: real, i: nat): Record
    requires i < |Kids(env, v)|
  {
    var c := Kids(env, v)[i].context;
    Record(c.uri, c.summary, Raw(env, v, i), Offer(env, v, s, i), c)
  }

  lemma ChildFound(env: Env, starts: seq<Item>, expanded: map<string, real>, v: string, i: nat)
    requires v in expanded && Reached(env, starts, expanded, v, expanded[v])
    requires i < |Kids(env, v)| && Offer(env, v, expanded[v], i) > env.threshold
    ensures Found(env, starts, expanded, ChildRecord(env, v, expanded[v], i))
    ensures Reached(env, starts, expanded, Kids(env, v)[i].context.uri, Offer(env, v, expanded[v], i))
  {
    var up :| ValidTrail(env, starts, expanded, up) && TrailEnd(env, starts, up) == v && TrailScore(env, starts, up) == expanded[v];
    var t := Via(up, i);
    assert ValidTrail(env, starts, expanded, t);
    assert FoundBy(env, starts, expanded, ChildRecord(env, v, expanded[v], i), t);
  }

  /** One child above the threshold: recorded if it improves, and queued if it is an unvisited directory. */
  lemma OfferSound(env: Env, starts: seq<Item>, seeds: seq<Record>, collected: Collected, expanded: map<string, real>,
                   queue: seq<Item>, v: string, i: nat, queue': seq<Item>)
    requires Sound(env, starts, seeds, collected, expanded, queue) && v in expanded
    requires i < |Kids(env, v)| && Offer(env, v, expanded[v], i) > env.threshold
    requires queue' == queue || queue' == queue + [Item(Kids(env, v)[i].context.uri, Offer(env, v, expanded[v], i))]
    ensures Sound(env, starts, seeds, Improve(collected, ChildRecord(env, v, expanded[v], i)), expanded, queue')
  {
    hide Reached, Found, Offer, Kids, Raw;
    ChildFound(env, starts, expanded, v, i);
  }

  /** More collected, more expanded, and a queue that loses no unexpanded URI keep what is done. */
  lemma ChildrenStayDone(env: Env, v: string, s: real, n: nat, collected: Collected, expanded: map<string, real>, queue: seq<Item>,
                         collected': Collected, expanded': map<string, real>, queue': seq<Item>)
    requires ChildrenDone(env, v, s, n, collected, expanded, queue)
    requires Grows(collected, collected') && expanded.Keys <= expanded'.Keys
    requires forall u :: InQueue(queue, u) ==> u in expanded' || InQueue(queue', u)
    ensures ChildrenDone(env, v, s, n, collected', expanded', queue')
  {
  }

  lemma AllStayDone(env: Env, skip: Option<string>, collected: Collected, expanded: map<string, real>, queue: seq<Item>,
                    collected': Collected, expanded': map<string, real>, queue': seq<Item>)
    requires AllDone(env, skip, collected, expanded, queue)
    requires Grows(collected, collected') && Extends(expanded, expanded')
    requires forall v :: v in expanded' && skip != Some(v) ==> v in expanded
    requires forall u :: InQueue(queue, u) ==> u in expanded' || InQueue(queue', u)
    ensures AllDone(env, skip, collected', expanded', queue')
  {
  }

  lemma ImproveGrows(collected: Collected, r: Record)
    ensures Grows(collected, Improve(collected, r))
    ensures AtLeast(Improve(collected, r), r.uri, r.finalScore)
  {
  }

  lemma SeedsStayIn(seeds: seq<Record>, collected: Collected, collected': Collected)
    requires SeedsIn(seeds, collected) && Grows(collected, collected')
    ensures SeedsIn(seeds, collected')
  {
  }

  lemma QueuePush(queue: seq<Item>, item: Item)
    ensures forall u :: InQueue(queue + [item], u) <==> InQueue(queue, u) || u == item.uri
  {
    forall u ensures InQueue(queue + [item], u) <==> InQueue(queue, u) || u == item.uri {
      if InQueue(queue, u) {
        var k :| 0 <= k < |queue| && queue[k].uri == u;
        assert (queue + [item])[k].uri == u;
      }
      if u == item.uri { assert (queue + [item])[|queue|].uri == u; }
    }
  }

  lemma QueuePop(queue: seq<Item>, k: nat)
    requires k < |queue|
    ensures var left := queue[..k] + queue[k + 1..];
            forall u :: InQueue(queue, u) ==> u == queue[k].uri || InQueue(left, u)
  {
    var left := queue[..k] + queue[k + 1..];
    forall u | InQueue(queue, u) && u != queue[k].uri ensures InQueue(left, u) {
      var j :| 0 <= j < |queue| && queue[j].uri == u;
      assert left[if j < k then j else j - 1].uri == u;
    }
  }

  /** Everything the search promises between two turns of its loop. */
  ghost predicate SearchInv(env: Env, starts: seq<Item>, seeds: seq<Record>, universe: set<string>, collected: Collected,
                            expanded: map<string, real>, queue: seq<Item>, skip: Option<string>)
  {
    && Sound(env, starts, seeds, collected, expanded, queue)
    && SeedsIn(seeds, collected)
    && AllDone(env, skip, collected, expanded, queue)
    && StartsKnown(starts, expanded, queue)
    && Origins(env, starts, expanded, queue)
    && Inside(universe, expanded, queue)
  }

  /** Marking, dropping and pushing keep every origin. */
  lemma OriginsStay(env: Env, starts: seq<Item>, expanded: map<string, real>, queue: seq<Item>,
                    expanded': map<string, real>, queue': seq<Item>)
    requires Origins(env, starts, expanded, queue) && Extends(expanded, expanded')
    requires forall x :: x in queue' ==> x in queue || Entered(env, starts, expanded', x.uri, x.score)
    requires forall v :: v in expanded' && v !in expanded ==> Entered(env, starts, expanded, v, expanded'[v])
    ensures Origins(env, starts, expanded', queue')
  {
    hide Entered;
    forall k | 0 <= k < |queue'| ensures Entered(env, starts, expanded', queue'[k].uri, queue'[k].score) {
      if queue'[k] in queue { EnteredLasts(env, starts, expanded, expanded', queue'[k].uri, queue'[k].score); }
    }
    forall v | v in expanded' ensures Entered(env, starts, expanded', v, expanded'[v]) {
      EnteredLasts(env, starts, expanded, expanded', v, expanded'[v]);
    }
  }

  lemma OfferKeeps(env: Env, starts: seq<Item>, seeds: seq<Record>, universe: set<string>, collected: Collected,
                   expanded: map<string, real>, queue: seq<Item>, v: string, i: nat, queue': seq<Item>)
    requires SearchInv(env, starts, seeds, universe, collected, expanded, queue, Some(v)) && Universe(env, starts, universe)
    requires v in expanded && i < |Kids(env, v)| && Offer(env, v, expanded[v], i) > env.threshold
    requires ChildrenDone(env, v, expanded[v], i, collected, expanded, queue)
    requires var c := Kids(env, v)[i].context;
             queue' == if c.uri !in expanded && !IsLeaf(c) then queue + [Item(c.uri, Offer(env, v, expanded[v], i))] else queue
    ensures var collected' := Improve(collected, ChildRecord(env, v, expanded[v], i));
            && SearchInv(env, starts, seeds, universe, collected', expanded, queue', Some(v))
            && ChildrenDone(env, v, expanded[v], i + 1, collected', expanded, queue')
            && Grows(collected, collected')
  {
    hide Sound, AllDone, SeedsIn, Improve, Offer, Raw, InQueue, Grows, Kids, Origins;
    if !IsLeaf(Kids(env, v)[i].context) { ChildEntered(env, starts, expanded, v, i); }
    OriginsStay(env, starts, expanded, queue, expanded, queue');
    hide Entered;
    var item := Item(Kids(env, v)[i].context.uri, Offer(env, v, expanded[v], i));
    var collected' := Improve(collected, ChildRecord(env, v, expanded[v], i));
    QueuePush(queue, item);
    ImproveGrows(collected, ChildRecord(env, v, expanded[v], i));
    OfferSound(env, starts, seeds, collected, expanded, queue, v, i, queue');
    SeedsStayIn(seeds, collected, collected');
    AllStayDone(env, Some(v), collected, expanded, queue, collected', expanded, queue');
    ChildrenStayDone(env, v, expanded[v], i, collected, expanded, queue, collected', expanded, queue');
  }

  lemma ChildEntered(env: Env, starts: seq<Item>, expanded: map<string, real>, v: string, i: nat)
    requires v in expanded && i < |Kids(env, v)| && Offer(env, v, expanded[v], i) > env.threshold && !IsLeaf(Kids(env, v)[i].context)
    ensures Entered(env, starts, expanded, Kids(env, v)[i].context.uri, Offer(env, v, expanded[v], i))
  {
    assert IsEntry(env, expanded, v, i, Kids(env, v)[i].context.uri, Offer(env, v, expanded[v], i));
  }

  lemma SameItems(queue: seq<Item>, queue': seq<Item>)
    requires multiset(queue) == multiset(queue')
    ensures forall x :: x in queue <==> x in queue'
    ensures forall u :: InQueue(queue, u) <==> InQueue(queue', u)
  {
    forall x ensures x in queue <==> x in queue' {
      assert x in queue <==> x in multiset(queue);
      assert x in queue' <==> x in multiset(queue');
    }
    forall u ensures InQueue(queue, u) <==> InQueue(queue', u) {
      if InQueue(queue, u) {
        var k :| 0 <= k < |queue| && queue[k].uri == u;
        assert queue[k] in queue';
      }
      if InQueue(queue', u) {
        var k :| 0 <= k < |queue'| && queue'[k].uri == u;
        assert queue'[k] in queue;
      }
    }
  }

  /** The order of the queue plays no part in the promises. */
  lemma ReorderKeeps(env: Env, starts: seq<Item>, seeds: seq<Record>, universe: set<string>, collected: Collected,
                     expanded: map<string, real>, queue: seq<Item>, skip: Option<string>, queue': seq<Item>)
    requires SearchInv(env, starts, seeds, universe, collected, expanded, queue, skip)
    requires multiset(queue) == multiset(queue')
    ensures SearchInv(env, starts, seeds, universe, collected, expanded, queue', skip)
  {
    hide InQueue, AllDone, Reached, Found, Grows, Entered, Origins;
    SameItems(queue, queue');
    OriginsStay(env, starts, expanded, queue, expanded, queue');
    ReorderSound(env, starts, seeds, collected, expanded, queue, queue');
    GrowsItself(collected);
    AllStayDone(env, skip, collected, expanded, queue, collected, expanded, queue');
    forall k | 0 <= k < |queue'| ensures queue'[k].uri in universe {
      assert queue'[k] in queue;
    }
  }

  lemma ReorderSound(env: Env, starts: seq<Item>, seeds: seq<Record>, collected: Collected, expanded: map<string, real>,
                     queue: seq<Item>, queue': seq<Item>)
    requires Sound(env, starts, seeds, collected, expanded, queue) && forall x :: x in queue' ==> x in queue
    ensures Sound(env, starts, seeds, collected, expanded, queue')
  {
    hide Reached, Found;
    forall k | 0 <= k < |queue'| ensures Reached(env, starts, expanded, queue'[k].uri, queue'[k].score) {
      assert queue'[k] in queue;
    }
  }

  lemma GrowsItself(collected: Collected)
    ensures Grows(collected, collected)
  {
  }
}
