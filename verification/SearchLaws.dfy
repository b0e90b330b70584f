/** What a search has found, told in the answers of the store and of the reranker. */
module SearchLaws {
  import opened Prelude
  import opened SearchModel
  import opened SearchSteps

  /**
   * Child number `i` in the store's answer for `v`, its own score (the reranker's, if that answered for every child), and
   * the score it is offered when `v` is expanded with score `s`: halfway between its own and a positive `s`.
   */
  ghost predicate Offered(env: Env, v: string, s: real, i: nat, hit: Hit, raw: real, offer: real) {
    && env.children(v).Some? && i < |env.children(v).value|
    && var hits := env.children(v).value;
       var reranked := env.rerank(v, seq(|hits|, j requires 0 <= j < |hits| => hits[j].context.summary));
       && hit == hits[i]
       && raw == (if reranked.Some? && |reranked.value| == |hits| then reranked.value[i] else hit.score)
       && offer == (if s > 0.0 then (raw + s) / 2.0 else raw)
  }

  lemma OfferedExactly(env: Env, v: string, s: real, i: nat, hit: Hit, raw: real, offer: real)
    ensures Offered(env, v, s, i, hit, raw, offer) <==>
            i < |Kids(env, v)| && hit == Kids(env, v)[i] && raw == Raw(env, v, i) && offer == Offer(env, v, s, i)
  {
    if env.children(v).Some? {
      var hits := env.children(v).value;
      assert Summaries(hits) == seq(|hits|, j requires 0 <= j < |hits| => hits[j].context.summary);
    }
  }

  /** A level that is given and is not that of a file's own content. */
  predicate IsDirectory(c: Context) {
    c.level.Some? && c.level.value != 2
  }

  /**
   * Nothing appears without a reason: what is expanded is a start or a directory offered, above the threshold, by
   * something expanded; what is collected is a seed or was offered so, and records exactly that.
   */
  ghost predicate Grounded(env: Env, starts: seq<Item>, seeds: seq<Record>, collected: Collected, expanded: map<string, real>) {
    && (forall v :: v in expanded ==>
          || (exists k :: 0 <= k < |starts| && starts[k] == Item(v, expanded[v]))
          || (exists u, i, hit, raw :: u in expanded && Offered(env, u, expanded[u], i, hit, raw, expanded[v])
                && expanded[v] > env.threshold && hit.context.uri == v && IsDirectory(hit.context)))
    && (forall u :: u in collected ==>
          || (collected[u] in seeds && collected[u].uri == u)
          || (exists v, i, hit, raw, offer :: v in expanded && Offered(env, v, expanded[v], i, hit, raw, offer)
                && offer > env.threshold && hit.context.uri == u
                && collected[u] == Record(u, hit.context.summary, raw, offer, hit.context)))
  }

  /**
   * Nothing is missing: the starts are expanded; of every seed and every child offered above the threshold the best score
   * is collected; and every such child that is a directory is expanded.
   */
  ghost predicate Closed(env: Env, starts: seq<Item>, seeds: seq<Record>, collected: Collected, expanded: map<string, real>) {
    && (forall k :: 0 <= k < |starts| ==> starts[k].uri in expanded)
    && (forall r :: r in seeds && r.uri != "" ==> r.uri in collected && collected[r.uri].finalScore >= r.finalScore)
    && (forall v, i, hit, raw, offer ::
          v in expanded && Offered(env, v, expanded[v], i, hit, raw, offer) && offer > env.threshold ==>
            && hit.context.uri in collected && collected[hit.context.uri].finalScore >= offer
            && (IsDirectory(hit.context) ==> hit.context.uri in expanded))
  }

  lemma SearchGrounded(env: Env, starts: seq<Item>, seeds: seq<Record>, universe: set<string>, collected: Collected,
                       expanded: map<string, real>, queue: seq<Item>)
    requires SearchInv(env, starts, seeds, universe, collected, expanded, queue, None)
    ensures Grounded(env, starts, seeds, collected, expanded)
  {
    hide Kids, Raw, Offer, AllDone, Reached, StartsKnown, Inside, SeedsIn, Offered;
    forall v | v in expanded && !exists k :: 0 <= k < |starts| && starts[k] == Item(v, expanded[v])
      ensures exists u, i, hit, raw :: u in expanded && Offered(env, u, expanded[u], i, hit, raw, expanded[v])
                && expanded[v] > env.threshold && hit.context.uri == v && IsDirectory(hit.context)
    {
      assert Entered(env, starts, expanded, v, expanded[v]);
      var u, i :| u in expanded && 0 <= i < |Kids(env, u)| && IsEntry(env, expanded, u, i, v, expanded[v]);
      OfferedExactly(env, u, expanded[u], i, Kids(env, u)[i], Raw(env, u, i), expanded[v]);
    }
    forall u | u in collected && collected[u] !in seeds
      ensures exists v, i, hit, raw, offer :: v in expanded && Offered(env, v, expanded[v], i, hit, raw, offer)
                && offer > env.threshold && hit.context.uri == u
                && collected[u] == Record(u, hit.context.summary, raw, offer, hit.context)
    {
      assert Found(env, starts, expanded, collected[u]);
      var v, i := FoundIsOffered(env, starts, expanded, collected[u]);
    }
  }

  lemma FoundIsOffered(env: Env, starts: seq<Item>, expanded: map<string, real>, r: Record) returns (v: string, i: nat)
    requires Found(env, starts, expanded, r)
    ensures v in expanded && i < |Kids(env, v)| && r.finalScore > env.threshold
    ensures var hit := Kids(env, v)[i];
            && Offered(env, v, expanded[v], i, hit, r.score, r.finalScore)
            && r == Record(hit.context.uri, hit.context.summary, r.score, r.finalScore, hit.context)
  {
    hide Raw, Offer, Offered;
    var t :| FoundBy(env, starts, expanded, r, t);
    v, i := TrailEnd(env, starts, t.up), t.child;
    OfferedExactly(env, v, expanded[v], i, Kids(env, v)[i], r.score, r.finalScore);
  }

  /** A search that ran out of candidates has missed none. */
  lemma ExhaustedIsClosed(env: Env, starts: seq<Item>, seeds: seq<Record>, universe: set<string>, collected: Collected,
                          expanded: map<string, real>)
    requires SearchInv(env, starts, seeds, universe, collected, expanded, [], None)
    ensures Closed(env, starts, seeds, collected, expanded)
  {
    hide Kids, Raw, Offer, Offered, Sound, Origins, Inside;
    forall v, i, hit, raw, offer | v in expanded && Offered(env, v, expanded[v], i, hit, raw, offer) && offer > env.threshold
      ensures hit.context.uri in collected && collected[hit.context.uri].finalScore >= offer
      ensures IsDirectory(hit.context) ==> hit.context.uri in expanded
    {
      OfferedExactly(env, v, expanded[v], i, hit, raw, offer);
      assert ChildrenDone(env, v, expanded[v], |Kids(env, v)|, collected, expanded, []);
    }
  }
}
