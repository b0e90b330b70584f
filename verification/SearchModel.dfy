/** Best-first search over a directory tree: scores, trails, and what a state of the search promises. */
module SearchModel {
  import opened Prelude

  datatype Context = Context(uri: string, contextType: string, category: string, summary: string, level: Option<int>,
                             hotness: real)

  /** One result of a vector search. */
  datatype Hit = Hit(context: Context, score: real)

  /** A collected candidate: its own score, and the one blended along the way. */
  datatype Record = Record(uri: string, summary: string, score: real, finalScore: real, context: Context)

  datatype Item = Item(uri: string, score: real)

  /**
   * The outside world: the children found below a directory (none on an error), the reranker's scores for the texts of
   * these children (none without a reranker or on its error), and the score a child must exceed.
   */
  datatype Env = Env(children: string -> Option<seq<Hit>>, rerank: (string, seq<string>) -> Option<seq<real>>, threshold: real)

  const SCORE_PROP_ALPHA := 0.5
  const HOTNESS_ALPHA := 0.2
  const MAX_CONVERGENCE_ROUNDS := 3

  predicate IsLeaf(c: Context) {
    c.level == None || c.level == Some(2)
  }

  function Kids(env: Env, v: string): seq<Hit> {
    match env.children(v)
    case None => []
    case Some(hits) => hits
  }

  function Summaries(hits: seq<Hit>): (r: seq<string>)
    ensures |r| == |hits| && forall i :: 0 <= i < |hits| ==> r[i] == hits[i].context.summary
  {
    if hits == [] then [] else Summaries(hits[..|hits| - 1]) + [hits[|hits| - 1].context.summary]
  }

  /** The raw score of a child: the reranker's, if it answered for every child, else the search's. */
  function Raw(env: Env, v: string, i: nat): real
    requires i < |Kids(env, v)|
  {
    var hits := Kids(env, v);
    var reranked := env.rerank(v, Summaries(hits));
    if reranked.Some? && |reranked.value| == |hits| then reranked.value[i] else hits[i].score
  }

  function Blend(parent: real, raw: real): real {
    if parent > 0.0 then SCORE_PROP_ALPHA * raw + (1.0 - SCORE_PROP_ALPHA) * parent else raw
  }

  /** The score child `i` of `v` is offered when `v` is expanded with score `s`. */
  function Offer(env: Env, v: string, s: real, i: nat): real
    requires i < |Kids(env, v)|
  {
    Blend(s, Raw(env, v, i))
  }

  // ----- Trails: where a score comes from -----

  datatype Trail = Start(k: nat) | Via(up: Trail, child: nat)

  function TrailEnd(env: Env, starts: seq<Item>, t: Trail): string {
    match t
    case Start(k) => if k < |starts| then starts[k].uri else ""
    case Via(up, i) =>
      var v := TrailEnd(env, starts, up);
      if i < |Kids(env, v)| then Kids(env, v)[i].context.uri else ""
  }

  /** The start's score, blended half and half with the raw score of every child on the way. */
  function TrailScore(env: Env, starts: seq<Item>, t: Trail): real {
    match t
    case Start(k) => if k < |starts| then starts[k].score else 0.0
    case Via(up, i) =>
      var v := TrailEnd(env, starts, up);
      if i < |Kids(env, v)| then Offer(env, v, TrailScore(env, starts, up), i) else 0.0
  }

  /** Every directory on the trail was expanded, with the trail's score, and every step beat the threshold. */
  ghost predicate ValidTrail(env: Env, starts: seq<Item>, expanded: map<string, real>, t: Trail) {
    match t
    case Start(k) => k < |starts|
    case Via(up, i) =>
      && ValidTrail(env, starts, expanded, up)
      && var v := TrailEnd(env, starts, up);
      && v in expanded && expanded[v] == TrailScore(env, starts, up)
      && i < |Kids(env, v)| && TrailScore(env, starts, t) > env.threshold
  }

  ghost predicate Reached(env: Env, starts: seq<Item>, expanded: map<string, real>, uri: string, score: real) {
    exists t :: ValidTrail(env, starts, expanded, t) && TrailEnd(env, starts, t) == uri && TrailScore(env, starts, t) == score
  }

  /** The record came out of expanding a directory: its score is the end of a trail. */
  ghost predicate FoundBy(env: Env, starts: seq<Item>, expanded: map<string, real>, r: Record, t: Trail) {
    && t.Via? && ValidTrail(env, starts, expanded, t)
    && var v := TrailEnd(env, starts, t.up);
    && r.uri == TrailEnd(env, starts, t) == Kids(env, v)[t.child].context.uri
    && r.context == Kids(env, v)[t.child].context && r.summary == r.context.summary
    && r.score == Raw(env, v, t.child)
    && r.finalScore == TrailScore(env, starts, t)
  }

  ghost predicate Found(env: Env, starts: seq<Item>, expanded: map<string, real>, r: Record) {
    exists t :: FoundBy(env, starts, expanded, r, t)
  }

  ghost predicate Extends(expanded: map<string, real>, expanded': map<string, real>) {
    forall v :: v in expanded ==> v in expanded' && expanded'[v] == expanded[v]
  }

  lemma {:induction false} TrailLasts(env: Env, starts: seq<Item>, expanded: map<string, real>, expanded': map<string, real>, t: Trail)
    requires Extends(expanded, expanded') && ValidTrail(env, starts, expanded, t)
    ensures ValidTrail(env, starts, expanded', t)
  {
    if t.Via? {
      TrailLasts(env, starts, expanded, expanded', t.up);
    }
  }

  // ----- States of the search -----

  type Collected = map<string, Record>

  ghost predicate InQueue(queue: seq<Item>, uri: string) {
    exists k :: 0 <= k < |queue| && queue[k].uri == uri
  }

  /** Every score has its origin. */
  ghost predicate Sound(env: Env, starts: seq<Item>, seeds: seq<Record>, collected: Collected, expanded: map<string, real>,
                        queue: seq<Item>)
  {
    && (forall k :: 0 <= k < |queue| ==> Reached(env, starts, expanded, queue[k].uri, queue[k].score))
    && (forall v :: v in expanded ==> Reached(env, starts, expanded, v, expanded[v]))
    && (forall u :: u in collected ==> collected[u].uri == u && (collected[u] in seeds || Found(env, starts, expanded, collected[u])))
  }

  ghost predicate AtLeast(collected: Collected, u: string, score: real) {
    u in collected && collected[u].finalScore >= score
  }

  ghost predicate SeedsIn(seeds: seq<Record>, collected: Collected) {
    forall r :: r in seeds && r.uri != "" ==> AtLeast(collected, r.uri, r.finalScore)
  }

  /** The first `n` children of `v` have been offered, and the directories among them queued. */
  ghost predicate ChildrenDone(env: Env, v: string, s: real, n: nat, collected: Collected, expanded: map<string, real>,
                               queue: seq<Item>)
  {
    n <= |Kids(env, v)| &&
    forall i :: 0 <= i < n && Offer(env, v, s, i) > env.threshold ==>
                  var c := Kids(env, v)[i].context;
                  && AtLeast(collected, c.uri, Offer(env, v, s, i))
                  && (!IsLeaf(c) ==> c.uri in expanded || InQueue(queue, c.uri))
  }

  /** All children of everything expanded so far, except of `skip`, have been dealt with. */
  ghost predicate AllDone(env: Env, skip: Option<string>, collected: Collected, expanded: map<string, real>, queue: seq<Item>) {
    forall v :: v in expanded && skip != Some(v) ==>
                  ChildrenDone(env, v, expanded[v], |Kids(env, v)|, collected, expanded, queue)
  }

  ghost predicate StartsKnown(starts: seq<Item>, expanded: map<string, real>, queue: seq<Item>) {
    forall k :: 0 <= k < |starts| ==> starts[k].uri in expanded || InQueue(queue, starts[k].uri)
  }

  /** Why a URI stands in the queue with a score: it is a start, or a directory found below an expanded one. */
  ghost predicate Entered(env: Env, starts: seq<Item>, expanded: map<string, real>, uri: string, score: real) {
    || (exists k :: 0 <= k < |starts| && starts[k] == Item(uri, score))
    || (exists v, i :: v in expanded && 0 <= i < |Kids(env, v)| && IsEntry(env, expanded, v, i, uri, score))
  }

  ghost predicate IsEntry(env: Env, expanded: map<string, real>, v: string, i: nat, uri: string, score: real)
    requires v in expanded && i < |Kids(env, v)|
  {
    && Kids(env, v)[i].context.uri == uri && !IsLeaf(Kids(env, v)[i].context)
    && Offer(env, v, expanded[v], i) == score > env.threshold
  }

  ghost predicate Origins(env: Env, starts: seq<Item>, expanded: map<string, real>, queue: seq<Item>) {
    && (forall k :: 0 <= k < |queue| ==> Entered(env, starts, expanded, queue[k].uri, queue[k].score))
    && (forall v :: v in expanded ==> Entered(env, starts, expanded, v, expanded[v]))
  }

  lemma EnteredLasts(env: Env, starts: seq<Item>, expanded: map<string, real>, expanded': map<string, real>, uri: string, score: real)
    requires Extends(expanded, expanded') && Entered(env, starts, expanded, uri, score)
    ensures Entered(env, starts, expanded', uri, score)
  {
    if !exists k :: 0 <= k < |starts| && starts[k] == Item(uri, score) {
      var v, i :| v in expanded && 0 <= i < |Kids(env, v)| && IsEntry(env, expanded, v, i, uri, score);
      assert IsEntry(env, expanded', v, i, uri, score);
    }
  }

  /** A finite set of URIs that the searches never leave. */
  ghost predicate Universe(env: Env, starts: seq<Item>, universe: set<string>) {
    && (forall k :: 0 <= k < |starts| ==> starts[k].uri in universe)
    && (forall v, i :: v in universe && 0 <= i < |Kids(env, v)| ==> Kids(env, v)[i].context.uri in universe)
  }

  ghost predicate Inside(universe: set<string>, expanded: map<string, real>, queue: seq<Item>) {
    expanded.Keys <= universe && forall k :: 0 <= k < |queue| ==> queue[k].uri in universe
  }

  /** Collected scores only ever grow. */
  ghost predicate Grows(a: Collected, b: Collected) {
    forall u :: u in a ==> u in b && b[u].finalScore >= a[u].finalScore
  }

  /** The best known record for a URI is kept. */
  function Improve(collected: Collected, r: Record): Collected {
    if r.uri !in collected || r.finalScore > collected[r.uri].finalScore then collected[r.uri := r] else collected
  }

  /** The largest elements of the collection: no one outside beats one inside. */
  ghost predicate IsTop(collected: Collected, top: set<string>) {
    top <= collected.Keys &&
    forall a, b :: a in top && b in collected && b !in top ==> collected[a].finalScore >= collected[b].finalScore
  }

  // ----- Scores between zero and one -----

  predicate Unit(x: real) {
    0.0 <= x <= 1.0
  }

  ghost predicate UnitScores(env: Env, starts: seq<Item>, seeds: seq<Record>) {
    && (forall k :: 0 <= k < |starts| ==> Unit(starts[k].score))
    && (forall r :: r in seeds ==> Unit(r.finalScore))
    && (forall v, i :: 0 <= i < |Kids(env, v)| ==> Unit(Raw(env, v, i)))
  }

  lemma {:induction false} TrailUnit(env: Env, starts: seq<Item>, seeds: seq<Record>, expanded: map<string, real>, t: Trail)
    requires UnitScores(env, starts, seeds) && ValidTrail(env, starts, expanded, t)
    ensures Unit(TrailScore(env, starts, t))
  {
    if t.Via? {
      TrailUnit(env, starts, seeds, expanded, t.up);
      var v := TrailEnd(env, starts, t.up);
      assert Unit(Raw(env, v, t.child));
    }
  }

  function FinalScore(r: Record): real {
    (1.0 - HOTNESS_ALPHA) * r.finalScore + HOTNESS_ALPHA * r.context.hotness
  }

  /** Scores in [0, 1] stay there, through propagation and through the hotness blend. */
  lemma CollectedUnit(env: Env, starts: seq<Item>, seeds: seq<Record>, collected: Collected, expanded: map<string, real>,
                      queue: seq<Item>, u: string)
    requires Sound(env, starts, seeds, collected, expanded, queue) && UnitScores(env, starts, seeds) && u in collected
    ensures Unit(collected[u].finalScore)
    ensures Unit(collected[u].context.hotness) ==> Unit(FinalScore(collected[u]))
  {
    if collected[u] !in seeds {
      var t :| FoundBy(env, starts, expanded, collected[u], t);
      TrailUnit(env, starts, seeds, expanded, t);
    }
  }

  /**
   * Each collected score is exactly the best of everything offered: no seed and no child of an expanded directory
   * offers more, and some seed or trail attains it.
   */
  lemma BestOffer(env: Env, starts: seq<Item>, seeds: seq<Record>, collected: Collected, expanded: map<string, real>,
                  queue: seq<Item>, u: string)
    requires Sound(env, starts, seeds, collected, expanded, queue) && SeedsIn(seeds, collected)
    requires AllDone(env, None, collected, expanded, queue)
    requires u in collected && u != ""
    ensures forall r :: r in seeds && r.uri == u ==> r.finalScore <= collected[u].finalScore
    ensures forall v, i :: v in expanded && 0 <= i < |Kids(env, v)| && Kids(env, v)[i].context.uri == u &&
                           Offer(env, v, expanded[v], i) > env.threshold ==>
                             Offer(env, v, expanded[v], i) <= collected[u].finalScore
    ensures collected[u] in seeds || exists t :: FoundBy(env, starts, expanded, collected[u], t)
  {
    forall v, i | v in expanded && 0 <= i < |Kids(env, v)| && Kids(env, v)[i].context.uri == u &&
                  Offer(env, v, expanded[v], i) > env.threshold
      ensures Offer(env, v, expanded[v], i) <= collected[u].finalScore
    {
      assert ChildrenDone(env, v, expanded[v], |Kids(env, v)|, collected, expanded, queue);
    }
  }
}
