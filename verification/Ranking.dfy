/** Ranking metrics over abstract discounts: any positive, strictly decreasing weights. */
module Ranking {
  import opened Prelude

  /** Weights that stand for 1 / log2(i + 2). */
  ghost predicate Discount(w: nat -> real) {
    && (forall i: nat :: w(i) > 0.0)
    && (forall i: nat, j: nat :: i < j ==> w(i) > w(j))
  }

  function Elements(docs: seq<string>): set<string> {
    set d | d in docs
  }

  /** How many of the first `n` documents are relevant. */
  function Hits(docs: seq<string>, relevant: set<string>, n: nat): nat
    requires n <= |docs|
  {
    if n == 0 then 0 else Hits(docs, relevant, n - 1) + if docs[n - 1] in relevant then 1 else 0
  }

  function Gain(docs: seq<string>, relevant: set<string>, w: nat -> real, n: nat): real
    requires n <= |docs|
  {
    if n == 0 then 0.0 else Gain(docs, relevant, w, n - 1) + if docs[n - 1] in relevant then w(n - 1) else 0.0
  }

  function IdealGain(w: nat -> real, n: nat): real {
    if n == 0 then 0.0 else IdealGain(w, n - 1) + w(n - 1)
  }

  ghost predicate AllRelevant(docs: seq<string>, relevant: set<string>, n: nat) {
    n <= |docs| && forall i :: 0 <= i < n ==> docs[i] in relevant
  }

  /** Rearrangement: `h` hits gain at most the first `h` weights, and that much only when they come first. */
  lemma {:induction false} GainAtMost(docs: seq<string>, relevant: set<string>, w: nat -> real, n: nat)
    requires Discount(w) && n <= |docs|
    ensures var h := Hits(docs, relevant, n);
            && h <= n && 0.0 <= Gain(docs, relevant, w, n) <= IdealGain(w, h)
            && (Gain(docs, relevant, w, n) == IdealGain(w, h) ==> AllRelevant(docs, relevant, h))
  {
    if n > 0 {
      GainAtMost(docs, relevant, w, n - 1);
      var h := Hits(docs, relevant, n - 1);
    }
  }

  lemma {:induction false} GainAllRelevant(docs: seq<string>, relevant: set<string>, w: nat -> real, m: nat, n: nat)
    requires Discount(w) && m <= n <= |docs| && AllRelevant(docs, relevant, m)
    ensures Gain(docs, relevant, w, n) >= IdealGain(w, m)
    decreases n
  {
    if m < n {
      GainAllRelevant(docs, relevant, w, m, n - 1);
    } else if n > 0 {
      GainAllRelevant(docs, relevant, w, m - 1, n - 1);
    }
  }

  lemma {:induction false} IdealGrows(w: nat -> real, m: nat, n: nat)
    requires Discount(w) && m <= n
    ensures IdealGain(w, m) <= IdealGain(w, n) && (m < n ==> IdealGain(w, m) < IdealGain(w, n))
    decreases n - m
  {
    if m < n {
      IdealGrows(w, m, n - 1);
    }
  }

  /** The distinct relevant documents among the first `n`. */
  function HitSet(docs: seq<string>, relevant: set<string>, n: nat): set<string>
    requires n <= |docs|
  {
    set i | 0 <= i < n && docs[i] in relevant :: docs[i]
  }

  /** Pigeonhole: without duplicates every hit is a relevant document of its own. */
  lemma {:induction false} HitsAreDistinct(docs: seq<string>, relevant: set<string>, n: nat)
    requires Distinct(docs) && n <= |docs|
    ensures Hits(docs, relevant, n) == |HitSet(docs, relevant, n)| <= |relevant|
  {
    if n > 0 {
      HitsAreDistinct(docs, relevant, n - 1);
      var before := HitSet(docs, relevant, n - 1);
      if docs[n - 1] in relevant {
        assert HitSet(docs, relevant, n) == before + {docs[n - 1]};
        assert docs[n - 1] !in before;
      } else {
        assert HitSet(docs, relevant, n) == before;
      }
    } else {
      assert HitSet(docs, relevant, 0) == {};
    }
    SubsetCard(HitSet(docs, relevant, n), relevant);
  }

  lemma {:induction false} ElementsCard(docs: seq<string>)
    ensures |Elements(docs)| <= |docs|
    ensures Distinct(docs) ==> |Elements(docs)| == |docs|
  {
    if docs == [] {
      assert Elements(docs) == {};
    } else {
      var last := |docs| - 1;
      ElementsCard(docs[..last]);
      assert docs == docs[..last] + [docs[last]];
      assert Elements(docs) == Elements(docs[..last]) + {docs[last]};
      if Distinct(docs) {
        assert docs[last] !in docs[..last];
      }
    }
  }

  function Cut(docs: seq<string>, k: nat): seq<string> {
    if |docs| > k then docs[..k] else docs
  }

  function IdealCount(expected: seq<string>, k: nat): nat {
    if |expected| < k then |expected| else k
  }

  function Ndcg(retrieved: seq<string>, expected: seq<string>, k: int, w: nat -> real): real {
    if k <= 0 || expected == [] then 0.0
    else
      var topK := Cut(retrieved, k);
      var ideal := IdealGain(w, IdealCount(expected, k));
      if ideal == 0.0 then 0.0 else Gain(topK, Elements(expected), w, |topK|) / ideal
  }

  /** The results considered that are relevant, repetitions counted again. */
  function HitCount(retrieved: seq<string>, expected: seq<string>, k: nat): nat {
    Hits(Cut(retrieved, k), Elements(expected), |Cut(retrieved, k)|)
  }

  /**
   * With no more hits than the ideal list has, NDCG lies in [0, 1] for every discount, and it is 1 exactly when the
   * first min(k, number expected) results exist and are all relevant.
   */
  lemma NdcgWithin(retrieved: seq<string>, expected: seq<string>, k: int, w: nat -> real)
    requires Discount(w) && k > 0 && expected != [] && HitCount(retrieved, expected, k) <= IdealCount(expected, k)
    ensures 0.0 <= Ndcg(retrieved, expected, k, w) <= 1.0
    ensures Ndcg(retrieved, expected, k, w) == 1.0 <==>
            AllRelevant(retrieved, Elements(expected), IdealCount(expected, k))
  {
    var topK, relevant, m := Cut(retrieved, k), Elements(expected), IdealCount(expected, k);
    var h := Hits(topK, relevant, |topK|);
    GainAtMost(topK, relevant, w, |topK|);
    IdealGrows(w, h, m);
    IdealGrows(w, 0, m);
    Ratio(Gain(topK, relevant, w, |topK|), IdealGain(w, m));
    if AllRelevant(retrieved, relevant, m) {
      GainAllRelevant(topK, relevant, w, m, |topK|);
    }
  }

  /** Discounts so flat that one hit more outweighs any order of the hits. */
  function Flat(m: nat): nat -> real {
    (i: nat) => 1.0 + 1.0 / ((m + 1) * (i + 1)) as real
  }

  lemma Inverses(a: real, b: real, x: real, y: real)
    requires 0.0 < a < b && x * a == 1.0 && y * b == 1.0
    ensures 0.0 < y < x
  {
    assert x > 0.0 && y > 0.0;
    assert x * b > x * a;
  }

  lemma InverseFalls(a: int, b: int)
    requires 0 < a < b
    ensures 0.0 < 1.0 / b as real < 1.0 / a as real
  {
    Inverses(a as real, b as real, 1.0 / a as real, 1.0 / b as real);
  }

  lemma FlatIsDiscount(m: nat)
    ensures Discount(Flat(m))
  {
    var w := Flat(m);
    forall i: nat ensures w(i) > 0.0 {
      InverseFalls((m + 1) * (i + 1), (m + 1) * (i + 1) + 1);
    }
    forall i: nat, j: nat | i < j ensures w(i) > w(j) {
      assert (m + 1) * (i + 1) < (m + 1) * (j + 1);
      InverseFalls((m + 1) * (i + 1), (m + 1) * (j + 1));
    }
  }

  lemma {:induction false} FlatGain(docs: seq<string>, relevant: set<string>, m: nat, n: nat)
    requires n <= |docs|
    ensures Gain(docs, relevant, Flat(m), n) >= Hits(docs, relevant, n) as real
  {
    if n > 0 {
      FlatGain(docs, relevant, m, n - 1);
      InverseFalls((m + 1) * n, (m + 1) * n + 1);
    }
  }

  lemma {:induction false} FlatIdeal(m: nat, n: nat)
    ensures IdealGain(Flat(m), n) <= n as real * (1.0 + 1.0 / (m + 1) as real)
  {
    if n > 0 {
      FlatIdeal(m, n - 1);
      var top := 1.0 + 1.0 / (m + 1) as real;
      if n > 1 {
        assert m + 1 < (m + 1) * n;
        InverseFalls(m + 1, (m + 1) * n);
      }
      assert Flat(m)(n - 1) <= top;
      assert (n - 1) as real * top + top == n as real * top;
    }
  }

  lemma FlatIdealSmall(m: nat)
    ensures IdealGain(Flat(m), m) < (m + 1) as real
  {
    hide IdealGain, Flat;
    FlatIdeal(m, m);
    InverseFalls(m + 1, m + 2);
    var part := 1.0 / (m + 1) as real;
    assert part * (m + 1) as real == 1.0;
    assert m as real * (1.0 + part) == m as real + part * (m + 1) as real - part;
  }

  /** With more hits than the ideal list has, some discount lifts NDCG above 1. */
  lemma ExcessExceedsOne(retrieved: seq<string>, expected: seq<string>, k: int)
    requires k > 0 && expected != [] && HitCount(retrieved, expected, k) > IdealCount(expected, k)
    ensures Discount(Flat(IdealCount(expected, k))) && Ndcg(retrieved, expected, k, Flat(IdealCount(expected, k))) > 1.0
  {
    hide Gain, Flat, Hits, Discount;
    var topK, m := Cut(retrieved, k), IdealCount(expected, k);
    FlatIsDiscount(m);
    FlatGain(topK, Elements(expected), m, |topK|);
    FlatIdealSmall(m);
    IdealGrows(Flat(m), 0, m);
    AboveOne(Gain(topK, Elements(expected), Flat(m), |topK|), IdealGain(Flat(m), m));
  }

  /** NDCG is at most 1 under every discount exactly when the results hold no more hits than the ideal list. */
  lemma AtMostOneExactly(retrieved: seq<string>, expected: seq<string>, k: int)
    ensures (forall w :: Discount(w) ==> Ndcg(retrieved, expected, k, w) <= 1.0) <==>
            (k > 0 && expected != [] ==> HitCount(retrieved, expected, k) <= IdealCount(expected, k))
  {
    if k > 0 && expected != [] {
      if HitCount(retrieved, expected, k) <= IdealCount(expected, k) {
        forall w | Discount(w) ensures Ndcg(retrieved, expected, k, w) <= 1.0 {
          NdcgWithin(retrieved, expected, k, w);
        }
      } else {
        ExcessExceedsOne(retrieved, expected, k);
      }
    }
  }

  /** A result list without duplicates never has an excess of hits. */
  lemma NdcgBounds(retrieved: seq<string>, expected: seq<string>, k: int, w: nat -> real)
    requires Discount(w) && Distinct(retrieved)
    ensures 0.0 <= Ndcg(retrieved, expected, k, w) <= 1.0
    ensures k > 0 && expected != [] ==>
              (Ndcg(retrieved, expected, k, w) == 1.0 <==>
               AllRelevant(retrieved, Elements(expected), IdealCount(expected, k)))
  {
    if k > 0 && expected != [] {
      var topK := Cut(retrieved, k);
      HitsAreDistinct(topK, Elements(expected), |topK|);
      ElementsCard(expected);
      GainAtMost(topK, Elements(expected), w, |topK|);
      NdcgWithin(retrieved, expected, k, w);
    }
  }

  lemma Ratio(a: real, b: real)
    requires 0.0 <= a <= b && b > 0.0
    ensures 0.0 <= a / b <= 1.0 && (a / b == 1.0 <==> a == b)
  {
  }

  lemma AboveOne(a: real, b: real)
    requires a > b > 0.0
    ensures a / b > 1.0
  {
  }

  /** A repeated result counts again, and one is enough. */
  lemma DuplicatesExceedOne(doc: string, w: nat -> real)
    requires Discount(w)
    ensures Ndcg([doc, doc], [doc], 2, w) > 1.0
  {
    var docs, relevant := [doc, doc], Elements([doc]);
    assert Gain(docs, relevant, w, 0) == 0.0;
    assert Gain(docs, relevant, w, 1) == w(0);
    assert Gain(docs, relevant, w, 2) == w(0) + w(1);
    assert IdealGain(w, 1) == IdealGain(w, 0) + w(0) == w(0);
    assert Cut(docs, 2) == docs;
    AboveOne(w(0) + w(1), w(0));
  }

  // ----- Told by positions -----

  /** The sum of the weights of some positions, in whatever order they are added up. */
  ghost function WeightOf(w: nat -> real, positions: set<nat>): real {
    if positions == {} then 0.0
    else
      var i :| i in positions;
      w(i) + WeightOf(w, positions - {i})
  }

  lemma {:induction false} WeightOfOneMore(w: nat -> real, positions: set<nat>, i: nat)
    requires i !in positions
    ensures WeightOf(w, positions + {i}) == WeightOf(w, positions) + w(i)
    decreases positions
  {
    var all := positions + {i};
    var j :| j in all && WeightOf(w, all) == w(j) + WeightOf(w, all - {j});
    if j == i {
      assert all - {j} == positions;
    } else {
      assert all - {j} == (positions - {j}) + {i};
      WeightOfOneMore(w, positions - {j}, i);
      assert (positions - {j}) + {j} == positions;
      WeightOfOneMore(w, positions - {j}, j);
    }
  }

  /** The positions among the first `n` that hold a relevant document. */
  ghost function HitPositions(docs: seq<string>, relevant: set<string>, n: nat): set<nat>
    requires n <= |docs|
  {
    set i: nat | 0 <= i < n && docs[i] in relevant
  }

  lemma NextPosition(docs: seq<string>, relevant: set<string>, n: nat)
    requires 0 < n <= |docs|
    ensures var before := HitPositions(docs, relevant, n - 1);
            n - 1 !in before && HitPositions(docs, relevant, n) == if docs[n - 1] in relevant then before + {n - 1} else before
  {
  }

  lemma {:induction false} GainIsWeight(docs: seq<string>, relevant: set<string>, w: nat -> real, n: nat)
    requires n <= |docs|
    ensures Gain(docs, relevant, w, n) == WeightOf(w, HitPositions(docs, relevant, n))
    ensures Hits(docs, relevant, n) == |HitPositions(docs, relevant, n)|
  {
    if n == 0 {
      assert HitPositions(docs, relevant, 0) == {};
    } else {
      hide HitPositions, WeightOf;
      GainIsWeight(docs, relevant, w, n - 1);
      NextPosition(docs, relevant, n);
      if docs[n - 1] in relevant {
        WeightOfOneMore(w, HitPositions(docs, relevant, n - 1), n - 1);
      }
    }
  }

  /** The first `n` positions. */
  ghost function Positions(n: nat): (r: set<nat>)
    ensures forall i: nat :: i in r <==> i < n
  {
    if n == 0 then {} else Positions(n - 1) + {n - 1}
  }

  lemma {:induction false} IdealIsWeight(w: nat -> real, n: nat)
    ensures IdealGain(w, n) == WeightOf(w, Positions(n))
  {
    hide WeightOf;
    if n > 0 {
      IdealIsWeight(w, n - 1);
      WeightOfOneMore(w, Positions(n - 1), n - 1);
    } else {
      NoWeight(w);
    }
  }

  lemma NoWeight(w: nat -> real)
    ensures WeightOf(w, {}) == 0.0
  {
  }

  /** The positions of relevant documents among the first k results. */
  ghost function TopHits(retrieved: seq<string>, expected: seq<string>, k: nat): set<nat> {
    set i: nat | 0 <= i < k && i < |retrieved| && retrieved[i] in expected
  }

  lemma TopHitsAre(retrieved: seq<string>, expected: seq<string>, k: nat, w: nat -> real)
    ensures var topK := Cut(retrieved, k);
            && Gain(topK, Elements(expected), w, |topK|) == WeightOf(w, TopHits(retrieved, expected, k))
            && Hits(topK, Elements(expected), |topK|) == |TopHits(retrieved, expected, k)|
  {
    var topK := Cut(retrieved, k);
    GainIsWeight(topK, Elements(expected), w, |topK|);
    assert HitPositions(topK, Elements(expected), |topK|) == TopHits(retrieved, expected, k);
  }

  /** NDCG is the weight of the positions of the hits among the first k results, over that of the first min(k, number
      expected) positions; it is 0 without results to look at or documents to expect. */
  lemma NdcgTold(retrieved: seq<string>, expected: seq<string>, k: int, w: nat -> real)
    requires Discount(w)
    ensures k <= 0 || expected == [] ==> Ndcg(retrieved, expected, k, w) == 0.0
    ensures k > 0 && expected != [] ==>
              var ideal := WeightOf(w, Positions(if |expected| < k then |expected| else k));
              var found := WeightOf(w, TopHits(retrieved, expected, k));
              ideal > 0.0 && Ndcg(retrieved, expected, k, w) == found / ideal
  {
    if k > 0 && expected != [] {
      var m := IdealCount(expected, k);
      TopHitsAre(retrieved, expected, k, w);
      IdealIsWeight(w, m);
      IdealGrows(w, 0, m);
      assert IdealGain(w, 0) == 0.0;
      hide WeightOf, TopHits, Positions, Gain, Cut, Elements, IdealGain, Discount, Hits;
    }
  }

  lemma TimesBack(a: real, b: real)
    requires b != 0.0
    ensures (a / b) * b == a
  {
  }

  /** Over one expected document, found at position `i` alone: its weight against that of the first position. */
  lemma SingleDocument(retrieved: seq<string>, doc: string, k: int, w: nat -> real, i: nat)
    requires Discount(w) && i < k && i < |retrieved| && retrieved[i] == doc
    requires forall j :: 0 <= j < |retrieved| && j != i ==> retrieved[j] != doc
    ensures Ndcg(retrieved, [doc], k, w) * w(0) == w(i)
  {
    hide Ndcg, WeightOf;
    NdcgTold(retrieved, [doc], k, w);
    NoWeight(w);
    assert Positions(1) == {} + {0};
    assert TopHits(retrieved, [doc], k) == {} + {i};
    WeightOfOneMore(w, {}, 0);
    WeightOfOneMore(w, {}, i);
    TimesBack(w(i), w(0));
  }

  /** The positions of the expected documents that are among the first k results. */
  ghost function FoundAt(retrieved: seq<string>, expected: seq<string>, k: nat): set<nat> {
    set i: nat | 0 <= i < |expected| && expected[i] in (if |retrieved| > k then retrieved[..k] else retrieved)
  }

  lemma FoundAre(retrieved: seq<string>, expected: seq<string>, k: nat)
    ensures Hits(expected, Elements(Cut(retrieved, k)), |expected|) == |FoundAt(retrieved, expected, k)|
  {
    var found := Elements(Cut(retrieved, k));
    GainIsWeight(expected, found, _ => 0.0, |expected|);
    assert HitPositions(expected, found, |expected|) == FoundAt(retrieved, expected, k);
  }

  method ToSet(docs: seq<string>) returns (s: set<string>)
    ensures s == Elements(docs)
  {
    s := {};
    for i := 0 to |docs|
      invariant s == Elements(docs[..i])
    {
      assert docs[..i + 1] == docs[..i] + [docs[i]];
      s := s + {docs[i]};
    }
    assert docs[..|docs|] == docs;
  }

  method NdcgAtK(retrieved: seq<string>, expected: seq<string>, k: int, w: nat -> real) returns (r: real)
    ensures r == Ndcg(retrieved, expected, k, w)
  {
    if k <= 0 || |expected| == 0 {
      return 0.0;
    }
    var topK := retrieved;
    if |topK| > k {
      topK := topK[..k];
    }
    var relevant := ToSet(expected);
    var dcg := 0.0;
    for i := 0 to |topK|
      invariant dcg == Gain(topK, relevant, w, i)
    {
      if topK[i] in relevant {
        dcg := dcg + w(i);
      }
    }
    var idealK := k;
    if |expected| < idealK {
      idealK := |expected|;
    }
    var idcg := 0.0;
    for i := 0 to idealK
      invariant idcg == IdealGain(w, i)
    {
      idcg := idcg + w(i);
    }
    if idcg == 0.0 {
      return 0.0;
    }
    return dcg / idcg;
  }

  predicate IsShare(r: real, part: nat, whole: nat) {
    r * whole as real == part as real
  }

  function Share(part: nat, whole: nat): (r: real)
    requires whole > 0
    ensures IsShare(r, part, whole)
  {
    part as real / whole as real
  }

  method PrecisionAtK(retrieved: seq<string>, expected: seq<string>, k: int) returns (r: real)
    ensures k <= 0 || retrieved == [] ==> r == 0.0
    ensures k > 0 && retrieved != [] ==>
              var topK := if |retrieved| > k then retrieved[..k] else retrieved;
              IsShare(r, |TopHits(retrieved, expected, k)|, |topK|)
  {
    if k <= 0 || |retrieved| == 0 {
      return 0.0;
    }
    var topK := retrieved;
    if |topK| > k {
      topK := topK[..k];
    }
    assert topK == Cut(retrieved, k);
    hide TopHits, Gain, Elements, WeightOf, Share, Cut, IsShare;
    var relevant := ToSet(expected);
    var hits := 0;
    for i := 0 to |topK|
      invariant hits == Hits(topK, relevant, i)
    {
      if topK[i] in relevant {
        hits := hits + 1;
      }
    }
    TopHitsAre(retrieved, expected, k, _ => 0.0);
    return Share(hits, |topK|);
  }

  method RecallAtK(retrieved: seq<string>, expected: seq<string>, k: int) returns (r: real)
    ensures k <= 0 || expected == [] ==> r == 0.0
    ensures k > 0 && expected != [] ==>
              IsShare(r, |FoundAt(retrieved, expected, k)|, |expected|)
  {
    if k <= 0 || |expected| == 0 {
      return 0.0;
    }
    var topK := retrieved;
    if |topK| > k {
      topK := topK[..k];
    }
    hide FoundAt, Elements, Share, IsShare;
    var found := ToSet(topK);
    var hits := 0;
    for i := 0 to |expected|
      invariant hits == Hits(expected, found, i)
    {
      if expected[i] in found {
        hits := hits + 1;
      }
    }
    FoundAre(retrieved, expected, k);
    return Share(hits, |expected|);
  }

  /** Counted from either side, without duplicates, the hits are the documents that both lists share. */
  lemma SameHits(retrieved: seq<string>, expected: seq<string>)
    requires Distinct(retrieved) && Distinct(expected)
    ensures Hits(retrieved, Elements(expected), |retrieved|) == Hits(expected, Elements(retrieved), |expected|)
  {
    HitsAreDistinct(retrieved, Elements(expected), |retrieved|);
    HitsAreDistinct(expected, Elements(retrieved), |expected|);
    var a, b := HitSet(retrieved, Elements(expected), |retrieved|), HitSet(expected, Elements(retrieved), |expected|);
    forall d ensures d in a <==> d in b {
      if d in a {
        var i :| 0 <= i < |expected| && expected[i] == d;
        assert d in Elements(retrieved);
      }
      if d in b {
        var i :| 0 <= i < |retrieved| && retrieved[i] == d;
        assert d in Elements(expected);
      }
    }
    assert a == b;
  }
}
