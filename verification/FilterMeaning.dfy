/** Compiled filters select exactly the rows the filter means, also inside the vector search statement. */
module FilterMeaning {
  import opened Prelude
  import opened FilterSql
  import opened FilterTrip

  lemma {:induction false} OneOfMeans(row: Row, v: Value, vs: seq<Value>)
    ensures OneOf3(row, v, Lits(vs)) == True <==> v != Null && v in vs
  {
    if vs != [] {
      OneOfMeans(row, v, vs[1..]);
      assert vs == [vs[0]] + vs[1..];
      assert Lits(vs)[1..] == Lits(vs[1..]);
    }
  }

  lemma {:induction false} FoldBothMeans(fold: bool, left: Cond, fs: seq<Option<Filter>>, row: Row)
    ensures Eval(fold, FoldBoth(left, DenoteAll(fs)), row) == True <==>
            Eval(fold, left, row) == True && forall i :: 0 <= i < |fs| && fs[i].Some? ==> Meaning(fold, fs[i].value, row)
    decreases fs, 1
  {
    if fs == [] {
    } else if fs[0].None? {
      FoldBothMeans(fold, left, fs[1..], row);
      AllSplit(fold, fs, row);
    } else {
      assert fs[0].value < fs[0];
      var g := fs[0].value;
      EvalMeans(fold, g, row);
      assert DenoteAll(fs)[1..] == DenoteAll(fs[1..]);
      FoldBothMeans(fold, Both(left, Denote(g)), fs[1..], row);
      AllSplit(fold, fs, row);
    }
  }

  lemma AllSplit(fold: bool, fs: seq<Option<Filter>>, row: Row)
    requires fs != []
    ensures (forall i :: 0 <= i < |fs| && fs[i].Some? ==> Meaning(fold, fs[i].value, row)) <==>
            (fs[0].Some? ==> Meaning(fold, fs[0].value, row)) &&
            (forall i :: 0 <= i < |fs[1..]| && fs[1..][i].Some? ==> Meaning(fold, fs[1..][i].value, row))
  {
    assert forall i :: 0 < i < |fs| ==> fs[i] == fs[1..][i - 1];
  }

  lemma {:induction false} FoldEitherMeans(fold: bool, left: Cond, fs: seq<Option<Filter>>, row: Row)
    ensures Eval(fold, FoldEither(left, DenoteAll(fs)), row) == True <==>
            Eval(fold, left, row) == True || exists i :: 0 <= i < |fs| && fs[i].Some? && Meaning(fold, fs[i].value, row)
    decreases fs, 1
  {
    if fs == [] {
    } else if fs[0].None? {
      FoldEitherMeans(fold, left, fs[1..], row);
      SomeSplit(fold, fs, row);
    } else {
      assert fs[0].value < fs[0];
      var g := fs[0].value;
      EvalMeans(fold, g, row);
      assert DenoteAll(fs)[1..] == DenoteAll(fs[1..]);
      FoldEitherMeans(fold, Either(left, Denote(g)), fs[1..], row);
      SomeSplit(fold, fs, row);
    }
  }

  lemma SomeSplit(fold: bool, fs: seq<Option<Filter>>, row: Row)
    requires fs != []
    ensures (exists i :: 0 <= i < |fs| && fs[i].Some? && Meaning(fold, fs[i].value, row)) <==>
            (fs[0].Some? && Meaning(fold, fs[0].value, row)) ||
            (exists i :: 0 <= i < |fs[1..]| && fs[1..][i].Some? && Meaning(fold, fs[1..][i].value, row))
  {
    assert forall i :: 0 < i < |fs| ==> fs[i] == fs[1..][i - 1];
    if i :| 0 <= i < |fs[1..]| && fs[1..][i].Some? && Meaning(fold, fs[1..][i].value, row) {
      assert fs[i + 1] == fs[1..][i];
    }
  }

  lemma {:induction false} AndMeans(fold: bool, fs: seq<Option<Filter>>, row: Row)
    ensures Eval(fold, Denote(And(fs)), row) == True <==> Meaning(fold, And(fs), row)
    decreases fs, 2
  {
    if fs == [] {
    } else if fs[0].None? {
      AndMeans(fold, fs[1..], row);
      AllSplit(fold, fs, row);
    } else {
      assert fs[0].value < fs[0];
      EvalMeans(fold, fs[0].value, row);
      assert DenoteAll(fs)[1..] == DenoteAll(fs[1..]);
      FoldBothMeans(fold, Denote(fs[0].value), fs[1..], row);
      AllSplit(fold, fs, row);
    }
  }

  lemma {:induction false} OrMeans(fold: bool, fs: seq<Option<Filter>>, row: Row)
    ensures Eval(fold, Denote(Or(fs)), row) == True <==> Meaning(fold, Or(fs), row)
    decreases fs, 2
  {
    if fs == [] {
    } else if fs[0].None? {
      OrMeans(fold, fs[1..], row);
      SomeSplit(fold, fs, row);
    } else {
      assert fs[0].value < fs[0];
      EvalMeans(fold, fs[0].value, row);
      assert DenoteAll(fs)[1..] == DenoteAll(fs[1..]);
      FoldEitherMeans(fold, Denote(fs[0].value), fs[1..], row);
      SomeSplit(fold, fs, row);
    }
  }

  /** The condition is TRUE in three-valued logic on exactly the rows the filter means. */
  lemma {:induction false} EvalMeans(fold: bool, f: Filter, row: Row)
    ensures Eval(fold, Denote(f), row) == True <==> Meaning(fold, f, row)
    decreases f, 0
  {
    match f
    case Eq(_, _) =>
    case In(field, vs) =>
      OneOfMeans(row, row(field), vs);
    case And(fs) => AndMeans(fold, fs, row);
    case Or(fs) => OrMeans(fold, fs, row);
    case PathScope(_, _, _) =>
  }

  function Placeholders(ts: seq<Token>): nat {
    multiset(ts)[Placeholder]
  }

  lemma PlaceholdersAdd(a: seq<Token>, b: seq<Token>)
    ensures Placeholders(a + b) == Placeholders(a) + Placeholders(b)
  {
  }

  lemma {:induction false} MarksCount(n: nat)
    ensures Placeholders(Marks(n)) == n
  {
    if n > 1 {
      MarksCount(n - 1);
      PlaceholdersAdd([Placeholder, Comma], Marks(n - 1));
    }
  }

  /** Exactly one placeholder per argument. */
  lemma {:induction false} OnePlaceholderEach(f: Filter)
    ensures Placeholders(Compile(f).clause) == |Compile(f).args|
    decreases f, 0
  {
    ConstantsCount();
    hide Placeholders, Join, AllArgs, CompileAll, Marks;
    match f
    case Eq(field, _) => MarkCounts(field);
    case In(field, vs) => InCount(field, vs);
    case And(fs) => JoinCount(fs, AndWord);
    case Or(fs) => JoinCount(fs, OrWord);
    case PathScope(field, basePath, depth) => ScopeCount(field, basePath, depth);
  }

  lemma ConstantsCount()
    ensures Placeholders(ALWAYS.clause) == Placeholders(NEVER.clause) == 0
  {
  }

  lemma InCount(field: string, vs: seq<Value>)
    ensures var sql := Compile(In(field, vs)); Placeholders(sql.clause) == |sql.args|
  {
    if |vs| > 1 {
      MarksCount(|vs|);
      PlaceholdersAdd([Column(field), InWord, LParen], Marks(|vs|));
      PlaceholdersAdd([Column(field), InWord, LParen] + Marks(|vs|), [RParen]);
    }
  }

  lemma ScopeCount(field: string, basePath: string, depth: int)
    ensures var sql := Compile(PathScope(field, basePath, depth)); Placeholders(sql.clause) == |sql.args|
  {
    hide Placeholders;
    var equals, like, notLike := EqualsMark(field), LikeMark(field), NotLikeMark(field);
    MarkCounts(field);
    PlaceholdersAdd([LParen] + (like + [AndWord] + notLike), [RParen]);
    PlaceholdersAdd([LParen], like + [AndWord] + notLike);
    PlaceholdersAdd(like + [AndWord], notLike);
    PlaceholdersAdd(like, [AndWord]);
    PlaceholdersAdd([LParen] + (equals + [OrWord] + like), [RParen]);
    PlaceholdersAdd([LParen], equals + [OrWord] + like);
    PlaceholdersAdd(equals + [OrWord], like);
    PlaceholdersAdd(equals, [OrWord]);
  }

  lemma MarkCounts(field: string)
    ensures Placeholders(EqualsMark(field)) == 1
    ensures Placeholders(LikeMark(field)) == 1
    ensures Placeholders(NotLikeMark(field)) == 1
    ensures Placeholders([LParen]) == Placeholders([RParen]) == Placeholders([AndWord]) == Placeholders([OrWord]) == 0
  {
  }

  lemma {:induction false} JoinCount(fs: seq<Option<Filter>>, sep: Token)
    requires sep != Placeholder
    ensures var parts := CompileAll(fs);
            Placeholders(JoinTail(parts, sep)) == |AllArgs(parts)| && Placeholders(Join(parts, sep)) == |AllArgs(parts)|
    decreases fs, 1
  {
    if fs == [] {
    } else if fs[0].None? {
      JoinCount(fs[1..], sep);
    } else {
      assert fs[0].value < fs[0];
      var g := fs[0].value;
      OnePlaceholderEach(g);
      JoinCount(fs[1..], sep);
      PartCount(Compile(g), CompileAll(fs[1..]), sep);
    }
  }

  lemma PartCount(g: Sql, parts: seq<Sql>, sep: Token)
    requires sep != Placeholder
    ensures var n := Placeholders(g.clause) + Placeholders(JoinTail(parts, sep));
            Placeholders(JoinTail([g] + parts, sep)) == n && Placeholders(Join([g] + parts, sep)) == n
    ensures AllArgs([g] + parts) == g.args + AllArgs(parts)
  {
  }

  /** The whole chain: the clause on its own reads back completely, and is TRUE on exactly the meant rows. */
  lemma CompiledMeaning(fold: bool, f: Filter, row: Row)
    ensures var r := ParseOr(Compile(f).clause, Compile(f).args);
            && r.Read? && r.rest == [] && r.args == []
            && (Eval(fold, r.value, row) == True <==> Meaning(fold, f, row))
  {
    Trip(f, [], []);
    assert Compile(f).clause + [] == Compile(f).clause;
    assert Compile(f).args + [] == Compile(f).args;
    EvalMeans(fold, f, row);
  }

  // ----- The vector search statement -----

  const SEARCH_HEAD := [Word("SELECT c.*, v.distance FROM ( SELECT id, distance FROM context_vectors WHERE embedding MATCH"),
                        Placeholder, AndWord, Column("k"), Equals, Placeholder,
                        Word(") v JOIN contexts c ON c.id = v.id")]

  const SEARCH_TAIL := [Word("ORDER BY v.distance ASC LIMIT"), Placeholder]

  /** The number of neighbours asked for, larger than the limit because the filter is applied afterwards. */
  function SearchK(limit: int): (k: int)
    ensures k >= 50 && k >= 3 * limit && (k == 50 || k == 3 * limit)
  {
    if limit * 3 < 50 then 50 else limit * 3
  }

  function VectorSearchSql(blob: Value, filter: Option<Filter>, limit: int): Sql {
    match filter
    case None => Sql(SEARCH_HEAD + SEARCH_TAIL, [blob, Int(SearchK(limit)), Int(limit)])
    case Some(f) =>
      Sql(SEARCH_HEAD + [Word("WHERE")] + Compile(f).clause + SEARCH_TAIL,
          [blob, Int(SearchK(limit))] + Compile(f).args + [Int(limit)])
  }

  /**
   * In the statement, the two placeholders before the filter take the vector and k, the WHERE condition takes
   * exactly the filter's arguments, and what is left for the tail is the limit.
   */
  lemma VectorSearchBinds(fold: bool, blob: Value, f: Filter, limit: int, row: Row)
    ensures var sql := VectorSearchSql(blob, Some(f), limit);
            && Placeholders(sql.clause) == |sql.args|
            && Placeholders(SEARCH_HEAD) == 2 && sql.clause[..|SEARCH_HEAD|] == SEARCH_HEAD
            && sql.args[0] == blob && sql.args[1] == Int(SearchK(limit))
            && var r := ParseOr(sql.clause[|SEARCH_HEAD| + 1..], sql.args[2..]);
            && r.Read? && r.rest == SEARCH_TAIL && r.args == [Int(limit)]
            && (Eval(fold, r.value, row) == True <==> Meaning(fold, f, row))
  {
    hide ParseOr, Compile, Eval, Meaning, Denote, Placeholders;
    Cut(SEARCH_HEAD, Word("WHERE"), Compile(f).clause, SEARCH_TAIL);
    CutArgs(blob, Int(SearchK(limit)), Compile(f).args, [Int(limit)]);
    Trip(f, SEARCH_TAIL, [Int(limit)]);
    EvalMeans(fold, f, row);
    SearchCount(f);
  }

  /** The statement word by word: nearest first, the filter only where there is one, and the limit last. */
  lemma VectorSearchText(blob: Value, filter: Option<Filter>, limit: int)
    ensures VectorSearchSql(blob, filter, limit).clause ==
            [Word("SELECT c.*, v.distance FROM ( SELECT id, distance FROM context_vectors WHERE embedding MATCH"), Placeholder,
             AndWord, Column("k"), Equals, Placeholder, Word(") v JOIN contexts c ON c.id = v.id")]
            + (if filter.Some? then [Word("WHERE")] + Compile(filter.value).clause else [])
            + [Word("ORDER BY v.distance ASC LIMIT"), Placeholder]
    ensures VectorSearchSql(blob, filter, limit).args ==
            [blob, Int(if limit * 3 < 50 then 50 else limit * 3)]
            + (if filter.Some? then Compile(filter.value).args else []) + [Int(limit)]
    ensures Placeholders(VectorSearchSql(blob, filter, limit).clause) == |VectorSearchSql(blob, filter, limit).args|
  {
    hide Compile, Placeholders;
    match filter
    case None =>
      PlaceholdersAdd(SEARCH_HEAD, SEARCH_TAIL);
      TailCount();
      assert SEARCH_HEAD + [] + SEARCH_TAIL == SEARCH_HEAD + SEARCH_TAIL;
    case Some(f) =>
      SearchCount(f);
      assert SEARCH_HEAD + ([Word("WHERE")] + Compile(f).clause) == SEARCH_HEAD + [Word("WHERE")] + Compile(f).clause;
  }

  lemma TailCount()
    ensures Placeholders(SEARCH_HEAD) == 2 && Placeholders(SEARCH_TAIL) == 1
  {
  }

  /** The shapes that are not joined from parts. */
  lemma ClauseText(field: string, value: Value, values: seq<Value>)
    ensures Compile(Eq(field, value)) == Sql([Column(field), Equals, Placeholder], [value])
    ensures Compile(In(field, [])) == Compile(Or([])) == Sql([Number(1), Equals, Number(0)], [])
    ensures Compile(And([])) == Sql([Number(1), Equals, Number(1)], [])
    ensures Compile(In(field, [value])) == Compile(Eq(field, value))
    ensures |values| > 1 ==>
              var sql := Compile(In(field, values));
              && sql.args == values && |sql.clause| == 2 * |values| + 3
              && sql.clause[..3] == [Column(field), InWord, LParen] && sql.clause[2 * |values| + 2] == RParen
              && forall i :: 0 <= i < 2 * |values| - 1 ==> sql.clause[i + 3] == if i % 2 == 0 then Placeholder else Comma
  {
    MarksAt(|values|);
  }

  lemma {:induction false} MarksAt(n: nat)
    ensures |Marks(n)| == if n == 0 then 0 else 2 * n - 1
    ensures forall i :: 0 <= i < |Marks(n)| ==> Marks(n)[i] == if i % 2 == 0 then Placeholder else Comma
  {
    if n > 1 {
      MarksAt(n - 1);
    }
  }

  lemma Cut(head: seq<Token>, w: Token, clause: seq<Token>, tail: seq<Token>)
    ensures (head + [w] + clause + tail)[|head| + 1..] == clause + tail
    ensures (head + [w] + clause + tail)[..|head|] == head
  {
  }

  lemma CutArgs(a: Value, b: Value, args: seq<Value>, last: seq<Value>)
    ensures ([a, b] + args + last)[2..] == args + last
  {
  }

  lemma SearchCount(f: Filter)
    ensures Placeholders(SEARCH_HEAD) == 2
    ensures Placeholders(SEARCH_HEAD + [Word("WHERE")] + Compile(f).clause + SEARCH_TAIL) == |Compile(f).args| + 3
  {
    var head := SEARCH_HEAD + [Word("WHERE")];
    PlaceholdersAdd(head + Compile(f).clause, SEARCH_TAIL);
    PlaceholdersAdd(head, Compile(f).clause);
    PlaceholdersAdd(SEARCH_HEAD, [Word("WHERE")]);
    OnePlaceholderEach(f);
  }
}
