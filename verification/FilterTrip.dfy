/** Reading a compiled filter back gives the intended condition, and uses exactly its arguments. */
module FilterTrip {
  import opened Prelude
  import opened Strings
  import opened FilterSql

  function Lits(vs: seq<Value>): seq<Operand> {
    if vs == [] then [] else [Lit(vs[0])] + Lits(vs[1..])
  }

  function FoldBoth(left: Cond, cs: seq<Cond>): Cond
    decreases |cs|
  {
    if cs == [] then left else FoldBoth(Both(left, cs[0]), cs[1..])
  }

  function FoldEither(left: Cond, cs: seq<Cond>): Cond
    decreases |cs|
  {
    if cs == [] then left else FoldEither(Either(left, cs[0]), cs[1..])
  }

  /** The condition a filter stands for. */
  function Denote(f: Filter): Cond {
    match f
    case Eq(field, v) => Same(Col(field), Lit(v))
    case In(field, vs) =>
      if |vs| == 0 then Same(Lit(Int(1)), Lit(Int(0)))
      else if |vs| == 1 then Same(Col(field), Lit(vs[0]))
      else OneOf(Col(field), Lits(vs))
    case And(fs) =>
      var cs := DenoteAll(fs);
      if cs == [] then Same(Lit(Int(1)), Lit(Int(1))) else FoldBoth(cs[0], cs[1..])
    case Or(fs) =>
      var cs := DenoteAll(fs);
      if cs == [] then Same(Lit(Int(1)), Lit(Int(0))) else FoldEither(cs[0], cs[1..])
    case PathScope(field, basePath, depth) =>
      var base := TrimRightSlashes(basePath);
      if depth == 0 then Same(Col(field), Lit(Text(base)))
      else if depth == 1 then
        Both(Matches(Col(field), Lit(Text(base + "/%"))), NotMatches(Col(field), Lit(Text(base + "/%/%"))))
      else Either(Same(Col(field), Lit(Text(base))), Matches(Col(field), Lit(Text(base + "/%"))))
  }

  function DenoteAll(fs: seq<Option<Filter>>): seq<Cond> {
    if fs == [] then []
    else
      var rest := DenoteAll(fs[1..]);
      if fs[0].None? then rest
      else
        assert fs[0].value < fs[0];
        [Denote(fs[0].value)] + rest
  }

  /** What follows a complete condition in a statement is no connective. */
  predicate Stops(rest: seq<Token>) {
    rest == [] || (rest[0] != AndWord && rest[0] != OrWord)
  }

  lemma PrimaryIsOr(ts: seq<Token>, args: seq<Value>, c: Cond, rest: seq<Token>, ra: seq<Value>)
    requires ParsePrimary(ts, args) == Read(c, rest, ra) && Stops(rest)
    ensures ParseOr(ts, args) == Read(c, rest, ra)
  {
    assert ParseAndTail(c, rest, ra) == Read(c, rest, ra);
    assert ParseAnd(ts, args) == Read(c, rest, ra);
    assert ParseOrTail(c, rest, ra) == Read(c, rest, ra);
  }

  lemma BothTrip(ts: seq<Token>, args: seq<Value>, a: Cond, ts2: seq<Token>, args2: seq<Value>, b: Cond,
                 rest: seq<Token>, ra: seq<Value>)
    requires ParsePrimary(ts, args) == Read(a, [AndWord] + ts2, args2)
    requires ParsePrimary(ts2, args2) == Read(b, rest, ra) && Stops(rest)
    ensures ParseOr(ts, args) == Read(Both(a, b), rest, ra)
  {
    assert ([AndWord] + ts2)[1..] == ts2;
    assert ParseAndTail(Both(a, b), rest, ra) == Read(Both(a, b), rest, ra);
    assert ParseAndTail(a, [AndWord] + ts2, args2) == Read(Both(a, b), rest, ra);
    assert ParseAnd(ts, args) == Read(Both(a, b), rest, ra);
  }

  lemma EitherTrip(ts: seq<Token>, args: seq<Value>, a: Cond, ts2: seq<Token>, args2: seq<Value>, b: Cond,
                   rest: seq<Token>, ra: seq<Value>)
    requires ParsePrimary(ts, args) == Read(a, [OrWord] + ts2, args2)
    requires ParsePrimary(ts2, args2) == Read(b, rest, ra) && Stops(rest)
    ensures ParseOr(ts, args) == Read(Either(a, b), rest, ra)
  {
    assert ([OrWord] + ts2)[1..] == ts2;
    PrimaryIsAnd(ts, args, a, [OrWord] + ts2, args2);
    PrimaryIsAnd(ts2, args2, b, rest, ra);
    assert ParseOrTail(Either(a, b), rest, ra) == Read(Either(a, b), rest, ra);
    assert ParseOrTail(a, [OrWord] + ts2, args2) == Read(Either(a, b), rest, ra);
  }

  lemma PrimaryIsAnd(ts: seq<Token>, args: seq<Value>, c: Cond, rest: seq<Token>, ra: seq<Value>)
    requires ParsePrimary(ts, args) == Read(c, rest, ra)
    requires rest == [] || rest[0] != AndWord
    ensures ParseAnd(ts, args) == Read(c, rest, ra)
  {
  }

  lemma EqualsTrip(field: string, v: Value, rest: seq<Token>, ra: seq<Value>)
    ensures ParsePrimary(EqualsMark(field) + rest, [v] + ra) == Read(Same(Col(field), Lit(v)), rest, ra)
  {
  }

  lemma LikeTrip(field: string, v: Value, rest: seq<Token>, ra: seq<Value>)
    ensures ParsePrimary(LikeMark(field) + rest, [v] + ra) == Read(Matches(Col(field), Lit(v)), rest, ra)
  {
  }

  lemma NotLikeTrip(field: string, v: Value, rest: seq<Token>, ra: seq<Value>)
    ensures ParsePrimary(NotLikeMark(field) + rest, [v] + ra) ==
            Read(NotMatches(Col(field), Lit(v)), rest, ra)
  {
  }

  lemma ConstantTrip(n: int, rest: seq<Token>, ra: seq<Value>)
    ensures ParsePrimary([Number(1), Equals, Number(n)] + rest, ra) == Read(Same(Lit(Int(1)), Lit(Int(n))), rest, ra)
  {
  }

  lemma {:induction false} MarksTrip(vs: seq<Value>, rest: seq<Token>, ra: seq<Value>)
    requires |vs| > 0 && (rest == [] || rest[0] != Comma)
    ensures ParseList(Marks(|vs|) + rest, vs + ra) == Read(Lits(vs), rest, ra)
  {
    var ts, args := Marks(|vs|) + rest, vs + ra;
    assert args[1..] == vs[1..] + ra;
    if |vs| == 1 {
      assert vs[1..] == [] && [] + ra == ra;
      assert ts[1..] == rest;
      assert ParseOperand(ts, args) == Read(Lit(vs[0]), rest, ra);
      assert Lits(vs) == [Lit(vs[0])] + Lits(vs[1..]) == [Lit(vs[0])];
    } else {
      assert ts[1..] == [Comma] + (Marks(|vs| - 1) + rest);
      assert ts[1..][1..] == Marks(|vs| - 1) + rest;
      MarksTrip(vs[1..], rest, ra);
    }
  }

  lemma InTrip(field: string, vs: seq<Value>, rest: seq<Token>, ra: seq<Value>)
    requires |vs| > 1
    ensures ParsePrimary([Column(field), InWord, LParen] + Marks(|vs|) + [RParen] + rest, vs + ra) ==
            Read(OneOf(Col(field), Lits(vs)), rest, ra)
  {
    var ts := [Column(field), InWord, LParen] + Marks(|vs|) + [RParen] + rest;
    var tail := Marks(|vs|) + ([RParen] + rest);
    assert ts[1..] == [InWord, LParen] + tail;
    assert ts[1..][2..] == tail;
    MarksTrip(vs, [RParen] + rest, ra);
    assert ([RParen] + rest)[1..] == rest;
  }

  /** A condition in parentheses is read as one operand of a connective. */
  lemma ParenTrip(clause: seq<Token>, args: seq<Value>, c: Cond, rest: seq<Token>, ra: seq<Value>)
    requires ParseOr(clause + ([RParen] + rest), args + ra) == Read(c, [RParen] + rest, ra)
    ensures ParsePrimary([LParen] + clause + [RParen] + rest, args + ra) == Read(c, rest, ra)
  {
    var ts := [LParen] + clause + [RParen] + rest;
    assert ts[1..] == clause + ([RParen] + rest);
    assert ([RParen] + rest)[1..] == rest;
  }

  lemma Regroup(a: seq<Token>, b: seq<Token>, c: seq<Token>, d: seq<Token>)
    ensures a + b + c + d == a + (b + (c + d))
  {
  }

  lemma LikeAndNotLikeTrip(field: string, p: Value, q: Value, close: seq<Token>, ra: seq<Value>)
    requires Stops(close)
    ensures ParseOr(LikeMark(field) + [AndWord] + NotLikeMark(field) + close, [p, q] + ra) ==
            Read(Both(Matches(Col(field), Lit(p)), NotMatches(Col(field), Lit(q))), close, ra)
  {
    hide ParsePrimary, ParseOr;
    var like, notLike := LikeMark(field), NotLikeMark(field);
    NotLikeTrip(field, q, close, ra);
    LikeTrip(field, p, [AndWord] + (notLike + close), [q] + ra);
    BothTrip(like + ([AndWord] + (notLike + close)), [p] + ([q] + ra), Matches(Col(field), Lit(p)), notLike + close,
             [q] + ra, NotMatches(Col(field), Lit(q)), close, ra);
    Regroup(like, [AndWord], notLike, close);
    assert [p, q] + ra == [p] + ([q] + ra);
  }

  lemma ChildrenTrip(field: string, base: string, rest: seq<Token>, ra: seq<Value>)
    ensures var f := PathScope(field, base, 1);
            ParsePrimary(Compile(f).clause + rest, Compile(f).args + ra) == Read(Denote(f), rest, ra)
  {
    hide ParsePrimary, ParseOr;
    var f := PathScope(field, base, 1);
    var p, q := Text(TrimRightSlashes(base) + "/%"), Text(TrimRightSlashes(base) + "/%/%");
    var inner := LikeMark(field) + [AndWord] + NotLikeMark(field);
    LikeAndNotLikeTrip(field, p, q, [RParen] + rest, ra);
    ParenTrip(inner, [p, q], Denote(f), rest, ra);
  }

  lemma DescendantsTrip(field: string, base: string, depth: int, rest: seq<Token>, ra: seq<Value>)
    requires depth != 0 && depth != 1
    ensures var f := PathScope(field, base, depth);
            ParsePrimary(Compile(f).clause + rest, Compile(f).args + ra) == Read(Denote(f), rest, ra)
  {
    hide ParsePrimary, ParseOr;
    var f := PathScope(field, base, depth);
    var p, q := Text(TrimRightSlashes(base)), Text(TrimRightSlashes(base) + "/%");
    var equals, like := EqualsMark(field), LikeMark(field);
    var inner, close := equals + [OrWord] + like, [RParen] + rest;
    LikeTrip(field, q, close, ra);
    EqualsTrip(field, p, [OrWord] + (like + close), [q] + ra);
    EitherTrip(equals + ([OrWord] + (like + close)), [p] + ([q] + ra), Denote(f).first, like + close, [q] + ra,
               Denote(f).second, close, ra);
    assert inner + close == equals + ([OrWord] + (like + close));
    assert [p, q] + ra == [p] + ([q] + ra);
    ParenTrip(inner, [p, q], Denote(f), rest, ra);
  }

  /**
   * The main round trip. However the compiled clause is continued, it parses to the filter's condition under the
   * precedence of SQL, and takes exactly its own arguments, in order, from the list they are embedded in.
   */
  lemma {:induction false} Trip(f: Filter, rest: seq<Token>, ra: seq<Value>)
    requires Stops(rest)
    ensures ParseOr(Compile(f).clause + rest, Compile(f).args + ra) == Read(Denote(f), rest, ra)
    decreases f, 0
  {
    var ts, args := Compile(f).clause + rest, Compile(f).args + ra;
    match f
    case Eq(field, v) =>
      EqualsTrip(field, v, rest, ra);
      PrimaryIsOr(ts, args, Denote(f), rest, ra);
    case In(field, vs) =>
      InCaseTrip(field, vs, rest, ra);
    case And(fs) =>
      AndTrip(fs, rest, ra);
    case Or(fs) =>
      OrTrip(fs, rest, ra);
    case PathScope(field, basePath, depth) =>
      if depth == 0 {
        EqualsTrip(field, Text(TrimRightSlashes(basePath)), rest, ra);
      } else if depth == 1 {
        ChildrenTrip(field, basePath, rest, ra);
      } else {
        DescendantsTrip(field, basePath, depth, rest, ra);
      }
      PrimaryIsOr(ts, args, Denote(f), rest, ra);
  }

  lemma InCaseTrip(field: string, vs: seq<Value>, rest: seq<Token>, ra: seq<Value>)
    requires Stops(rest)
    ensures var f := In(field, vs); ParseOr(Compile(f).clause + rest, Compile(f).args + ra) == Read(Denote(f), rest, ra)
  {
    var f := In(field, vs);
    if |vs| == 0 {
      assert [] + ra == ra;
      ConstantTrip(0, rest, ra);
    } else if |vs| == 1 {
      assert vs == [vs[0]];
      EqualsTrip(field, vs[0], rest, ra);
    } else {
      InTrip(field, vs, rest, ra);
    }
    PrimaryIsOr(Compile(f).clause + rest, Compile(f).args + ra, Denote(f), rest, ra);
  }

  lemma {:induction false} WrappedTrip(g: Filter, rest: seq<Token>, ra: seq<Value>)
    ensures ParsePrimary([LParen] + Compile(g).clause + [RParen] + rest, Compile(g).args + ra) == Read(Denote(g), rest, ra)
    decreases g, 1
  {
    Trip(g, [RParen] + rest, ra);
    ParenTrip(Compile(g).clause, Compile(g).args, Denote(g), rest, ra);
  }

  lemma {:induction false} AndTailTrip(left: Cond, fs: seq<Option<Filter>>, rest: seq<Token>, ra: seq<Value>)
    requires rest == [] || rest[0] != AndWord
    ensures ParseAndTail(left, JoinTail(CompileAll(fs), AndWord) + rest, AllArgs(CompileAll(fs)) + ra) ==
            Read(FoldBoth(left, DenoteAll(fs)), rest, ra)
    decreases fs
  {
    hide ParsePrimary, Denote, Compile;
    if fs == [] {
    } else if fs[0].None? {
      AndTailTrip(left, fs[1..], rest, ra);
    } else {
      assert fs[0].value < fs[0];
      var g := fs[0].value;
      var more, moreArgs := JoinTail(CompileAll(fs[1..]), AndWord) + rest, AllArgs(CompileAll(fs[1..])) + ra;
      WrappedTrip(g, more, moreArgs);
      NextPart(g, CompileAll(fs[1..]), AndWord, rest, ra);
      AndTailTrip(Both(left, Denote(g)), fs[1..], rest, ra);
    }
  }

  /** The tokens and arguments of one more joined part. */
  lemma NextPart(g: Filter, parts: seq<Sql>, sep: Token, rest: seq<Token>, ra: seq<Value>)
    ensures var all := [Compile(g)] + parts;
            && all[1..] == parts
            && JoinTail(all, sep) + rest == [sep] + ([LParen] + Compile(g).clause + [RParen] + (JoinTail(parts, sep) + rest))
            && (JoinTail(all, sep) + rest)[1..] == [LParen] + Compile(g).clause + [RParen] + (JoinTail(parts, sep) + rest)
            && Join(all, sep) + rest == [LParen] + Compile(g).clause + [RParen] + (JoinTail(parts, sep) + rest)
            && AllArgs(all) + ra == Compile(g).args + (AllArgs(parts) + ra)
  {
    hide Compile;
    FirstPart(Compile(g), parts, sep);
    hide Join, JoinTail, AllArgs;
    RegroupPart(sep, Compile(g).clause, JoinTail(parts, sep), rest);
    assert Compile(g).args + AllArgs(parts) + ra == Compile(g).args + (AllArgs(parts) + ra);
  }

  lemma FirstPart(q: Sql, parts: seq<Sql>, sep: Token)
    ensures ([q] + parts)[1..] == parts
    ensures JoinTail([q] + parts, sep) == [sep, LParen] + q.clause + [RParen] + JoinTail(parts, sep)
    ensures Join([q] + parts, sep) == [LParen] + q.clause + [RParen] + JoinTail(parts, sep)
    ensures AllArgs([q] + parts) == q.args + AllArgs(parts)
  {
    assert ([q] + parts)[1..] == parts;
  }

  lemma RegroupPart(sep: Token, clause: seq<Token>, tail: seq<Token>, rest: seq<Token>)
    ensures var one := [LParen] + clause + [RParen];
            && [sep, LParen] + clause + [RParen] + tail + rest == [sep] + (one + (tail + rest))
            && ([sep, LParen] + clause + [RParen] + tail + rest)[1..] == one + (tail + rest)
            && one + tail + rest == one + (tail + rest)
  {
    var one := [LParen] + clause + [RParen];
    assert [sep, LParen] + clause + [RParen] == [sep] + one;
    assert [sep] + one + tail + rest == [sep] + (one + (tail + rest));
    assert one + tail + rest == one + (tail + rest);
  }

  lemma {:induction false} OrTailTrip(left: Cond, fs: seq<Option<Filter>>, rest: seq<Token>, ra: seq<Value>)
    requires Stops(rest)
    ensures ParseOrTail(left, JoinTail(CompileAll(fs), OrWord) + rest, AllArgs(CompileAll(fs)) + ra) ==
            Read(FoldEither(left, DenoteAll(fs)), rest, ra)
    decreases fs
  {
    hide ParsePrimary, Denote, Compile;
    if fs == [] {
    } else if fs[0].None? {
      OrTailTrip(left, fs[1..], rest, ra);
    } else {
      assert fs[0].value < fs[0];
      var g := fs[0].value;
      var more, moreArgs := JoinTail(CompileAll(fs[1..]), OrWord) + rest, AllArgs(CompileAll(fs[1..])) + ra;
      WrappedTrip(g, more, moreArgs);
      NextPart(g, CompileAll(fs[1..]), OrWord, rest, ra);
      PrimaryIsAnd([LParen] + Compile(g).clause + [RParen] + more, Compile(g).args + moreArgs, Denote(g), more, moreArgs);
      OrTailTrip(Either(left, Denote(g)), fs[1..], rest, ra);
    }
  }

  lemma {:induction false} AndTrip(fs: seq<Option<Filter>>, rest: seq<Token>, ra: seq<Value>)
    requires Stops(rest)
    ensures var f := And(fs); ParseOr(Compile(f).clause + rest, Compile(f).args + ra) == Read(Denote(f), rest, ra)
    decreases fs
  {
    hide ParsePrimary;
    if fs == [] {
      assert [] + ra == ra;
      ConstantTrip(1, rest, ra);
      PrimaryIsOr(ALWAYS.clause + rest, ra, Denote(And([])), rest, ra);
    } else if fs[0].None? {
      AndTrip(fs[1..], rest, ra);
    } else {
      assert fs[0].value < fs[0];
      var g := fs[0].value;
      WrappedTrip(g, JoinTail(CompileAll(fs[1..]), AndWord) + rest, AllArgs(CompileAll(fs[1..])) + ra);
      NextPart(g, CompileAll(fs[1..]), AndWord, rest, ra);
      AndTailTrip(Denote(g), fs[1..], rest, ra);
    }
  }

  lemma {:induction false} OrTrip(fs: seq<Option<Filter>>, rest: seq<Token>, ra: seq<Value>)
    requires Stops(rest)
    ensures var f := Or(fs); ParseOr(Compile(f).clause + rest, Compile(f).args + ra) == Read(Denote(f), rest, ra)
    decreases fs
  {
    hide ParsePrimary;
    if fs == [] {
      assert [] + ra == ra;
      ConstantTrip(0, rest, ra);
      PrimaryIsOr(NEVER.clause + rest, ra, Denote(Or([])), rest, ra);
    } else if fs[0].None? {
      OrTrip(fs[1..], rest, ra);
    } else {
      assert fs[0].value < fs[0];
      var g := fs[0].value;
      var more := JoinTail(CompileAll(fs[1..]), OrWord) + rest;
      var moreArgs := AllArgs(CompileAll(fs[1..])) + ra;
      WrappedTrip(g, more, moreArgs);
      NextPart(g, CompileAll(fs[1..]), OrWord, rest, ra);
      PrimaryIsAnd([LParen] + Compile(g).clause + [RParen] + more, Compile(g).args + moreArgs, Denote(g), more, moreArgs);
      OrTailTrip(Denote(g), fs[1..], rest, ra);
    }
  }
}
