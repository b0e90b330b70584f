/** The compiler's loops: each method builds clauses and arguments piece by piece and arrives at `Compile`. */
module FilterCompiler {
  import opened Prelude
  import opened Strings
  import opened FilterSql

  /** strings.Join with a one-token separator. */
  function JoinWith(clauses: seq<seq<Token>>, sep: Token): seq<Token> {
    if clauses == [] then [] else if |clauses| == 1 then clauses[0]
    else clauses[0] + [sep] + JoinWith(clauses[1..], sep)
  }

  /** The clauses of `parts`, each in parentheses. */
  function Wrapped(parts: seq<Sql>): (r: seq<seq<Token>>)
    ensures |r| == |parts|
  {
    if parts == [] then [] else Wrapped(parts[..|parts| - 1]) + [[LParen] + parts[|parts| - 1].clause + [RParen]]
  }

  lemma {:induction false} WrappedAt(parts: seq<Sql>, i: nat)
    requires i < |parts|
    ensures Wrapped(parts)[i] == [LParen] + parts[i].clause + [RParen]
  {
    if i < |parts| - 1 {
      WrappedAt(parts[..|parts| - 1], i);
    }
  }

  lemma TailIsJoin(parts: seq<Sql>, sep: Token)
    requires parts != []
    ensures JoinTail(parts, sep) == [sep] + Join(parts, sep)
  {
  }

  lemma {:induction false} JoinWrapped(parts: seq<Sql>, sep: Token)
    ensures JoinWith(Wrapped(parts), sep) == Join(parts, sep)
  {
    if parts != [] {
      WrappedAt(parts, 0);
      if |parts| > 1 {
        hide Wrapped, Join, JoinTail;
        WrappedTail(parts);
        JoinWrapped(parts[1..], sep);
        JoinStep(parts, sep);
      }
    }
  }

  lemma JoinStep(parts: seq<Sql>, sep: Token)
    requires |parts| > 1
    ensures Join(parts, sep) == [LParen] + parts[0].clause + [RParen] + [sep] + Join(parts[1..], sep)
  {
    TailIsJoin(parts[1..], sep);
  }

  lemma WrappedTail(parts: seq<Sql>)
    requires parts != []
    ensures Wrapped(parts)[1..] == Wrapped(parts[1..])
  {
    var a, b := Wrapped(parts)[1..], Wrapped(parts[1..]);
    forall i | 0 <= i < |a| ensures a[i] == b[i] {
      WrappedAt(parts, i + 1);
      WrappedAt(parts[1..], i);
    }
  }

  lemma WrappedAppend(parts: seq<Sql>, last: Sql)
    ensures Wrapped(parts + [last]) == Wrapped(parts) + [[LParen] + last.clause + [RParen]]
  {
  }

  lemma {:induction false} AllArgsAppend(parts: seq<Sql>, last: Sql)
    ensures AllArgs(parts + [last]) == AllArgs(parts) + last.args
  {
    if parts != [] {
      assert (parts + [last])[1..] == parts[1..] + [last];
      AllArgsAppend(parts[1..], last);
    }
  }

  lemma {:induction false} CompileAllAppend(fs: seq<Option<Filter>>, last: Option<Filter>)
    ensures CompileAll(fs + [last]) == CompileAll(fs) + if last.Some? then [Compile(last.value)] else []
  {
    if fs != [] {
      assert (fs + [last])[1..] == fs[1..] + [last];
      CompileAllAppend(fs[1..], last);
    } else {
      assert (fs + [last])[1..] == [];
    }
  }

  lemma {:induction false} JoinMarks(n: nat)
    ensures JoinWith(seq(n, _ => [Placeholder]), Comma) == Marks(n)
  {
    if n > 1 {
      JoinMarks(n - 1);
      assert seq(n, _ => [Placeholder])[1..] == seq(n - 1, _ => [Placeholder]);
    }
  }

  lemma JoinNothing(sep: Token)
    ensures CompileAll([]) == [] && Wrapped([]) == [] && AllArgs([]) == []
  {
  }

  lemma ClauseNotEmpty(f: Filter)
    ensures Compile(f).clause != []
  {
  }

  lemma JoinEmpty(parts: seq<Sql>, sep: Token)
    ensures Join(parts, sep) == [] <==> parts == []
  {
  }

  /** Compiles any filter; the connectives compile their children recursively. */
  method ToSQL(f: Filter) returns (clause: seq<Token>, args: seq<Value>)
    ensures Sql(clause, args) == Compile(f)
    decreases f
  {
    match f
    case Eq(field, value) =>
      return EqualsMark(field), [value];
    case In(field, values) =>
      clause, args := InToSQL(field, values);
    case And(fs) =>
      if |fs| == 0 {
        return ALWAYS.clause, [];
      }
      clause, args := JoinedToSQL(fs, AndWord);
      if clause == [] {
        clause := ALWAYS.clause;
      }
    case Or(fs) =>
      if |fs| == 0 {
        return NEVER.clause, [];
      }
      clause, args := JoinedToSQL(fs, OrWord);
      if clause == [] {
        clause := NEVER.clause;
      }
    case PathScope(field, basePath, depth) =>
      clause, args := ScopeToSQL(field, basePath, depth);
  }

  method InToSQL(field: string, values: seq<Value>) returns (clause: seq<Token>, args: seq<Value>)
    ensures Sql(clause, args) == Compile(In(field, values))
  {
    if |values| == 0 {
      return NEVER.clause, [];
    }
    if |values| == 1 {
      return EqualsMark(field), values;
    }
    var placeholders: seq<seq<Token>> := [];
    for i := 0 to |values|
      invariant placeholders == seq(i, _ => [Placeholder])
    {
      placeholders := placeholders + [[Placeholder]];
    }
    JoinMarks(|values|);
    return [Column(field), InWord, LParen] + JoinWith(placeholders, Comma) + [RParen], values;
  }

  /** The children joined by `sep`, or no clause at all when every child is nil. */
  method JoinedToSQL(fs: seq<Option<Filter>>, sep: Token) returns (clause: seq<Token>, args: seq<Value>)
    ensures clause == Join(CompileAll(fs), sep) && args == AllArgs(CompileAll(fs))
    ensures clause == [] <==> CompileAll(fs) == []
    decreases fs
  {
    hide Wrapped, Compile, CompileAll, AllArgs, Join;
    JoinNothing(sep);
    var clauses: seq<seq<Token>> := [];
    args := [];
    for i := 0 to |fs|
      invariant clauses == Wrapped(CompileAll(fs[..i]))
      invariant args == AllArgs(CompileAll(fs[..i]))
    {
      assert fs[..i + 1] == fs[..i] + [fs[i]];
      CompileAllAppend(fs[..i], fs[i]);
      ghost var parts := CompileAll(fs[..i]);
      if fs[i].None? {
        assert parts + [] == parts;
        continue;
      }
      assert fs[i].value < fs[i];
      ClauseNotEmpty(fs[i].value);
      var c, a := ToSQL(fs[i].value);
      if c != [] {
        clauses := clauses + [[LParen] + c + [RParen]];
        args := args + a;
      }
      AllArgsAppend(parts, Compile(fs[i].value));
      WrappedAppend(parts, Compile(fs[i].value));
    }
    assert fs[..|fs|] == fs;
    JoinWrapped(CompileAll(fs), sep);
    JoinEmpty(CompileAll(fs), sep);
    clause := JoinWith(clauses, sep);
  }

  method ScopeToSQL(field: string, basePath: string, depth: int) returns (clause: seq<Token>, args: seq<Value>)
    ensures Sql(clause, args) == Compile(PathScope(field, basePath, depth))
  {
    var base := TrimRightSlashes(basePath);
    if depth == 0 {
      return EqualsMark(field), [Text(base)];
    } else if depth == 1 {
      var prefix := base + "/";
      assert prefix + "%" == base + "/%" && prefix + "%/%" == base + "/%/%";
      return [LParen] + (LikeMark(field) + [AndWord] + NotLikeMark(field)) + [RParen],
             [Text(prefix + "%"), Text(prefix + "%/%")];
    } else {
      var prefix := base + "/";
      assert prefix + "%" == base + "/%";
      return [LParen] + (EqualsMark(field) + [OrWord] + LikeMark(field)) + [RParen], [Text(base), Text(prefix + "%")];
    }
  }

  // ----- Merging -----

  function Present(fs: seq<Option<Filter>>): (r: seq<Option<Filter>>)
    ensures forall i :: 0 <= i < |r| ==> r[i].Some?
  {
    if fs == [] then []
    else Present(fs[..|fs| - 1]) + if fs[|fs| - 1].Some? then [fs[|fs| - 1]] else []
  }

  method MergeFilters(filters: seq<Option<Filter>>) returns (r: Option<Filter>)
    ensures r.None? <==> forall i :: 0 <= i < |filters| ==> filters[i].None?
    ensures r.Some? ==> forall fold, row :: Meaning(fold, r.value, row) <==> Meaning(fold, And(filters), row)
    ensures r.Some? ==> r.value == (if |Present(filters)| == 1 then Present(filters)[0].value else And(Present(filters)))
  {
    hide Meaning;
    var nonEmpty: seq<Option<Filter>> := [];
    for i := 0 to |filters|
      invariant nonEmpty == Present(filters[..i])
    {
      assert filters[..i + 1][..i] == filters[..i];
      if filters[i].Some? {
        nonEmpty := nonEmpty + [filters[i]];
      }
    }
    assert filters[..|filters|] == filters;
    MergedMeans(filters);
    hide Present;
    if |nonEmpty| == 0 {
      return None;
    }
    if |nonEmpty| == 1 {
      return nonEmpty[0];
    }
    return Some(And(nonEmpty));
  }

  /** What is left after dropping nil filters means the same, and so does a single filter without its conjunction. */
  lemma MergedMeans(fs: seq<Option<Filter>>)
    ensures Present(fs) == [] <==> forall i :: 0 <= i < |fs| ==> fs[i].None?
    ensures forall fold, row :: Meaning(fold, And(Present(fs)), row) <==> Meaning(fold, And(fs), row)
    ensures |Present(fs)| == 1 ==>
              Present(fs)[0].Some? && forall fold, row :: Meaning(fold, Present(fs)[0].value, row) <==> Meaning(fold, And(fs), row)
  {
    hide Meaning, Present;
    PresentMembers(fs);
    var ps := Present(fs);
    if |ps| > 0 {
      assert ps[0] in ps && ps[0] in fs;
    }
    forall fold, row ensures Meaning(fold, And(ps), row) <==> Meaning(fold, And(fs), row) {
      PresentMeans(fold, fs, row);
    }
    if |ps| == 1 {
      assert ps == [Some(ps[0].value)];
      forall fold, row ensures Meaning(fold, And(ps), row) <==> Meaning(fold, ps[0].value, row) {
        SingleMeans(fold, ps[0].value, row);
      }
    }
  }

  lemma SingleMeans(fold: bool, f: Filter, row: Row)
    ensures Meaning(fold, And([Some(f)]), row) <==> Meaning(fold, f, row)
  {
    var fs := [Some(f)];
    assert fs[0].Some?;
  }

  lemma {:induction false} PresentMembers(fs: seq<Option<Filter>>)
    ensures forall f :: f in Present(fs) <==> f in fs && f.Some?
  {
    if fs != [] {
      var last := |fs| - 1;
      assert fs == fs[..last] + [fs[last]];
      PresentMembers(fs[..last]);
    }
  }

  /** Dropping nil filters does not change what the conjunction means. */
  lemma PresentMeans(fold: bool, fs: seq<Option<Filter>>, row: Row)
    ensures Meaning(fold, And(Present(fs)), row) <==> Meaning(fold, And(fs), row)
  {
    var ps := Present(fs);
    PresentMembers(fs);
    if Meaning(fold, And(ps), row) {
      forall i | 0 <= i < |fs| && fs[i].Some? ensures Meaning(fold, fs[i].value, row) {
        assert fs[i] in ps;
        var j :| 0 <= j < |ps| && ps[j] == fs[i];
      }
    }
    if Meaning(fold, And(fs), row) {
      forall j | 0 <= j < |ps| && ps[j].Some? ensures Meaning(fold, ps[j].value, row) {
        assert ps[j] in fs;
        var i :| 0 <= i < |fs| && fs[i] == ps[j];
      }
    }
  }
}
