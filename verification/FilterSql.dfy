/** Filter trees, the SQL conditions they compile to, and what both of them mean. */
module FilterSql {
  import opened Prelude
  import opened Strings

  datatype Value = Null | Int(n: int) | Text(s: string) | Blob(bytes: string)

  datatype Filter =
    | Eq(field: string, value: Value)
    | In(field: string, values: seq<Value>)
    | And(filters: seq<Option<Filter>>)
    | Or(filters: seq<Option<Filter>>)
    | PathScope(field: string, basePath: string, depth: int)

  datatype Token =
    | Column(name: string) | Placeholder | Number(n: int)
    | Equals | Comma | LParen | RParen | InWord | LikeWord | NotWord | AndWord | OrWord
    | Word(text: string)

  datatype Sql = Sql(clause: seq<Token>, args: seq<Value>)

  // ----- Compilation -----

  const ALWAYS := Sql([Number(1), Equals, Number(1)], [])
  const NEVER := Sql([Number(1), Equals, Number(0)], [])

  function EqualsMark(field: string): seq<Token> {
    [Column(field), Equals, Placeholder]
  }

  function LikeMark(field: string): seq<Token> {
    [Column(field), LikeWord, Placeholder]
  }

  function NotLikeMark(field: string): seq<Token> {
    [Column(field), NotWord, LikeWord, Placeholder]
  }

  /** `n` placeholders separated by commas. */
  function Marks(n: nat): seq<Token> {
    if n == 0 then [] else if n == 1 then [Placeholder] else [Placeholder, Comma] + Marks(n - 1)
  }

  /** Every clause after the first one, each in parentheses behind the connective. */
  function JoinTail(parts: seq<Sql>, sep: Token): seq<Token> {
    if parts == [] then [] else [sep, LParen] + parts[0].clause + [RParen] + JoinTail(parts[1..], sep)
  }

  function Join(parts: seq<Sql>, sep: Token): seq<Token> {
    if parts == [] then [] else [LParen] + parts[0].clause + [RParen] + JoinTail(parts[1..], sep)
  }

  function AllArgs(parts: seq<Sql>): seq<Value> {
    if parts == [] then [] else parts[0].args + AllArgs(parts[1..])
  }

  function Compile(f: Filter): (r: Sql)
    ensures r.clause != []
  {
    match f
    case Eq(field, value) => Sql(EqualsMark(field), [value])
    case In(field, values) =>
      if |values| == 0 then NEVER
      else if |values| == 1 then Sql(EqualsMark(field), values)
      else Sql([Column(field), InWord, LParen] + Marks(|values|) + [RParen], values)
    case And(fs) =>
      var parts := CompileAll(fs);
      if parts == [] then ALWAYS else Sql(Join(parts, AndWord), AllArgs(parts))
    case Or(fs) =>
      var parts := CompileAll(fs);
      if parts == [] then NEVER else Sql(Join(parts, OrWord), AllArgs(parts))
    case PathScope(field, basePath, depth) =>
      var base := TrimRightSlashes(basePath);
      if depth == 0 then Sql(EqualsMark(field), [Text(base)])
      else if depth == 1 then
        Sql([LParen] + (LikeMark(field) + [AndWord] + NotLikeMark(field)) + [RParen],
            [Text(base + "/%"), Text(base + "/%/%")])
      else
        Sql([LParen] + (EqualsMark(field) + [OrWord] + LikeMark(field)) + [RParen],
            [Text(base), Text(base + "/%")])
  }

  /** The compiled children; nil ones are skipped. */
  function CompileAll(fs: seq<Option<Filter>>): seq<Sql> {
    if fs == [] then []
    else
      var rest := CompileAll(fs[1..]);
      if fs[0].None? then rest
      else
        assert fs[0].value < fs[0];
        [Compile(fs[0].value)] + rest
  }

  // ----- SQL conditions -----

  datatype Operand = Col(name: string) | Lit(value: Value)

  datatype Cond =
    | Same(left: Operand, right: Operand)
    | OneOf(left: Operand, options: seq<Operand>)
    | Matches(left: Operand, pattern: Operand)
    | NotMatches(left: Operand, pattern: Operand)
    | Both(first: Cond, second: Cond)
    | Either(first: Cond, second: Cond)

  /** The outcome of reading a prefix of the tokens: each placeholder takes the next argument. */
  datatype Reading<T> = Fail | Read(value: T, rest: seq<Token>, args: seq<Value>)

  function ParseOperand(ts: seq<Token>, args: seq<Value>): (r: Reading<Operand>)
    ensures r.Read? ==> |r.rest| < |ts|
  {
    if ts == [] then Fail
    else match ts[0]
      case Column(name) => Read(Col(name), ts[1..], args)
      case Number(n) => Read(Lit(Int(n)), ts[1..], args)
      case Placeholder => if args == [] then Fail else Read(Lit(args[0]), ts[1..], args[1..])
      case _ => Fail
  }

  function ParseList(ts: seq<Token>, args: seq<Value>): (r: Reading<seq<Operand>>)
    ensures r.Read? ==> |r.rest| < |ts|
    decreases |ts|
  {
    var first := ParseOperand(ts, args);
    if first.Fail? then Fail
    else if first.rest != [] && first.rest[0] == Comma then
      var more := ParseList(first.rest[1..], first.args);
      if more.Fail? then Fail else Read([first.value] + more.value, more.rest, more.args)
    else Read([first.value], first.rest, first.args)
  }

  /** What may follow an operand: `= x`, `LIKE x`, `NOT LIKE x` or `IN (...)`. */
  function ParseComparison(left: Operand, ts: seq<Token>, args: seq<Value>): (r: Reading<Cond>)
    ensures r.Read? ==> |r.rest| < |ts|
  {
    if ts == [] then Fail
    else if ts[0] == Equals then
      var right := ParseOperand(ts[1..], args);
      if right.Fail? then Fail else Read(Same(left, right.value), right.rest, right.args)
    else if ts[0] == LikeWord then
      var right := ParseOperand(ts[1..], args);
      if right.Fail? then Fail else Read(Matches(left, right.value), right.rest, right.args)
    else if ts[0] == NotWord && |ts| > 1 && ts[1] == LikeWord then
      var right := ParseOperand(ts[2..], args);
      if right.Fail? then Fail else Read(NotMatches(left, right.value), right.rest, right.args)
    else if ts[0] == InWord && |ts| > 1 && ts[1] == LParen then
      var list := ParseList(ts[2..], args);
      if list.Fail? || list.rest == [] || list.rest[0] != RParen then Fail
      else Read(OneOf(left, list.value), list.rest[1..], list.args)
    else Fail
  }

  function ParsePrimary(ts: seq<Token>, args: seq<Value>): (r: Reading<Cond>)
    ensures r.Read? ==> |r.rest| < |ts|
    decreases |ts|, 0
  {
    if ts != [] && ts[0] == LParen then
      var inner := ParseOr(ts[1..], args);
      if inner.Fail? || inner.rest == [] || inner.rest[0] != RParen then Fail
      else Read(inner.value, inner.rest[1..], inner.args)
    else
      var left := ParseOperand(ts, args);
      if left.Fail? then Fail else ParseComparison(left.value, left.rest, left.args)
  }

  function ParseAndTail(left: Cond, ts: seq<Token>, args: seq<Value>): (r: Reading<Cond>)
    ensures r.Read? ==> |r.rest| <= |ts|
    decreases |ts|, 1
  {
    if ts != [] && ts[0] == AndWord then
      var right := ParsePrimary(ts[1..], args);
      if right.Fail? then Fail else ParseAndTail(Both(left, right.value), right.rest, right.args)
    else Read(left, ts, args)
  }

  function ParseAnd(ts: seq<Token>, args: seq<Value>): (r: Reading<Cond>)
    ensures r.Read? ==> |r.rest| < |ts|
    decreases |ts|, 1
  {
    var first := ParsePrimary(ts, args);
    if first.Fail? then Fail else ParseAndTail(first.value, first.rest, first.args)
  }

  function ParseOrTail(left: Cond, ts: seq<Token>, args: seq<Value>): (r: Reading<Cond>)
    ensures r.Read? ==> |r.rest| <= |ts|
    decreases |ts|, 2
  {
    if ts != [] && ts[0] == OrWord then
      var right := ParseAnd(ts[1..], args);
      if right.Fail? then Fail else ParseOrTail(Either(left, right.value), right.rest, right.args)
    else Read(left, ts, args)
  }

  /** OR binds weaker than AND, and both associate to the left. */
  function ParseOr(ts: seq<Token>, args: seq<Value>): (r: Reading<Cond>)
    ensures r.Read? ==> |r.rest| < |ts|
    decreases |ts|, 2
  {
    var first := ParseAnd(ts, args);
    if first.Fail? then Fail else ParseOrTail(first.value, first.rest, first.args)
  }

  // ----- Three-valued evaluation -----

  datatype Truth = True | False | Unknown

  type Row = string -> Value

  function Get(row: Row, o: Operand): Value {
    match o
    case Col(name) => row(name)
    case Lit(v) => v
  }

  function And3(a: Truth, b: Truth): Truth {
    if a == False || b == False then False else if a == True && b == True then True else Unknown
  }

  function Or3(a: Truth, b: Truth): Truth {
    if a == True || b == True then True else if a == False && b == False then False else Unknown
  }

  function Not3(a: Truth): Truth {
    match a case True => False case False => True case Unknown => Unknown
  }

  function Same3(a: Value, b: Value): Truth {
    if a == Null || b == Null then Unknown else if a == b then True else False
  }

  /** How LIKE reads a value that is not NULL. */
  function Rendered(v: Value): string {
    match v
    case Null => ""
    case Int(n) => Decimal(n)
    case Text(s) => s
    case Blob(b) => b
  }

  function Lower(c: char): char {
    if 'A' <= c <= 'Z' then c - 'A' + 'a' else c
  }

  /** SQLite compares LIKE letters without case (ASCII only) unless told otherwise. */
  predicate SameChar(fold: bool, p: char, c: char) {
    p == c || (fold && Lower(p) == Lower(c))
  }

  /** `%` stands for any text, `_` for any one character. */
  predicate Like(fold: bool, p: string, t: string)
    decreases |p|, |t|
  {
    if p == "" then t == ""
    else if p[0] == '%' then Like(fold, p[1..], t) || (t != "" && Like(fold, p, t[1..]))
    else t != "" && (p[0] == '_' || SameChar(fold, p[0], t[0])) && Like(fold, p[1..], t[1..])
  }

  function Like3(fold: bool, a: Value, p: Value): Truth {
    if a == Null || p == Null then Unknown else if Like(fold, Rendered(p), Rendered(a)) then True else False
  }

  function OneOf3(row: Row, v: Value, options: seq<Operand>): Truth {
    if options == [] then False else Or3(Same3(v, Get(row, options[0])), OneOf3(row, v, options[1..]))
  }

  function Eval(fold: bool, c: Cond, row: Row): Truth {
    match c
    case Same(a, b) => Same3(Get(row, a), Get(row, b))
    case OneOf(a, options) => OneOf3(row, Get(row, a), options)
    case Matches(a, p) => Like3(fold, Get(row, a), Get(row, p))
    case NotMatches(a, p) => Not3(Like3(fold, Get(row, a), Get(row, p)))
    case Both(a, b) => And3(Eval(fold, a, row), Eval(fold, b, row))
    case Either(a, b) => Or3(Eval(fold, a, row), Eval(fold, b, row))
  }

  // ----- What a filter means -----

  /** A row is in the scope of a path: the LIKE patterns are those of the trimmed base. */
  predicate ScopeMatch(fold: bool, base: string, depth: int, v: Value) {
    if depth == 0 then v == Text(base)
    else if depth == 1 then
      v != Null && Like(fold, base + "/%", Rendered(v)) && !Like(fold, base + "/%/%", Rendered(v))
    else v == Text(base) || (v != Null && Like(fold, base + "/%", Rendered(v)))
  }

  /** Two-valued meaning: a comparison with NULL is no match, nil children do not count. */
  ghost predicate Meaning(fold: bool, f: Filter, row: Row) {
    match f
    case Eq(field, v) => v != Null && row(field) == v
    case In(field, vs) => row(field) != Null && row(field) in vs
    case And(fs) => forall i :: 0 <= i < |fs| && fs[i].Some? ==> Meaning(fold, fs[i].value, row)
    case Or(fs) => exists i :: 0 <= i < |fs| && fs[i].Some? && Meaning(fold, fs[i].value, row)
    case PathScope(field, basePath, depth) => ScopeMatch(fold, TrimRightSlashes(basePath), depth, row(field))
  }
}
