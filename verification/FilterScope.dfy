/** Path scopes: what the LIKE patterns select, compared with the path hierarchy itself. */
module FilterScope {
  import opened Strings
  import opened FilterSql

  predicate IsWildcard(c: char) {
    c == '%' || c == '_'
  }

  predicate IsLetter(c: char) {
    'A' <= c <= 'Z' || 'a' <= c <= 'z'
  }

  /** Nothing in the text is read by LIKE as anything but itself. */
  predicate Plain(fold: bool, s: string) {
    forall i :: 0 <= i < |s| ==> !IsWildcard(s[i]) && (fold ==> !IsLetter(s[i]))
  }

  /** One pattern character other than a longer match of `%` accepts one text character. */
  predicate Accepts(fold: bool, p: char, c: char) {
    IsWildcard(p) || SameChar(fold, p, c)
  }

  /** The text is in the scope by the path hierarchy: the base, a direct child, or the base and all below it. */
  ghost predicate InScope(base: string, depth: int, t: string) {
    if depth == 0 then t == base
    else if depth == 1 then exists name: string :: '/' !in name && t == base + "/" + name
    else t == base || exists rest: string :: t == base + "/" + rest
  }

  predicate StartsLike(fold: bool, pre: string, t: string) {
    |pre| <= |t| && forall i :: 0 <= i < |pre| ==> SameChar(fold, pre[i], t[i])
  }

  lemma {:induction false} LikeAnything(fold: bool, t: string)
    ensures Like(fold, "%", t)
  {
    if t != "" {
      LikeAnything(fold, t[1..]);
    }
  }

  /** A prefix without wildcards, followed by any pattern. */
  lemma {:induction false} LikePrefix(fold: bool, pre: string, p: string, t: string)
    requires forall i :: 0 <= i < |pre| ==> !IsWildcard(pre[i])
    ensures Like(fold, pre + p, t) <==> StartsLike(fold, pre, t) && Like(fold, p, t[|pre|..])
  {
    if pre == "" {
      assert pre + p == p && t[0..] == t;
    } else if t == "" {
      assert (pre + p)[0] == pre[0];
    } else {
      assert (pre + p)[1..] == pre[1..] + p;
      LikePrefix(fold, pre[1..], p, t[1..]);
      StartsStep(fold, pre, t);
      if |pre| <= |t| {
        assert t[1..][|pre[1..]|..] == t[|pre|..];
      }
    }
  }

  lemma StartsStep(fold: bool, pre: string, t: string)
    requires pre != "" && t != ""
    ensures StartsLike(fold, pre, t) <==> SameChar(fold, pre[0], t[0]) && StartsLike(fold, pre[1..], t[1..])
  {
  }

  lemma {:induction false} LikeHasSlash(fold: bool, t: string)
    ensures Like(fold, "%/%", t) <==> '/' in t
  {
    var p := "%/%";
    assert p[1..] == "/%" && "/%"[1..] == "%";
    if t != "" {
      LikeHasSlash(fold, t[1..]);
      LikeAnything(fold, t[1..]);
      assert t == [t[0]] + t[1..];
    }
  }

  /** A text that each pattern character accepts in turn matches the pattern followed by `%`. */
  lemma {:induction false} LikePointwise(fold: bool, pre: string, t: string)
    requires |pre| <= |t| && forall i :: 0 <= i < |pre| ==> Accepts(fold, pre[i], t[i])
    ensures Like(fold, pre + "%", t)
  {
    if pre == "" {
      assert pre + "%" == "%";
      LikeAnything(fold, t);
    } else {
      assert (pre + "%")[1..] == pre[1..] + "%";
      LikePointwise(fold, pre[1..], t[1..]);
      if pre[0] == '%' {
        LikeSkip(fold, pre[1..] + "%", t);
      }
    }
  }

  lemma LikeSkip(fold: bool, p: string, t: string)
    requires t != "" && Like(fold, p, t[1..])
    ensures Like(fold, "%" + p, t)
  {
  }

  function Slashes(s: string): nat {
    if s == "" then 0 else (if s[0] == '/' then 1 else 0) + Slashes(s[1..])
  }

  lemma {:induction false} SlashesAdd(a: string, b: string)
    ensures Slashes(a + b) == Slashes(a) + Slashes(b)
  {
    if a == "" {
      assert a + b == b;
    } else {
      assert (a + b)[1..] == a[1..] + b;
      SlashesAdd(a[1..], b);
    }
  }

  /** Every slash of the pattern needs one of its own in the text. */
  lemma {:induction false} LikeNeedsSlashes(fold: bool, p: string, t: string)
    requires Like(fold, p, t)
    ensures Slashes(p) <= Slashes(t)
    decreases |p|, |t|
  {
    if p == "" {
    } else if p[0] == '%' {
      if Like(fold, p[1..], t) {
        LikeNeedsSlashes(fold, p[1..], t);
      } else {
        LikeNeedsSlashes(fold, p, t[1..]);
      }
    } else {
      LikeNeedsSlashes(fold, p[1..], t[1..]);
    }
  }

  /** Under the base in the sense of LIKE without wildcards. */
  lemma DescendantPattern(fold: bool, base: string, t: string)
    requires forall i :: 0 <= i < |base| ==> !IsWildcard(base[i])
    ensures Like(fold, base + "/%", t) <==> StartsLike(fold, base + "/", t)
  {
    assert base + "/%" == (base + "/") + "%";
    LikePrefix(fold, base + "/", "%", t);
    if |base| < |t| {
      LikeAnything(fold, t[|base| + 1..]);
    }
  }

  lemma GrandchildPattern(fold: bool, base: string, t: string)
    requires forall i :: 0 <= i < |base| ==> !IsWildcard(base[i])
    ensures Like(fold, base + "/%/%", t) <==> StartsLike(fold, base + "/", t) && '/' in t[|base| + 1..]
  {
    assert base + "/%/%" == (base + "/") + "%/%";
    LikePrefix(fold, base + "/", "%/%", t);
    if |base| < |t| {
      LikeHasSlash(fold, t[|base| + 1..]);
    }
  }

  /** Up to letter case, a base without wildcards selects exactly its children or descendants. */
  lemma ScopeUpToCase(fold: bool, base: string, depth: int, t: string)
    requires forall i :: 0 <= i < |base| ==> !IsWildcard(base[i])
    ensures ScopeMatch(fold, base, depth, Text(t)) <==>
            if depth == 0 then t == base
            else if depth == 1 then StartsLike(fold, base + "/", t) && '/' !in t[|base| + 1..]
            else t == base || StartsLike(fold, base + "/", t)
  {
    DescendantPattern(fold, base, t);
    GrandchildPattern(fold, base, t);
  }

  lemma StartsExactly(fold: bool, base: string, t: string)
    requires Plain(fold, base)
    ensures StartsLike(fold, base + "/", t) <==> |base| < |t| && t[..|base| + 1] == base + "/"
  {
  }

  lemma InScopeByPrefix(base: string, depth: int, t: string)
    ensures InScope(base, depth, t) <==>
            if depth == 0 then t == base
            else
              var under := |base| < |t| && t[..|base| + 1] == base + "/";
              if depth == 1 then under && '/' !in t[|base| + 1..] else t == base || under
  {
    var n := |base| + 1;
    if n <= |t| && t[..n] == base + "/" {
      assert t == base + "/" + t[n..];
    }
    if depth == 1 && InScope(base, depth, t) {
      var name: string :| '/' !in name && t == base + "/" + name;
      assert t[..n] == base + "/" && t[n..] == name;
    }
    if depth != 0 && depth != 1 && t != base && InScope(base, depth, t) {
      var rest: string :| t == base + "/" + rest;
      assert t[..n] == base + "/";
    }
  }

  lemma PlainIsExact(fold: bool, base: string, depth: int, t: string)
    requires depth == 0 || Plain(fold, base)
    ensures ScopeMatch(fold, base, depth, Text(t)) <==> InScope(base, depth, t)
  {
    if depth != 0 {
      ScopeUpToCase(fold, base, depth, t);
      StartsExactly(fold, base, t);
      InScopeByPrefix(base, depth, t);
    }
  }

  /** A character that the pattern accepts in place of `c`, and is neither `c` nor a slash. */
  function Impostor(c: char): (r: char)
    requires IsWildcard(c) || IsLetter(c)
    ensures r != c && r != '/' && (IsWildcard(c) || SameChar(true, c, r))
  {
    if IsWildcard(c) then 'x'
    else if 'A' <= c <= 'Z' then c - 'A' + 'a'
    else c - 'a' + 'A'
  }

  /** The base with one wildcard or letter replaced: outside the scope, and selected all the same. */
  lemma ImpostorMatches(fold: bool, base: string, depth: int, i: nat) returns (t: string)
    requires depth != 0 && i < |base|
    requires IsWildcard(base[i]) || (fold && IsLetter(base[i]))
    ensures ScopeMatch(fold, base, depth, Text(t)) && !InScope(base, depth, t)
  {
    var c := Impostor(base[i]);
    t := base[i := c] + "/";
    var pre := base + "/";
    assert pre + "%" == base + "/%";
    forall j | 0 <= j < |pre| ensures Accepts(fold, pre[j], t[j]) {
      if j != i {
        assert pre[j] == t[j];
      }
    }
    LikePointwise(fold, pre, t);
    ImpostorSlashes(base, i, c);
    if Like(fold, base + "/%/%", t) {
      LikeNeedsSlashes(fold, base + "/%/%", t);
    }
    InScopeByPrefix(base, depth, t);
    assert t[..|base| + 1][i] != pre[i];
  }

  lemma {:induction false} SameSlashes(s: string, i: nat, c: char)
    requires i < |s| && s[i] != '/' && c != '/'
    ensures Slashes(s[i := c]) == Slashes(s)
  {
    if i == 0 {
      assert s[0 := c][1..] == s[1..];
    } else {
      assert s[i := c][1..] == s[1..][i - 1 := c];
      SameSlashes(s[1..], i - 1, c);
    }
  }

  lemma ImpostorSlashes(base: string, i: nat, c: char)
    requires i < |base| && base[i] != '/' && c != '/'
    ensures Slashes(base[i := c] + "/") < Slashes(base + "/%/%")
  {
    SameSlashes(base, i, c);
    SlashesAdd(base[i := c], "/");
    SlashesAdd(base, "/%/%");
    SlashesAdd("/%", "/%");
    assert "/%/%" == "/%" + "/%";
    SlashesAdd("/", "%");
    assert "/%" == "/" + "%";
  }

  ghost predicate Exact(fold: bool, base: string, depth: int) {
    forall t :: ScopeMatch(fold, base, depth, Text(t)) <==> InScope(base, depth, t)
  }

  /**
   * When a path scope selects exactly the paths it names: always at depth 0, and otherwise exactly for a base
   * without wildcards and, under SQLite's case folding, without ASCII letters.
   */
  lemma ExactIff(fold: bool, basePath: string, depth: int)
    ensures var base := TrimRightSlashes(basePath); Exact(fold, base, depth) <==> depth == 0 || Plain(fold, base)
  {
    var base := TrimRightSlashes(basePath);
    if depth == 0 || Plain(fold, base) {
      forall t ensures ScopeMatch(fold, base, depth, Text(t)) <==> InScope(base, depth, t) {
        PlainIsExact(fold, base, depth, t);
      }
    } else {
      var i :| 0 <= i < |base| && (IsWildcard(base[i]) || (fold && IsLetter(base[i])));
      var t := ImpostorMatches(fold, base, depth, i);
    }
  }

  /** Whatever the base, the scope of all descendants never misses one: it deletes or searches too much, not too little. */
  lemma NeverMisses(fold: bool, basePath: string, depth: int, t: string)
    requires depth != 0 && depth != 1 && InScope(TrimRightSlashes(basePath), depth, t)
    ensures ScopeMatch(fold, TrimRightSlashes(basePath), depth, Text(t))
  {
    var base := TrimRightSlashes(basePath);
    InScopeByPrefix(base, depth, t);
    if t != base {
      var pre := base + "/";
      assert pre + "%" == base + "/%";
      assert forall i :: 0 <= i < |pre| ==> t[i] == t[..|pre|][i] == pre[i];
      LikePointwise(fold, pre, t);
    }
  }
}
