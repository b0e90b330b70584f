/** Text: trimming, decimal numbers, byte order, and the sorted enumeration of a finite set of names. */
module Strings {
  import opened Prelude

  function TrimRightSlashes(s: string): (r: string)
    ensures r <= s && (r == "" || r[|r| - 1] != '/')
    ensures forall i :: |r| <= i < |s| ==> s[i] == '/'
  {
    if s != "" && s[|s| - 1] == '/' then TrimRightSlashes(s[..|s| - 1]) else s
  }

  predicate HasPrefix(s: string, prefix: string) {
    prefix <= s
  }

  function Decimal(n: int): (r: string)
    ensures r != ""
    decreases if n < 0 then 1 - n else n
  {
    if n < 0 then "-" + Decimal(-n)
    else if n < 10 then [Digit(n)]
    else Decimal(n / 10) + [Digit(n % 10)]
  }

  function Digit(d: nat): char
    requires d < 10
  {
    '0' + d as char
  }

  predicate LexBefore(a: string, b: string) {
    if b == "" then false
    else if a == "" then true
    else a[0] < b[0] || (a[0] == b[0] && LexBefore(a[1..], b[1..]))
  }

  /** Before means: a proper prefix, or smaller at the first character that differs. */
  lemma {:induction false} LexExactly(a: string, b: string)
    ensures LexBefore(a, b) <==> a < b || exists k :: 0 <= k < |a| && k < |b| && a[..k] == b[..k] && a[k] < b[k]
  {
    if a != "" && b != "" && a[0] == b[0] {
      var a', b' := a[1..], b[1..];
      LexExactly(a', b');
      if a' < b' { assert a < b; }
      if a < b { assert a' == b'[..|a'|]; }
      if k :| 0 <= k < |a'| && k < |b'| && a'[..k] == b'[..k] && a'[k] < b'[k] {
        assert a[..k + 1] == [a[0]] + a'[..k] && b[..k + 1] == [b[0]] + b'[..k];
        assert a[k + 1] < b[k + 1];
      }
      if k :| 0 <= k < |a| && k < |b| && a[..k] == b[..k] && a[k] < b[k] {
        assert a'[..k - 1] == a[..k][1..] && b'[..k - 1] == b[..k][1..];
        assert a'[k - 1] < b'[k - 1];
      }
    } else if a != "" && b != "" {
      assert a[..0] == b[..0];
      if k :| 0 <= k < |a| && k < |b| && a[..k] == b[..k] && a[k] < b[k] {
        assert k > 0 ==> a[..k][0] == b[..k][0];
      }
    }
  }

  lemma {:induction false} LexAsymmetric(a: string, b: string)
    requires LexBefore(a, b)
    ensures !LexBefore(b, a)
  {
    if a != "" && a[0] == b[0] {
      LexAsymmetric(a[1..], b[1..]);
    }
  }

  lemma {:induction false} LexTotal(a: string, b: string)
    ensures LexBefore(a, b) || LexBefore(b, a) || a == b
  {
    if a != "" && b != "" && a[0] == b[0] {
      LexTotal(a[1..], b[1..]);
      assert a == [a[0]] + a[1..] && b == [b[0]] + b[1..];
    }
  }

  lemma {:induction false} LexTransitive(a: string, b: string, c: string)
    requires LexBefore(a, b) && LexBefore(b, c)
    ensures LexBefore(a, c)
  {
    if a != "" && a[0] == b[0] == c[0] {
      LexTransitive(a[1..], b[1..], c[1..]);
    }
  }

  predicate IsLast(s: set<string>, m: string) {
    m in s && forall x :: x in s && x != m ==> LexBefore(x, m)
  }

  lemma {:induction false} LastExists(s: set<string>)
    requires s != {}
    ensures exists m :: IsLast(s, m)
    decreases |s|
  {
    var x :| x in s;
    var rest := s - {x};
    if rest == {} {
      assert s == {x};
      assert IsLast(s, x);
    } else {
      LastExists(rest);
      var m :| IsLast(rest, m);
      LexTotal(x, m);
      if LexBefore(m, x) {
        forall y | y in s && y != x ensures LexBefore(y, x) {
          if y != m { LexTransitive(y, m, x); }
        }
        assert IsLast(s, x);
      } else {
        assert IsLast(s, m);
      }
    }
  }

  lemma LastUnique(s: set<string>, m: string, n: string)
    requires IsLast(s, m) && IsLast(s, n)
    ensures m == n
  {
    if m != n { LexAsymmetric(m, n); }
  }

  /** The members of `s`, each once, in byte order. */
  ghost function SortedNames(s: set<string>): (r: seq<string>)
    ensures |r| == |s|
    ensures forall n :: n in r <==> n in s
  {
    if s == {} then []
    else
      LastExists(s);
      var m :| IsLast(s, m);
      SortedNames(s - {m}) + [m]
  }

  lemma {:induction false} SortedNamesDistinct(s: set<string>)
    ensures Distinct(SortedNames(s))
  {
    if s != {} {
      LastExists(s);
      var m :| IsLast(s, m) && SortedNames(s) == SortedNames(s - {m}) + [m];
      SortedNamesDistinct(s - {m});
    }
  }

  function InsertName(n: string, ns: seq<string>): seq<string> {
    if ns == [] then [n]
    else
      var last := |ns| - 1;
      if LexBefore(n, ns[last]) then InsertName(n, ns[..last]) + [ns[last]] else ns + [n]
  }

  lemma SortedByLast(s: set<string>, m: string)
    requires IsLast(s, m)
    ensures SortedNames(s) == SortedNames(s - {m}) + [m]
  {
    var top :| IsLast(s, top) && SortedNames(s) == SortedNames(s - {top}) + [top];
    LastUnique(s, m, top);
  }

  /** Byte order: each name is a proper prefix of those behind it, or smaller at the first character that differs. */
  lemma {:induction false} NamesAscending(s: set<string>, i: nat, j: nat)
    requires i < j < |s|
    ensures var a, b := SortedNames(s)[i], SortedNames(s)[j];
            a < b || exists k :: 0 <= k < |a| && k < |b| && a[..k] == b[..k] && a[k] < b[k]
    decreases |s|
  {
    assert s != {};
    LastExists(s);
    var m :| IsLast(s, m);
    SortedByLast(s, m);
    var rest := s - {m};
    assert |rest| == |s| - 1;
    var a := SortedNames(rest)[i];
    assert a in SortedNames(rest);
    hide SortedNames;
    if j < |rest| {
      NamesAscending(rest, i, j);
    } else {
      LexExactly(a, m);
    }
  }

  lemma LastOfTwo(s: set<string>, m: string, n: string)
    requires IsLast(s, m) && n !in s
    ensures LexBefore(n, m) ==> IsLast(s + {n}, m)
    ensures !LexBefore(n, m) ==> IsLast(s + {n}, n)
  {
    if !LexBefore(n, m) {
      LexTotal(m, n);
      forall x | x in s + {n} && x != n ensures LexBefore(x, n) {
        if x != m { LexTransitive(x, m, n); }
      }
    }
  }

  lemma {:induction false} InsertSorted(s: set<string>, n: string)
    requires n !in s
    ensures InsertName(n, SortedNames(s)) == SortedNames(s + {n})
    decreases |s|
  {
    hide IsLast, SortedNames;
    var all := s + {n};
    if s == {} {
      SingleSorted(n);
      assert all == {n};
    } else {
      LastExists(s);
      var m :| IsLast(s, m);
      LastIn(s, m);
      SortedByLast(s, m);
      LastOfTwo(s, m, n);
      if LexBefore(n, m) {
        SortedByLast(all, m);
        assert all - {m} == (s - {m}) + {n};
        InsertSorted(s - {m}, n);
        assert (SortedNames(s - {m}) + [m])[..|SortedNames(s - {m})|] == SortedNames(s - {m});
      } else {
        SortedByLast(all, n);
        assert all - {n} == s;
      }
    }
  }

  lemma LastIn(s: set<string>, m: string)
    requires IsLast(s, m)
    ensures m in s
  {
  }

  lemma SingleSorted(n: string)
    ensures SortedNames({}) == [] && SortedNames({n}) == [n]
  {
  }

  /** Collects the names of a set, in whatever order they come, and sorts them. */
  method Sort(s: set<string>) returns (r: seq<string>)
    ensures r == SortedNames(s)
  {
    hide SortedNames;
    r := [];
    var rest := s;
    SingleSorted("");
    assert s - rest == {};
    while rest != {}
      invariant rest <= s && r == SortedNames(s - rest)
      decreases |rest|
    {
      var n :| n in rest;
      InsertSorted(s - rest, n);
      assert s - (rest - {n}) == s - rest + {n};
      r := InsertName(n, r);
      rest := rest - {n};
    }
    assert s - rest == s;
  }
}
