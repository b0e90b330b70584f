/** File trees, paths into them, and the file system object that the sync works on. */
module FileTree {
  import opened Prelude

  datatype Tree = File(content: string) | Dir(kids: map<string, Tree>)

  type Path = seq<string>

  function Lookup(t: Tree, p: Path): (r: Option<Tree>)
    decreases |p|
  {
    if p == [] then Some(t)
    else if t.Dir? && p[0] in t.kids then Lookup(t.kids[p[0]], p[1..])
    else None
  }

  /** The tree with the subtree at an existing path replaced. */
  function Put(t: Tree, p: Path, sub: Tree): (r: Tree)
    requires Lookup(t, p).Some?
    decreases |p|
  {
    if p == [] then sub else Dir(t.kids[p[0] := Put(t.kids[p[0]], p[1..], sub)])
  }

  predicate IsDir(t: Tree, p: Path) {
    Lookup(t, p).Some? && Lookup(t, p).value.Dir?
  }

  /** The entries of a directory, none when there is no directory. */
  function KidsAt(t: Tree, p: Path): map<string, Tree> {
    if IsDir(t, p) then Lookup(t, p).value.kids else map[]
  }

  /** The paths part ways: neither lies at or below the other. */
  predicate Apart(p: Path, q: Path) {
    exists i :: 0 <= i < |p| && i < |q| && p[i] != q[i]
  }

  lemma ApartTails(p: Path, q: Path)
    requires Apart(p, q) && p[0] == q[0]
    ensures Apart(p[1..], q[1..])
  {
  }

  lemma {:induction false} PutLookup(t: Tree, p: Path, sub: Tree)
    requires Lookup(t, p).Some?
    ensures Lookup(Put(t, p, sub), p) == Some(sub)
    decreases |p|
  {
    if p != [] {
      PutLookup(t.kids[p[0]], p[1..], sub);
    }
  }

  lemma {:induction false} PutApart(t: Tree, p: Path, sub: Tree, q: Path)
    requires Lookup(t, p).Some? && Apart(p, q)
    ensures Lookup(Put(t, p, sub), q) == Lookup(t, q)
    decreases |p|
  {
    if p[0] == q[0] {
      ApartTails(p, q);
      PutApart(t.kids[p[0]], p[1..], sub, q[1..]);
    }
  }

  lemma {:induction false} PutTwice(t: Tree, p: Path, a: Tree, b: Tree)
    requires Lookup(t, p).Some?
    ensures Lookup(Put(t, p, a), p).Some? && Put(Put(t, p, a), p, b) == Put(t, p, b)
    decreases |p|
  {
    PutLookup(t, p, a);
    if p != [] {
      PutTwice(t.kids[p[0]], p[1..], a, b);
    }
  }

  lemma {:induction false} PutSame(t: Tree, p: Path)
    requires Lookup(t, p).Some?
    ensures Put(t, p, Lookup(t, p).value) == t
    decreases |p|
  {
    if p != [] {
      PutSame(t.kids[p[0]], p[1..]);
      assert t.kids[p[0] := t.kids[p[0]]] == t.kids;
    }
  }

  lemma {:induction false} PutCommutes(t: Tree, p: Path, a: Tree, q: Path, b: Tree)
    requires Lookup(t, p).Some? && Lookup(t, q).Some? && Apart(p, q)
    ensures Lookup(Put(t, p, a), q).Some? && Lookup(Put(t, q, b), p).Some?
    ensures Put(Put(t, p, a), q, b) == Put(Put(t, q, b), p, a)
    decreases |p|
  {
    PutApart(t, p, a, q);
    PutApart(t, q, b, p);
    if p[0] == q[0] {
      ApartTails(p, q);
      PutCommutes(t.kids[p[0]], p[1..], a, q[1..], b);
    } else {
      assert Put(Put(t, p, a), q, b).kids == Put(Put(t, q, b), p, a).kids;
    }
  }

  lemma {:induction false} LookupChild(t: Tree, p: Path, n: string)
    ensures Lookup(t, p + [n]) ==
            if Lookup(t, p).Some? && Lookup(t, p).value.Dir? && n in Lookup(t, p).value.kids
            then Some(Lookup(t, p).value.kids[n]) else None
    decreases |p|
  {
    if p == [] {
      assert [] + [n] == [n];
    } else {
      assert (p + [n])[1..] == p[1..] + [n];
      if t.Dir? && p[0] in t.kids {
        LookupChild(t.kids[p[0]], p[1..], n);
      }
    }
  }

  /** Replacing a child is replacing its directory by one with that child. */
  lemma {:induction false} PutChild(t: Tree, p: Path, n: string, sub: Tree)
    requires Lookup(t, p).Some? && Lookup(t, p).value.Dir? && n in Lookup(t, p).value.kids
    ensures Lookup(t, p + [n]).Some?
    ensures Put(t, p + [n], sub) == Put(t, p, Dir(KidsAt(t, p)[n := sub]))
    decreases |p|
  {
    LookupChild(t, p, n);
    if p == [] {
      assert [] + [n] == [n];
    } else {
      assert (p + [n])[1..] == p[1..] + [n];
      PutChild(t.kids[p[0]], p[1..], n, sub);
    }
  }

  lemma ApartChildren(p: Path, q: Path, m: string, n: string)
    requires Apart(p, q)
    ensures Apart(p + [m], q) && Apart(p, q + [n]) && Apart(p + [m], q + [n])
  {
  }

  // ----- What the operating system does -----

  /** Creates the missing directories on the way to `p`; fails when a file stands in the way. */
  function MkdirAll(t: Tree, p: Path): (r: Option<Tree>)
    decreases |p|
  {
    if t.File? then None
    else if p == [] then Some(t)
    else
      var sub := MkdirAll(if p[0] in t.kids then t.kids[p[0]] else Dir(map[]), p[1..]);
      if sub.None? then None else Some(Dir(t.kids[p[0] := sub.value]))
  }

  function Detach(t: Tree, p: Path): (r: Tree)
    requires p != [] && Lookup(t, p).Some?
    decreases |p|
  {
    if |p| == 1 then Dir(t.kids - {p[0]}) else Dir(t.kids[p[0] := Detach(t.kids[p[0]], p[1..])])
  }

  function Parent(p: Path): Path
    requires p != []
  {
    p[..|p| - 1]
  }

  lemma {:induction false} DetachKeepsDir(t: Tree, p: Path, d: Path)
    requires p != [] && Lookup(t, p).Some? && IsDir(t, d) && !(p <= d)
    ensures IsDir(Detach(t, p), d)
    decreases |p|
  {
    if d != [] && |p| > 1 && p[0] == d[0] {
      assert p == [p[0]] + p[1..] && d == [d[0]] + d[1..];
      DetachKeepsDir(t.kids[p[0]], p[1..], d[1..]);
    }
  }

  lemma {:induction false} DetachLookup(t: Tree, p: Path, q: Path)
    requires p != [] && Lookup(t, p).Some?
    ensures Lookup(Detach(t, p), p) == None
    ensures Apart(p, q) ==> Lookup(Detach(t, p), q) == Lookup(t, q)
    decreases |p|
  {
    if |p| > 1 {
      if Apart(p, q) && p[0] == q[0] {
        ApartTails(p, q);
      }
      DetachLookup(t.kids[p[0]], p[1..], if q == [] then [] else q[1..]);
    }
  }

  /** What stood at a path makes no difference once it is removed. */
  lemma {:induction false} DetachPut(t: Tree, p: Path, sub: Tree)
    requires p != [] && Lookup(t, p).Some?
    ensures Lookup(Put(t, p, sub), p).Some? && Detach(Put(t, p, sub), p) == Detach(t, p)
    decreases |p|
  {
    PutLookup(t, p, sub);
    if |p| > 1 {
      DetachPut(t.kids[p[0]], p[1..], sub);
    } else {
      assert t.kids[p[0] := sub] - {p[0]} == t.kids - {p[0]};
    }
  }

  /** Removing: recursively always, otherwise only a file or an empty directory. */
  function Remove(t: Tree, p: Path, recursive: bool): (r: Option<Tree>)
    requires p != []
  {
    var found := Lookup(t, p);
    if recursive then Some(if found.None? then t else Detach(t, p))
    else if found.None? || (found.value.Dir? && found.value.kids != map[]) then None
    else Some(Detach(t, p))
  }

  /** Renaming over nothing, a file over a file, or a directory over an empty one. */
  function Rename(t: Tree, p: Path, q: Path): (r: Option<Tree>)
    requires p != [] && q != []
  {
    var from, slot := Lookup(t, p), Lookup(t, q);
    if from.None? || p < q || !IsDir(t, Parent(q)) then None
    else if p == q then Some(t)
    else if slot.None? || (slot.value.File? && from.value.File?) || (from.value.Dir? && slot.value == Dir(map[])) then
      assert Parent(q) <= q && !(p <= q);
      assert !(p <= Parent(q));
      DetachKeepsDir(t, p, Parent(q));
      var rest := Detach(t, p);
      Some(Put(rest, Parent(q), Dir(KidsAt(rest, Parent(q))[q[|q| - 1] := from.value])))
    else None
  }

  lemma {:induction false} DetachIsPut(t: Tree, d: Path, n: string)
    requires IsDir(t, d) && n in KidsAt(t, d)
    ensures Lookup(t, d + [n]).Some? && Detach(t, d + [n]) == Put(t, d, Dir(KidsAt(t, d) - {n}))
    decreases |d|
  {
    LookupChild(t, d, n);
    if d == [] {
      assert [] + [n] == [n];
    } else {
      assert (d + [n])[1..] == d[1..] + [n];
      DetachIsPut(t.kids[d[0]], d[1..], n);
    }
  }

  lemma {:induction false} MkdirAllExisting(t: Tree, d: Path)
    requires IsDir(t, d)
    ensures MkdirAll(t, d) == Some(t)
    decreases |d|
  {
    if d != [] {
      MkdirAllExisting(t.kids[d[0]], d[1..]);
      assert t.kids[d[0] := t.kids[d[0]]] == t.kids;
    }
  }

  // ----- Two directories of one tree -----

  /** A directory `s`, and apart from it a path `r` that may or may not be a directory. */
  ghost predicate Sides(t: Tree, r: Path, s: Path) {
    Apart(r, s) && IsDir(t, s)
  }

  /** The tree with the contents of the two directories replaced, as far as they are there. */
  ghost function With(t: Tree, r: Path, rk: map<string, Tree>, s: Path, sk: map<string, Tree>): Tree
    requires Sides(t, r, s)
  {
    PutApart(t, s, Dir(sk), r);
    if IsDir(t, r) then Put(Put(t, s, Dir(sk)), r, Dir(rk)) else Put(t, s, Dir(sk))
  }

  lemma WithLookup(t: Tree, r: Path, rk: map<string, Tree>, s: Path, sk: map<string, Tree>)
    requires Sides(t, r, s)
    ensures Sides(With(t, r, rk, s, sk), r, s)
    ensures IsDir(With(t, r, rk, s, sk), r) <==> IsDir(t, r)
    ensures KidsAt(With(t, r, rk, s, sk), r) == (if IsDir(t, r) then rk else map[]) && KidsAt(With(t, r, rk, s, sk), s) == sk
  {
    PutApart(t, s, Dir(sk), r);
    PutLookup(t, s, Dir(sk));
    if IsDir(t, r) {
      PutLookup(Put(t, s, Dir(sk)), r, Dir(rk));
      PutApart(Put(t, s, Dir(sk)), r, Dir(rk), s);
    }
  }

  lemma WithSame(t: Tree, r: Path, s: Path)
    requires Sides(t, r, s)
    ensures With(t, r, KidsAt(t, r), s, KidsAt(t, s)) == t
  {
    PutSame(t, s);
    if IsDir(t, r) {
      PutSame(t, r);
    }
  }

  /** Only the last contents count. */
  lemma WithTwice(t: Tree, r: Path, rk: map<string, Tree>, s: Path, sk: map<string, Tree>,
                  rk': map<string, Tree>, sk': map<string, Tree>)
    requires Sides(t, r, s)
    ensures Sides(With(t, r, rk, s, sk), r, s)
    ensures With(With(t, r, rk, s, sk), r, rk', s, sk') == With(t, r, rk', s, sk')
  {
    WithLookup(t, r, rk, s, sk);
    PutApart(t, s, Dir(sk), r);
    var u := Put(t, s, Dir(sk));
    PutLookup(t, s, Dir(sk));
    assert Apart(s, r) by { var i :| 0 <= i < |r| && i < |s| && r[i] != s[i]; assert s[i] != r[i]; }
    PutTwice(t, s, Dir(sk), Dir(sk'));
    PutApart(t, s, Dir(sk'), r);
    if IsDir(t, r) {
      PutCommutes(u, s, Dir(sk'), r, Dir(rk));
      PutTwice(Put(t, s, Dir(sk')), r, Dir(rk), Dir(rk'));
    }
  }

  lemma RemoveTarget(t: Tree, r: Path, s: Path, n: string, recursive: bool)
    requires Sides(t, r, s)
    ensures var sk := KidsAt(t, s);
            Remove(t, s + [n], recursive) ==
            if n in sk && (recursive || sk[n].File? || sk[n] == Dir(map[])) then Some(With(t, r, KidsAt(t, r), s, sk - {n}))
            else if recursive then Some(t) else None
  {
    LookupChild(t, s, n);
    var sk := KidsAt(t, s);
    if n in sk {
      DetachIsPut(t, s, n);
      PutApart(t, s, Dir(sk - {n}), r);
      if IsDir(t, r) {
        PutSame(Put(t, s, Dir(sk - {n})), r);
      }
    }
  }

  /** Moving an entry across, to a free name. */
  lemma MoveAcross(t: Tree, r: Path, s: Path, n: string)
    requires Sides(t, r, s) && n in KidsAt(t, r) && n !in KidsAt(t, s)
    ensures MkdirAll(t, Parent(s + [n])) == Some(t)
    ensures Rename(t, r + [n], s + [n]) ==
            Some(With(t, r, KidsAt(t, r) - {n}, s, KidsAt(t, s)[n := KidsAt(t, r)[n]]))
  {
    var rk, sk := KidsAt(t, r), KidsAt(t, s);
    LookupChild(t, r, n);
    LookupChild(t, s, n);
    assert Parent(s + [n]) == s;
    MkdirAllExisting(t, s);
    ApartChildren(r, s, n, n);
    DetachIsPut(t, r, n);
    PutApart(t, r, Dir(rk - {n}), s);
    PutCommutes(t, r, Dir(rk - {n}), s, Dir(sk[n := rk[n]]));
    assert !(r + [n] <= s + [n]);
  }

  /** Work in two subdirectories of the same name is work in the two directories. */
  lemma WithChildren(t: Tree, r: Path, rk: map<string, Tree>, s: Path, sk: map<string, Tree>, n: string)
    requires Sides(t, r, s)
    requires n in KidsAt(t, r) && KidsAt(t, r)[n].Dir? && n in KidsAt(t, s) && KidsAt(t, s)[n].Dir?
    ensures Sides(t, r + [n], s + [n]) && IsDir(t, r) && IsDir(t, r + [n])
    ensures KidsAt(t, r + [n]) == KidsAt(t, r)[n].kids && KidsAt(t, s + [n]) == KidsAt(t, s)[n].kids
    ensures With(t, r + [n], rk, s + [n], sk) ==
            With(t, r, KidsAt(t, r)[n := Dir(rk)], s, KidsAt(t, s)[n := Dir(sk)])
  {
    ApartChildren(r, s, n, n);
    LookupChild(t, r, n);
    LookupChild(t, s, n);
    PutChild(t, s, n, Dir(sk));
    var u := Put(t, s + [n], Dir(sk));
    PutApart(t, s, Dir(KidsAt(t, s)[n := Dir(sk)]), r);
    PutChild(u, r, n, Dir(rk));
  }

  /** A successful rename to a free path moves the whole subtree. */
  lemma RenameMoves(t: Tree, p: Path, q: Path)
    requires p != [] && q != [] && Lookup(t, q).None? && Rename(t, p, q).Some?
    ensures Lookup(Rename(t, p, q).value, q) == Lookup(t, p)
  {
    assert Parent(q) <= q && !(p <= q);
    assert !(p <= Parent(q));
    DetachKeepsDir(t, p, Parent(q));
    var rest, n := Detach(t, p), q[|q| - 1];
    var kids := KidsAt(rest, Parent(q))[n := Lookup(t, p).value];
    PutLookup(rest, Parent(q), Dir(kids));
    LookupChild(Put(rest, Parent(q), Dir(kids)), Parent(q), n);
    assert Parent(q) + [n] == q;
  }

  /** Creating directories adds nothing at a path that is then still free. */
  lemma {:induction false} MkdirAllKeeps(t: Tree, d: Path, q: Path)
    requires MkdirAll(t, d).Some? && !(q <= d)
    ensures Lookup(t, q).Some? || Lookup(MkdirAll(t, d).value, q).None?
    ensures Lookup(t, q).Some? && Apart(d, q) ==> Lookup(MkdirAll(t, d).value, q) == Lookup(t, q)
    decreases |d|
  {
    if d == [] {
    } else if q[0] == d[0] {
      assert q == [q[0]] + q[1..] && d == [d[0]] + d[1..];
      var sub := if d[0] in t.kids then t.kids[d[0]] else Dir(map[]);
      MkdirAllKeeps(sub, d[1..], q[1..]);
      if Apart(d, q) { ApartTails(d, q); }
    }
  }

  lemma {:induction false} MkdirAllMakes(t: Tree, d: Path)
    requires MkdirAll(t, d).Some?
    ensures IsDir(MkdirAll(t, d).value, d)
    decreases |d|
  {
    if d != [] {
      MkdirAllMakes(if d[0] in t.kids then t.kids[d[0]] else Dir(map[]), d[1..]);
    }
  }

  lemma {:induction false} ApartOrNested(p: Path, q: Path)
    ensures p <= q || q <= p || Apart(p, q)
    decreases |p|
  {
  }

  lemma {:induction false} LookupPrefix(t: Tree, d: Path, p: Path)
    requires d < p && Lookup(t, p).Some?
    ensures IsDir(t, d)
    decreases |d|
  {
    if d != [] {
      assert p == [p[0]] + p[1..] && d == [d[0]] + d[1..];
      LookupPrefix(t.kids[d[0]], d[1..], p[1..]);
    }
  }
}
