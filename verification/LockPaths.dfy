/** Path conflicts of the lock manager, and the sets of paths that a lock covers. */
module LockPaths {
  /** A lock path. The ancestor test looks at the last character of the parent path, so the empty path is not one. */
  type Path = p: string | p != "" witness "/"

  datatype LockType = Point | Subtree

  /** The directory form of a path: exactly one more slash unless it already ends in one. */
  function AsDir(p: Path): (d: Path)
    ensures p <= d && d[|d| - 1] == '/' && |d| <= |p| + 1
  {
    if p[|p| - 1] == '/' then p else p + "/"
  }

  predicate IsAncestor(parent: Path, child: Path) {
    if parent == child then false
    else if |parent| >= |child| then false
    else
      var dir := AsDir(parent);
      |child| > |dir| && child[..|dir|] == dir
  }

  predicate IsPathConflict(newPath: Path, existingPath: Path, newType: LockType, existingType: LockType) {
    if newType.Subtree? && existingType.Subtree? then
      IsAncestor(newPath, existingPath) || IsAncestor(existingPath, newPath) || newPath == existingPath
    else if newType.Subtree? then
      IsAncestor(newPath, existingPath) || newPath == existingPath
    else if existingType.Subtree? then
      IsAncestor(existingPath, newPath) || newPath == existingPath
    else
      newPath == existingPath
  }

  /** `q` is reached from directory `p`, one slash and at least one more character. */
  ghost predicate Below(p: Path, q: Path) {
    exists rest: Path :: if p[|p| - 1] == '/' then q == p + rest else q == p + "/" + rest
  }

  /** A point lock covers its path alone; a subtree lock also covers everything below it. */
  ghost predicate Covers(p: Path, ty: LockType, q: Path) {
    q == p || (ty.Subtree? && Below(p, q))
  }

  ghost predicate Overlap(a: Path, b: Path, ta: LockType, tb: LockType) {
    exists q :: Covers(a, ta, q) && Covers(b, tb, q)
  }

  /** The same directory written without and with its final slash. */
  predicate Twins(a: Path, b: Path) {
    a == b + "/" || b == a + "/"
  }

  lemma ConflictSymmetric(a: Path, b: Path, ta: LockType, tb: LockType)
    ensures IsPathConflict(a, b, ta, tb) == IsPathConflict(b, a, tb, ta)
  {
  }

  lemma AncestorIsBelow(p: Path, q: Path)
    ensures IsAncestor(p, q) <==> Below(p, q)
  {
    var dir := AsDir(p);
    if IsAncestor(p, q) {
      var rest: Path := q[|dir|..];
      assert q == dir + rest;
    }
    if Below(p, q) {
      var rest: Path :| q == dir + rest;
      assert q[..|dir|] == dir;
    }
  }

  /** Two directories with a common descendant are nested, equal, or twins. */
  lemma CommonDescendant(a: Path, b: Path, q: Path)
    requires Below(a, q) && Below(b, q)
    requires |AsDir(a)| <= |AsDir(b)|
    ensures a == b || IsAncestor(a, b) || Twins(a, b)
  {
    var da, db := AsDir(a), AsDir(b);
    var ra: Path :| q == da + ra;
    var rb: Path :| q == db + rb;
    assert da == q[..|da|] && db == q[..|db|];
    assert db[..|da|] == da;
    if |da| < |db| {
      assert da[|da| - 1] == '/';
      assert b[..|da|] == db[..|da|] == da;
    }
  }

  /** The conflict test finds exactly the overlapping locks, except subtree locks on twin paths. */
  lemma ConflictExact(a: Path, b: Path, ta: LockType, tb: LockType)
    ensures Overlap(a, b, ta, tb) <==>
            IsPathConflict(a, b, ta, tb) || (ta.Subtree? && tb.Subtree? && Twins(a, b))
  {
    AncestorIsBelow(a, b);
    AncestorIsBelow(b, a);
    if Overlap(a, b, ta, tb) {
      var q :| Covers(a, ta, q) && Covers(b, tb, q);
      if q != a && q != b {
        if |AsDir(a)| <= |AsDir(b)| {
          CommonDescendant(a, b, q);
        } else {
          CommonDescendant(b, a, q);
        }
      }
    }
    if IsPathConflict(a, b, ta, tb) {
      assert Covers(a, ta, a) && Covers(b, tb, b);
    } else if ta.Subtree? && tb.Subtree? && Twins(a, b) {
      TwinsOverlap(a, b);
    }
  }

  lemma TwinsOverlap(a: Path, b: Path)
    requires Twins(a, b)
    ensures Overlap(a, b, Subtree, Subtree)
  {
    var shorter, longer := if b == a + "/" then a else b, if b == a + "/" then b else a;
    var q: Path := AsDir(longer) + "x";
    assert Below(longer, q);
    if AsDir(shorter) == longer {
      assert q == AsDir(shorter) + "x";
    } else {
      assert q == AsDir(shorter) + "/x";
    }
    assert Below(shorter, q);
    assert Covers(a, Subtree, q) && Covers(b, Subtree, q);
  }

  /** For paths that do not end in a slash there is no exception. */
  lemma ConflictIsOverlap(a: Path, b: Path, ta: LockType, tb: LockType)
    requires a[|a| - 1] != '/' && b[|b| - 1] != '/'
    ensures IsPathConflict(a, b, ta, tb) <==> Overlap(a, b, ta, tb)
  {
    ConflictExact(a, b, ta, tb);
  }

  /** The gap is real: "a" and "a/" name one directory, but their subtree locks do not conflict. */
  lemma TwinsMissed()
    ensures Overlap("a", "a/", Subtree, Subtree) && !IsPathConflict("a", "a/", Subtree, Subtree)
  {
    var a: Path, b: Path := "a", "a/";
    assert b == a + "/";
    TwinsOverlap(a, b);
  }
}
