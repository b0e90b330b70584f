/** What the sync reports: every path in each of the five lists, counted exactly over the two trees. */
module DiffReport {
  import opened Prelude
  import opened Strings
  import opened FileTree
  import opened DiffModel
  import opened DiffTheorems

  datatype List = AddedFiles | DeletedFiles | UpdatedFiles | AddedDirs | DeletedDirs

  function Of(d: Diff, l: List): seq<Path> {
    match l
    case AddedFiles => d.addedFiles
    case DeletedFiles => d.deletedFiles
    case UpdatedFiles => d.updatedFiles
    case AddedDirs => d.addedDirs
    case DeletedDirs => d.deletedDirs
  }

  /** What is deleted is named by its target path, everything else by its source path. */
  function Base(l: List, r: Path, s: Path): Path {
    if l.DeletedFiles? || l.DeletedDirs? then s else r
  }

  /** What `p` adds to the path `s`, if it lies below it. */
  function Suffix(s: Path, p: Path): Path {
    if s <= p then p[|s|..] else []
  }

  /** How often a list names the path `q` below its directory. */
  function Times(l: List, status: Status, r: Path, rk: Kids, tk: Kids, q: Path): nat
    decreases q
  {
    if q == [] then 0
    else if |q| == 1 then TimesHere(l, status, r, rk, tk, q[0])
    else if q[0] in Dirs(rk) && q[0] in Dirs(tk) then Times(l, status, r + [q[0]], rk[q[0]].kids, tk[q[0]].kids, q[1..])
    else 0
  }

  function TimesHere(l: List, status: Status, r: Path, rk: Kids, tk: Kids, n: string): nat {
    match l
    case AddedFiles => if n in Files(rk) && n !in Files(tk) then 1 else 0
    case DeletedFiles => if n !in Files(tk) || n in Files(rk) then 0 else if n in Dirs(rk) then 2 else 1
    case UpdatedFiles =>
      if n in Files(rk) && n in Files(tk) && Changed(status, r + [n], rk[n].content, tk[n].content) then 1 else 0
    case AddedDirs => if n in Dirs(rk) && n !in Dirs(tk) then 1 else 0
    case DeletedDirs => if n in Dirs(tk) && n !in Dirs(rk) then 1 else 0
  }

  /** The part of it that the file loop reports. */
  function TimesInFiles(l: List, status: Status, r: Path, rk: Kids, tk: Kids, n: string): nat {
    match l
    case DeletedFiles => if n in Files(tk) && n !in Files(rk) then 1 else 0
    case AddedDirs => 0
    case DeletedDirs => if n in Files(rk) && n in Dirs(tk) then 1 else 0
    case _ => TimesHere(l, status, r, rk, tk, n)
  }

  lemma OneBelow(s: Path, n: string, p: Path)
    ensures p == s + [n] <==> Suffix(s, p) == [n]
    ensures Suffix(s + [n], p) != [] ==> |Suffix(s, p)| > 1 && Suffix(s, p)[0] == n && Suffix(s, p)[1..] == Suffix(s + [n], p)
    ensures |Suffix(s, p)| > 1 && Suffix(s, p)[0] == n ==> Suffix(s, p)[1..] == Suffix(s + [n], p)
  {
    if s <= p {
      assert p == s + Suffix(s, p);
    }
    if s + [n] <= p {
      assert p == s + [n] + Suffix(s + [n], p);
      assert p[..|s|] == s;
    }
  }

  lemma FileReported(l: List, status: Status, r: Path, s: Path, rk: Kids, tk: Kids, n: string, p: Path)
    ensures multiset(Of(FileDiff(status, r, s, rk, tk, n), l))[p] ==
            if Suffix(Base(l, r, s), p) == [n] then TimesInFiles(l, status, r, rk, tk, n) else 0
  {
    hide Changed, Suffix;
    OneBelow(r, n, p);
    OneBelow(s, n, p);
    FilesOrDirs(rk, n);
    FilesOrDirs(tk, n);
    hide Files, Dirs;
    match l
    case AddedFiles =>
    case DeletedFiles =>
    case UpdatedFiles =>
    case AddedDirs =>
    case DeletedDirs =>
  }

  /** No name is both. */
  lemma FilesOrDirs(kids: Kids, n: string)
    ensures !(n in Files(kids) && n in Dirs(kids))
  {
  }

  lemma {:induction false} FilesReported(l: List, status: Status, r: Path, s: Path, rk: Kids, tk: Kids, names: seq<string>, p: Path)
    requires Distinct(names)
    ensures multiset(Of(FilesDiff(status, r, s, rk, tk, names), l))[p] ==
            var q := Suffix(Base(l, r, s), p); if |q| == 1 && q[0] in names then TimesInFiles(l, status, r, rk, tk, q[0]) else 0
  {
    hide Files, FileDiff, Suffix, TimesInFiles;
    if names != [] {
      var last := |names| - 1;
      FilesReported(l, status, r, s, rk, tk, names[..last], p);
      assert names == names[..last] + [names[last]];
      FileReported(l, status, r, s, rk, tk, names[last], p);
    }
  }

  /** What the directory loop reports for one name. */
  function TimesInDirs(l: List, status: Status, r: Path, rk: Kids, tk: Kids, n: string, q: Path): nat {
    if q == [] || q[0] != n then 0
    else if n in Dirs(rk) && n in Dirs(tk) then (if |q| > 1 then Times(l, status, r, rk, tk, q) else 0)
    else if |q| > 1 then 0
    else if n in Dirs(rk) then (if l.AddedDirs? || (l.DeletedFiles? && n in Files(tk)) then 1 else 0)
    else if l.DeletedDirs? then 1 else 0
  }

  lemma {:induction false} DirReported(l: List, status: Status, r: Path, s: Path, rk: Kids, tk: Kids, n: string, p: Path)
    ensures multiset(Of(DirDiff(status, r, s, rk, tk, n), l))[p] ==
            TimesInDirs(l, status, r, rk, tk, n, Suffix(Base(l, r, s), p))
    decreases Dir(rk), 0
  {
    OneBelow(r, n, p);
    OneBelow(s, n, p);
    if n in Dirs(rk) && n in Dirs(tk) {
      SyncReported(l, status, r + [n], s + [n], rk[n].kids, tk[n].kids, p);
    }
    hide Files, Dirs, Suffix;
  }

  lemma {:induction false} DirsReported(l: List, status: Status, r: Path, s: Path, rk: Kids, tk: Kids, names: seq<string>, p: Path)
    requires Distinct(names)
    ensures multiset(Of(DirsDiff(status, r, s, rk, tk, names), l))[p] ==
            var q := Suffix(Base(l, r, s), p);
            if q != [] && q[0] in names then TimesInDirs(l, status, r, rk, tk, q[0], q) else 0
    decreases Dir(rk), 1, |names|
  {
    hide Files, Dirs, DirDiff, Times, Suffix;
    if names != [] {
      var last := |names| - 1;
      DirsReported(l, status, r, s, rk, tk, names[..last], p);
      assert names == names[..last] + [names[last]];
      DirReported(l, status, r, s, rk, tk, names[last], p);
    }
  }

  /** The two loops together. */
  lemma {:induction false} SyncReported(l: List, status: Status, r: Path, s: Path, rk: Kids, tk: Kids, p: Path)
    ensures multiset(Of(SyncDiff(status, r, s, rk, tk), l))[p] == Times(l, status, r, rk, tk, Suffix(Base(l, r, s), p))
    decreases Dir(rk), 2
  {
    hide SortedNames, Suffix, DirsDiff, FilesDiff;
    var files, dirs, q := SortedNames(Files(rk) + Files(tk)), SortedNames(DirNames(rk, tk)), Suffix(Base(l, r, s), p);
    SortedNamesDistinct(Files(rk) + Files(tk));
    SortedNamesDistinct(DirNames(rk, tk));
    FilesReported(l, status, r, s, rk, tk, files, p);
    DirsReported(l, status, r, s, rk, tk, dirs, p);
    if q != [] {
      BothLoops(l, status, r, rk, tk, q);
    }
  }

  lemma BothLoops(l: List, status: Status, r: Path, rk: Kids, tk: Kids, q: Path)
    requires q != []
    ensures Times(l, status, r, rk, tk, q) ==
            (if |q| == 1 && q[0] in Files(rk) + Files(tk) then TimesInFiles(l, status, r, rk, tk, q[0]) else 0)
            + (if q[0] in DirNames(rk, tk) then TimesInDirs(l, status, r, rk, tk, q[0], q) else 0)
  {
    FilesOrDirs(rk, q[0]);
    FilesOrDirs(tk, q[0]);
    hide Files, Dirs, Changed;
    match l
    case AddedFiles =>
    case DeletedFiles =>
    case UpdatedFiles =>
    case AddedDirs =>
    case DeletedDirs =>
  }

  // ----- Over the two trees -----

  lemma {:induction false} LookupIn(kids: Kids, q: Path)
    requires q != []
    ensures Lookup(Dir(kids), q) == if q[0] in kids then Lookup(kids[q[0]], q[1..]) else None
  {
  }

  /** The names on the way are looked at, and both sides have directories there. */
  ghost predicate Met(a: Tree, b: Tree, q: Path)
    requires q != []
  {
    && (forall i :: 0 <= i < |q| ==> Seen(q[i]))
    && IsDir(a, q[..|q| - 1]) && IsDir(b, q[..|q| - 1])
  }

  /** One level down. */
  lemma MetBelow(a: Tree, b: Tree, q: Path)
    requires |q| > 1
    ensures Met(a, b, q) <==>
            && a.Dir? && b.Dir? && Seen(q[0]) && q[0] in a.kids && q[0] in b.kids
            && Met(a.kids[q[0]], b.kids[q[0]], q[1..])
  {
    var front := q[..|q| - 1];
    assert front[1..] == q[1..][..|q[1..]| - 1];
    if Met(a, b, q) {
      forall i | 0 <= i < |q[1..]| ensures Seen(q[1..][i]) { assert q[1..][i] == q[i + 1]; }
    }
    if Seen(q[0]) && forall i :: 0 <= i < |q[1..]| ==> Seen(q[1..][i]) {
      forall i | 0 <= i < |q| ensures Seen(q[i]) { if i > 0 { assert q[i] == q[1..][i - 1]; } }
    }
  }

  ghost predicate FileAt(t: Tree, q: Path) {
    Lookup(t, q).Some? && Lookup(t, q).value.File?
  }

  /** How often each list names `q`, told over the two trees. */
  lemma {:induction false} TimesOverTrees(status: Status, r: Path, rk: Kids, tk: Kids, q: Path)
    requires q != []
    ensures var a, b, met := Dir(rk), Dir(tk), Met(Dir(rk), Dir(tk), q);
      && Times(AddedFiles, status, r, rk, tk, q) == (if met && FileAt(a, q) && !FileAt(b, q) then 1 else 0)
      && Times(DeletedFiles, status, r, rk, tk, q) == (if met && FileAt(b, q) && !FileAt(a, q) then (if IsDir(a, q) then 2 else 1) else 0)
      && Times(AddedDirs, status, r, rk, tk, q) == (if met && IsDir(a, q) && !IsDir(b, q) then 1 else 0)
      && Times(DeletedDirs, status, r, rk, tk, q) == (if met && IsDir(b, q) && !IsDir(a, q) then 1 else 0)
    decreases q
  {
    SeenExactly(q[0]);
    LookupIn(rk, q);
    LookupIn(tk, q);
    if |q| == 1 {
      assert q[..0] == [];
    } else {
      MetBelow(Dir(rk), Dir(tk), q);
      if q[0] in Dirs(rk) && q[0] in Dirs(tk) {
        TimesOverTrees(status, r + [q[0]], rk[q[0]].kids, tk[q[0]].kids, q[1..]);
      }
    }
  }

  lemma {:induction false} UpdatesOverTrees(status: Status, r: Path, rk: Kids, tk: Kids, q: Path)
    requires q != []
    ensures Times(UpdatedFiles, status, r, rk, tk, q) ==
            if && Met(Dir(rk), Dir(tk), q) && FileAt(Dir(rk), q) && FileAt(Dir(tk), q)
               && match status
                  case None => Lookup(Dir(rk), q) != Lookup(Dir(tk), q)
                  case Some(m) => r + q in m && m[r + q]
            then 1 else 0
    decreases q
  {
    SeenExactly(q[0]);
    LookupIn(rk, q);
    LookupIn(tk, q);
    if |q| == 1 {
      assert q[..0] == [] && [q[0]] == q;
    } else {
      MetBelow(Dir(rk), Dir(tk), q);
      if q[0] in Dirs(rk) && q[0] in Dirs(tk) {
        assert r + [q[0]] + q[1..] == r + q;
        UpdatesOverTrees(status, r + [q[0]], rk[q[0]].kids, tk[q[0]].kids, q[1..]);
      }
    }
  }

  /** The five lists at a path `q` below the two directories `root` and `target` of one file system. */
  ghost predicate ReportTells(t: Tree, root: Path, target: Path, status: Status, d: Diff, q: Path)
    requires q != []
  {
    var a, b := root + q, target + q;
    var met :=
      && (forall i :: 0 <= i < |q| ==> Seen(q[i]))
      && (|q| > 1 ==> IsDir(t, root + q[..|q| - 1]) && IsDir(t, target + q[..|q| - 1]));
    var changed := match status case None => Lookup(t, a) != Lookup(t, b) case Some(m) => a in m && m[a];
    && multiset(d.addedFiles)[a] == (if met && FileAt(t, a) && !FileAt(t, b) then 1 else 0)
    && multiset(d.updatedFiles)[a] == (if met && FileAt(t, a) && FileAt(t, b) && changed then 1 else 0)
    && multiset(d.deletedFiles)[b] == (if met && FileAt(t, b) && !FileAt(t, a) then (if IsDir(t, a) then 2 else 1) else 0)
    && multiset(d.addedDirs)[a] == (if met && IsDir(t, a) && !IsDir(t, b) then 1 else 0)
    && multiset(d.deletedDirs)[b] == (if met && IsDir(t, b) && !IsDir(t, a) then 1 else 0)
  }

  /** Every list has only paths below its directory. */
  ghost predicate OnlyBelow(root: Path, target: Path, d: Diff) {
    && (forall p :: p in d.addedFiles || p in d.updatedFiles || p in d.addedDirs ==> root < p)
    && (forall p :: p in d.deletedFiles || p in d.deletedDirs ==> target < p)
  }

  lemma {:induction false} LookupJoined(t: Tree, d: Path, q: Path)
    requires q != []
    ensures Lookup(Dir(KidsAt(t, d)), q) == Lookup(t, d + q)
    decreases |d|
  {
    if d == [] {
      assert d + q == q;
    } else {
      assert (d + q)[1..] == d[1..] + q;
      if t.Dir? && d[0] in t.kids {
        LookupJoined(t.kids[d[0]], d[1..], q);
      }
    }
  }

  lemma MetJoined(t: Tree, root: Path, target: Path, q: Path)
    requires q != []
    ensures Met(Dir(KidsAt(t, root)), Dir(KidsAt(t, target)), q) <==>
            && (forall i :: 0 <= i < |q| ==> Seen(q[i]))
            && (|q| > 1 ==> IsDir(t, root + q[..|q| - 1]) && IsDir(t, target + q[..|q| - 1]))
  {
    hide KidsAt;
    if |q| > 1 {
      LookupJoined(t, root, q[..|q| - 1]);
      LookupJoined(t, target, q[..|q| - 1]);
    }
  }

  lemma SuffixJoined(s: Path, q: Path)
    ensures Suffix(s, s + q) == q
  {
  }

  /** The report of a sync, every path in every list counted exactly. */
  lemma ReportExactly(t: Tree, root: Path, target: Path, status: Status, q: Path)
    requires q != []
    ensures ReportTells(t, root, target, status, SyncDiff(status, root, target, KidsAt(t, root), KidsAt(t, target)), q)
  {
    hide SyncDiff, Times, Suffix, KidsAt, Met, Lookup;
    var rk, tk := KidsAt(t, root), KidsAt(t, target);
    forall l ensures multiset(Of(SyncDiff(status, root, target, rk, tk), l))[Base(l, root, target) + q] == Times(l, status, root, rk, tk, q) {
      SyncReported(l, status, root, target, rk, tk, Base(l, root, target) + q);
      SuffixJoined(Base(l, root, target), q);
    }
    TimesOverTrees(status, root, rk, tk, q);
    UpdatesOverTrees(status, root, rk, tk, q);
    LookupJoined(t, root, q);
    LookupJoined(t, target, q);
    MetJoined(t, root, target, q);
    var d := SyncDiff(status, root, target, rk, tk);
    assert Of(d, AddedFiles) == d.addedFiles && Of(d, DeletedFiles) == d.deletedFiles && Of(d, UpdatedFiles) == d.updatedFiles;
    assert Of(d, AddedDirs) == d.addedDirs && Of(d, DeletedDirs) == d.deletedDirs;
  }

  lemma ReportOnlyBelow(status: Status, r: Path, s: Path, rk: Kids, tk: Kids)
    ensures OnlyBelow(r, s, SyncDiff(status, r, s, rk, tk))
  {
    hide SyncDiff;
    var d := SyncDiff(status, r, s, rk, tk);
    forall l, p | p in Of(d, l) ensures Base(l, r, s) < p {
      SyncReported(l, status, r, s, rk, tk, p);
      assert p in multiset(Of(d, l));
    }
    assert Of(d, AddedFiles) == d.addedFiles && Of(d, DeletedFiles) == d.deletedFiles && Of(d, UpdatedFiles) == d.updatedFiles;
    assert Of(d, AddedDirs) == d.addedDirs && Of(d, DeletedDirs) == d.deletedDirs;
  }

  // ----- Files that make way -----

  /** No source directory meets a target file of its name, here or in any directory that both sides have. */
  ghost predicate NoneMakesWay(rk: Kids, tk: Kids)
    decreases Dir(rk)
  {
    && (forall n :: n in Dirs(rk) ==> n !in Files(tk))
    && (forall n :: n in Dirs(rk) && n in Dirs(tk) ==> NoneMakesWay(rk[n].kids, tk[n].kids))
  }

  lemma {:induction false} OnceIfNoneMakesWay(status: Status, r: Path, rk: Kids, tk: Kids, q: Path)
    requires NoneMakesWay(rk, tk)
    ensures Times(DeletedFiles, status, r, rk, tk, q) <= 1
    decreases q
  {
    if |q| > 1 && q[0] in Dirs(rk) && q[0] in Dirs(tk) {
      OnceIfNoneMakesWay(status, r + [q[0]], rk[q[0]].kids, tk[q[0]].kids, q[1..]);
    }
  }

  /** Somewhere a file makes way: its path, which is counted twice. */
  lemma {:induction false} TwiceIfOneMakesWay(status: Status, r: Path, rk: Kids, tk: Kids) returns (q: Path)
    requires !NoneMakesWay(rk, tk)
    ensures Times(DeletedFiles, status, r, rk, tk, q) == 2
    decreases Dir(rk)
  {
    if n :| n in Dirs(rk) && n in Files(tk) {
      q := [n];
    } else {
      var n :| n in Dirs(rk) && n in Dirs(tk) && !NoneMakesWay(rk[n].kids, tk[n].kids);
      var below := TwiceIfOneMakesWay(status, r + [n], rk[n].kids, tk[n].kids);
      q := [n] + below;
      assert q[1..] == below;
    }
  }

  lemma {:induction false} DistinctCount(ps: seq<Path>)
    ensures forall p :: Distinct(ps) ==> multiset(ps)[p] <= 1
    ensures !Distinct(ps) ==> exists p :: multiset(ps)[p] >= 2
  {
    if ps != [] {
      var last := |ps| - 1;
      DistinctCount(ps[..last]);
      assert ps == ps[..last] + [ps[last]];
      if Distinct(ps) {
        assert ps[last] !in ps[..last];
      } else if Distinct(ps[..last]) {
        assert ps[last] in multiset(ps[..last]);
        assert multiset(ps)[ps[last]] >= 2;
      } else {
        var p :| multiset(ps[..last])[p] >= 2;
        assert multiset(ps)[p] >= 2;
      }
    }
  }

  /** The report lists every deleted file once exactly when no file makes way for a directory. */
  lemma DeletedOnceExactly(status: Status, r: Path, s: Path, rk: Kids, tk: Kids)
    ensures Distinct(SyncDiff(status, r, s, rk, tk).deletedFiles) <==> NoneMakesWay(rk, tk)
  {
    hide SyncDiff, Times, NoneMakesWay, Distinct;
    var deleted := SyncDiff(status, r, s, rk, tk).deletedFiles;
    DistinctCount(deleted);
    if NoneMakesWay(rk, tk) {
      forall p ensures multiset(deleted)[p] <= 1 {
        SyncReported(DeletedFiles, status, r, s, rk, tk, p);
        OnceIfNoneMakesWay(status, r, rk, tk, Suffix(s, p));
      }
    } else {
      var q := TwiceIfOneMakesWay(status, r, rk, tk);
      SyncReported(DeletedFiles, status, r, s, rk, tk, s + q);
    }
  }

  /** A file that has to make way for a directory appears exactly twice among the deleted files. */
  lemma ConflictReportedTwice(status: Status, r: Path, s: Path, rk: Kids, tk: Kids, n: string)
    requires n in Dirs(rk) && n in Files(tk)
    ensures multiset(SyncDiff(status, r, s, rk, tk).deletedFiles)[s + [n]] == 2
  {
    hide SyncDiff, Suffix;
    FilesOrDirs(rk, n);
    FilesOrDirs(tk, n);
    SuffixJoined(s, [n]);
    SyncReported(DeletedFiles, status, r, s, rk, tk, s + [n]);
  }
}
