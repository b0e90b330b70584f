/** The sync itself, moving and removing entries of one file system. */
module DiffSync {
  import opened Prelude
  import opened Strings
  import opened FileTree
  import opened DiffModel
  import opened DiffTheorems
  import opened DiffReport

  datatype DirEntry = DirEntry(name: string, isDir: bool)

  class VikingFS {
    var tree: Tree

    constructor (tree: Tree)
      ensures this.tree == tree
    {
      this.tree := tree;
    }

    method Exists(p: Path) returns (found: bool)
      ensures found == Lookup(tree, p).Some?
    {
      found := Lookup(tree, p).Some?;
    }

    method Mkdir(p: Path) returns (ok: bool)
      modifies this
      ensures ok == MkdirAll(old(tree), p).Some?
      ensures tree == if ok then MkdirAll(old(tree), p).value else old(tree)
    {
      var made := MkdirAll(tree, p);
      ok := made.Some?;
      if ok {
        tree := made.value;
      }
    }

    method Rm(p: Path, recursive: bool) returns (ok: bool)
      requires p != []
      modifies this
      ensures ok == Remove(old(tree), p, recursive).Some?
      ensures tree == if ok then Remove(old(tree), p, recursive).value else old(tree)
    {
      var left := Remove(tree, p, recursive);
      ok := left.Some?;
      if ok {
        tree := left.value;
      }
    }

    /** Creates the new parent, then renames; the parent stays when the rename fails. */
    method Mv(p: Path, q: Path) returns (ok: bool)
      requires p != [] && q != []
      modifies this
      ensures var made := MkdirAll(old(tree), Parent(q));
              && (made.None? ==> !ok && tree == old(tree))
              && (made.Some? ==> ok == Rename(made.value, p, q).Some? &&
                                 tree == if ok then Rename(made.value, p, q).value else made.value)
    {
      ok := Mkdir(Parent(q));
      if !ok {
        return false;
      }
      var moved := Rename(tree, p, q);
      ok := moved.Some?;
      if ok {
        tree := moved.value;
      }
    }

    method Ls(p: Path) returns (ok: bool, entries: seq<DirEntry>)
      ensures ok == IsDir(tree, p)
      ensures !ok ==> entries == []
      ensures ok ==> && |entries| == |SortedNames(KidsAt(tree, p).Keys)|
                     && forall i :: 0 <= i < |entries| ==>
                          var n := SortedNames(KidsAt(tree, p).Keys)[i];
                          entries[i] == DirEntry(n, KidsAt(tree, p)[n].Dir?)
    {
      hide Lookup, SortedNames;
      ok := IsDir(tree, p);
      entries := [];
      if ok {
        var kids := KidsAt(tree, p);
        var names := Sort(kids.Keys);
        for i := 0 to |names|
          invariant |entries| == i
          invariant forall j :: 0 <= j < i ==> entries[j] == DirEntry(names[j], kids[names[j]].Dir?)
        {
          assert names[i] in names;
          entries := entries + [DirEntry(names[i], kids[names[i]].Dir?)];
        }
      }
    }

    method ReadFile(p: Path) returns (content: Option<string>)
      ensures content == match Lookup(tree, p) case Some(File(c)) => Some(c) case _ => None
    {
      var found := Lookup(tree, p);
      content := match found case Some(File(c)) => Some(c) case _ => None;
    }
  }

  class DiffResult {
    var addedFiles: seq<Path>
    var deletedFiles: seq<Path>
    var updatedFiles: seq<Path>
    var addedDirs: seq<Path>
    var deletedDirs: seq<Path>

    constructor ()
      ensures View() == NOTHING
    {
      addedFiles, deletedFiles, updatedFiles, addedDirs, deletedDirs := [], [], [], [], [];
    }

    function View(): Diff
      reads this
    {
      Diff(addedFiles, deletedFiles, updatedFiles, addedDirs, deletedDirs)
    }
  }

  /** The visible entries among `done`, by name. */
  ghost predicate ListedSoFar(kids: Kids, dir: Path, done: set<string>, files: map<string, Path>, dirs: map<string, Path>) {
    && files == (map n | n in Files(kids) && n in done :: dir + [n])
    && dirs == (map n | n in Dirs(kids) && n in done :: dir + [n])
  }

  lemma NothingListed(kids: Kids, dir: Path)
    ensures ListedSoFar(kids, dir, {}, map[], map[])
    ensures kids == map[] ==> map[] == (map n | n in Files(kids) :: dir + [n]) && map[] == (map n | n in Dirs(kids) :: dir + [n])
  {
  }

  lemma OneMoreListed(kids: Kids, dir: Path, done: set<string>, files: map<string, Path>, dirs: map<string, Path>, n: string)
    requires ListedSoFar(kids, dir, done, files, dirs) && n in kids
    ensures Hidden(n) ==> ListedSoFar(kids, dir, done + {n}, files, dirs)
    ensures !Hidden(n) && kids[n].Dir? ==> ListedSoFar(kids, dir, done + {n}, files, dirs[n := dir + [n]])
    ensures !Hidden(n) && kids[n].File? ==> ListedSoFar(kids, dir, done + {n}, files[n := dir + [n]], dirs)
  {
    hide Hidden;
  }

  lemma AllListed(kids: Kids, dir: Path, done: set<string>, files: map<string, Path>, dirs: map<string, Path>)
    requires ListedSoFar(kids, dir, done, files, dirs) && forall n :: n in kids ==> n in done
    ensures files == map n | n in Files(kids) :: dir + [n]
    ensures dirs == map n | n in Dirs(kids) :: dir + [n]
  {
    hide Hidden;
  }

  /** The visible children of a directory, by name; none when it cannot be listed. */
  method ListChildren(vfs: VikingFS, dir: Path) returns (files: map<string, Path>, dirs: map<string, Path>)
    ensures files == map n | n in Files(KidsAt(vfs.tree, dir)) :: dir + [n]
    ensures dirs == map n | n in Dirs(KidsAt(vfs.tree, dir)) :: dir + [n]
  {
    hide SortedNames, Hidden, Lookup, ListedSoFar, Files, Dirs;
    files, dirs := map[], map[];
    ghost var kids := KidsAt(vfs.tree, dir);
    ghost var names := SortedNames(kids.Keys);
    ghost var done: set<string> := {};
    NothingListed(kids, dir);
    var ok, entries := vfs.Ls(dir);
    if !ok {
      return;
    }
    for i := 0 to |entries|
      invariant forall j :: 0 <= j < i ==> names[j] in done
      invariant ListedSoFar(kids, dir, done, files, dirs)
    {
      var e := entries[i];
      assert e == DirEntry(names[i], kids[names[i]].Dir?) && names[i] in names;
      OneMoreListed(kids, dir, done, files, dirs, names[i]);
      done := done + {names[i]};
      if Hidden(e.name) {
        continue;
      }
      if e.isDir {
        dirs := dirs[e.name := dir + [e.name]];
      } else {
        files := files[e.name := dir + [e.name]];
      }
    }
    forall n | n in kids ensures n in done {
      assert n in names;
    }
    AllListed(kids, dir, done, files, dirs);
  }

  method CheckContentChanged(vfs: VikingFS, source: Path, target: Path) returns (changed: bool)
    ensures var a, b := Lookup(vfs.tree, source), Lookup(vfs.tree, target);
            a.Some? && a.value.File? && b.Some? && b.value.File? ==> changed == (a.value.content != b.value.content)
  {
    var a := vfs.ReadFile(source);
    var b := vfs.ReadFile(target);
    if a.None? || b.None? {
      return true;
    }
    if |a.value| != |b.value| {
      return true;
    }
    return a.value != b.value;
  }

  /** The tree changed in nothing but the two directories, and the source directory only at `n`. */
  ghost predicate Stepped(t: Tree, t': Tree, r: Path, s: Path, n: string, sk': Kids)
    requires Sides(t, r, s)
  {
    && Sides(t', r, s)
    && KidsAt(t', s) == sk'
    && t' == With(t, r, KidsAt(t', r), s, sk')
    && forall m :: m != n ==> At(KidsAt(t', r), m) == At(KidsAt(t, r), m)
  }

  lemma SteppedTwice(t: Tree, u: Tree, v: Tree, r: Path, s: Path, n: string, sk: Kids, sk': Kids)
    requires Sides(t, r, s) && Stepped(t, u, r, s, n, sk) && Stepped(u, v, r, s, n, sk')
    ensures Stepped(t, v, r, s, n, sk')
  {
    WithTwice(t, r, KidsAt(u, r), s, sk, KidsAt(v, r), sk');
  }

  lemma SteppedNot(t: Tree, r: Path, s: Path, n: string)
    requires Sides(t, r, s)
    ensures Stepped(t, t, r, s, n, KidsAt(t, s))
  {
    WithSame(t, r, s);
  }

  /** Removes an entry of the second of two directories. */
  method RemoveEntry(vfs: VikingFS, ghost r: Path, s: Path, n: string, recursive: bool) returns (ok: bool)
    requires Sides(vfs.tree, r, s)
    modifies vfs
    ensures Sides(old(vfs.tree), r, s)
    ensures var sk := KidsAt(old(vfs.tree), s);
            && ok == (recursive || (n in sk && (sk[n].File? || sk[n] == Dir(map[]))))
            && Stepped(old(vfs.tree), vfs.tree, r, s, n, if ok then sk - {n} else sk)
    ensures KidsAt(vfs.tree, r) == KidsAt(old(vfs.tree), r)
  {
    RemoveTarget(vfs.tree, r, s, n, recursive);
    WithSame(vfs.tree, r, s);
    WithLookup(vfs.tree, r, KidsAt(vfs.tree, r), s, KidsAt(vfs.tree, s) - {n});
    ok := vfs.Rm(s + [n], recursive);
    assert n !in KidsAt(old(vfs.tree), s) ==> KidsAt(old(vfs.tree), s) - {n} == KidsAt(old(vfs.tree), s);
  }

  /** Moves an entry from the first directory to the same, free, name in the second. */
  method MoveEntry(vfs: VikingFS, r: Path, s: Path, n: string)
    requires Sides(vfs.tree, r, s) && n in KidsAt(vfs.tree, r) && n !in KidsAt(vfs.tree, s)
    modifies vfs
    ensures Sides(old(vfs.tree), r, s)
    ensures Stepped(old(vfs.tree), vfs.tree, r, s, n, KidsAt(old(vfs.tree), s)[n := KidsAt(old(vfs.tree), r)[n]])
  {
    ghost var rk, sk := KidsAt(vfs.tree, r), KidsAt(vfs.tree, s);
    MoveAcross(vfs.tree, r, s, n);
    WithLookup(vfs.tree, r, rk - {n}, s, sk[n := rk[n]]);
    var ok := vfs.Mv(r + [n], s + [n]);
  }

  /** Makes room and then moves: the target's entry, if any, is replaced by the source's. */
  method ReplaceEntry(vfs: VikingFS, r: Path, s: Path, n: string, recursive: bool) returns (ok: bool)
    requires Sides(vfs.tree, r, s) && n in KidsAt(vfs.tree, r)
    requires recursive || (n in KidsAt(vfs.tree, s) && KidsAt(vfs.tree, s)[n].File?)
    modifies vfs
    ensures ok && Sides(old(vfs.tree), r, s)
    ensures Stepped(old(vfs.tree), vfs.tree, r, s, n, KidsAt(old(vfs.tree), s)[n := KidsAt(old(vfs.tree), r)[n]])
  {
    hide With, Sides, KidsAt;
    ghost var before := vfs.tree;
    ok := RemoveEntry(vfs, r, s, n, recursive);
    ghost var mid := vfs.tree;
    MoveEntry(vfs, r, s, n);
    assert (KidsAt(before, s) - {n})[n := KidsAt(before, r)[n]] == KidsAt(before, s)[n := KidsAt(before, r)[n]];
    SteppedTwice(before, mid, vfs.tree, r, s, n, KidsAt(before, s) - {n}, KidsAt(before, s)[n := KidsAt(before, r)[n]]);
  }

  /** Whether a file present on both sides has changed: by the given status if there is one, else by content. */
  method FileChanged(vfs: VikingFS, r: Path, s: Path, status: Status, n: string) returns (changed: bool)
    requires Sides(vfs.tree, r, s)
    requires n in KidsAt(vfs.tree, r) && KidsAt(vfs.tree, r)[n].File?
    requires n in KidsAt(vfs.tree, s) && KidsAt(vfs.tree, s)[n].File?
    ensures changed == Changed(status, r + [n], KidsAt(vfs.tree, r)[n].content, KidsAt(vfs.tree, s)[n].content)
  {
    changed := false;
    if status.Some? {
      if r + [n] in status.value {
        changed := status.value[r + [n]];
      }
    } else {
      LookupChild(vfs.tree, r, n);
      LookupChild(vfs.tree, s, n);
      changed := CheckContentChanged(vfs, r + [n], s + [n]);
    }
  }

  /** The listings taken when the directory is entered; the target's directories shrink as the file loop removes some. */
  ghost predicate Listed(r: Path, s: Path, rk: Kids, tk: Kids, rootFiles: map<string, Path>, rootDirs: map<string, Path>,
                         targetFiles: map<string, Path>)
  {
    && rootFiles == (map m | m in Files(rk) :: r + [m])
    && rootDirs == (map m | m in Dirs(rk) :: r + [m])
    && targetFiles == (map m | m in Files(tk) :: s + [m])
  }

  lemma FileListed(r: Path, s: Path, rk: Kids, tk: Kids, rootFiles: map<string, Path>, rootDirs: map<string, Path>,
                   targetFiles: map<string, Path>, n: string)
    requires Listed(r, s, rk, tk, rootFiles, rootDirs, targetFiles)
    ensures (n in rootFiles <==> n in Files(rk)) && (n in rootFiles ==> rootFiles[n] == r + [n])
    ensures n in rootDirs <==> n in Dirs(rk)
    ensures (n in targetFiles <==> n in Files(tk)) && (n in targetFiles ==> targetFiles[n] == s + [n])
  {
  }

  /** The entry found now is the one that was listed; a visible one is a file or a directory. */
  lemma EntryKind(kids: Kids, cur: Kids, n: string)
    requires At(cur, n) == At(kids, n)
    ensures (n in cur <==> n in kids) && (n in kids ==> cur[n] == kids[n])
    ensures n in Files(kids) <==> n in kids && !Hidden(n) && kids[n].File?
    ensures n in Dirs(kids) <==> n in kids && !Hidden(n) && kids[n].Dir?
  {
  }

  lemma FileCases(status: Status, r: Path, s: Path, rk: Kids, tk: Kids, cur: Kids, n: string)
    ensures n in Files(rk) && n in Dirs(tk) ==>
              FileStep(status, r, rk, tk, cur, n) == cur[n := rk[n]] &&
              FileDiff(status, r, s, rk, tk, n) == Diff([r + [n]], [], [], [], [s + [n]])
    ensures n !in Files(rk) && n in Files(tk) ==>
              FileStep(status, r, rk, tk, cur, n) == cur - {n} && FileDiff(status, r, s, rk, tk, n) == Diff([], [s + [n]], [], [], [])
    ensures n in Files(rk) && n in Files(tk) ==>
              var changed := Changed(status, r + [n], rk[n].content, tk[n].content);
              && FileStep(status, r, rk, tk, cur, n) == (if changed then cur[n := rk[n]] else cur)
              && FileDiff(status, r, s, rk, tk, n) == if changed then Diff([], [], [r + [n]], [], []) else NOTHING
    ensures n in Files(rk) && n !in Files(tk) && n !in Dirs(tk) ==>
              FileStep(status, r, rk, tk, cur, n) == cur[n := rk[n]] && FileDiff(status, r, s, rk, tk, n) == Diff([r + [n]], [], [], [], [])
  {
  }

  /** One name of the file loop. */
  method SyncFile(vfs: VikingFS, r: Path, s: Path, status: Status, diff: DiffResult, n: string,
                  rootFiles: map<string, Path>, rootDirs: map<string, Path>, targetFiles: map<string, Path>,
                  targetDirs: map<string, Path>, ghost rk: Kids, ghost tk: Kids)
    returns (left: map<string, Path>)
    requires Sides(vfs.tree, r, s) && Listed(r, s, rk, tk, rootFiles, rootDirs, targetFiles)
    requires n in targetDirs <==> n in Dirs(tk)
    requires n in targetDirs ==> targetDirs[n] == s + [n]
    requires At(KidsAt(vfs.tree, r), n) == At(rk, n) && At(KidsAt(vfs.tree, s), n) == At(tk, n)
    requires n in Files(rk) + Files(tk)
    modifies vfs, diff
    ensures Sides(old(vfs.tree), r, s)
    ensures Stepped(old(vfs.tree), vfs.tree, r, s, n, FileStep(status, r, rk, tk, KidsAt(old(vfs.tree), s), n))
    ensures diff.View() == old(diff.View()).Plus(FileDiff(status, r, s, rk, tk, n))
    ensures left == if n in Files(rk) && n in Dirs(tk) then targetDirs - {n} else targetDirs
    ensures n !in Files(rk) ==> KidsAt(vfs.tree, r) == KidsAt(old(vfs.tree), r)
  {
    hide With, Sides, KidsAt, Hidden, Changed, Stepped, Listed, Files, Dirs, At, FileStep, FileDiff;
    left := targetDirs;
    ghost var before := vfs.tree;
    SteppedNot(before, r, s, n);
    FileListed(r, s, rk, tk, rootFiles, rootDirs, targetFiles, n);
    EntryKind(rk, KidsAt(before, r), n);
    EntryKind(tk, KidsAt(before, s), n);
    FileCases(status, r, s, rk, tk, KidsAt(before, s), n);
    if n in rootFiles && n in targetDirs {
      diff.deletedDirs := diff.deletedDirs + [targetDirs[n]];
      left := left - {n};
      diff.addedFiles := diff.addedFiles + [rootFiles[n]];
      var ok := ReplaceEntry(vfs, r, s, n, true);
      return;
    }
    if n in targetFiles && n in rootDirs && n !in rootFiles {
      var ok := RemoveEntry(vfs, r, s, n, false);
      if ok {
        diff.deletedFiles := diff.deletedFiles + [targetFiles[n]];
      }
      return;
    }
    if n in targetFiles && n !in rootFiles {
      var ok := RemoveEntry(vfs, r, s, n, false);
      if ok {
        diff.deletedFiles := diff.deletedFiles + [targetFiles[n]];
      }
      return;
    }
    if n in rootFiles && n in targetFiles {
      var changed := FileChanged(vfs, r, s, status, n);
      if changed {
        diff.updatedFiles := diff.updatedFiles + [rootFiles[n]];
        var ok := ReplaceEntry(vfs, r, s, n, false);
      }
      return;
    }
    if n in rootFiles && n !in targetFiles {
      diff.addedFiles := diff.addedFiles + [rootFiles[n]];
      MoveEntry(vfs, r, s, n);
    }
  }

  lemma DirListed(r: Path, s: Path, rk: Kids, tk: Kids, rootDirs: map<string, Path>, targetFiles: map<string, Path>, n: string)
    requires rootDirs == map m | m in Dirs(rk) :: r + [m]
    requires targetFiles == map m | m in Files(tk) :: s + [m]
    ensures (n in rootDirs <==> n in Dirs(rk)) && (n in rootDirs ==> rootDirs[n] == r + [n])
    ensures (n in targetFiles <==> n in Files(tk)) && (n in targetFiles ==> targetFiles[n] == s + [n])
  {
  }

  lemma ReadyEntry(t: Tree, r: Path, s: Path, rk: Kids, tk: Kids, n: string)
    requires n in DirNames(rk, tk) && DirReady(t, r, s, rk, tk, n)
    ensures n in Dirs(rk) ==> n in KidsAt(t, r) && KidsAt(t, r)[n] == rk[n]
    ensures n in KidsAt(t, s) <==> n in Dirs(tk)
    ensures n in Dirs(tk) ==> KidsAt(t, s)[n] == tk[n]
    ensures n !in Dirs(rk) ==> n in Dirs(tk)
  {
  }

  /** One name of the directory loop. */
  method SyncSubdir(vfs: VikingFS, r: Path, s: Path, status: Status, diff: DiffResult, n: string,
                    rootDirs: map<string, Path>, targetFiles: map<string, Path>, targetDirs: map<string, Path>,
                    ghost rk: Kids, ghost tk: Kids)
    requires Sides(vfs.tree, r, s)
    requires rootDirs == map m | m in Dirs(rk) :: r + [m]
    requires targetFiles == map m | m in Files(tk) :: s + [m]
    requires n in targetDirs <==> n in Dirs(tk)
    requires n in targetDirs ==> targetDirs[n] == s + [n]
    requires n in DirNames(rk, tk) && DirReady(vfs.tree, r, s, rk, tk, n)
    modifies vfs, diff
    ensures Sides(old(vfs.tree), r, s)
    ensures Stepped(old(vfs.tree), vfs.tree, r, s, n, DirStep(status, r, rk, tk, KidsAt(old(vfs.tree), s), n))
    ensures diff.View() == old(diff.View()).Plus(DirDiff(status, r, s, rk, tk, n))
    decreases Dir(rk), 0
  {
    hide With, Sides, KidsAt, Hidden, Stepped, Files, Dirs, DirReady, SyncKids, SyncDiff;
    ghost var before := vfs.tree;
    DirListed(r, s, rk, tk, rootDirs, targetFiles, n);
    EntryKind(rk, rk, n);
    EntryKind(tk, tk, n);
    ReadyEntry(before, r, s, rk, tk, n);
    if n in rootDirs && n in targetFiles {
      var ok := RemoveEntry(vfs, r, s, n, false);
      diff.deletedFiles := diff.deletedFiles + [targetFiles[n]];
      diff.addedDirs := diff.addedDirs + [rootDirs[n]];
      ghost var mid := vfs.tree;
      MoveEntry(vfs, r, s, n);
      SteppedTwice(old(vfs.tree), mid, vfs.tree, r, s, n, KidsAt(mid, s), KidsAt(vfs.tree, s));
      return;
    }
    if n in targetDirs && n !in rootDirs {
      var ok := RemoveEntry(vfs, r, s, n, true);
      if ok {
        diff.deletedDirs := diff.deletedDirs + [targetDirs[n]];
      }
      return;
    }
    if n in rootDirs && n !in targetDirs {
      diff.addedDirs := diff.addedDirs + [rootDirs[n]];
      MoveEntry(vfs, r, s, n);
      return;
    }
    if n in rootDirs && n in targetDirs {
      SyncBelow(vfs, r, s, status, diff, n, rk, tk);
    }
  }

  /** Enters a directory that both sides have. */
  method SyncBelow(vfs: VikingFS, r: Path, s: Path, status: Status, diff: DiffResult, n: string, ghost rk: Kids, ghost tk: Kids)
    requires Sides(vfs.tree, r, s) && n in Dirs(rk) && n in Dirs(tk)
    requires At(KidsAt(vfs.tree, r), n) == At(rk, n) && At(KidsAt(vfs.tree, s), n) == At(tk, n)
    modifies vfs, diff
    ensures Sides(old(vfs.tree), r, s)
    ensures Stepped(old(vfs.tree), vfs.tree, r, s, n,
                    KidsAt(old(vfs.tree), s)[n := Dir(SyncKids(status, r + [n], rk[n].kids, tk[n].kids))])
    ensures diff.View() == old(diff.View()).Plus(SyncDiff(status, r + [n], s + [n], rk[n].kids, tk[n].kids))
    decreases Dir(rk[n].kids), 4
  {
    hide With, Sides, KidsAt, Hidden, SyncKids, SyncDiff;
    ghost var before := vfs.tree;
    ghost var rk0, sk0 := KidsAt(before, r), KidsAt(before, s);
    WithChildren(before, r, map[], s, map[], n);
    SyncDir(vfs, r + [n], s + [n], status, diff);
    ghost var rk1, sk1 := KidsAt(vfs.tree, r + [n]), KidsAt(vfs.tree, s + [n]);
    WithChildren(before, r, rk1, s, sk1, n);
    WithLookup(before, r, rk0[n := Dir(rk1)], s, sk0[n := Dir(sk1)]);
  }

  /** So far the tree has changed in nothing but the two directories. */
  ghost predicate InBoth(t: Tree, t': Tree, r: Path, s: Path, sk: Kids)
    requires Sides(t, r, s)
  {
    Sides(t', r, s) && KidsAt(t', s) == sk && t' == With(t, r, KidsAt(t', r), s, sk)
  }

  lemma InBothStep(t: Tree, u: Tree, v: Tree, r: Path, s: Path, n: string, sk: Kids, sk': Kids)
    requires Sides(t, r, s) && InBoth(t, u, r, s, sk) && Stepped(u, v, r, s, n, sk')
    ensures InBoth(t, v, r, s, sk')
  {
    WithTwice(t, r, KidsAt(u, r), s, sk, KidsAt(v, r), sk');
  }

  lemma PlusAssociative(a: Diff, b: Diff, c: Diff)
    ensures a.Plus(b).Plus(c) == a.Plus(b.Plus(c))
  {
  }

  lemma FilesFoldStep(status: Status, r: Path, s: Path, rk: Kids, tk: Kids, names: seq<string>, i: nat)
    requires i < |names|
    ensures FilesFold(status, r, rk, tk, names[..i + 1]) ==
            FileStep(status, r, rk, tk, FilesFold(status, r, rk, tk, names[..i]), names[i])
    ensures FilesDiff(status, r, s, rk, tk, names[..i + 1]) ==
            FilesDiff(status, r, s, rk, tk, names[..i]).Plus(FileDiff(status, r, s, rk, tk, names[i]))
  {
    assert names[..i + 1][..i] == names[..i];
  }

  lemma DirsFoldStep(status: Status, r: Path, s: Path, rk: Kids, tk: Kids, cur: Kids, names: seq<string>, i: nat)
    requires i < |names|
    ensures DirsFold(status, r, rk, tk, cur, names[..i + 1]) ==
            DirStep(status, r, rk, tk, DirsFold(status, r, rk, tk, cur, names[..i]), names[i])
    ensures DirsDiff(status, r, s, rk, tk, names[..i + 1]) ==
            DirsDiff(status, r, s, rk, tk, names[..i]).Plus(DirDiff(status, r, s, rk, tk, names[i]))
  {
    assert names[..i + 1][..i] == names[..i];
  }

  lemma SortedMembers(s: set<string>)
    ensures Distinct(SortedNames(s))
    ensures forall i :: 0 <= i < |SortedNames(s)| ==> SortedNames(s)[i] in s
    ensures forall n :: n in s ==> n in SortedNames(s)
  {
  }

  /** Where the file loop stands before its name number `i`. */
  ghost predicate FilesUpTo(before: Tree, t: Tree, r: Path, s: Path, status: Status, rk: Kids, tk: Kids,
                            names: seq<string>, i: nat, report: Diff, left: map<string, Path>)
    requires Sides(before, r, s)
  {
    && i <= |names|
    && InBoth(before, t, r, s, FilesFold(status, r, rk, tk, names[..i]))
    && report == FilesDiff(status, r, s, rk, tk, names[..i])
    && (forall n :: n in names[i..] || n !in Files(rk) ==> At(KidsAt(t, r), n) == At(rk, n))
    && (forall n :: n in names[i..] ==> At(KidsAt(t, s), n) == At(tk, n))
    && (forall n :: n in left <==> n in Dirs(tk) && !(n in names[..i] && n in Files(rk)))
    && (forall n :: n in left ==> left[n] == s + [n])
  }

  lemma FilesBegin(before: Tree, r: Path, s: Path, status: Status, rk: Kids, tk: Kids, names: seq<string>,
                   left: map<string, Path>)
    requires Sides(before, r, s) && rk == KidsAt(before, r) && tk == KidsAt(before, s)
    requires left == map m | m in Dirs(tk) :: s + [m]
    ensures FilesUpTo(before, before, r, s, status, rk, tk, names, 0, NOTHING, left)
  {
    WithSame(before, r, s);
  }

  lemma NextName(names: seq<string>, i: nat)
    requires Distinct(names) && i < |names|
    ensures names[i] in names[i..] && names[i] !in names[..i]
    ensures forall n :: n in names[i + 1..] ==> n in names[i..] && n != names[i]
    ensures forall n :: n in names[..i + 1] <==> n in names[..i] || n == names[i]
  {
  }

  lemma FilesAdvance(before: Tree, mid: Tree, t: Tree, r: Path, s: Path, status: Status, rk: Kids, tk: Kids,
                     names: seq<string>, i: nat, report: Diff, left: map<string, Path>, left': map<string, Path>)
    requires Sides(before, r, s) && Distinct(names) && i < |names|
    requires FilesUpTo(before, mid, r, s, status, rk, tk, names, i, report, left)
    requires Sides(mid, r, s)
    requires Stepped(mid, t, r, s, names[i], FileStep(status, r, rk, tk, KidsAt(mid, s), names[i]))
    requires left' == if names[i] in Files(rk) && names[i] in Dirs(tk) then left - {names[i]} else left
    requires names[i] !in Files(rk) ==> KidsAt(t, r) == KidsAt(mid, r)
    ensures FilesUpTo(before, t, r, s, status, rk, tk, names, i + 1,
                      report.Plus(FileDiff(status, r, s, rk, tk, names[i])), left')
  {
    hide FileStep, FileDiff, Files, Dirs, With, Sides, KidsAt, FilesFold, FilesDiff;
    var n := names[i];
    NextName(names, i);
    FilesFoldStep(status, r, s, rk, tk, names, i);
    InBothStep(before, mid, t, r, s, n, KidsAt(mid, s), FileStep(status, r, rk, tk, KidsAt(mid, s), n));
    forall m | m != n ensures At(KidsAt(t, s), m) == At(KidsAt(mid, s), m) {
      FileStepElsewhere(status, r, rk, tk, KidsAt(mid, s), n, m);
    }
  }

  lemma FilesEnd(before: Tree, t: Tree, r: Path, s: Path, status: Status, rk: Kids, tk: Kids,
                 report: Diff, left: map<string, Path>)
    requires Sides(before, r, s)
    requires var names := SortedNames(Files(rk) + Files(tk));
             FilesUpTo(before, t, r, s, status, rk, tk, names, |names|, report, left)
    ensures var names := SortedNames(Files(rk) + Files(tk));
            InBoth(before, t, r, s, FilesFold(status, r, rk, tk, names)) && report == FilesDiff(status, r, s, rk, tk, names)
    ensures forall n :: n !in Files(rk) ==> At(KidsAt(t, r), n) == At(rk, n)
    ensures left == map m | m in Dirs(tk) - Files(rk) :: s + [m]
  {
    hide SortedNames;
    var names := SortedNames(Files(rk) + Files(tk));
    SortedMembers(Files(rk) + Files(tk));
    assert names[..|names|] == names;
  }

  lemma FileKeys(r: Path, s: Path, rk: Kids, tk: Kids, rootFiles: map<string, Path>, rootDirs: map<string, Path>,
                 targetFiles: map<string, Path>)
    requires Listed(r, s, rk, tk, rootFiles, rootDirs, targetFiles)
    ensures rootFiles.Keys + targetFiles.Keys == Files(rk) + Files(tk)
  {
  }

  lemma PlusNothing(d: Diff)
    ensures d.Plus(NOTHING) == d
  {
  }

  /** One turn of the file loop, with the bookkeeping of the whole. */
  method SyncOneFile(vfs: VikingFS, r: Path, s: Path, status: Status, diff: DiffResult, names: seq<string>, i: nat,
                     rootFiles: map<string, Path>, rootDirs: map<string, Path>, targetFiles: map<string, Path>,
                     targetDirs: map<string, Path>, ghost rk: Kids, ghost tk: Kids, ghost before: Tree,
                     ghost report: Diff, ghost diff0: Diff)
    returns (left: map<string, Path>, ghost report': Diff)
    requires Sides(before, r, s) && Distinct(names) && i < |names| && names[i] in Files(rk) + Files(tk)
    requires FilesUpTo(before, vfs.tree, r, s, status, rk, tk, names, i, report, targetDirs)
    requires diff.View() == diff0.Plus(report)
    requires Listed(r, s, rk, tk, rootFiles, rootDirs, targetFiles)
    modifies vfs, diff
    ensures FilesUpTo(before, vfs.tree, r, s, status, rk, tk, names, i + 1, report', left)
    ensures diff.View() == diff0.Plus(report')
  {
    hide *;
    ghost var mid := vfs.tree;
    FilesReady(before, mid, r, s, status, rk, tk, names, i, report, targetDirs);
    left := SyncFile(vfs, r, s, status, diff, names[i], rootFiles, rootDirs, targetFiles, targetDirs, rk, tk);
    FilesAdvance(before, mid, vfs.tree, r, s, status, rk, tk, names, i, report, targetDirs, left);
    PlusAssociative(diff0, report, FileDiff(status, r, s, rk, tk, names[i]));
    report' := report.Plus(FileDiff(status, r, s, rk, tk, names[i]));
  }

  /** The first loop: files on either side, in byte order. */
  method SyncFiles(vfs: VikingFS, r: Path, s: Path, status: Status, diff: DiffResult, rootFiles: map<string, Path>,
                   rootDirs: map<string, Path>, targetFiles: map<string, Path>, targetDirs: map<string, Path>,
                   ghost rk: Kids, ghost tk: Kids)
    returns (left: map<string, Path>)
    requires Sides(vfs.tree, r, s) && rk == KidsAt(vfs.tree, r) && tk == KidsAt(vfs.tree, s)
    requires Listed(r, s, rk, tk, rootFiles, rootDirs, targetFiles)
    requires targetDirs == map m | m in Dirs(tk) :: s + [m]
    modifies vfs, diff
    ensures Sides(old(vfs.tree), r, s)
    ensures InBoth(old(vfs.tree), vfs.tree, r, s, FilesFold(status, r, rk, tk, SortedNames(Files(rk) + Files(tk))))
    ensures diff.View() ==
            old(diff.View()).Plus(FilesDiff(status, r, s, rk, tk, SortedNames(Files(rk) + Files(tk))))
    ensures forall n :: n !in Files(rk) ==> At(KidsAt(vfs.tree, r), n) == At(rk, n)
    ensures left == map m | m in Dirs(tk) - Files(rk) :: s + [m]
  {
    hide *;
    ghost var before, diff0, report := vfs.tree, diff.View(), NOTHING;
    PlusNothing(diff0);
    FileKeys(r, s, rk, tk, rootFiles, rootDirs, targetFiles);
    var names := Sort(rootFiles.Keys + targetFiles.Keys);
    SortedMembers(Files(rk) + Files(tk));
    left := targetDirs;
    FilesBegin(before, r, s, status, rk, tk, names, left);
    for i := 0 to |names|
      invariant FilesUpTo(before, vfs.tree, r, s, status, rk, tk, names, i, report, left)
      invariant diff.View() == diff0.Plus(report)
    {
      left, report := SyncOneFile(vfs, r, s, status, diff, names, i, rootFiles, rootDirs, targetFiles, left, rk, tk,
                                  before, report, diff0);
    }
    FilesEnd(before, vfs.tree, r, s, status, rk, tk, report, left);
  }

  lemma FilesReady(before: Tree, mid: Tree, r: Path, s: Path, status: Status, rk: Kids, tk: Kids,
                   names: seq<string>, i: nat, report: Diff, left: map<string, Path>)
    requires Sides(before, r, s) && Distinct(names) && i < |names|
    requires FilesUpTo(before, mid, r, s, status, rk, tk, names, i, report, left)
    ensures var n := names[i];
            && Sides(mid, r, s)
            && (n in left <==> n in Dirs(tk)) && (n in left ==> left[n] == s + [n])
            && At(KidsAt(mid, r), n) == At(rk, n) && At(KidsAt(mid, s), n) == At(tk, n)
  {
  }

  /** Where the directory loop stands before its name number `i`. */
  ghost predicate DirsUpTo(before: Tree, t: Tree, r: Path, s: Path, status: Status, rk: Kids, tk: Kids,
                           names: seq<string>, i: nat, report: Diff)
    requires Sides(before, r, s)
  {
    && i <= |names|
    && InBoth(before, t, r, s, DirsFold(status, r, rk, tk, KidsAt(before, s), names[..i]))
    && report == DirsDiff(status, r, s, rk, tk, names[..i])
    && forall n :: n in names[i..] ==> At(KidsAt(t, r), n) == At(KidsAt(before, r), n) &&
                                       At(KidsAt(t, s), n) == At(KidsAt(before, s), n)
  }

  lemma DirsBegin(before: Tree, r: Path, s: Path, status: Status, rk: Kids, tk: Kids, names: seq<string>)
    requires Sides(before, r, s)
    ensures DirsUpTo(before, before, r, s, status, rk, tk, names, 0, NOTHING)
  {
    WithSame(before, r, s);
  }

  lemma DirsAdvance(before: Tree, mid: Tree, t: Tree, r: Path, s: Path, status: Status, rk: Kids, tk: Kids,
                    names: seq<string>, i: nat, report: Diff)
    requires Sides(before, r, s) && Distinct(names) && i < |names|
    requires DirsUpTo(before, mid, r, s, status, rk, tk, names, i, report)
    requires Sides(mid, r, s)
    requires Stepped(mid, t, r, s, names[i], DirStep(status, r, rk, tk, KidsAt(mid, s), names[i]))
    ensures DirsUpTo(before, t, r, s, status, rk, tk, names, i + 1, report.Plus(DirDiff(status, r, s, rk, tk, names[i])))
  {
    hide DirStep, DirDiff, Files, Dirs, With, Sides, KidsAt, DirsFold, DirsDiff;
    var n := names[i];
    NextName(names, i);
    DirsFoldStep(status, r, s, rk, tk, KidsAt(before, s), names, i);
    InBothStep(before, mid, t, r, s, n, KidsAt(mid, s), DirStep(status, r, rk, tk, KidsAt(mid, s), n));
    forall m | m != n ensures At(KidsAt(t, s), m) == At(KidsAt(mid, s), m) {
      DirStepElsewhere(status, r, rk, tk, KidsAt(mid, s), n, m);
    }
  }

  /** A name of the directory loop, as it is found when its turn comes. */
  ghost predicate DirReady(t: Tree, r: Path, s: Path, rk: Kids, tk: Kids, n: string) {
    && (n in rk ==> At(KidsAt(t, r), n) == At(rk, n))
    && At(KidsAt(t, s), n) == if n in Dirs(tk) then At(tk, n) else None
  }

  lemma DirsReady(before: Tree, mid: Tree, r: Path, s: Path, status: Status, rk: Kids, tk: Kids,
                  names: seq<string>, i: nat, report: Diff)
    requires Sides(before, r, s) && Distinct(names) && i < |names|
    requires DirsUpTo(before, mid, r, s, status, rk, tk, names, i, report)
    ensures Sides(mid, r, s)
    ensures DirReady(before, r, s, rk, tk, names[i]) ==> DirReady(mid, r, s, rk, tk, names[i])
  {
  }

  lemma DirKeys(r: Path, s: Path, rk: Kids, tk: Kids, rootDirs: map<string, Path>, targetDirs: map<string, Path>)
    requires rootDirs == map m | m in Dirs(rk) :: r + [m]
    requires targetDirs == map m | m in Dirs(tk) - Files(rk) :: s + [m]
    ensures rootDirs.Keys + targetDirs.Keys == DirNames(rk, tk)
  {
  }

  /** One turn of the directory loop, with the bookkeeping of the whole. */
  method SyncOneSubdir(vfs: VikingFS, r: Path, s: Path, status: Status, diff: DiffResult, names: seq<string>, i: nat,
                       rootDirs: map<string, Path>, targetFiles: map<string, Path>, targetDirs: map<string, Path>,
                       ghost rk: Kids, ghost tk: Kids, ghost before: Tree, ghost report: Diff, ghost diff0: Diff)
    returns (ghost report': Diff)
    requires Sides(before, r, s) && Distinct(names) && i < |names| && names[i] in DirNames(rk, tk)
    requires DirsUpTo(before, vfs.tree, r, s, status, rk, tk, names, i, report) && diff.View() == diff0.Plus(report)
    requires DirReady(before, r, s, rk, tk, names[i])
    requires rootDirs == map m | m in Dirs(rk) :: r + [m]
    requires targetFiles == map m | m in Files(tk) :: s + [m]
    requires targetDirs == map m | m in Dirs(tk) - Files(rk) :: s + [m]
    modifies vfs, diff
    ensures DirsUpTo(before, vfs.tree, r, s, status, rk, tk, names, i + 1, report') && diff.View() == diff0.Plus(report')
    decreases Dir(rk), 1
  {
    hide With, Sides, KidsAt, DirStep, DirDiff, Files, Dirs, DirsUpTo, Stepped, DirReady;
    FilesOrDirs(rk, names[i]);
    ghost var mid := vfs.tree;
    DirsReady(before, mid, r, s, status, rk, tk, names, i, report);
    SyncSubdir(vfs, r, s, status, diff, names[i], rootDirs, targetFiles, targetDirs, rk, tk);
    DirsAdvance(before, mid, vfs.tree, r, s, status, rk, tk, names, i, report);
    PlusAssociative(diff0, report, DirDiff(status, r, s, rk, tk, names[i]));
    report' := report.Plus(DirDiff(status, r, s, rk, tk, names[i]));
  }

  /** The second loop: the directories of either side that are still there, in byte order. */
  method SyncSubdirs(vfs: VikingFS, r: Path, s: Path, status: Status, diff: DiffResult, rootDirs: map<string, Path>,
                     targetFiles: map<string, Path>, targetDirs: map<string, Path>, ghost rk: Kids, ghost tk: Kids)
    requires Sides(vfs.tree, r, s)
    requires rootDirs == map m | m in Dirs(rk) :: r + [m]
    requires targetFiles == map m | m in Files(tk) :: s + [m]
    requires targetDirs == map m | m in Dirs(tk) - Files(rk) :: s + [m]
    requires forall n :: n in DirNames(rk, tk) ==> DirReady(vfs.tree, r, s, rk, tk, n)
    modifies vfs, diff
    ensures Sides(old(vfs.tree), r, s)
    ensures InBoth(old(vfs.tree), vfs.tree, r, s,
                   DirsFold(status, r, rk, tk, KidsAt(old(vfs.tree), s), SortedNames(DirNames(rk, tk))))
    ensures diff.View() == old(diff.View()).Plus(DirsDiff(status, r, s, rk, tk, SortedNames(DirNames(rk, tk))))
    decreases Dir(rk), 2
  {
    hide *;
    ghost var before, diff0, report := vfs.tree, diff.View(), NOTHING;
    PlusNothing(diff0);
    DirKeys(r, s, rk, tk, rootDirs, targetDirs);
    var names := Sort(rootDirs.Keys + targetDirs.Keys);
    SortedMembers(DirNames(rk, tk));
    DirsBegin(before, r, s, status, rk, tk, names);
    for i := 0 to |names|
      invariant DirsUpTo(before, vfs.tree, r, s, status, rk, tk, names, i, report)
      invariant diff.View() == diff0.Plus(report)
    {
      report := SyncOneSubdir(vfs, r, s, status, diff, names, i, rootDirs, targetFiles, targetDirs, rk, tk, before, report, diff0);
    }
    DirsEnd(before, vfs.tree, r, s, status, rk, tk, names, report);
  }

  lemma DirsEnd(before: Tree, t: Tree, r: Path, s: Path, status: Status, rk: Kids, tk: Kids, names: seq<string>,
                report: Diff)
    requires Sides(before, r, s) && DirsUpTo(before, t, r, s, status, rk, tk, names, |names|, report)
    ensures InBoth(before, t, r, s, DirsFold(status, r, rk, tk, KidsAt(before, s), names))
    ensures report == DirsDiff(status, r, s, rk, tk, names)
  {
    assert names[..|names|] == names;
  }

  method SyncDir(vfs: VikingFS, r: Path, s: Path, status: Status, diff: DiffResult)
    requires Sides(vfs.tree, r, s)
    modifies vfs, diff
    ensures Sides(old(vfs.tree), r, s)
    ensures InBoth(old(vfs.tree), vfs.tree, r, s,
                   SyncKids(status, r, KidsAt(old(vfs.tree), r), KidsAt(old(vfs.tree), s)))
    ensures diff.View() ==
            old(diff.View()).Plus(SyncDiff(status, r, s, KidsAt(old(vfs.tree), r), KidsAt(old(vfs.tree), s)))
    decreases Dir(KidsAt(vfs.tree, r)), 3
  {
    hide With, Sides, KidsAt, Hidden, SortedNames, FilesFold, DirsFold, FilesDiff, DirsDiff, Files, Dirs;
    ghost var before, diff0 := vfs.tree, diff.View();
    ghost var rk, tk := KidsAt(before, r), KidsAt(before, s);
    var rootFiles, rootDirs := ListChildren(vfs, r);
    var targetFiles, targetDirs := ListChildren(vfs, s);
    targetDirs := SyncFiles(vfs, r, s, status, diff, rootFiles, rootDirs, targetFiles, targetDirs, rk, tk);
    ghost var mid := vfs.tree;
    forall n | n in DirNames(rk, tk)
      ensures DirReady(mid, r, s, rk, tk, n)
    {
      AfterFiles(status, r, rk, tk, n);
    }
    SyncSubdirs(vfs, r, s, status, diff, rootDirs, targetFiles, targetDirs, rk, tk);
    PlusAssociative(diff0, FilesDiff(status, r, s, rk, tk, SortedNames(Files(rk) + Files(tk))),
                    DirsDiff(status, r, s, rk, tk, SortedNames(DirNames(rk, tk))));
    WithTwice(before, r, KidsAt(mid, r), s, KidsAt(mid, s), KidsAt(vfs.tree, r), KidsAt(vfs.tree, s));
  }

  /** What the directory loop finds: its names are no source files, and target files are gone. */
  lemma AfterFiles(status: Status, r: Path, rk: Kids, tk: Kids, n: string)
    requires n in DirNames(rk, tk)
    ensures n !in Files(rk)
    ensures At(FilesFold(status, r, rk, tk, SortedNames(Files(rk) + Files(tk))), n) == if n in Dirs(tk) then At(tk, n) else None
  {
    hide SortedNames, Hidden;
    var all := Files(rk) + Files(tk);
    SortedMembers(all);
    FilesFoldAt(status, r, rk, tk, SortedNames(all), n);
  }

  // ----- The whole sync -----

  /** The file system after a sync into an existing target: merged there, and the source gone. */
  ghost function Synced(t: Tree, root: Path, target: Path, status: Status): Tree
    requires root != [] && Sides(t, root, target)
  {
    var merged := Put(t, target, Dir(SyncKids(status, root, KidsAt(t, root), KidsAt(t, target))));
    if Lookup(merged, root).Some? then Detach(merged, root) else merged
  }

  /** Without a target, the source is moved as it is, once the way to the target exists. */
  function MoveWhole(t: Tree, root: Path, target: Path): (bool, Tree)
    requires root != [] && target != []
  {
    var made := MkdirAll(t, Parent(target));
    if made.None? then (false, t)
    else
      var moved := Rename(made.value, root, target);
      if moved.None? then (false, made.value) else (true, moved.value)
  }

  method SyncTopDownRecursive(vfs: VikingFS, root: Path, target: Path, status: Status) returns (diff: DiffResult, ok: bool)
    requires root != [] && target != []
    requires Lookup(vfs.tree, target).Some? ==> Sides(vfs.tree, root, target)
    modifies vfs
    ensures Lookup(old(vfs.tree), target).Some? ==>
              && ok && vfs.tree == Synced(old(vfs.tree), root, target, status)
              && diff.View() == SyncDiff(status, root, target, KidsAt(old(vfs.tree), root), KidsAt(old(vfs.tree), target))
              && OnlyBelow(root, target, diff.View())
              && forall q :: q != [] ==> ReportTells(old(vfs.tree), root, target, status, diff.View(), q)
    ensures Lookup(old(vfs.tree), target).None? ==>
              && (ok, vfs.tree) == MoveWhole(old(vfs.tree), root, target)
              && diff.View() == Diff([], [], [], [root], [])
  {
    hide SyncKids, SyncDiff, Synced, MoveWhole, InBoth, Sides, Lookup, KidsAt, IsDir, Detach, Put, Hidden, ReportTells, OnlyBelow;
    ghost var before := vfs.tree;
    diff := new DiffResult();
    var found := vfs.Exists(target);
    if !found {
      diff.addedDirs := diff.addedDirs + [root];
      ok := MoveRoot(vfs, root, target);
      return;
    }
    SyncDir(vfs, root, target, status, diff);
    RemovingSource(before, vfs.tree, root, target, status);
    var removed := vfs.Rm(root, true);
    NothingPlus(SyncDiff(status, root, target, KidsAt(before, root), KidsAt(before, target)));
    ReportOnlyBelow(status, root, target, KidsAt(before, root), KidsAt(before, target));
    forall q: Path | q != [] ensures ReportTells(before, root, target, status, diff.View(), q) {
      ReportExactly(before, root, target, status, q);
    }
    return diff, true;
  }

  lemma NothingPlus(d: Diff)
    ensures NOTHING.Plus(d) == d
  {
  }

  method MoveRoot(vfs: VikingFS, root: Path, target: Path) returns (ok: bool)
    requires root != [] && target != []
    modifies vfs
    ensures (ok, vfs.tree) == MoveWhole(old(vfs.tree), root, target)
  {
    var parent := Parent(target);
    if parent != [] {
      var made := vfs.Mkdir(parent);
    }
    if MkdirAll(old(vfs.tree), parent).Some? {
      MkdirAllMakes(old(vfs.tree), parent);
      MkdirAllExisting(MkdirAll(old(vfs.tree), parent).value, parent);
    }
    ok := vfs.Mv(root, target);
  }

  lemma RemovingSource(t: Tree, t': Tree, root: Path, target: Path, status: Status)
    requires root != [] && Sides(t, root, target)
    requires InBoth(t, t', root, target, SyncKids(status, root, KidsAt(t, root), KidsAt(t, target)))
    ensures Remove(t', root, true) == Some(Synced(t, root, target, status))
  {
    var merged := Put(t, target, Dir(SyncKids(status, root, KidsAt(t, root), KidsAt(t, target))));
    PutApart(t, target, Dir(SyncKids(status, root, KidsAt(t, root), KidsAt(t, target))), root);
    if IsDir(t, root) {
      DetachPut(merged, root, Dir(KidsAt(t', root)));
    }
  }

  /**
   * The law of the sync. Into an existing target: the source is gone, paths apart from both are untouched, nothing is
   * reported exactly when the visible trees were already equal (comparing contents), and the target's visible tree
   * ends equal to the source's exactly when the change status misses no changed file. A source that is no directory
   * counts as an empty one, so that the target loses all its visible entries.
   */
  lemma SyncLaw(t: Tree, root: Path, target: Path, status: Status)
    requires root != [] && Sides(t, root, target)
    ensures var t' := Synced(t, root, target, status);
            && Lookup(t', root).None? && IsDir(t', target)
            && (VisibleKids(KidsAt(t', target)) == VisibleKids(KidsAt(t, root)) <==>
                Honest(status, root, KidsAt(t, root), KidsAt(t, target)))
    ensures forall q :: Apart(root, q) && Apart(target, q) ==> Lookup(Synced(t, root, target, status), q) == Lookup(t, q)
    ensures SyncDiff(None, root, target, KidsAt(t, root), KidsAt(t, target)).IsEmpty() <==>
            VisibleKids(KidsAt(t, root)) == VisibleKids(KidsAt(t, target))
  {
    hide SyncKids, SyncDiff, Honest, Detach, Put, Hidden;
    var merged := Dir(SyncKids(status, root, KidsAt(t, root), KidsAt(t, target)));
    var u := Put(t, target, merged);
    PutApart(t, target, merged, root);
    PutLookup(t, target, merged);
    ApartSwap(root, target);
    SyncedIffHonest(status, root, KidsAt(t, root), KidsAt(t, target));
    EmptyIffEqual(root, target, KidsAt(t, root), KidsAt(t, target));
    if Lookup(u, root).Some? {
      DetachLookup(u, root, target);
    }
    forall q | Apart(root, q) && Apart(target, q) ensures Lookup(Synced(t, root, target, status), q) == Lookup(t, q) {
      if Lookup(u, root).Some? {
        DetachLookup(u, root, q);
      }
      PutApart(t, target, merged, q);
    }
  }

  /** With nothing at the source, the target loses every visible entry and keeps the hidden ones. */
  lemma MissingSourceEmpties(t: Tree, root: Path, target: Path, status: Status)
    requires root != [] && Sides(t, root, target) && Lookup(t, root).None?
    ensures KidsAt(Synced(t, root, target, status), target) == map n | n in KidsAt(t, target) && Hidden(n) :: KidsAt(t, target)[n]
  {
    hide SyncKids, SyncDiff, Put, Hidden;
    var kids := SyncKids(status, root, map[], KidsAt(t, target));
    PutApart(t, target, Dir(kids), root);
    PutLookup(t, target, Dir(kids));
    forall n ensures At(kids, n) == if Hidden(n) then At(KidsAt(t, target), n) else None {
      SyncedName(status, root, map[], KidsAt(t, target), n);
    }
    assert forall n :: n in kids <==> At(kids, n).Some?;
    assert forall n :: n in KidsAt(t, target) <==> At(KidsAt(t, target), n).Some?;
  }

  lemma ApartSwap(p: Path, q: Path)
    requires Apart(p, q)
    ensures Apart(q, p)
  {
  }

  lemma {:induction false} PutKidApart(t: Tree, d: Path, n: string, sub: Tree, q: Path)
    requires IsDir(t, d) && Apart(d + [n], q)
    ensures Lookup(Put(t, d, Dir(KidsAt(t, d)[n := sub])), q) == Lookup(t, q)
    decreases |d|
  {
    if d != [] && q[0] == d[0] {
      assert (d + [n])[1..] == d[1..] + [n];
      ApartTails(d + [n], q);
      PutKidApart(t.kids[d[0]], d[1..], n, sub, q[1..]);
    }
  }

  lemma {:induction false} MkdirAllExactly(t: Tree, d: Path)
    ensures MkdirAll(t, d).Some? <==> forall k :: 0 <= k <= |d| ==> !FileAt(t, d[..k])
    decreases |d|
  {
    assert d[..0] == [];
    if t.Dir? && d != [] {
      var sub := if d[0] in t.kids then t.kids[d[0]] else Dir(map[]);
      MkdirAllExactly(sub, d[1..]);
      forall k | 0 < k <= |d| ensures FileAt(t, d[..k]) <==> FileAt(sub, d[1..][..k - 1]) {
        assert d[..k][1..] == d[1..][..k - 1] && d[..k][0] == d[0];
        if d[0] !in t.kids { EmptyHasNoFiles(d[1..][..k - 1]); }
      }
      if forall k :: 0 <= k <= |d| ==> !FileAt(t, d[..k]) {
        forall k | 0 <= k <= |d[1..]| ensures !FileAt(sub, d[1..][..k]) {
          assert FileAt(t, d[..k + 1]) <==> FileAt(sub, d[1..][..k + 1 - 1]);
        }
      }
    } else if t.File? {
      assert FileAt(t, d[..0]);
    }
  }

  lemma EmptyHasNoFiles(q: Path)
    ensures !FileAt(Dir(map[]), q)
  {
  }

  /** Nothing that is there changes when the missing directories on the way to `d` are made. */
  lemma MadeKeeps(t: Tree, d: Path, root: Path, target: Path)
    requires target != [] && d == Parent(target) && MkdirAll(t, d).Some? && !(root <= target) && Lookup(t, root).Some?
    ensures Lookup(MkdirAll(t, d).value, root) == Lookup(t, root)
  {
    assert d <= target;
    assert root <= d ==> root <= target;
    ApartOrNested(d, root);
    if d < root {
      LookupPrefix(t, d, root);
      MkdirAllExisting(t, d);
    } else {
      MkdirAllKeeps(t, d, root);
    }
  }

  /** Without a target the sync works exactly when there is a source, the target is not inside it, and no file stands on
      the way to the target. */
  lemma MoveExactly(t: Tree, root: Path, target: Path)
    requires root != [] && target != [] && Lookup(t, target).None?
    ensures MoveWhole(t, root, target).0 <==>
            Lookup(t, root).Some? && !(root <= target) && forall k :: 0 <= k < |target| ==> !FileAt(t, target[..k])
  {
    var d := Parent(target);
    MkdirAllExactly(t, d);
    forall k | 0 <= k < |target| ensures target[..k] == d[..k] { }
    if MkdirAll(t, d).Some? {
      var u := MkdirAll(t, d).value;
      MkdirAllMakes(t, d);
      MkdirAllKeeps(t, d, target);
      if !(root <= target) {
        assert !(root <= d);
        MkdirAllKeeps(t, d, root);
        if Lookup(t, root).Some? { MadeKeeps(t, d, root, target); }
      }
    }
  }

  /** Then the whole source tree, hidden entries included, stands at the target, the source is gone, and everything apart
      from both is as it was. */
  lemma MoveLaw(t: Tree, root: Path, target: Path)
    requires root != [] && target != [] && Lookup(t, target).None? && MoveWhole(t, root, target).0
    ensures var t' := MoveWhole(t, root, target).1;
            && Lookup(t', target) == Lookup(t, root) && Lookup(t', root).None?
            && forall q :: Apart(root, q) && Apart(target, q) ==> Lookup(t', q) == Lookup(t, q)
  {
    MoveExactly(t, root, target);
    var d, n := Parent(target), target[|target| - 1];
    var u := MkdirAll(t, d).value;
    assert d + [n] == target;
    MkdirAllKeeps(t, d, target);
    MadeKeeps(t, d, root, target);
    RenameMoves(u, root, target);
    DetachKeepsDir(u, root, d);
    var rest := Detach(u, root);
    ApartOrNested(target, root);
    if target < root { LookupPrefix(t, target, root); }
    DetachLookup(u, root, root);
    PutKidApart(rest, d, n, Lookup(u, root).value, root);
    forall q | Apart(root, q) && Apart(target, q) ensures Lookup(MoveWhole(t, root, target).1, q) == Lookup(t, q) {
      MovedApart(t, root, target, q);
    }
  }

  lemma MovedApart(t: Tree, root: Path, target: Path, q: Path)
    requires root != [] && target != [] && Lookup(t, target).None? && MoveWhole(t, root, target).0
    requires Apart(root, q) && Apart(target, q)
    ensures Lookup(MoveWhole(t, root, target).1, q) == Lookup(t, q)
  {
    var d, n := Parent(target), target[|target| - 1];
    var u := MkdirAll(t, d).value;
    assert d + [n] == target;
    MoveExactly(t, root, target);
    MadeKeeps(t, d, root, target);
    MkdirAllKeeps(t, d, target);
    DetachKeepsDir(u, root, d);
    DetachLookup(u, root, q);
    PutKidApart(Detach(u, root), d, n, Lookup(u, root).value, q);
    MadeKeepsApart(t, d, n, q);
  }

  lemma {:induction false} MadeKeepsApart(t: Tree, d: Path, n: string, q: Path)
    requires MkdirAll(t, d).Some? && Apart(d + [n], q)
    ensures Lookup(MkdirAll(t, d).value, q) == Lookup(t, q)
    decreases |d|
  {
    if d != [] && q[0] == d[0] {
      assert (d + [n])[1..] == d[1..] + [n];
      ApartTails(d + [n], q);
      MadeKeepsApart(if d[0] in t.kids then t.kids[d[0]] else Dir(map[]), d[1..], n, q[1..]);
    }
  }
}
