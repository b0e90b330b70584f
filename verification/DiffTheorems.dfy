/** The sync makes the target's visible tree equal to the source's, and reports nothing exactly when they agree. */
module DiffTheorems {
  import opened Prelude
  import opened Strings
  import opened FileTree
  import opened DiffModel

  function At(kids: Kids, n: string): Option<Tree> {
    if n in kids then Some(kids[n]) else None
  }

  lemma FileStepElsewhere(status: Status, r: Path, rk: Kids, tk: Kids, cur: Kids, n: string, m: string)
    requires m != n
    ensures At(FileStep(status, r, rk, tk, cur, n), m) == At(cur, m)
  {
  }

  lemma DirStepElsewhere(status: Status, r: Path, rk: Kids, tk: Kids, cur: Kids, n: string, m: string)
    requires m != n
    ensures At(DirStep(status, r, rk, tk, cur, n), m) == At(cur, m)
  {
  }

  lemma FileStepHere(status: Status, r: Path, rk: Kids, tk: Kids, cur: Kids, cur': Kids, n: string)
    requires At(cur, n) == At(cur', n)
    ensures At(FileStep(status, r, rk, tk, cur, n), n) == At(FileStep(status, r, rk, tk, cur', n), n)
  {
  }

  lemma DirStepHere(status: Status, r: Path, rk: Kids, tk: Kids, cur: Kids, cur': Kids, n: string)
    requires At(cur, n) == At(cur', n)
    ensures At(DirStep(status, r, rk, tk, cur, n), n) == At(DirStep(status, r, rk, tk, cur', n), n)
  {
  }

  lemma {:induction false} FilesFoldAt(status: Status, r: Path, rk: Kids, tk: Kids, names: seq<string>, n: string)
    requires Distinct(names)
    ensures At(FilesFold(status, r, rk, tk, names), n) ==
            if n in names then At(FileStep(status, r, rk, tk, tk, n), n) else At(tk, n)
  {
    hide FileStep;
    if names != [] {
      var last := |names| - 1;
      FilesFoldAt(status, r, rk, tk, names[..last], n);
      assert names == names[..last] + [names[last]];
      var cur := FilesFold(status, r, rk, tk, names[..last]);
      if n == names[last] {
        FileStepHere(status, r, rk, tk, cur, tk, n);
      } else {
        FileStepElsewhere(status, r, rk, tk, cur, names[last], n);
      }
    }
  }

  lemma {:induction false} DirsFoldAt(status: Status, r: Path, rk: Kids, tk: Kids, cur: Kids, names: seq<string>, n: string)
    requires Distinct(names)
    ensures At(DirsFold(status, r, rk, tk, cur, names), n) ==
            if n in names then At(DirStep(status, r, rk, tk, cur, n), n) else At(cur, n)
  {
    hide DirStep;
    if names != [] {
      var last := |names| - 1;
      DirsFoldAt(status, r, rk, tk, cur, names[..last], n);
      assert names == names[..last] + [names[last]];
      var before := DirsFold(status, r, rk, tk, cur, names[..last]);
      if n == names[last] {
        DirStepHere(status, r, rk, tk, before, cur, n);
      } else {
        DirStepElsewhere(status, r, rk, tk, before, names[last], n);
      }
    }
  }

  /** What becomes of each name, in the terms of the two loops. */
  lemma SyncedName(status: Status, r: Path, rk: Kids, tk: Kids, n: string)
    ensures At(SyncKids(status, r, rk, tk), n) ==
            if Hidden(n) then At(tk, n)
            else if n in Files(rk) then
              if n in Files(tk) && !Changed(status, r + [n], rk[n].content, tk[n].content) then At(tk, n) else At(rk, n)
            else if n in Dirs(rk) then
              if n in Dirs(tk) then Some(Dir(SyncKids(status, r + [n], rk[n].kids, tk[n].kids))) else At(rk, n)
            else None
  {
    hide SortedNames;
    var files, dirs := SortedNames(Files(rk) + Files(tk)), SortedNames(DirNames(rk, tk));
    SortedNamesDistinct(Files(rk) + Files(tk));
    SortedNamesDistinct(DirNames(rk, tk));
    var cur := FilesFold(status, r, rk, tk, files);
    FilesFoldAt(status, r, rk, tk, files, n);
    DirsFoldAt(status, r, rk, tk, cur, dirs, n);
  }

  /** What the sync looks at: names that do not begin with a dot, and two that do. */
  ghost predicate Seen(n: string) {
    n != "" && (n[0] != '.' || n == ".abstract.md" || n == ".overview.md")
  }

  lemma SeenExactly(n: string)
    ensures Seen(n) <==> !Hidden(n)
  {
  }

  /** A name that is not looked at keeps its target entry. Where two files meet, the source wins if the status tells that
      it has changed, or without a status if the contents differ; two directories are synced; otherwise the name has
      what it had in the source, if anything. */
  lemma SyncedAt(status: Status, r: Path, rk: Kids, tk: Kids, n: string)
    ensures !Seen(n) ==> At(SyncKids(status, r, rk, tk), n) == At(tk, n)
    ensures Seen(n) && n in rk && n in tk && rk[n].File? && tk[n].File? ==>
              var takes := match status case None => rk[n].content != tk[n].content case Some(m) => r + [n] in m && m[r + [n]];
              At(SyncKids(status, r, rk, tk), n) == Some(if takes then rk[n] else tk[n])
    ensures Seen(n) && n in rk && n in tk && rk[n].Dir? && tk[n].Dir? ==>
              At(SyncKids(status, r, rk, tk), n) == Some(Dir(SyncKids(status, r + [n], rk[n].kids, tk[n].kids)))
    ensures Seen(n) && !(n in rk && n in tk && rk[n].Dir? == tk[n].Dir?) ==> At(SyncKids(status, r, rk, tk), n) == At(rk, n)
  {
    hide SyncKids, Hidden;
    SyncedName(status, r, rk, tk, n);
    SeenExactly(n);
  }

  /** The given status reports a change wherever two files that meet have different contents. */
  ghost predicate Honest(status: Status, r: Path, rk: Kids, tk: Kids)
    decreases Dir(rk)
  {
    && (forall n :: n in Files(rk) && n in Files(tk) && rk[n].content != tk[n].content ==>
                      Changed(status, r + [n], rk[n].content, tk[n].content))
    && (forall n :: n in Dirs(rk) && n in Dirs(tk) ==> Honest(status, r + [n], rk[n].kids, tk[n].kids))
  }

  lemma SameVisible(a: Kids, b: Kids)
    requires forall n :: !Hidden(n) ==> (n in a <==> n in b) && (n in a && n in b ==> Visible(a[n]) == Visible(b[n]))
    ensures VisibleKids(a) == VisibleKids(b)
  {
  }

  lemma VisibleAt(a: Kids, b: Kids, n: string)
    requires VisibleKids(a) == VisibleKids(b) && !Hidden(n)
    ensures (n in a <==> n in b) && (n in a ==> Visible(a[n]) == Visible(b[n]))
    ensures n in a ==> (a[n].File? <==> b[n].File?)
    ensures n in Files(a) ==> n in Files(b) && a[n] == b[n]
    ensures n in Dirs(a) ==> n in Dirs(b) && VisibleKids(a[n].kids) == VisibleKids(b[n].kids)
  {
    assert n in a <==> n in VisibleKids(a);
    assert n in b <==> n in VisibleKids(b);
    if n in a {
      assert VisibleKids(a)[n] == VisibleKids(b)[n];
    }
  }

  /**
   * The target ends with the source's visible tree, whatever conflicts there were, exactly when the change status
   * misses no changed file.
   */
  lemma {:induction false} SyncedIffHonest(status: Status, r: Path, rk: Kids, tk: Kids)
    ensures VisibleKids(SyncKids(status, r, rk, tk)) == VisibleKids(rk) <==> Honest(status, r, rk, tk)
    decreases Dir(rk)
  {
    var out := SyncKids(status, r, rk, tk);
    if Honest(status, r, rk, tk) {
      forall n | !Hidden(n) ensures (n in out <==> n in rk) && (n in out && n in rk ==> Visible(out[n]) == Visible(rk[n])) {
        SyncedName(status, r, rk, tk, n);
        if n in Dirs(rk) && n in Dirs(tk) {
          SyncedIffHonest(status, r + [n], rk[n].kids, tk[n].kids);
        }
      }
      SameVisible(out, rk);
    }
    if VisibleKids(out) == VisibleKids(rk) {
      forall n | n in Files(rk) && n in Files(tk) && rk[n].content != tk[n].content
        ensures Changed(status, r + [n], rk[n].content, tk[n].content)
      {
        SyncedName(status, r, rk, tk, n);
        VisibleAt(out, rk, n);
      }
      forall n | n in Dirs(rk) && n in Dirs(tk) ensures Honest(status, r + [n], rk[n].kids, tk[n].kids) {
        SyncedName(status, r, rk, tk, n);
        VisibleAt(out, rk, n);
        SyncedIffHonest(status, r + [n], rk[n].kids, tk[n].kids);
      }
    }
  }

  lemma {:induction false} ComparingIsHonest(r: Path, rk: Kids, tk: Kids)
    ensures Honest(None, r, rk, tk)
    decreases Dir(rk)
  {
    forall n | n in Dirs(rk) && n in Dirs(tk) ensures Honest(None, r + [n], rk[n].kids, tk[n].kids) {
      ComparingIsHonest(r + [n], rk[n].kids, tk[n].kids);
    }
  }

  /** Comparing contents, the sync always works. */
  lemma SyncMakesEqual(r: Path, rk: Kids, tk: Kids)
    ensures VisibleKids(SyncKids(None, r, rk, tk)) == VisibleKids(rk)
  {
    ComparingIsHonest(r, rk, tk);
    SyncedIffHonest(None, r, rk, tk);
  }

  /** The target's own hidden entries survive. */
  lemma HiddenStays(status: Status, r: Path, rk: Kids, tk: Kids, n: string)
    requires Hidden(n)
    ensures At(SyncKids(status, r, rk, tk), n) == At(tk, n)
  {
    SyncedName(status, r, rk, tk, n);
  }

  // ----- The report -----

  lemma {:induction false} FilesQuiet(status: Status, r: Path, s: Path, rk: Kids, tk: Kids, names: seq<string>)
    ensures FilesDiff(status, r, s, rk, tk, names).IsEmpty() <==>
            forall n :: n in names ==> FileDiff(status, r, s, rk, tk, n).IsEmpty()
  {
    if names != [] {
      var last := |names| - 1;
      FilesQuiet(status, r, s, rk, tk, names[..last]);
      assert names == names[..last] + [names[last]];
      assert names[last] in names;
    }
  }

  lemma {:induction false} DirsQuiet(status: Status, r: Path, s: Path, rk: Kids, tk: Kids, names: seq<string>)
    ensures DirsDiff(status, r, s, rk, tk, names).IsEmpty() <==>
            forall n :: n in names ==> DirDiff(status, r, s, rk, tk, n).IsEmpty()
  {
    if names != [] {
      var last := |names| - 1;
      DirsQuiet(status, r, s, rk, tk, names[..last]);
      assert names == names[..last] + [names[last]];
      assert names[last] in names;
    }
  }

  lemma SyncQuiet(status: Status, r: Path, s: Path, rk: Kids, tk: Kids)
    ensures SyncDiff(status, r, s, rk, tk).IsEmpty() <==>
            && (forall n :: n in Files(rk) + Files(tk) ==> FileDiff(status, r, s, rk, tk, n).IsEmpty())
            && (forall n :: n in DirNames(rk, tk) ==> DirDiff(status, r, s, rk, tk, n).IsEmpty())
  {
    hide SortedNames, FileDiff, DirDiff, Files, DirNames;
    FilesQuiet(status, r, s, rk, tk, SortedNames(Files(rk) + Files(tk)));
    DirsQuiet(status, r, s, rk, tk, SortedNames(DirNames(rk, tk)));
  }

  /** Nothing is reported exactly when the two visible trees were equal to begin with. */
  lemma {:induction false} EmptyIffEqual(r: Path, s: Path, rk: Kids, tk: Kids)
    ensures SyncDiff(None, r, s, rk, tk).IsEmpty() <==> VisibleKids(rk) == VisibleKids(tk)
    decreases Dir(rk)
  {
    SyncQuiet(None, r, s, rk, tk);
    if SyncDiff(None, r, s, rk, tk).IsEmpty() {
      forall n | !Hidden(n) ensures (n in rk <==> n in tk) && (n in rk && n in tk ==> Visible(rk[n]) == Visible(tk[n])) {
        QuietName(r, s, rk, tk, n);
        if n in Dirs(rk) && n in Dirs(tk) {
          EmptyIffEqual(r + [n], s + [n], rk[n].kids, tk[n].kids);
        }
      }
      SameVisible(rk, tk);
    }
    if VisibleKids(rk) == VisibleKids(tk) {
      forall n | n in Files(rk) + Files(tk) ensures FileDiff(None, r, s, rk, tk, n).IsEmpty() {
        VisibleAt(rk, tk, n);
        VisibleAt(tk, rk, n);
      }
      forall n | n in DirNames(rk, tk) ensures DirDiff(None, r, s, rk, tk, n).IsEmpty() {
        VisibleAt(rk, tk, n);
        VisibleAt(tk, rk, n);
        EmptyIffEqual(r + [n], s + [n], rk[n].kids, tk[n].kids);
      }
    }
  }

  lemma QuietName(r: Path, s: Path, rk: Kids, tk: Kids, n: string)
    requires !Hidden(n)
    requires n in Files(rk) + Files(tk) ==> FileDiff(None, r, s, rk, tk, n).IsEmpty()
    requires n in DirNames(rk, tk) ==> DirDiff(None, r, s, rk, tk, n).IsEmpty()
    ensures n in rk <==> n in tk
    ensures n in rk && rk[n].File? ==> rk[n] == tk[n]
    ensures n in rk && rk[n].Dir? ==>
            n in Dirs(rk) && n in Dirs(tk) && SyncDiff(None, r + [n], s + [n], rk[n].kids, tk[n].kids).IsEmpty()
  {
  }
}
