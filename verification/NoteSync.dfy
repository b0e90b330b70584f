/** Incremental mirroring of remote notes into a target directory. */
module NoteSync {
  import opened Prelude

  datatype Note = Note(path: string, content: string, hash: string)

  datatype Page = Page(paths: seq<string>, totalRows: int)

  /** The server and the disk during one sync: listings, notes, and whether writes and removals work. */
  datatype World = World(list: nat -> Option<Page>, get: string -> Option<Note>, writeOk: string -> bool, rmOk: string -> bool)

  const PAGE_SIZE := 100

  datatype Outcome = Added | Updated | Skipped | Failed

  datatype SyncResult = SyncResult(added: nat, updated: nat, deleted: nat, skipped: nat, errors: nat)

  type Hashes = map<string, string>
  type Files = map<string, string>

  /** The server answers with the note that was asked for. */
  ghost predicate Answers(w: World) {
    forall p :: w.get(p).Some? ==> w.get(p).value.path == p
  }

  /** Moreover the hash of each note is that of its content. */
  ghost predicate Faithful(w: World, hash: string -> string) {
    Answers(w) && forall p :: w.get(p).Some? ==> w.get(p).value.hash == hash(w.get(p).value.content)
  }

  function At(m: map<string, string>, p: string): Option<string> {
    if p in m then Some(m[p]) else None
  }

  /** A note without a hash counts as unknown. */
  function Previous(h: Hashes, p: string): string {
    if p in h then h[p] else ""
  }

  /** What a sync does with a listed path, given the hashes it started from. */
  function OutcomeOf(w: World, h: Hashes, p: string): Outcome {
    match w.get(p)
    case None => Failed
    case Some(note) =>
      if note.hash == Previous(h, p) && Previous(h, p) != "" then Skipped
      else if !w.writeOk(note.path) then Failed
      else if Previous(h, p) == "" then Added
      else Updated
  }

  predicate Written(w: World, h: Hashes, p: string)
    ensures Written(w, h, p) ==> w.get(p).Some?
  {
    OutcomeOf(w, h, p) == Added || OutcomeOf(w, h, p) == Updated
  }

  function HashAfter(w: World, h: Hashes, p: string): Option<string> {
    if Written(w, h, p) then Some(w.get(p).value.hash) else At(h, p)
  }

  function FileAfter(w: World, h: Hashes, files: Files, p: string): Option<string> {
    if Written(w, h, p) then Some(w.get(p).value.content) else At(files, p)
  }

  /** Every tracked path holds a file with the recorded hash. */
  ghost predicate Mirrors(h: Hashes, files: Files, hash: string -> string) {
    forall p :: p in h ==> p in files && hash(files[p]) == h[p]
  }

  function With(w: World, h: Hashes, seen: set<string>, o: Outcome): set<string> {
    set p | p in seen && OutcomeOf(w, h, p) == o
  }

  ghost predicate Counted(w: World, h: Hashes, seen: set<string>, r: SyncResult) {
    && r.added == |With(w, h, seen, Added)| && r.updated == |With(w, h, seen, Updated)|
    && r.skipped == |With(w, h, seen, Skipped)| && r.errors == |With(w, h, seen, Failed)|
  }

  function Count(r: SyncResult, o: Outcome): SyncResult {
    match o
    case Added => r.(added := r.added + 1)
    case Updated => r.(updated := r.updated + 1)
    case Skipped => r.(skipped := r.skipped + 1)
    case Failed => r.(errors := r.errors + 1)
  }

  lemma WithGrows(w: World, h: Hashes, seen: set<string>, p: string, o: Outcome)
    requires p !in seen
    ensures |With(w, h, seen + {p}, o)| == |With(w, h, seen, o)| + if OutcomeOf(w, h, p) == o then 1 else 0
  {
    if OutcomeOf(w, h, p) == o {
      assert With(w, h, seen + {p}, o) == With(w, h, seen, o) + {p};
    } else {
      assert With(w, h, seen + {p}, o) == With(w, h, seen, o);
    }
  }

  lemma CountGrows(w: World, h: Hashes, seen: set<string>, p: string, r: SyncResult)
    requires p !in seen && Counted(w, h, seen, r)
    ensures Counted(w, h, seen + {p}, Count(r, OutcomeOf(w, h, p)))
  {
    WithGrows(w, h, seen, p, Added);
    WithGrows(w, h, seen, p, Updated);
    WithGrows(w, h, seen, p, Skipped);
    WithGrows(w, h, seen, p, Failed);
  }

  /** Every distinct path seen has exactly one outcome. */
  lemma OutcomesPartition(w: World, h: Hashes, seen: set<string>, r: SyncResult)
    requires Counted(w, h, seen, r)
    ensures r.added + r.updated + r.skipped + r.errors == |seen|
  {
    hide OutcomeOf, Counted;
    CountedIs(w, h, seen, r);
    var a, u, s, f := With(w, h, seen, Added), With(w, h, seen, Updated), With(w, h, seen, Skipped), With(w, h, seen, Failed);
    forall p ensures p in seen <==> p in a + u + s + f {
      var o := OutcomeOf(w, h, p);
      assert o == Added || o == Updated || o == Skipped || o == Failed;
    }
    assert a !! u && (a + u) !! s && (a + u + s) !! f;
    FourParts(a, u, s, f, seen);
  }

  lemma CountedIs(w: World, h: Hashes, seen: set<string>, r: SyncResult)
    requires Counted(w, h, seen, r)
    ensures r.added == |With(w, h, seen, Added)| && r.updated == |With(w, h, seen, Updated)|
    ensures r.skipped == |With(w, h, seen, Skipped)| && r.errors == |With(w, h, seen, Failed)|
  {
  }

  lemma FourParts(a: set<string>, b: set<string>, c: set<string>, d: set<string>, all: set<string>)
    requires a !! b && (a + b) !! c && (a + b + c) !! d
    requires forall p :: p in all <==> p in a + b + c + d
    ensures |all| == |a| + |b| + |c| + |d|
  {
    assert all == a + b + c + d;
  }

  /**
   * The maps after all paths in `seen` have been handled, nothing deleted yet. A note is written under the path it
   * carries itself, so which file it becomes is known when that is the path that was asked for.
   */
  ghost predicate Handled(w: World, h0: Hashes, f0: Files, seen: set<string>, h: Hashes, f: Files) {
    forall p :: && At(h, p) == (if p in seen then HashAfter(w, h0, p) else At(h0, p))
                && (Answers(w) ==> At(f, p) == if p in seen then FileAfter(w, h0, f0, p) else At(f0, p))
  }

  /** What one listed path does to the hashes, to the files, and to the counts. */
  function HashesStep(w: World, h: Hashes, p: string): Hashes {
    if Written(w, h, p) then h[p := w.get(p).value.hash] else h
  }

  function FilesStep(w: World, h: Hashes, f: Files, p: string): Files {
    if Written(w, h, p) then f[w.get(p).value.path := w.get(p).value.content] else f
  }

  lemma OneMoreHandled(w: World, h0: Hashes, f0: Files, seen: set<string>, h: Hashes, f: Files, r: SyncResult, p: string)
    requires p !in seen && Handled(w, h0, f0, seen, h, f) && Counted(w, h0, seen, r)
    ensures Handled(w, h0, f0, seen + {p}, HashesStep(w, h, p), FilesStep(w, h, f, p))
    ensures Counted(w, h0, seen + {p}, Count(r, OutcomeOf(w, h, p)))
  {
    hide Counted, Count;
    CountGrows(w, h0, seen, p, r);
    assert At(h, p) == At(h0, p);
    SameOutcome(w, h, h0, p);
    hide OutcomeOf, Written;
  }

  lemma SameOutcome(w: World, h: Hashes, h0: Hashes, p: string)
    requires At(h, p) == At(h0, p)
    ensures OutcomeOf(w, h, p) == OutcomeOf(w, h0, p) && Written(w, h, p) == Written(w, h0, p)
  {
  }

  /** The paths on the first `n` pages. */
  function Listed(w: World, n: nat): set<string> {
    if n == 0 then {} else Listed(w, n - 1) + if w.list(n).Some? then (set p | p in w.list(n).value.paths) else {}
  }

  lemma ListedNone(w: World)
    ensures Listed(w, 0) == {}
  {
  }

  lemma ListedMore(w: World, n: nat)
    requires n > 0 && w.list(n).Some?
    ensures Listed(w, n) == Listed(w, n - 1) + set p | p in w.list(n).value.paths
  {
  }

  function Removable(w: World, paths: set<string>): set<string> {
    set p | p in paths && w.rmOk(p)
  }

  function Unseen(h: Hashes, seen: set<string>): set<string> {
    set p | p in h && p !in seen
  }

  function Without(m: map<string, string>, gone: set<string>): map<string, string> {
    map p | p in m && p !in gone :: m[p]
  }

  /** Where the deletion loop stands: `gone` is dealt with, `rest` is still to come. */
  ghost predicate DeletedUpTo(w: World, h: Hashes, f: Files, seen: set<string>, gone: set<string>, rest: set<string>,
                              h': Hashes, f': Files)
  {
    && (forall p :: p in Unseen(h, seen) <==> p in gone || (p in rest && p !in seen))
    && (forall p :: p in rest ==> p in h && p !in gone)
    && h' == Without(h, gone) && f' == Without(f, Removable(w, gone))
  }

  lemma NothingGone(w: World, h: Hashes, f: Files, seen: set<string>)
    ensures DeletedUpTo(w, h, f, seen, {}, h.Keys, h, f)
  {
  }

  lemma OneMoreGone(w: World, h: Hashes, f: Files, seen: set<string>, gone: set<string>, rest: set<string>,
                    h': Hashes, f': Files, p: string)
    requires p in rest && DeletedUpTo(w, h, f, seen, gone, rest, h', f')
    ensures p !in gone
    ensures p in seen ==> DeletedUpTo(w, h, f, seen, gone, rest - {p}, h', f')
    ensures p !in seen ==> DeletedUpTo(w, h, f, seen, gone + {p}, rest - {p}, h' - {p}, if w.rmOk(p) then f' - {p} else f')
  {
  }

  lemma AllGone(w: World, h: Hashes, f: Files, seen: set<string>, gone: set<string>, h': Hashes, f': Files)
    requires DeletedUpTo(w, h, f, seen, gone, {}, h', f')
    ensures gone == Unseen(h, seen) && h' == Without(h, gone) && f' == Without(f, Removable(w, gone))
  {
  }

  class Syncer {
    var noteHashes: Hashes
    var files: Files

    constructor (noteHashes: Hashes, files: Files)
      ensures this.noteHashes == noteHashes && this.files == files
    {
      this.noteHashes := noteHashes;
      this.files := files;
    }

    /** One listed path that has not been seen before. */
    method SyncNote(w: World, p: string, r0: SyncResult) returns (r: SyncResult)
      modifies this
      ensures noteHashes == HashesStep(w, old(noteHashes), p)
      ensures files == FilesStep(w, old(noteHashes), old(files), p)
      ensures r == Count(r0, OutcomeOf(w, old(noteHashes), p))
      ensures var note, prev := w.get(p), if p in old(noteHashes) then old(noteHashes)[p] else "";
              if note.Some? && (prev == "" || note.value.hash != prev) && w.writeOk(note.value.path) then
                && noteHashes == old(noteHashes)[p := note.value.hash]
                && files == old(files)[note.value.path := note.value.content]
                && r == if prev == "" then r0.(added := r0.added + 1) else r0.(updated := r0.updated + 1)
              else
                && noteHashes == old(noteHashes) && files == old(files)
                && r == if note.Some? && prev != "" && note.value.hash == prev then r0.(skipped := r0.skipped + 1)
                        else r0.(errors := r0.errors + 1)
    {
      var prevHash := Previous(noteHashes, p);
      var found := w.get(p);
      if found.None? {
        return r0.(errors := r0.errors + 1);
      }
      var note := found.value;
      if note.hash == prevHash && prevHash != "" {
        return r0.(skipped := r0.skipped + 1);
      }
      if !w.writeOk(note.path) {
        return r0.(errors := r0.errors + 1);
      }
      files := files[note.path := note.content];
      if prevHash == "" {
        r := r0.(added := r0.added + 1);
      } else {
        r := r0.(updated := r0.updated + 1);
      }
      noteHashes := noteHashes[p := note.hash];
    }

    method SyncPage(w: World, paths: seq<string>, ghost h0: Hashes, ghost f0: Files, seen0: set<string>, r0: SyncResult)
      returns (seen: set<string>, r: SyncResult)
      requires Handled(w, h0, f0, seen0, noteHashes, files) && Counted(w, h0, seen0, r0)
      modifies this
      ensures seen == seen0 + (set p | p in paths)
      ensures Handled(w, h0, f0, seen, noteHashes, files) && Counted(w, h0, seen, r) && r.deleted == r0.deleted
    {
      hide Handled, Counted, HashesStep, FilesStep, OutcomeOf;
      seen, r := seen0, r0;
      for i := 0 to |paths|
        invariant seen == seen0 + (set p | p in paths[..i])
        invariant Handled(w, h0, f0, seen, noteHashes, files) && Counted(w, h0, seen, r) && r.deleted == r0.deleted
      {
        assert paths[..i + 1] == paths[..i] + [paths[i]];
        if paths[i] in seen {
          continue;
        }
        OneMoreHandled(w, h0, f0, seen, noteHashes, files, r, paths[i]);
        r := SyncNote(w, paths[i], r);
        seen := seen + {paths[i]};
      }
      assert paths[..|paths|] == paths;
    }

    /** Stops tracking every path that was not seen; the file goes too, if it can be removed. */
    method DeleteUnseen(w: World, seen: set<string>) returns (deleted: nat)
      modifies this
      ensures noteHashes == Without(old(noteHashes), Unseen(old(noteHashes), seen))
      ensures files == Without(old(files), Removable(w, Unseen(old(noteHashes), seen)))
      ensures deleted == |Unseen(old(noteHashes), seen)|
    {
      hide *;
      deleted := 0;
      ghost var gone: set<string> := {};
      ghost var h, f := noteHashes, files;
      NothingGone(w, h, f, seen);
      var rest := noteHashes.Keys;
      while rest != {}
        invariant DeletedUpTo(w, h, f, seen, gone, rest, noteHashes, files)
        invariant deleted == |gone|
        decreases |rest|
      {
        var p :| p in rest;
        OneMoreGone(w, h, f, seen, gone, rest, noteHashes, files, p);
        rest := rest - {p};
        if p !in seen {
          if w.rmOk(p) {
            files := files - {p};
          }
          noteHashes := noteHashes - {p};
          deleted := deleted + 1;
          gone := gone + {p};
        }
      }
      AllGone(w, h, f, seen, gone, noteHashes, files);
    }

    /**
     * One sync: pages until the reported total is covered, then deletions. A page that cannot be listed ends it with an
     * error after what was done so far. `bound` limits the totals that the server reports.
     */
    method Sync(w: World, ghost bound: nat) returns (r: Option<SyncResult>, ghost seen: set<string>, ghost pages: nat)
      requires forall k :: w.list(k).Some? ==> w.list(k).value.totalRows <= bound
      modifies this
      ensures r.None? ==> Handled(w, old(noteHashes), old(files), seen, noteHashes, files)
      ensures seen == Listed(w, pages)
      ensures r.Some? ==> && Synced(w, old(noteHashes), old(files), seen, noteHashes, files, r.value)
                          && pages > 0 && w.list(pages).Some? && pages * 100 >= w.list(pages).value.totalRows
      ensures forall k :: 0 < k && (if r.Some? then k < pages else k <= pages) ==>
                            w.list(k).Some? && k * 100 < w.list(k).value.totalRows
      ensures r.None? ==> w.list(pages + 1).None?
    {
      hide Handled, Counted, Synced, Listed;
      ghost var h0, f0 := noteHashes, files;
      ListedNone(w);
      var seenPaths: set<string> := {};
      var result := SyncResult(0, 0, 0, 0, 0);
      SyncBegins(w, h0, f0);
      var page := 1;
      while true
        invariant page >= 1 && seenPaths == Listed(w, page - 1)
        invariant forall k :: 0 < k < page ==> w.list(k).Some? && k * PAGE_SIZE < w.list(k).value.totalRows
        invariant Handled(w, h0, f0, seenPaths, noteHashes, files) && Counted(w, h0, seenPaths, result) && result.deleted == 0
        decreases bound - page * PAGE_SIZE + PAGE_SIZE
      {
        var resp := w.list(page);
        if resp.None? {
          return None, seenPaths, page - 1;
        }
        ListedMore(w, page);
        seenPaths, result := SyncPage(w, resp.value.paths, h0, f0, seenPaths, result);
        if page * PAGE_SIZE >= resp.value.totalRows {
          break;
        }
        page := page + 1;
      }
      ghost var h1, f1 := noteHashes, files;
      var deleted := DeleteUnseen(w, seenPaths);
      SyncEnds(w, h0, f0, seenPaths, h1, f1, noteHashes, files, result, deleted);
      return Some(result.(deleted := deleted)), seenPaths, page;
    }
  }

  lemma SyncBegins(w: World, h: Hashes, f: Files)
    ensures Handled(w, h, f, {}, h, f) && Counted(w, h, {}, SyncResult(0, 0, 0, 0, 0))
  {
  }

  /** The state and the counts that a complete sync leaves. */
  ghost predicate Synced(w: World, h0: Hashes, f0: Files, seen: set<string>, h: Hashes, f: Files, r: SyncResult) {
    && Counted(w, h0, seen, r)
    && (forall p :: At(h, p) == if p in seen then HashAfter(w, h0, p) else None)
    && (Answers(w) ==> forall p :: At(f, p) == if p in seen then FileAfter(w, h0, f0, p)
                                               else if p in h0 && w.rmOk(p) then None else At(f0, p))
    && r.deleted == |Unseen(h0, seen)|
  }

  lemma SyncEnds(w: World, h0: Hashes, f0: Files, seen: set<string>, h1: Hashes, f1: Files, h: Hashes, f: Files,
                 r: SyncResult, deleted: nat)
    requires Handled(w, h0, f0, seen, h1, f1) && Counted(w, h0, seen, r)
    requires h == Without(h1, Unseen(h1, seen)) && f == Without(f1, Removable(w, Unseen(h1, seen))) && deleted == |Unseen(h1, seen)|
    ensures Synced(w, h0, f0, seen, h, f, r.(deleted := deleted))
  {
    hide Counted, HashAfter, FileAfter, Handled, Removable, Unseen, Without, At, Answers;
    CountedAnyway(w, h0, seen, r, deleted);
    UnseenSame(w, h0, f0, seen, h1, f1);
    forall p
      ensures At(h, p) == if p in seen then HashAfter(w, h0, p) else None
      ensures Answers(w) ==>
                At(f, p) == if p in seen then FileAfter(w, h0, f0, p) else if p in h0 && w.rmOk(p) then None else At(f0, p)
    {
      HandledAt(w, h0, f0, seen, h1, f1, p);
      DeletedAt(w, h1, seen, f1, p);
    }
  }

  lemma DeletedAt(w: World, h: Hashes, seen: set<string>, m: map<string, string>, p: string)
    ensures At(Without(h, Unseen(h, seen)), p) == if p in seen then At(h, p) else None
    ensures At(Without(m, Removable(w, Unseen(h, seen))), p) == if p in h && p !in seen && w.rmOk(p) then None else At(m, p)
  {
  }

  lemma CountedAnyway(w: World, h: Hashes, seen: set<string>, r: SyncResult, deleted: nat)
    requires Counted(w, h, seen, r)
    ensures Counted(w, h, seen, r.(deleted := deleted))
  {
  }

  lemma HandledAt(w: World, h0: Hashes, f0: Files, seen: set<string>, h: Hashes, f: Files, p: string)
    requires Handled(w, h0, f0, seen, h, f)
    ensures At(h, p) == (if p in seen then HashAfter(w, h0, p) else At(h0, p))
    ensures Answers(w) ==> At(f, p) == if p in seen then FileAfter(w, h0, f0, p) else At(f0, p)
  {
  }

  lemma UnseenSame(w: World, h0: Hashes, f0: Files, seen: set<string>, h1: Hashes, f1: Files)
    requires Handled(w, h0, f0, seen, h1, f1)
    ensures Unseen(h1, seen) == Unseen(h0, seen)
    ensures forall p :: p !in seen ==> (p in h1 <==> p in h0)
  {
  }

  // ----- What the mirror keeps -----

  lemma SyncedAt(w: World, h0: Hashes, f0: Files, seen: set<string>, h: Hashes, f: Files, r: SyncResult, p: string)
    requires Synced(w, h0, f0, seen, h, f, r)
    ensures At(h, p) == if p in seen then HashAfter(w, h0, p) else None
    ensures Answers(w) ==>
              At(f, p) == if p in seen then FileAfter(w, h0, f0, p)
                          else if p in h0 && w.rmOk(p) then None else At(f0, p)
    ensures r.errors == 0 && p in seen ==> OutcomeOf(w, h0, p) != Failed
  {
    hide HashAfter, FileAfter, OutcomeOf;
    if r.errors == 0 && p in seen {
      assert p !in With(w, h0, seen, Failed);
    }
  }

  /** Interrupted or complete, with failures or without: a tracked path's hash is that of the file the target holds. */
  lemma SyncKeepsMirror(w: World, h0: Hashes, f0: Files, seen: set<string>, h: Hashes, f: Files, r: SyncResult, hash: string -> string)
    requires Mirrors(h0, f0, hash) && Faithful(w, hash)
    requires Handled(w, h0, f0, seen, h, f) || Synced(w, h0, f0, seen, h, f, r)
    ensures Mirrors(h, f, hash)
  {
    hide Handled, Synced;
    forall p | p in h ensures p in f && hash(f[p]) == h[p] {
      if Handled(w, h0, f0, seen, h, f) {
        HandledAt(w, h0, f0, seen, h, f, p);
      } else {
        SyncedAt(w, h0, f0, seen, h, f, r, p);
      }
    }
  }

  /** The world of one sync, what it saw, and what it counted. */
  datatype Round = Round(w: World, seen: set<string>, result: SyncResult)

  /** Each round starts from what the one before it left, and either completes or breaks off on a page. */
  ghost predicate IsRun(hs: seq<Hashes>, fs: seq<Files>, rounds: seq<Round>, hash: string -> string) {
    && |hs| == |fs| == |rounds| + 1
    && forall i :: 0 <= i < |rounds| ==>
                     && Faithful(rounds[i].w, hash)
                     && (Handled(rounds[i].w, hs[i], fs[i], rounds[i].seen, hs[i + 1], fs[i + 1]) ||
                         Synced(rounds[i].w, hs[i], fs[i], rounds[i].seen, hs[i + 1], fs[i + 1], rounds[i].result))
  }

  /** Over any sequence of syncs the recorded hashes describe the target. */
  lemma {:induction false} RunKeepsMirror(hs: seq<Hashes>, fs: seq<Files>, rounds: seq<Round>, hash: string -> string, i: nat)
    requires IsRun(hs, fs, rounds, hash) && i < |hs| && Mirrors(hs[0], fs[0], hash)
    ensures Mirrors(hs[i], fs[i], hash)
  {
    hide Mirrors, Faithful, Handled, Synced;
    if i > 0 {
      RunKeepsMirror(hs, fs, rounds, hash, i - 1);
      var round := rounds[i - 1];
      SyncKeepsMirror(round.w, hs[i - 1], fs[i - 1], round.seen, hs[i], fs[i], round.result, hash);
    }
  }

  ghost predicate Injective(hash: string -> string) {
    forall a, b :: hash(a) == hash(b) ==> a == b
  }

  /** After a sync without errors the tracked paths are the listed ones, and the target holds the remote contents. */
  lemma SyncedIsMirror(w: World, h0: Hashes, f0: Files, seen: set<string>, h: Hashes, f: Files, r: SyncResult, hash: string -> string)
    requires Mirrors(h0, f0, hash) && Faithful(w, hash) && Injective(hash)
    requires Synced(w, h0, f0, seen, h, f, r) && r.errors == 0
    ensures h.Keys == seen
    ensures forall p :: p in seen ==> w.get(p).Some? && At(f, p) == Some(w.get(p).value.content) && At(h, p) == Some(w.get(p).value.hash)
  {
    hide Synced;
    forall p
      ensures p in h <==> p in seen
      ensures p in seen ==> w.get(p).Some? && At(f, p) == Some(w.get(p).value.content) && At(h, p) == Some(w.get(p).value.hash)
    {
      SyncedAt(w, h0, f0, seen, h, f, r, p);
    }
  }

  /** Syncing again with nothing changed, and no empty hash, skips every note and touches no tracked file. */
  lemma RepeatSkips(w: World, h0: Hashes, f0: Files, seen: set<string>, h: Hashes, f: Files, r: SyncResult, hash: string -> string,
                    h': Hashes, f': Files, r': SyncResult)
    requires Mirrors(h0, f0, hash) && Faithful(w, hash) && Injective(hash)
    requires Synced(w, h0, f0, seen, h, f, r) && r.errors == 0
    requires forall p :: p in seen && w.get(p).Some? ==> w.get(p).value.hash != ""
    requires Synced(w, h, f, seen, h', f', r')
    ensures r'.skipped == |seen| && r'.added == r'.updated == r'.errors == r'.deleted == 0
    ensures h' == h && f' == f
  {
    hide Synced, Mirrors, Answers, Injective, Written;
    SyncedIsMirror(w, h0, f0, seen, h, f, r, hash);
    forall p | p in seen ensures OutcomeOf(w, h, p) == Skipped && !Written(w, h, p) {
      SkippedNow(w, h, p);
    }
    AllSkipped(w, h, f, seen, h', f', r');
    forall p ensures At(h', p) == At(h, p) && At(f', p) == At(f, p) {
      SyncedAt(w, h, f, seen, h', f', r', p);
    }
    SameMap(h', h);
    SameMap(f', f);
  }

  lemma SkippedNow(w: World, h: Hashes, p: string)
    requires w.get(p).Some? && At(h, p) == Some(w.get(p).value.hash) && w.get(p).value.hash != ""
    ensures OutcomeOf(w, h, p) == Skipped && !Written(w, h, p)
  {
  }

  lemma AllSkipped(w: World, h: Hashes, f: Files, seen: set<string>, h': Hashes, f': Files, r: SyncResult)
    requires Synced(w, h, f, seen, h', f', r) && h.Keys == seen
    requires forall p :: p in seen ==> OutcomeOf(w, h, p) == Skipped
    ensures r.skipped == |seen| && r.added == r.updated == r.errors == r.deleted == 0
  {
    hide OutcomeOf, HashAfter, FileAfter;
    assert With(w, h, seen, Skipped) == seen;
    assert With(w, h, seen, Added) == With(w, h, seen, Updated) == With(w, h, seen, Failed) == {};
    assert Unseen(h, seen) == {};
  }

  lemma SameMap(a: map<string, string>, b: map<string, string>)
    requires forall p :: At(a, p) == At(b, p)
    ensures a == b
  {
    assert forall p :: p in a <==> At(a, p).Some?;
    assert forall p :: p in b <==> At(b, p).Some?;
    assert forall p :: p in a ==> At(a, p) == Some(a[p]) && At(b, p) == Some(b[p]);
  }
}
