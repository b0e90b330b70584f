/** What a sync of notes reports and leaves, told in the answers of the server and the hashes known before. */
module NoteLaws {
  import opened Prelude
  import opened NoteSync

  /** The note was synced before, with a hash that is not empty. */
  predicate Known(h: Hashes, p: string) {
    p in h && h[p] != ""
  }

  /** The server has the note, and it is not the known one. */
  predicate Changed(w: World, h: Hashes, p: string) {
    w.get(p).Some? && !(Known(h, p) && w.get(p).value.hash == h[p])
  }

  /** Changed notes that can be written count as updated if they were known and as added if not, known ones that are the
      same as skipped, those that cannot be fetched or written as errors, and tracked paths not listed as deleted. */
  lemma CountsTold(w: World, h0: Hashes, f0: Files, seen: set<string>, h: Hashes, f: Files, r: SyncResult)
    requires Synced(w, h0, f0, seen, h, f, r)
    ensures r.added == |set p | p in seen && Changed(w, h0, p) && !Known(h0, p) && w.writeOk(w.get(p).value.path)|
    ensures r.updated == |set p | p in seen && Changed(w, h0, p) && Known(h0, p) && w.writeOk(w.get(p).value.path)|
    ensures r.skipped == |set p | p in seen && w.get(p).Some? && Known(h0, p) && w.get(p).value.hash == h0[p]|
    ensures r.errors == |set p | p in seen && (w.get(p).None? || (Changed(w, h0, p) && !w.writeOk(w.get(p).value.path)))|
    ensures r.deleted == |set p | p in h0 && p !in seen|
  {
    OutcomesTold(w, h0, seen);
    assert Unseen(h0, seen) == set p | p in h0 && p !in seen;
    hide HashAfter, FileAfter, OutcomeOf, With, Changed, Known;
  }

  lemma OutcomesTold(w: World, h: Hashes, seen: set<string>)
    ensures With(w, h, seen, Added) == set p | p in seen && Changed(w, h, p) && !Known(h, p) && w.writeOk(w.get(p).value.path)
    ensures With(w, h, seen, Updated) == set p | p in seen && Changed(w, h, p) && Known(h, p) && w.writeOk(w.get(p).value.path)
    ensures With(w, h, seen, Skipped) == set p | p in seen && w.get(p).Some? && Known(h, p) && w.get(p).value.hash == h[p]
    ensures With(w, h, seen, Failed)
         == set p | p in seen && (w.get(p).None? || (Changed(w, h, p) && !w.writeOk(w.get(p).value.path)))
  {
  }

  /** A listed path has the hash of its note if that has changed and could be written, and what it had otherwise; paths not
      listed are forgotten. */
  lemma HashesTold(w: World, h0: Hashes, f0: Files, seen: set<string>, h: Hashes, f: Files, r: SyncResult, p: string)
    requires Synced(w, h0, f0, seen, h, f, r)
    ensures p !in seen ==> p !in h
    ensures p in seen && Changed(w, h0, p) && w.writeOk(w.get(p).value.path) ==> p in h && h[p] == w.get(p).value.hash
    ensures p in seen && !(Changed(w, h0, p) && w.writeOk(w.get(p).value.path)) ==>
              (p in h <==> p in h0) && (p in h0 ==> h[p] == h0[p])
  {
    SyncedAt(w, h0, f0, seen, h, f, r, p);
    hide Synced, FileAfter;
  }

  /** Likewise its file has the content of the note; the file of a path that was tracked and is not listed goes if it can
      be removed; every other file stays. */
  lemma FilesTold(w: World, h0: Hashes, f0: Files, seen: set<string>, h: Hashes, f: Files, r: SyncResult, p: string)
    requires Synced(w, h0, f0, seen, h, f, r) && Answers(w)
    ensures p in seen && Changed(w, h0, p) && w.writeOk(p) ==> p in f && f[p] == w.get(p).value.content
    ensures p !in seen && p in h0 && w.rmOk(p) ==> p !in f
    ensures (if p in seen then !(Changed(w, h0, p) && w.writeOk(p)) else !(p in h0 && w.rmOk(p))) ==>
              (p in f <==> p in f0) && (p in f0 ==> f[p] == f0[p])
  {
    SyncedAt(w, h0, f0, seen, h, f, r, p);
    hide Synced, HashAfter;
  }

  /** What is on the first pages. */
  lemma {:induction false} PagesTold(w: World, n: nat, p: string)
    ensures p in Listed(w, n) <==> exists k :: 0 < k <= n && w.list(k).Some? && p in w.list(k).value.paths
  {
    if n > 0 {
      PagesTold(w, n - 1, p);
    }
  }
}
