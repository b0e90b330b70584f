/** Ordered batches, the life of one entry, and when the table and the handles' lists agree. */
module LockTheorems {
  import opened LockPaths
  import opened LockModel
  import opened LockInvariant

  ghost predicate Kept(s: State, s': State, p: Path)
    requires p in s.table
  {
    p in s'.table && s'.table[p] == s.table[p]
  }

  /** `p` stands against a subtree lock on some path of `ps` that `id` does not hold. */
  ghost predicate RivalOfSome(table: map<Path, LockEntry>, id: HandleId, ps: seq<Path>, p: Path) {
    exists q :: q in ps && !Holds(table, id, q) && p in Rivals(table, id, q, Subtree)
  }

  /** Other handles' entries go only when they have expired and stand in the way of `ps`. */
  ghost predicate OthersKept(s: State, id: HandleId, ps: seq<Path>, s': State) {
    forall p :: p in s.table && s.table[p].handleId != id && !Kept(s, s', p) ==>
                  Expired(s.table[p], s'.now) && RivalOfSome(s.table, id, ps, p)
  }

  /** After subtree locks on all of `ps`: what is owned, what is new, what is gone, and what is listed. */
  ghost predicate AllGranted(s: State, id: HandleId, ps: seq<Path>, s': State) {
    && OthersKept(s, id, ps, s')
    && (forall p :: Holds(s.table, id, p) ==> Kept(s, s', p))
    && (forall p :: p in ps ==> Holds(s'.table, id, p))
    && (forall p :: p in s'.table ==>
                      || (p in s.table && Kept(s, s', p))
                      || (p in ps && !Holds(s.table, id, p) && s'.table[p].handleId == id && s'.table[p].lockType.Subtree?))
    && (forall p :: RivalOfSome(s.table, id, ps, p) ==> p in s.table && !Kept(s, s', p))
  }

  ghost predicate ListGrown(s: State, id: HandleId, ps: seq<Path>, s': State)
    requires id in s.known && id in s'.known
  {
    && s'.known == s.known[id := s'.known[id]]
    && s.known[id].locks <= s'.known[id].locks
    && (forall e :: e in s'.known[id].locks ==>
                      e in s.known[id].locks || (e.path in ps && e.path in s'.table && s'.table[e.path] == e))
  }

  lemma OneGranted(s: State, id: HandleId, path: Path, s': State)
    requires Inv(s) && AcquireStep(s, id, path, Subtree, true, s')
    ensures AllGranted(s, id, [path], s')
    ensures ListGrown(s, id, [path], s')
  {
    if Holds(s.table, id, path) {
    } else {
      var at :| GrantedAt(s, id, path, Subtree, at, s');
      forall p | p in s.table && s.table[p].handleId != id && !Kept(s, s', p)
        ensures Expired(s.table[p], s'.now) && RivalOfSome(s.table, id, [path], p)
      {
        if p == path { assert p in Rivals(s.table, id, path, Subtree); }
        assert path in [path];
      }
    }
  }

  lemma OthersCompose(s: State, id: HandleId, ps: seq<Path>, mid: State, path: Path, s': State)
    requires AllGranted(s, id, ps, mid) && AllGranted(mid, id, [path], s')
    requires s.now <= mid.now <= s'.now
    ensures OthersKept(s, id, ps + [path], s')
  {
    hide IsPathConflict;
    var all := ps + [path];
    forall p | p in s.table && s.table[p].handleId != id && !Kept(s, s', p)
      ensures Expired(s.table[p], s'.now) && RivalOfSome(s.table, id, all, p)
    {
      if Kept(s, mid, p) {
        assert RivalOfSome(mid.table, id, [path], p);
        assert path in all && p in Rivals(s.table, id, path, Subtree);
      } else {
        var q :| q in ps && !Holds(s.table, id, q) && p in Rivals(s.table, id, q, Subtree);
        assert q in all;
      }
    }
  }

  lemma RivalsCompose(s: State, id: HandleId, ps: seq<Path>, mid: State, path: Path, s': State, p: Path)
    requires AllGranted(s, id, ps, mid) && AllGranted(mid, id, [path], s')
    requires RivalOfSome(s.table, id, ps + [path], p)
    ensures p in s.table && !Kept(s, s', p)
  {
    hide IsPathConflict;
    var q :| q in ps + [path] && !Holds(s.table, id, q) && p in Rivals(s.table, id, q, Subtree);
    if q in ps {
      assert RivalOfSome(s.table, id, ps, p);
    } else if Kept(s, mid, p) {
      assert p in Rivals(mid.table, id, path, Subtree);
      assert q == path && !Holds(mid.table, id, path);
      assert path in [path];
      assert RivalOfSome(mid.table, id, [path], p);
    }
  }

  lemma GrantsCompose(s: State, id: HandleId, ps: seq<Path>, mid: State, path: Path, s': State)
    requires AllGranted(s, id, ps, mid) && AllGranted(mid, id, [path], s')
    requires s.now <= mid.now <= s'.now
    ensures AllGranted(s, id, ps + [path], s')
  {
    hide OthersKept, RivalOfSome, Rivals;
    OthersCompose(s, id, ps, mid, path, s');
    forall p | RivalOfSome(s.table, id, ps + [path], p) ensures p in s.table && !Kept(s, s', p) {
      RivalsCompose(s, id, ps, mid, path, s', p);
    }
  }

  lemma {:induction false} GrantedInOrder(s: State, id: HandleId, ps: seq<Path>, s': State)
    requires Inv(s) && id in s.known && AcquiredAll(s, id, ps, s')
    ensures AllGranted(s, id, ps, s') && id in s'.known && ListGrown(s, id, ps, s')
    ensures s.now <= s'.now && Inv(s')
    decreases |ps|
  {
    hide AllGranted, ListGrown, AcquireStep, Inv;
    AcquiredForward(s, id, ps, s');
    AcquiredKeepsInv(s, id, ps, s');
    if ps == [] {
      NothingGranted(s, id);
    } else {
      var init, last := ps[..|ps| - 1], ps[|ps| - 1];
      var mid :| AcquiredVia(s, id, ps, mid, s');
      GrantedInOrder(s, id, init, mid);
      AcquiredKeepsInv(s, id, init, mid);
      OneGranted(mid, id, last, s');
      AcquireForward(mid, id, last, Subtree, true, s');
      GrantsCompose(s, id, init, mid, last, s');
      assert ps == init + [last];
      ListsCompose(s, id, init, mid, last, s');
    }
  }

  lemma AcquireForward(s: State, id: HandleId, path: Path, ty: LockType, ok: bool, s': State)
    requires AcquireStep(s, id, path, ty, ok, s')
    ensures s.now <= s'.now
  {
  }

  lemma NothingGranted(s: State, id: HandleId)
    requires id in s.known
    ensures AllGranted(s, id, [], s) && ListGrown(s, id, [], s)
  {
  }

  lemma ListsCompose(s: State, id: HandleId, ps: seq<Path>, mid: State, path: Path, s': State)
    requires id in s.known && id in mid.known && id in s'.known
    requires ListGrown(s, id, ps, mid) && ListGrown(mid, id, [path], s')
    requires AllGranted(mid, id, [path], s') && Inv(mid)
    ensures ListGrown(s, id, ps + [path], s')
  {
  }

  /**
   * A granted batch owns every path (a point lock held before is not upgraded), keeps what the handle had,
   * and removes exactly the rivals of the paths it did not hold, all of them expired.
   */
  lemma BatchGranted(s: State, id: HandleId, paths: seq<Path>, s': State)
    requires Inv(s) && BatchStep(s, id, paths, |paths|, s')
    ensures AllGranted(s, id, paths, s')
  {
    var sorted := SortPaths(paths);
    GrantedInOrder(s, id, sorted, s');
    forall p ensures RivalOfSome(s.table, id, paths, p) == RivalOfSome(s.table, id, sorted, p) {
    }
  }

  /** What a refused batch leaves: nothing new, no unexpired foreign entry lost, and a live rival as the reason. */
  ghost predicate NothingGained(s: State, id: HandleId, paths: seq<Path>, s': State) {
    && OthersKept(s, id, paths, s')
    && (forall p :: p in s'.table ==> p in s.table && Kept(s, s', p))
    && (exists p :: p in s.table && Kept(s, s', p) && RivalOfSome(s.table, id, paths, p) && !Expired(s.table[p], s.now))
  }

  lemma BatchNotGranted(s: State, id: HandleId, paths: seq<Path>, done: nat, s': State)
    requires Inv(s) && BatchStep(s, id, paths, done, s') && done != |paths|
    ensures done < |paths|
    ensures NothingGained(s, id, paths, s')
    ensures forall p :: Holds(s.table, id, p) ==> (Kept(s, s', p) <==> p !in SortPaths(paths)[..done])
  {
    hide NothingGained, AllGranted, AcquireStep, ListGrown, Inv, Kept, Holds;
    var sorted := SortPaths(paths);
    var mid, last :| BatchRefused(s, id, sorted, done, mid, last, s');
    GrantedInOrder(s, id, sorted[..done], mid);
    RefusedGainsNothing(s, id, paths, sorted[..done], mid, sorted[done], last, s');
  }

  lemma RefusedGainsNothing(s: State, id: HandleId, paths: seq<Path>, ps: seq<Path>, mid: State, path: Path,
                            last: State, s': State)
    requires AllGranted(s, id, ps, mid) && s.now <= mid.now
    requires AcquireStep(mid, id, path, Subtree, false, last) && s' == RolledBack(last, id, ps)
    requires path in paths && forall q :: q in ps ==> q in paths
    ensures NothingGained(s, id, paths, s')
    ensures forall p :: Holds(s.table, id, p) ==> (Kept(s, s', p) <==> p !in ps)
  {
    hide AllGranted, RivalOfSome, Rivals, AcquireStep, RolledBack, Kept, Holds;
    RefusedTable(s, id, ps, mid, path, last, s');
    forall p | p in s.table && s.table[p].handleId != id && !Kept(s, s', p)
      ensures Expired(s.table[p], s'.now) && RivalOfSome(s.table, id, paths, p)
    {
      NotGrantedOther(s, id, ps, mid, path, last, s', p);
      RivalsGrow(s, id, ps, path, paths, p);
    }
    LiveRival(s, id, ps, mid, path, last, s');
    var p :| p in s.table && Kept(s, s', p) && !Expired(s.table[p], s.now) && RivalOfSome(s.table, id, [path], p);
    RivalsGrow(s, id, ps, path, paths, p);
  }

  /** After the rollback the table holds only old entries, and of the handle's own those outside `ps`. */
  lemma RefusedTable(s: State, id: HandleId, ps: seq<Path>, mid: State, path: Path, last: State, s': State)
    requires AllGranted(s, id, ps, mid)
    requires AcquireStep(mid, id, path, Subtree, false, last) && s' == RolledBack(last, id, ps)
    ensures mid.now <= last.now == s'.now
    ensures forall p :: p in s'.table ==> p in s.table && Kept(s, s', p)
    ensures forall p :: Holds(s.table, id, p) ==> (Kept(s, s', p) <==> p !in ps)
  {
    forall p | Holds(s.table, id, p) ensures Kept(s, s', p) <==> p !in ps {
      assert Kept(s, mid, p);
      assert p !in Rivals(mid.table, id, path, Subtree);
    }
  }

  /** The refusal has a reason: an entry that is still there and had not expired when the batch began. */
  lemma LiveRival(s: State, id: HandleId, ps: seq<Path>, mid: State, path: Path, last: State, s': State)
    requires AllGranted(s, id, ps, mid) && s.now <= mid.now
    requires AcquireStep(mid, id, path, Subtree, false, last) && s' == RolledBack(last, id, ps)
    ensures exists p :: p in s.table && Kept(s, s', p) && !Expired(s.table[p], s.now) &&
                        RivalOfSome(s.table, id, [path], p)
  {
    hide IsPathConflict;
    var p := LiveRivalIs(s, id, ps, mid, path, last);
    assert Kept(s, s', p);
    NotHeldLater(s, id, ps, mid, path);
    assert path in [path];
    assert RivalOfSome(s.table, id, [path], p);
  }

  /** The entry that stopped the batch was in the table at the start, with the same expiry time. */
  lemma LiveRivalIs(s: State, id: HandleId, ps: seq<Path>, mid: State, path: Path, last: State) returns (p: Path)
    requires AllGranted(s, id, ps, mid) && s.now <= mid.now
    requires AcquireStep(mid, id, path, Subtree, false, last)
    ensures p in Rivals(s.table, id, path, Subtree) && p in last.table && last.table[p] == s.table[p]
    ensures p in mid.table && mid.table[p] == s.table[p] && !Expired(s.table[p], mid.now) && !Expired(s.table[p], s.now)
  {
    hide IsPathConflict, OthersKept, RivalOfSome;
    var rivals := Rivals(mid.table, id, path, Subtree);
    p :| StoppedBy(mid, rivals, mid.table.Keys - last.table.Keys, p);
  }

  lemma NotHeldLater(s: State, id: HandleId, ps: seq<Path>, mid: State, path: Path)
    requires AllGranted(s, id, ps, mid) && !Holds(mid.table, id, path)
    ensures !Holds(s.table, id, path)
  {
  }

  lemma RivalsGrow(s: State, id: HandleId, ps: seq<Path>, path: Path, paths: seq<Path>, p: Path)
    requires RivalOfSome(s.table, id, ps, p) || RivalOfSome(s.table, id, [path], p)
    requires path in paths && forall q :: q in ps ==> q in paths
    ensures RivalOfSome(s.table, id, paths, p)
  {
  }

  lemma NotGrantedOther(s: State, id: HandleId, ps: seq<Path>, mid: State, path: Path, last: State, s': State, p: Path)
    requires AllGranted(s, id, ps, mid) && mid.now <= last.now
    requires AcquireStep(mid, id, path, Subtree, false, last) && s' == RolledBack(last, id, ps)
    requires p in s.table && s.table[p].handleId != id && !Kept(s, s', p)
    ensures Expired(s.table[p], s'.now)
    ensures RivalOfSome(s.table, id, ps, p) || RivalOfSome(s.table, id, [path], p)
  {
    if Kept(s, mid, p) {
      NotHeldLater(s, id, ps, mid, path);
      assert p in Rivals(s.table, id, path, Subtree);
      assert path in [path];
    }
  }

  /** All or nothing: a refused batch leaves the handle's entries as they were iff it held none of those tried. */
  lemma AllOrNothing(s: State, id: HandleId, paths: seq<Path>, done: nat, s': State)
    requires Inv(s) && BatchStep(s, id, paths, done, s') && done != |paths|
    ensures (forall p :: Holds(s.table, id, p) ==> Kept(s, s', p)) <==>
            (forall p :: p in SortPaths(paths)[..done] ==> !Holds(s.table, id, p))
    ensures forall p :: Holds(s'.table, id, p) ==> Holds(s.table, id, p)
  {
    BatchNotGranted(s, id, paths, done, s');
    if p :| Holds(s.table, id, p) && !Kept(s, s', p) {
      assert p in SortPaths(paths)[..done];
    }
    if p :| p in SortPaths(paths)[..done] && Holds(s.table, id, p) {
      assert !Kept(s, s', p);
    }
  }
}
