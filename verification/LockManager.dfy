/** The lock manager object: each method performs one step of the model, and so keeps every property of it. */
module LockManager {
  import opened LockPaths
  import opened LockModel
  import opened LockInvariant
  import opened LockLaws

  const DEFAULT_LOCK_EXPIRE := 300_000_000_000

  /** Time as the manager reads it: any amount may pass between two readings, never a negative one. */
  class Clock {
    var reading: int

    constructor (start: int)
      ensures reading == start
    {
      reading := start;
    }

    method Now() returns (t: int)
      modifies this
      ensures old(reading) <= reading == t
    {
      t := *;
      if t < reading {
        t := reading;
      }
      reading := t;
    }
  }

  class LockHandle {
    const id: HandleId
    var lastActiveAt: int
    var locks: seq<LockEntry>

    constructor (id: HandleId, at: int)
      ensures this.id == id && lastActiveAt == at && locks == []
    {
      this.id := id;
      lastActiveAt := at;
      locks := [];
    }
  }

  /** Some expired rivals are gone from the table, and nothing else. */
  ghost predicate Scanned(before: State, rivals: set<Path>, table: map<Path, LockEntry>, at: int) {
    var lost := before.table.Keys - table.Keys;
    && table == before.table - lost
    && lost <= rivals
    && forall p :: p in lost ==> Expired(before.table[p], at)
  }

  lemma RefusedByRival(s: State, id: HandleId, path: Path, ty: LockType, s': State, p: Path)
    requires Scanned(s, Rivals(s.table, id, path, ty), s'.table, s'.now) && s.now <= s'.now
    requires s' == s.(table := s'.table, now := s'.now)
    requires p in Rivals(s.table, id, path, ty) && p in s'.table && !Expired(s.table[p], s'.now)
    requires path in s'.table ==> s'.table == s.table
    ensures Refused(s, id, path, ty, s')
  {
    hide Rivals;
    assert StoppedBy(s, Rivals(s.table, id, path, ty), s.table.Keys - s'.table.Keys, p);
  }

  lemma ScanBegins(s: State, id: HandleId, path: Path, ty: LockType, table: map<Path, LockEntry>, at: int)
    requires table == s.table - {path}
    requires path in s.table ==> s.table[path].handleId != id && Expired(s.table[path], at)
    ensures Scanned(s, Rivals(s.table, id, path, ty), table, at)
  {
  }

  lemma RivalTest(s: State, id: HandleId, path: Path, ty: LockType, table: map<Path, LockEntry>, at: int, p: Path)
    requires Scanned(s, Rivals(s.table, id, path, ty), table, at) && p in table
    ensures p in s.table && table[p] == s.table[p]
    ensures p in Rivals(s.table, id, path, ty) <==>
            table[p].handleId != id && IsPathConflict(path, p, ty, table[p].lockType)
  {
  }

  /** Time passes, and an expired rival can go. */
  lemma ScanOnward(s: State, rivals: set<Path>, table: map<Path, LockEntry>, p: Path, e: LockEntry, at: int)
    requires exists earlier :: earlier <= at && Scanned(s, rivals, table, earlier)
    requires p in rivals && p in table && table[p] == e
    ensures Scanned(s, rivals, table, at)
    ensures Expired(e, at) ==> Scanned(s, rivals, table - {p}, at)
  {
  }

  lemma ScanEnds(s: State, id: HandleId, path: Path, ty: LockType, table: map<Path, LockEntry>, at: int)
    requires Scanned(s, Rivals(s.table, id, path, ty), table, at)
    requires forall p :: p in Rivals(s.table, id, path, ty) ==> p !in table
    ensures table == s.table - Rivals(s.table, id, path, ty)
    ensures forall p :: p in Rivals(s.table, id, path, ty) ==> Expired(s.table[p], at)
  {
  }

  /** The first `i` paths of the sorted batch have been granted. */
  ghost predicate GrantedUpTo(s: State, id: HandleId, sorted: seq<Path>, i: nat, s': State) {
    i <= |sorted| && AcquiredAll(s, id, sorted[..i], s')
  }

  lemma GrantedNone(s: State, id: HandleId, sorted: seq<Path>)
    ensures GrantedUpTo(s, id, sorted, 0, s)
  {
  }

  lemma GrantedOneMore(s: State, id: HandleId, sorted: seq<Path>, i: nat, mid: State, s': State)
    requires i < |sorted| && GrantedUpTo(s, id, sorted, i, mid)
    requires AcquireStep(mid, id, sorted[i], Subtree, true, s')
    ensures GrantedUpTo(s, id, sorted, i + 1, s')
  {
    assert sorted[..i + 1][..i] == sorted[..i];
    assert AcquiredVia(s, id, sorted[..i + 1], mid, s');
  }

  lemma BatchDone(s: State, id: HandleId, paths: seq<Path>, s': State)
    requires id in s.known && GrantedUpTo(s, id, SortPaths(paths), |paths|, s')
    ensures BatchStep(s, id, paths, |paths|, s')
  {
    hide AcquiredAll, SortPaths;
    var sorted := SortPaths(paths);
    assert sorted[..|paths|] == sorted;
  }

  lemma BatchStopped(s: State, id: HandleId, paths: seq<Path>, i: nat, mid: State, last: State, s': State)
    requires i < |paths| && id in s.known
    requires GrantedUpTo(s, id, SortPaths(paths), i, mid)
    requires AcquireStep(mid, id, SortPaths(paths)[i], Subtree, false, last)
    requires s' == RolledBack(last, id, SortPaths(paths)[..i])
    ensures BatchStep(s, id, paths, i, s')
  {
    assert BatchRefused(s, id, SortPaths(paths), i, mid, last, s');
  }

  /** Every path `id` lists leaves the table, and its list is emptied. */
  function Evicted(s: State, id: HandleId): State
    requires id in s.known
  {
    s.(table := s.table - Listed(s.known[id].locks), known := s.known[id := s.known[id].(locks := [])])
  }

  function EvictedAll(s: State, ids: set<HandleId>): State {
    s.(table := s.table - ListedBy(s.known, ids), known := Forget(s.known, ids))
  }

  lemma CreateIsStep(s: State, id: HandleId, s': State)
    requires id !in s.known && s.now <= s'.now
    requires s' == s.(known := s.known[id := Handle([], s'.now)], active := s.active + {id}, now := s'.now)
    ensures Step(s, Create(id), s')
  {
  }

  function Unexpired(table: map<Path, LockEntry>, at: int): map<Path, LockEntry> {
    map p | p in table && !Expired(table[p], at) :: table[p]
  }

  lemma CleanedFrom(s: State, at: int, stale: set<HandleId>, evicted: State, s': State)
    requires stale == Stale(s.(now := at), at)
    requires evicted == EvictedAll(s.(now := at), stale).(active := s.active - stale)
    requires s' == evicted.(table := Unexpired(evicted.table, at))
    ensures s' == Cleaned(s, at)
  {
  }

  lemma SameActive(s: State, ids: set<HandleId>)
    ensures EvictedAll(s, ids).active == s.active
  {
  }

  lemma EvictedNone(s: State)
    ensures EvictedAll(s, {}) == s
  {
  }

  lemma EvictedOneMore(s: State, ids: set<HandleId>, id: HandleId)
    requires id in s.known && id !in ids
    ensures id in EvictedAll(s, ids).known
    ensures Evicted(EvictedAll(s, ids), id) == EvictedAll(s, ids + {id})
  {
  }

  lemma RefusedAtOnce(s: State, id: HandleId, path: Path, ty: LockType, s': State)
    requires path in s.table && s.table[path].handleId != id && !Expired(s.table[path], s'.now)
    requires s.now <= s'.now && s' == s.(now := s'.now)
    ensures Refused(s, id, path, ty, s')
  {
    assert path in Rivals(s.table, id, path, ty);
    hide Rivals;
    assert s.table.Keys - s'.table.Keys == {};
    assert StoppedBy(s, Rivals(s.table, id, path, ty), {}, path);
  }

  lemma GrantedNow(s: State, id: HandleId, path: Path, ty: LockType, at: int, s': State)
    requires id in s.known && s.now <= at == s'.now
    requires forall p :: p in Rivals(s.table, id, path, ty) ==> Expired(s.table[p], at)
    requires s' == Granted(s, id, path, ty, at).(now := at)
    ensures exists t :: GrantedAt(s, id, path, ty, t, s')
  {
    hide Rivals, Granted;
    assert GrantedAt(s, id, path, ty, at, s');
  }

  lemma ListedAre(locks: seq<LockEntry>)
    ensures forall p :: p in Listed(locks) <==> exists e :: e in locks && e.path == p
  {
  }

  lemma HeldOfAre(table: map<Path, LockEntry>, id: HandleId, ps: seq<Path>)
    ensures forall p :: p in HeldOf(table, id, ps) <==> p in ps && p in table && table[p].handleId == id
  {
  }

  class LockManager {
    const clock: Clock
    const lockExpire: int
    var handles: map<HandleId, LockHandle>
    var pathLocks: map<Path, LockEntry>
    ghost var known: map<HandleId, LockHandle>

    ghost predicate Wired()
      reads this
    {
      && lockExpire > 0
      && handles.Keys <= known.Keys
      && (forall id :: id in handles ==> handles[id] == known[id])
      && (forall id :: id in known ==> known[id].id == id)
    }

    ghost function View(): State
      reads this, clock, known.Values
    {
      State(pathLocks, map id | id in known :: Handle(known[id].locks, known[id].lastActiveAt), handles.Keys,
            clock.reading, lockExpire)
    }

    ghost predicate Valid()
      reads this, clock, known.Values
    {
      Wired() && Inv(View())
    }

    ghost predicate Mine(handle: LockHandle)
      reads this
    {
      handle.id in known && known[handle.id] == handle
    }

    constructor (lockExpire: int, clock: Clock)
      ensures Valid() && Initial(View()) && known == map[]
      ensures this.clock == clock
      ensures this.lockExpire == if lockExpire <= 0 then 5 * 60 * 1_000_000_000 else lockExpire
    {
      this.lockExpire := if lockExpire <= 0 then DEFAULT_LOCK_EXPIRE else lockExpire;
      this.clock := clock;
      handles := map[];
      pathLocks := map[];
      known := map[];
    }

    method CreateHandle(newId: HandleId) returns (h: LockHandle)
      requires Valid() && newId !in known
      modifies this`handles, this`known, clock
      ensures Wired() && fresh(h) && known == old(known)[newId := h] && handles == old(handles)[newId := h]
      ensures h.id == newId && h.locks == [] && old(clock.reading) <= h.lastActiveAt <= clock.reading
      ensures Step(old(View()), Create(newId), View()) && Valid()
    {
      hide Inv, Step;
      ghost var before := View();
      var createdAt := clock.Now();
      var at := clock.Now();
      assert View() == before.(now := at);
      h := new LockHandle(newId, at);
      Register(h);
      CreateIsStep(before, newId, View());
      StepKeepsInv(before, Create(newId), View());
    }

    method Register(h: LockHandle)
      requires Wired() && h.id !in known && h.locks == []
      modifies this`handles, this`known
      ensures Wired() && known == old(known)[h.id := h]
      ensures View() == old(View()).(known := old(View()).known[h.id := Handle([], h.lastActiveAt)],
                                     active := old(View()).active + {h.id})
    {
      handles := handles[h.id := h];
      known := known[h.id := h];
      assert View().known == old(View()).known[h.id := Handle([], h.lastActiveAt)];
    }

    method AcquirePoint(handle: LockHandle, path: Path) returns (ok: bool)
      requires Valid() && Mine(handle)
      modifies this`pathLocks, clock, handle
      ensures Wired() && Step(old(View()), Acquire(handle.id, path, Point, ok), View()) && Valid()
      ensures ok ==> path in pathLocks && pathLocks[path].handleId == handle.id
      ensures ok && !(path in old(pathLocks) && old(pathLocks)[path].handleId == handle.id) ==>
                && pathLocks[path].path == path && pathLocks[path].lockType == Point
                && old(clock.reading) <= pathLocks[path].acquiredAt <= clock.reading
                && pathLocks[path].expiresAt == pathLocks[path].acquiredAt + lockExpire
                && handle.locks == old(handle.locks) + [pathLocks[path]] && handle.lastActiveAt == pathLocks[path].acquiredAt
    {
      ok := AcquireLock(handle, path, Point);
    }

    method AcquireSubtree(handle: LockHandle, path: Path) returns (ok: bool)
      requires Valid() && Mine(handle)
      modifies this`pathLocks, clock, handle
      ensures Wired() && Step(old(View()), Acquire(handle.id, path, Subtree, ok), View()) && Valid()
      ensures ok ==> path in pathLocks && pathLocks[path].handleId == handle.id
      ensures ok && !(path in old(pathLocks) && old(pathLocks)[path].handleId == handle.id) ==>
                && pathLocks[path].path == path && pathLocks[path].lockType == Subtree
                && old(clock.reading) <= pathLocks[path].acquiredAt <= clock.reading
                && pathLocks[path].expiresAt == pathLocks[path].acquiredAt + lockExpire
                && handle.locks == old(handle.locks) + [pathLocks[path]] && handle.lastActiveAt == pathLocks[path].acquiredAt
    {
      ok := AcquireLock(handle, path, Subtree);
    }

    method AcquireLock(handle: LockHandle, path: Path, ty: LockType) returns (ok: bool)
      requires Valid() && Mine(handle)
      modifies this`pathLocks, clock, handle
      ensures Wired() && AcquireStep(old(View()), handle.id, path, ty, ok, View()) && Valid()
      ensures ok ==> path in pathLocks && pathLocks[path].handleId == handle.id
      ensures ok && !(path in old(pathLocks) && old(pathLocks)[path].handleId == handle.id) ==>
                && pathLocks[path].path == path && pathLocks[path].lockType == ty
                && old(clock.reading) <= pathLocks[path].acquiredAt <= clock.reading
                && pathLocks[path].expiresAt == pathLocks[path].acquiredAt + lockExpire
                && handle.locks == old(handle.locks) + [pathLocks[path]] && handle.lastActiveAt == pathLocks[path].acquiredAt
    {
      hide Inv, Granted, Refused, Rivals;
      ghost var before := View();
      if path in pathLocks {
        if pathLocks[path].handleId == handle.id {
          return true;
        }
        var now := clock.Now();
        if pathLocks[path].expiresAt < now {
          pathLocks := pathLocks - {path};
        } else {
          RefusedAtOnce(before, handle.id, path, ty, View());
          AcquireKeepsInv(before, handle.id, path, ty, false, View());
          return false;
        }
      }

      assert View().known == before.known;
      ok := DropExpiredRivals(handle, path, ty, before);
      if !ok {
        AcquireKeepsInv(before, handle.id, path, ty, false, View());
        return false;
      }

      Grant(handle, path, ty, before);
      AcquireKeepsInv(before, handle.id, path, ty, true, View());
      GrantLasts(before, handle.id, path, ty, View());
    }

    /** Records the lock, with the same entry in the table and in the handle's list. */
    method Grant(handle: LockHandle, path: Path, ty: LockType, ghost before: State)
      requires Wired() && Mine(handle) && handle.id in before.known && before.now <= clock.reading
      requires View() == before.(table := before.table - Rivals(before.table, handle.id, path, ty), now := clock.reading)
      requires forall p :: p in Rivals(before.table, handle.id, path, ty) ==> Expired(before.table[p], clock.reading)
      modifies this`pathLocks, clock, handle
      ensures exists at :: GrantedAt(before, handle.id, path, ty, at, View())
    {
      hide Rivals, IsPathConflict, Inv;
      var now := clock.Now();
      var entry := LockEntry(path, ty, handle.id, now, now + lockExpire);
      pathLocks := pathLocks[path := entry];
      handle.locks := handle.locks + [entry];
      handle.lastActiveAt := now;
      assert View().known == Granted(before, handle.id, path, ty, now).known;
      GrantedNow(before, handle.id, path, ty, now, View());
    }

    /** The scan of all locks, in the arbitrary order of a map iteration: stops at the first live rival. */
    method DropExpiredRivals(handle: LockHandle, path: Path, ty: LockType, ghost before: State) returns (ok: bool)
      requires path !in pathLocks && before.now <= clock.reading
      requires View() == before.(table := before.table - {path}, now := clock.reading)
      requires path in before.table ==> before.table[path].handleId != handle.id && Expired(before.table[path], clock.reading)
      modifies this`pathLocks, clock
      ensures before.now <= clock.reading
      ensures ok ==> && View() == before.(table := before.table - Rivals(before.table, handle.id, path, ty), now := clock.reading)
                     && forall p :: p in Rivals(before.table, handle.id, path, ty) ==> Expired(before.table[p], clock.reading)
      ensures !ok ==> Refused(before, handle.id, path, ty, View())
    {
      hide Rivals, IsPathConflict, Scanned, Refused;
      ghost var rivals := Rivals(before.table, handle.id, path, ty);
      ScanBegins(before, handle.id, path, ty, pathLocks, clock.reading);
      var rest := pathLocks.Keys;
      while rest != {}
        invariant View() == before.(table := pathLocks, now := clock.reading) && before.now <= clock.reading
        invariant Scanned(before, rivals, pathLocks, clock.reading)
        invariant path !in pathLocks && rest <= pathLocks.Keys
        invariant forall p :: p in rivals && p in pathLocks ==> p in rest
        decreases |rest|
      {
        var p :| p in rest;
        rest := rest - {p};
        var e := pathLocks[p];
        RivalTest(before, handle.id, path, ty, pathLocks, clock.reading, p);
        if e.handleId != handle.id && IsPathConflict(path, p, ty, e.lockType) {
          var live := DropIfExpired(p, before, rivals);
          if live {
            RefusedByRival(before, handle.id, path, ty, View(), p);
            return false;
          }
        }
      }
      ScanEnds(before, handle.id, path, ty, pathLocks, clock.reading);
      return true;
    }

    method DropIfExpired(p: Path, ghost before: State, ghost rivals: set<Path>) returns (live: bool)
      requires p in pathLocks && p in rivals && before.now <= clock.reading
      requires Scanned(before, rivals, pathLocks, clock.reading)
      modifies this`pathLocks, clock
      ensures old(clock.reading) <= clock.reading && Scanned(before, rivals, pathLocks, clock.reading)
      ensures live ==> pathLocks == old(pathLocks) && pathLocks[p].expiresAt >= clock.reading
      ensures !live ==> pathLocks == old(pathLocks) - {p}
      ensures View() == old(View()).(table := pathLocks, now := clock.reading)
    {
      var e := pathLocks[p];
      var now := clock.Now();
      ScanOnward(before, rivals, pathLocks, p, e, now);
      live := e.expiresAt >= now;
      if !live {
        pathLocks := pathLocks - {p};
      }
    }

    method ReleaseLock(handle: LockHandle, path: Path)
      modifies this`pathLocks
      ensures pathLocks == old(pathLocks) - HeldOf(old(pathLocks), handle.id, [path])
    {
      if path in pathLocks {
        if pathLocks[path].handleId == handle.id {
          pathLocks := pathLocks - {path};
        }
      }
    }

    method AcquireSubtreeBatch(handle: LockHandle, paths: seq<Path>) returns (ok: bool, ghost done: nat)
      requires Valid() && Mine(handle)
      modifies this`pathLocks, clock, handle
      ensures Wired() && ok == (done == |paths|)
      ensures Step(old(View()), Batch(handle.id, paths, done), View()) && Valid()
      ensures ok ==> forall p :: p in paths ==> p in pathLocks && pathLocks[p].handleId == handle.id
      ensures ok ==> forall p :: p in paths && !(p in old(pathLocks) && old(pathLocks)[p].handleId == handle.id) ==>
                && pathLocks[p].path == p && pathLocks[p].lockType == Subtree
                && old(clock.reading) <= pathLocks[p].acquiredAt <= clock.reading
                && pathLocks[p].expiresAt == pathLocks[p].acquiredAt + lockExpire
    {
      hide Inv, AcquireStep, RolledBack, BatchStep, GrantedUpTo, SortPaths;
      ghost var before := View();
      GrantedNone(before, handle.id, SortPaths(paths));
      if |paths| == 0 {
        BatchDone(before, handle.id, paths, View());
        return true, 0;
      }
      var sorted := SortPaths(paths);
      var i := 0;
      while i < |sorted|
        invariant i <= |sorted|
        invariant Valid() && GrantedUpTo(before, handle.id, sorted, i, View())
      {
        ghost var mid := View();
        var granted := AcquireLock(handle, sorted[i], Subtree);
        if !granted {
          ghost var last := View();
          RollBack(handle, sorted[..i]);
          BatchStopped(before, handle.id, paths, i, mid, last, View());
          BatchKeepsInv(before, handle.id, paths, i, View());
          return false, i;
        }
        GrantedOneMore(before, handle.id, sorted, i, mid, View());
        i := i + 1;
      }
      BatchDone(before, handle.id, paths, View());
      forall p | p in paths
        ensures p in pathLocks && pathLocks[p].handleId == handle.id
        ensures !(p in before.table && before.table[p].handleId == handle.id) ==>
                  LastsFrom(pathLocks[p], handle.id, p, Subtree, before.now, clock.reading, lockExpire)
      {
        BatchLasts(before, handle.id, paths, View(), p);
      }
      return true, |paths|;
    }

    method RollBack(handle: LockHandle, acquired: seq<Path>)
      modifies this`pathLocks
      ensures View() == RolledBack(old(View()), handle.id, acquired)
    {
      var j := 0;
      while j < |acquired|
        invariant 0 <= j <= |acquired|
        invariant pathLocks == old(pathLocks) - HeldOf(old(pathLocks), handle.id, acquired[..j])
      {
        ReleaseLock(handle, acquired[j]);
        j := j + 1;
      }
      assert acquired[..j] == acquired;
    }

    /** Deletes the paths of `locks`, whoever owns them now. */
    method DeleteListed(locks: seq<LockEntry>)
      modifies this`pathLocks
      ensures pathLocks == old(pathLocks) - Listed(locks)
    {
      var i := 0;
      while i < |locks|
        invariant 0 <= i <= |locks|
        invariant pathLocks == old(pathLocks) - Listed(locks[..i])
      {
        pathLocks := pathLocks - {locks[i].path};
        assert locks[..i + 1] == locks[..i] + [locks[i]];
        i := i + 1;
      }
      assert locks[..i] == locks;
    }

    method Release(handle: LockHandle)
      requires Valid() && Mine(handle)
      modifies this`pathLocks, this`handles, handle
      ensures Wired() && Step(old(View()), Op.Release(handle.id), View()) && Valid()
      ensures forall p :: p in pathLocks ==> pathLocks[p].handleId != handle.id
      ensures handle.locks == [] && handles == old(handles) - {handle.id}
      ensures forall p :: p in pathLocks <==> p in old(pathLocks) && forall e :: e in old(handle.locks) ==> e.path != p
      ensures forall p :: p in pathLocks ==> pathLocks[p] == old(pathLocks)[p]
    {
      hide Inv, Listed;
      ListedAre(handle.locks);
      Evict(handle);
      handles := handles - {handle.id};
      ReleaseKeepsInv(old(View()), handle.id);
    }

    method ReleaseSelected(handle: LockHandle, paths: seq<Path>)
      requires Valid() && Mine(handle)
      modifies this`pathLocks, handle
      ensures Wired() && Step(old(View()), Op.ReleaseSelected(handle.id, paths), View()) && Valid()
      ensures forall p :: p in pathLocks <==> p in old(pathLocks) && !(p in paths && old(pathLocks)[p].handleId == handle.id)
      ensures forall p :: p in pathLocks ==> pathLocks[p] == old(pathLocks)[p]
      ensures forall e :: e in handle.locks <==> e in old(handle.locks) && e.path !in paths
    {
      hide Inv, Remaining, HeldOf;
      HeldOfAre(pathLocks, handle.id, paths);
      RollBack(handle, paths);
      handle.locks := Filter(handle.locks, paths);
      assert View().known == ReleaseSome(old(View()), handle.id, paths).known;
      ReleaseSomeKeepsInv(old(View()), handle.id, paths);
    }

    static method Filter(locks: seq<LockEntry>, paths: seq<Path>) returns (remaining: seq<LockEntry>)
      ensures remaining == Remaining(locks, paths)
    {
      var pathSet := set p | p in paths;
      remaining := [];
      var i := 0;
      while i < |locks|
        invariant 0 <= i <= |locks|
        invariant remaining == Remaining(locks[..i], paths)
      {
        assert locks[..i + 1][..i] == locks[..i];
        if locks[i].path !in pathSet {
          remaining := remaining + [locks[i]];
        }
        i := i + 1;
      }
      assert locks[..i] == locks;
    }

    /** Deletes every path the handle lists, and empties its list. */
    method Evict(handle: LockHandle)
      requires Wired() && Mine(handle)
      modifies this`pathLocks, handle
      ensures Wired() && View() == Evicted(old(View()), handle.id)
    {
      hide Listed;
      DeleteListed(handle.locks);
      handle.locks := [];
      assert View().known == Evicted(old(View()), handle.id).known;
    }

    method EvictAll(ids: set<HandleId>)
      requires Wired() && ids <= handles.Keys
      modifies this`pathLocks, handles.Values
      ensures Wired() && View() == EvictedAll(old(View()), ids)
    {
      hide EvictedAll, Evicted;
      ghost var before := View();
      EvictedNone(before);
      assert ids - ids == {};
      var rest := ids;
      while rest != {}
        invariant rest <= ids
        invariant Wired() && View() == EvictedAll(before, ids - rest)
        decreases |rest|
      {
        var id :| id in rest;
        EvictedOneMore(before, ids - rest, id);
        assert ids - (rest - {id}) == ids - rest + {id};
        rest := rest - {id};
        Evict(handles[id]);
      }
      assert ids - rest == ids;
    }

    method Stop()
      requires Valid()
      modifies this`pathLocks, this`handles, handles.Values
      ensures Wired() && Step(old(View()), Op.Stop, View()) && Valid()
      ensures handles == map[]
    {
      hide Inv, ListedBy;
      EvictAll(handles.Keys);
      handles := map[];
      StepKeepsInv(old(View()), Op.Stop, View());
    }

    method CleanupStale()
      requires Valid()
      modifies this`pathLocks, this`handles, handles.Values, clock
      ensures Wired() && Step(old(View()), Cleanup(clock.reading), View()) && Valid()
    {
      hide Inv, Stale, EvictedAll, Cleaned, Unexpired;
      ghost var before := View();
      var now := clock.Now();
      assert View() == before.(now := now);
      var stale := StaleHandles(now);
      EvictStale(stale);
      ghost var evicted := View();
      SweepExpired(now);
      CleanedFrom(before, now, stale, evicted, View());
      StepKeepsInv(before, Cleanup(now), View());
    }

    method EvictStale(stale: set<HandleId>)
      requires Wired() && stale <= handles.Keys
      modifies this`pathLocks, this`handles, handles.Values
      ensures Wired()
      ensures View() == EvictedAll(old(View()), stale).(active := old(View()).active - stale)
    {
      hide EvictedAll;
      EvictAll(stale);
      ghost var evicted := View();
      SameActive(old(View()), stale);
      handles := handles - stale;
      assert View() == evicted.(active := evicted.active - stale);
    }

    method StaleHandles(now: int) returns (stale: set<HandleId>)
      requires Wired()
      ensures stale == Stale(View(), now) && stale <= handles.Keys
    {
      stale := set id | id in handles && now - handles[id].lastActiveAt > lockExpire && |handles[id].locks| > 0;
    }

    method SweepExpired(now: int)
      modifies this`pathLocks
      ensures View() == old(View()).(table := Unexpired(old(pathLocks), now))
    {
      var rest := pathLocks.Keys;
      while rest != {}
        invariant rest <= pathLocks.Keys <= old(pathLocks).Keys
        invariant forall p :: p in pathLocks ==> pathLocks[p] == old(pathLocks)[p]
        invariant forall p :: p in old(pathLocks) && p !in rest ==> (p in pathLocks <==> !Expired(old(pathLocks)[p], now))
        decreases |rest|
      {
        var p :| p in rest;
        rest := rest - {p};
        if pathLocks[p].expiresAt < now {
          pathLocks := pathLocks - {p};
        }
      }
    }
  }
}
