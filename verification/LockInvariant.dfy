/** What every operation of the lock manager keeps. */
module LockInvariant {
  import opened LockPaths
  import opened LockModel

  /** Entries of different handles never conflict. */
  ghost predicate Exclusive(table: map<Path, LockEntry>) {
    forall p, q :: p in table && q in table && table[p].handleId != table[q].handleId ==>
                     !IsPathConflict(p, q, table[p].lockType, table[q].lockType)
  }

  /** Every table entry stands under its own path and is listed by the handle that owns it. */
  ghost predicate EntriesListed(s: State) {
    forall p :: p in s.table ==>
                  && s.table[p].path == p
                  && s.table[p].handleId in s.known
                  && s.table[p] in s.known[s.table[p].handleId].locks
  }

  ghost predicate SoundEntry(e: LockEntry, id: HandleId, lastActiveAt: int, expire: int) {
    e.handleId == id && e.expiresAt == e.acquiredAt + expire && e.acquiredAt <= lastActiveAt
  }

  ghost predicate SoundHandle(h: Handle, id: HandleId, now: int, expire: int) {
    && h.lastActiveAt <= now
    && forall e :: e in h.locks ==> SoundEntry(e, id, h.lastActiveAt, expire)
  }

  ghost predicate HandlesSound(s: State) {
    && s.active <= s.known.Keys
    && forall id :: id in s.known ==> SoundHandle(s.known[id], id, s.now, s.expire)
  }

  ghost predicate Inv(s: State) {
    s.expire > 0 && Exclusive(s.table) && EntriesListed(s) && HandlesSound(s)
  }

  /** Dropping entries keeps what was exclusive. */
  lemma FewerExclusive(table: map<Path, LockEntry>, fewer: map<Path, LockEntry>)
    requires Exclusive(table)
    requires forall p :: p in fewer ==> p in table && fewer[p] == table[p]
    ensures Exclusive(fewer)
  {
  }

  lemma GrantedExclusive(s: State, id: HandleId, path: Path, ty: LockType, at: int)
    requires Exclusive(s.table) && id in s.known
    ensures Exclusive(Granted(s, id, path, ty, at).table)
  {
  }

  lemma GrantedListed(s: State, id: HandleId, path: Path, ty: LockType, at: int)
    requires id in s.known && EntriesListed(s)
    ensures EntriesListed(Granted(s, id, path, ty, at))
  {
  }

  lemma AcquireKeepsInv(s: State, id: HandleId, path: Path, ty: LockType, ok: bool, s': State)
    requires Inv(s) && AcquireStep(s, id, path, ty, ok, s')
    ensures Inv(s') && s'.known.Keys == s.known.Keys && s'.expire == s.expire
  {
    if Holds(s.table, id, path) {
    } else if ok {
      var at :| GrantedAt(s, id, path, ty, at, s');
      GrantedExclusive(s, id, path, ty, at);
      GrantedListed(s, id, path, ty, at);
      assert SoundEntry(NewEntry(s, id, path, ty, at), id, at, s.expire);
      assert SoundHandle(s.known[id], id, s.now, s.expire);
      assert SoundHandle(s'.known[id], id, s'.now, s'.expire);
    } else {
      FewerExclusive(s.table, s'.table);
    }
  }

  lemma {:induction false} AcquiredKeepsInv(s: State, id: HandleId, ps: seq<Path>, s': State)
    requires Inv(s) && AcquiredAll(s, id, ps, s')
    ensures Inv(s') && s'.known.Keys == s.known.Keys && s'.expire == s.expire
    decreases |ps|
  {
    if ps != [] {
      var mid :| AcquiredVia(s, id, ps, mid, s');
      AcquiredKeepsInv(s, id, ps[..|ps| - 1], mid);
      AcquireKeepsInv(mid, id, ps[|ps| - 1], Subtree, true, s');
    }
  }

  lemma BatchKeepsInv(s: State, id: HandleId, paths: seq<Path>, done: nat, s': State)
    requires Inv(s) && BatchStep(s, id, paths, done, s')
    ensures Inv(s') && s'.expire == s.expire
  {
    var sorted := SortPaths(paths);
    if done == |paths| {
      AcquiredKeepsInv(s, id, sorted, s');
    } else {
      var mid, last :| BatchRefused(s, id, sorted, done, mid, last, s');
      AcquiredKeepsInv(s, id, sorted[..done], mid);
      AcquireKeepsInv(mid, id, sorted[done], Subtree, false, last);
      FewerExclusive(last.table, s'.table);
    }
  }

  lemma ReleaseKeepsInv(s: State, id: HandleId)
    requires Inv(s) && id in s.known
    ensures Inv(ReleaseAll(s, id))
    ensures forall p :: p in ReleaseAll(s, id).table ==> ReleaseAll(s, id).table[p].handleId != id
  {
  }

  lemma ReleaseSomeKeepsInv(s: State, id: HandleId, paths: seq<Path>)
    requires Inv(s) && id in s.known
    ensures Inv(ReleaseSome(s, id, paths))
  {
  }

  /** Evicting handles, with every path they list, leaves only entries that are still listed. */
  lemma EvictKeepsInv(s: State, ids: set<HandleId>, s': State)
    requires Inv(s)
    requires forall p :: p in s'.table ==> p in s.table && s'.table[p] == s.table[p] && p !in ListedBy(s.known, ids)
    requires s'.known == Forget(s.known, ids) && s'.active <= s.active
    requires s'.expire == s.expire && s'.now >= s.now
    ensures Inv(s')
    ensures forall p :: p in s'.table ==> s'.table[p].handleId !in ids
  {
  }

  lemma StepKeepsInv(s: State, op: Op, s': State)
    requires Inv(s) && Step(s, op, s')
    ensures Inv(s') && s'.expire == s.expire && s.now <= s'.now
  {
    StepForward(s, op, s');
    match op
    case Create(id) =>
      forall i | i in s'.known ensures SoundHandle(s'.known[i], i, s'.now, s'.expire) {
        if i != id { assert SoundHandle(s.known[i], i, s.now, s.expire); }
      }
    case Acquire(id, path, ty, ok) => AcquireKeepsInv(s, id, path, ty, ok, s');
    case Batch(id, paths, done) => BatchKeepsInv(s, id, paths, done, s');
    case Release(id) => ReleaseKeepsInv(s, id);
    case ReleaseSelected(id, paths) => ReleaseSomeKeepsInv(s, id, paths);
    case Stop => EvictKeepsInv(s, s.active, s');
    case Cleanup(at) => EvictKeepsInv(s, Stale(s, at), s');
  }

  /** The clock never runs backwards and the expiry time is fixed. */
  lemma StepForward(s: State, op: Op, s': State)
    requires Step(s, op, s')
    ensures s'.expire == s.expire && s.now <= s'.now
  {
    if op.Batch? {
      var sorted := SortPaths(op.paths);
      if op.done == |op.paths| {
        AcquiredForward(s, op.id, sorted, s');
      } else {
        var mid, last :| BatchRefused(s, op.id, sorted, op.done, mid, last, s');
        AcquiredForward(s, op.id, sorted[..op.done], mid);
      }
    }
  }

  lemma {:induction false} AcquiredForward(s: State, id: HandleId, ps: seq<Path>, s': State)
    requires AcquiredAll(s, id, ps, s')
    ensures s'.expire == s.expire && s.now <= s'.now && s'.active == s.active
    decreases |ps|
  {
    if ps != [] {
      var mid :| AcquiredVia(s, id, ps, mid, s');
      AcquiredForward(s, id, ps[..|ps| - 1], mid);
    }
  }

  lemma InitialInv(s: State)
    requires Initial(s)
    ensures Inv(s)
  {
  }

  lemma {:induction false} RunKeepsInv(states: seq<State>, ops: seq<Op>, i: nat, j: nat)
    requires IsRun(states, ops) && i <= j < |states| && Inv(states[i])
    ensures Inv(states[j]) && states[i].now <= states[j].now
    decreases j - i
  {
    hide Inv, Step;
    if i < j {
      RunKeepsInv(states, ops, i, j - 1);
      StepKeepsInv(states[j - 1], ops[j - 1], states[j]);
    }
  }

  /**
   * In every state of every run, the entries of different handles cover no common path,
   * unless both are subtree locks on one directory spelled without and with a final slash.
   */
  lemma DisjointCoverage(states: seq<State>, ops: seq<Op>, j: nat, p: Path, q: Path)
    requires IsRun(states, ops) && Initial(states[0]) && j < |states|
    requires p in states[j].table && q in states[j].table
    requires states[j].table[p].handleId != states[j].table[q].handleId
    ensures var ep, eq := states[j].table[p], states[j].table[q];
            Overlap(p, q, ep.lockType, eq.lockType) ==> ep.lockType.Subtree? && eq.lockType.Subtree? && Twins(p, q)
  {
    RunKeepsInv(states, ops, 0, j);
    ConflictExact(p, q, states[j].table[p].lockType, states[j].table[q].lockType);
  }
}
