/**
 What the operations of the lock manager promise, told in the fields of the entries, the
 readings of the clock and the paths that two locks both cover.
 */
module LockLaws {
  import opened LockPaths
  import opened LockModel
  import opened LockInvariant
  import opened LockTheorems
  import opened LockLifetime

  /** One directory, spelled without and with its final slash. */
  predicate TwoSpellings(p: Path, q: Path) {
    (p[|p| - 1] != '/' && q == p + "/") || (q[|q| - 1] != '/' && p == q + "/")
  }

  /** Locks that must not be held by two handles: they cover a common path. Two subtree locks on two spellings of one
      directory are the pair that the code does not see. */
  ghost predicate Clash(p: Path, ty: LockType, e: LockEntry, q: Path) {
    Overlap(p, q, ty, e.lockType) && !(ty.Subtree? && e.lockType.Subtree? && TwoSpellings(p, q))
  }

  lemma ClashIsConflict(p: Path, ty: LockType, e: LockEntry, q: Path)
    ensures Clash(p, ty, e, q) <==> IsPathConflict(p, q, ty, e.lockType)
  {
    ConflictExact(p, q, ty, e.lockType);
    hide Overlap;
    if Twins(p, q) {
      TwinsNestExactly(p, q);
      TwinsNestExactly(q, p);
    }
  }

  /** Of two twins one is the ancestor of the other when the shorter one ends in a slash already. */
  lemma TwinsNestExactly(p: Path, q: Path)
    requires Twins(p, q)
    ensures p != q && (IsAncestor(p, q) <==> q == p + "/" && p[|p| - 1] == '/')
  {
  }

  // ---------------------------------------------------------------- one request

  /** A handle that owns the entry at the path is told yes, and nothing changes, whatever the type of that entry. */
  lemma HeldAlready(s: State, id: HandleId, path: Path, ty: LockType, ok: bool, s': State)
    requires Step(s, Acquire(id, path, ty, ok), s') && path in s.table && s.table[path].handleId == id
    ensures ok && s' == s
  {
  }

  /** A grant writes one entry, of the requested type, that lasts from a reading during the call for the expiry time. */
  lemma GrantLasts(s: State, id: HandleId, path: Path, ty: LockType, s': State)
    requires Step(s, Acquire(id, path, ty, true), s')
    requires path in s.table ==> s.table[path].handleId != id
    ensures id in s.known && id in s'.known && path in s'.table
    ensures var e := s'.table[path];
            && e.path == path && e.lockType == ty && e.handleId == id
            && s.now <= e.acquiredAt <= s'.now && e.expiresAt == e.acquiredAt + s.expire
            && s'.known[id].locks == s.known[id].locks + [e] && s'.known[id].lastActiveAt == e.acquiredAt
    ensures s'.active == s.active && s'.known.Keys == s.known.Keys
    ensures forall i :: i in s.known && i != id ==> s'.known[i] == s.known[i]
  {
  }

  /** It takes the place of exactly the clashing entries of other handles, every one of them expired during the call. */
  lemma GrantTakesOver(s: State, id: HandleId, path: Path, ty: LockType, s': State, p: Path)
    requires Step(s, Acquire(id, path, ty, true), s') && p in s.table && p != path
    requires path in s.table ==> s.table[path].handleId != id
    ensures p in s'.table <==> s.table[p].handleId == id || !Clash(path, ty, s.table[p], p)
    ensures p in s'.table ==> s'.table[p] == s.table[p]
    ensures p !in s'.table ==> s.table[p].expiresAt < s'.now
  {
    ClashIsConflict(path, ty, s.table[p], p);
  }

  /** A request is refused only because of an entry of another handle that clashes and has not expired; nothing is
      gained, and what is lost is expired and belongs to others. */
  lemma RefusedByLive(s: State, id: HandleId, path: Path, ty: LockType, s': State)
    requires Step(s, Acquire(id, path, ty, false), s')
    ensures exists p :: p in s.table && s.table[p].handleId != id && Clash(path, ty, s.table[p], p)
                        && s.now <= s.table[p].expiresAt && p in s'.table
    ensures s'.known == s.known && s'.active == s.active
    ensures forall p :: p in s'.table ==> p in s.table && s'.table[p] == s.table[p]
    ensures forall p :: p in s.table && p !in s'.table ==> s.table[p].handleId != id && s.table[p].expiresAt < s'.now
  {
    hide IsPathConflict, Clash;
    var p :| StoppedBy(s, Rivals(s.table, id, path, ty), s.table.Keys - s'.table.Keys, p);
    ClashIsConflict(path, ty, s.table[p], p);
  }

  // ---------------------------------------------------------------- stop and cleanup

  /** All paths that an active handle lists leave the table, whoever owns them; no handle is active any more. */
  lemma StopClears(s: State, s': State, p: Path)
    requires Step(s, Op.Stop, s') && s.active <= s.known.Keys && p in s.table
    ensures p !in s'.table <==> exists id, e :: id in s.active && e in s.known[id].locks && e.path == p
    ensures p in s'.table ==> s'.table[p] == s.table[p]
    ensures s'.active == {} && s'.known.Keys == s.known.Keys
    ensures forall id :: id in s.known ==>
              s'.known[id] == if id in s.active then Handle([], s.known[id].lastActiveAt) else s.known[id]
  {
  }

  /** A handle is evicted exactly when it lists a lock and has been idle for longer than the expiry time; evicted
      handles list nothing any more, the others are as before. */
  lemma CleanupEvicts(s: State, at: int, s': State, id: HandleId)
    requires Step(s, Cleanup(at), s') && id in s.known
    ensures s'.known.Keys == s.known.Keys && s'.now == at && s'.active <= s.active
    ensures id in s.active ==>
              (id !in s'.active <==> s.known[id].locks != [] && at - s.known[id].lastActiveAt > s.expire)
    ensures s'.known[id] == if id in s.active && id !in s'.active then Handle([], s.known[id].lastActiveAt) else s.known[id]
  {
  }

  /** An entry goes exactly when its time is over or an evicted handle lists its path. */
  lemma CleanupSweeps(s: State, at: int, s': State, p: Path)
    requires Step(s, Cleanup(at), s') && s.active <= s.known.Keys && p in s.table
    ensures p !in s'.table <==>
              || s.table[p].expiresAt < at
              || exists id, e :: id in s.active && id !in s'.active && e in s.known[id].locks && e.path == p
    ensures p in s'.table ==> s'.table[p] == s.table[p]
  {
    var stale := Stale(s, at);
    assert forall id :: id in stale <==> id in s.active && id !in s'.active;
    hide Stale;
  }

  // ---------------------------------------------------------------- every new entry

  /** An entry written between two readings of the clock, `from` and `to`. */
  ghost predicate LastsFrom(e: LockEntry, id: HandleId, path: Path, ty: LockType, from: int, to: int, expire: int) {
    && e.path == path && e.lockType == ty && e.handleId == id
    && from <= e.acquiredAt <= to && e.expiresAt == e.acquiredAt + expire
  }

  lemma {:induction false} GrantsLast(s: State, id: HandleId, ps: seq<Path>, s': State)
    requires AcquiredAll(s, id, ps, s')
    ensures s.now <= s'.now && s'.expire == s.expire
    ensures forall p :: p in s'.table ==>
              || (p in s.table && s'.table[p] == s.table[p])
              || (p in ps && LastsFrom(s'.table[p], id, p, Subtree, s.now, s'.now, s.expire))
    decreases |ps|
  {
    hide Rivals;
    if ps != [] {
      var init, last := ps[..|ps| - 1], ps[|ps| - 1];
      var mid :| AcquiredVia(s, id, ps, mid, s');
      GrantsLast(s, id, init, mid);
      assert forall p :: p in init ==> p in ps;
      if !Holds(mid.table, id, last) {
        var at :| GrantedAt(mid, id, last, Subtree, at, s');
      }
    }
  }

  /** Whatever operation writes an entry was a granted request of its owner, and the entry lasts for the expiry time. */
  lemma NewEntryLasts(s: State, op: Op, s': State, p: Path)
    requires Step(s, op, s') && p in s'.table && !(p in s.table && s'.table[p] == s.table[p])
    ensures var e := s'.table[p];
            && e.path == p && s.now <= e.acquiredAt <= s'.now && e.expiresAt == e.acquiredAt + s.expire
            && s.now + s.expire <= e.expiresAt
            && (|| op == Acquire(e.handleId, p, e.lockType, true)
                || (op.Batch? && op.id == e.handleId && op.done == |op.paths| && p in op.paths && e.lockType == Subtree))
  {
    hide Rivals;
    match op
    case Acquire(id, path, ty, ok) =>
      if ok && !Holds(s.table, id, path) {
        var at :| GrantedAt(s, id, path, ty, at, s');
      }
    case Batch(id, paths, done) =>
      var sorted := SortPaths(paths);
      if done == |paths| {
        GrantsLast(s, id, sorted, s');
      } else {
        var mid, last :| BatchRefused(s, id, sorted, done, mid, last, s');
        RefusedBatchWritesNothing(s, id, sorted, done, mid, last, s', p);
      }
    case _ =>
  }

  lemma RefusedBatchWritesNothing(s: State, id: HandleId, sorted: seq<Path>, done: nat, mid: State, last: State, s': State, p: Path)
    requires BatchRefused(s, id, sorted, done, mid, last, s') && p in s'.table
    ensures p in s.table && s'.table[p] == s.table[p]
  {
    hide Rivals;
    GrantsLast(s, id, sorted[..done], mid);
    assert p in mid.table && s'.table[p] == mid.table[p];
  }

  /** A granted batch owns every path it asked for; each path it did not own before has a new subtree entry. */
  lemma BatchLasts(s: State, id: HandleId, paths: seq<Path>, s': State, p: Path)
    requires Inv(s) && Step(s, Batch(id, paths, |paths|), s') && p in paths
    ensures p in s'.table && s'.table[p].handleId == id
    ensures if p in s.table && s.table[p].handleId == id then s'.table[p] == s.table[p]
            else LastsFrom(s'.table[p], id, p, Subtree, s.now, s'.now, s.expire)
  {
    hide OthersKept, RivalOfSome, Inv, BatchStep;
    BatchGranted(s, id, paths, s');
    if !(p in s.table && s.table[p].handleId == id) {
      NewEntryLasts(s, Batch(id, paths, |paths|), s', p);
    }
  }

  // ---------------------------------------------------------------- runs

  /** An entry stays until its time is over, unless one of the listed operations comes between. */
  lemma {:induction false} EntryStands(states: seq<State>, ops: seq<Op>, i: nat, j: nat, p: Path)
    requires IsRun(states, ops) && i <= j < |states| && Inv(states[i]) && p in states[i].table
    requires states[j].now <= states[i].table[p].expiresAt
    requires forall k :: i <= k < j && p in states[k].table ==> !Removes(states[k], ops[k], p)
    ensures p in states[j].table && states[j].table[p] == states[i].table[p]
    decreases j - i
  {
    hide Inv, Removes, Step;
    if i < j {
      RunKeepsInv(states, ops, i, j - 1);
      assert Step(states[j - 1], ops[j - 1], states[j]);
      StepForward(states[j - 1], ops[j - 1], states[j]);
      EntryStands(states, ops, i, j - 1, p);
      EntrySurvives(states[j - 1], ops[j - 1], states[j], p);
    }
  }

  /** From the step that wrote an entry on, for the whole expiry time, no other handle holds a clashing lock. */
  lemma GrantExcludes(states: seq<State>, ops: seq<Op>, i: nat, j: nat, p: Path, q: Path)
    requires IsRun(states, ops) && Initial(states[0]) && i < j < |states|
    requires p in states[i + 1].table && !(p in states[i].table && states[i + 1].table[p] == states[i].table[p])
    requires states[j].now <= states[i].now + states[i].expire
    requires forall k :: i < k < j && p in states[k].table ==> !Removes(states[k], ops[k], p)
    ensures var e := states[i + 1].table[p];
            && p in states[j].table && states[j].table[p] == e
            && (q in states[j].table && states[j].table[q].handleId != e.handleId ==>
                  !Clash(p, e.lockType, states[j].table[q], q))
  {
    hide Inv, Removes, Step, Clash;
    InitialInv(states[0]);
    RunKeepsInv(states, ops, 0, i);
    assert Step(states[i], ops[i], states[i + 1]);
    StepKeepsInv(states[i], ops[i], states[i + 1]);
    NewEntryLasts(states[i], ops[i], states[i + 1], p);
    EntryStands(states, ops, i + 1, j, p);
    RunKeepsInv(states, ops, i + 1, j);
    if q in states[j].table && states[j].table[q].handleId != states[j].table[p].handleId {
      InvExcludes(states[j], p, q);
      ClashIsConflict(p, states[j].table[p].lockType, states[j].table[q], q);
    }
  }

  lemma InvExcludes(s: State, p: Path, q: Path)
    requires Inv(s) && p in s.table && q in s.table && s.table[p].handleId != s.table[q].handleId
    ensures !IsPathConflict(p, q, s.table[p].lockType, s.table[q].lockType)
  {
  }

  /** So the request of another handle for a clashing lock is granted only after that time, or after a removal. */
  lemma NobodyElseGranted(states: seq<State>, ops: seq<Op>, i: nat, j: nat, p: Path, b: HandleId, q: Path, ty: LockType)
    requires IsRun(states, ops) && Initial(states[0]) && i < j < |ops|
    requires p in states[i + 1].table && !(p in states[i].table && states[i + 1].table[p] == states[i].table[p])
    requires forall k :: i < k < j && p in states[k].table ==> !Removes(states[k], ops[k], p)
    requires b != states[i + 1].table[p].handleId && Clash(q, ty, states[i + 1].table[p], p)
    requires q in states[j].table ==> states[j].table[q].handleId != b
    requires || ops[j] == Acquire(b, q, ty, true)
             || (ops[j].Batch? && ops[j].id == b && ops[j].done == |ops[j].paths| && q in ops[j].paths && ty == Subtree)
    ensures states[i].now + states[i].expire < states[j + 1].now
  {
    hide Inv, Step, Clash;
    assert Step(states[j], ops[j], states[j + 1]);
    InitialInv(states[0]);
    RunKeepsInv(states, ops, 0, j);
    if states[j + 1].now <= states[i].now + states[i].expire {
      GrantExcludes(states, ops, i, j + 1, p, q);
      if ops[j].Acquire? {
        GrantLasts(states[j], b, q, ty, states[j + 1]);
      } else {
        BatchLasts(states[j], b, ops[j].paths, states[j + 1], q);
      }
      ClashIsConflict(q, ty, states[i + 1].table[p], p);
      ClashIsConflict(p, states[i + 1].table[p].lockType, states[j + 1].table[q], q);
      ConflictSymmetric(p, q, states[i + 1].table[p].lockType, ty);
      assert false;
    }
  }
}
