/** How long an entry lives, and exactly when the table and the handles' lists stay in agreement. */
module LockLifetime {
  import opened LockPaths
  import opened LockModel
  import opened LockInvariant
  import opened LockTheorems

  /** The operations that take an unexpired entry for `p` out of the table. */
  predicate Removes(s: State, op: Op, p: Path)
    requires p in s.table
  {
    match op
    case Create(_) => false
    case Acquire(_, _, _, _) => false
    case Batch(id, paths, done) => done < |paths| && p in SortPaths(paths)[..done] && s.table[p].handleId == id
    case Release(id) => id in s.known && p in Listed(s.known[id].locks)
    case ReleaseSelected(id, paths) => p in paths && s.table[p].handleId == id
    case Stop => p in ListedBy(s.known, s.active)
    case Cleanup(at) => p in ListedBy(s.known, Stale(s, at))
  }

  /** No operation removes or replaces an unexpired entry in any other way, whoever calls it. */
  lemma EntrySurvives(s: State, op: Op, s': State, p: Path)
    requires Inv(s) && Step(s, op, s')
    requires p in s.table && !Expired(s.table[p], s'.now)
    ensures Kept(s, s', p) <==> !Removes(s, op, p)
  {
    match op
    case Create(_) =>
    case Acquire(id, path, ty, ok) => AcquireSparesLive(s, id, path, ty, ok, s', p);
    case Batch(id, paths, done) => BatchSurvives(s, id, paths, done, s', p);
    case Release(_) =>
    case ReleaseSelected(_, _) =>
    case Stop =>
    case Cleanup(_) =>
  }

  lemma AcquireSparesLive(s: State, id: HandleId, path: Path, ty: LockType, ok: bool, s': State, p: Path)
    requires AcquireStep(s, id, path, ty, ok, s')
    requires p in s.table && !Expired(s.table[p], s'.now)
    ensures Kept(s, s', p)
  {
  }

  lemma BatchSurvives(s: State, id: HandleId, paths: seq<Path>, done: nat, s': State, p: Path)
    requires Inv(s) && BatchStep(s, id, paths, done, s')
    requires p in s.table && !Expired(s.table[p], s'.now)
    ensures Kept(s, s', p) <==> !Removes(s, Batch(id, paths, done), p)
  {
    hide BatchStep, Inv, RivalOfSome, Kept;
    if done == |paths| {
      BatchGranted(s, id, paths, s');
    } else {
      BatchNotGranted(s, id, paths, done, s');
    }
  }

  /** Both structures tell the same story: whatever a handle lists is in the table. */
  ghost predicate Agrees(s: State) {
    forall id, e :: id in s.known && e in s.known[id].locks ==> e.path in s.table && s.table[e.path] == e
  }

  ghost predicate AllKept(s: State, s': State) {
    forall p :: p in s.table ==> Kept(s, s', p)
  }

  /**
   * No expired lock is taken over, no batch is rolled back, no expired lock of a busy handle is swept. A grant takes over
   * every rival there is; which expired rivals a refusal drops depends on the order of the scan.
   */
  ghost predicate Orderly(s: State, op: Op, s': State) {
    match op
    case Create(_) => true
    case Acquire(id, path, ty, ok) =>
      if ok then Holds(s.table, id, path) || Rivals(s.table, id, path, ty) == {} else AllKept(s, s')
    case Batch(id, paths, done) =>
      if done == |paths| then forall p :: !RivalOfSome(s.table, id, paths, p) else done == 0 && AllKept(s, s')
    case Release(_) => true
    case ReleaseSelected(_, _) => true
    case Stop => true
    case Cleanup(at) => forall p :: p in s.table && Expired(s.table[p], at) ==> s.table[p].handleId in Stale(s, at)
  }

  /** Agreement survives a step exactly when the step is orderly. */
  lemma AgreementExact(s: State, op: Op, s': State)
    requires Inv(s) && Agrees(s) && Step(s, op, s')
    ensures Agrees(s') <==> Orderly(s, op, s')
  {
    match op
    case Create(_) =>
    case Acquire(id, path, ty, ok) => AcquireAgreement(s, id, path, ty, ok, s');
    case Batch(id, paths, done) => BatchAgreement(s, id, paths, done, s');
    case Release(id) => ReleaseAgreement(s, id);
    case ReleaseSelected(id, paths) => ReleaseSomeAgreement(s, id, paths);
    case Stop => StopAgreement(s);
    case Cleanup(at) => CleanupAgreement(s, at);
  }

  /** An entry that leaves the table while its owner still lists it ends the agreement. */
  lemma LostEntryDisagrees(s: State, s': State, p: Path)
    requires Inv(s) && p in s.table && !Kept(s, s', p)
    requires s.table[p].handleId in s'.known && s.table[p] in s'.known[s.table[p].handleId].locks
    ensures !Agrees(s')
  {
  }

  lemma AcquireAgreement(s: State, id: HandleId, path: Path, ty: LockType, ok: bool, s': State)
    requires Inv(s) && Agrees(s) && AcquireStep(s, id, path, ty, ok, s')
    ensures Agrees(s') <==> AllKept(s, s')
    ensures ok ==> (AllKept(s, s') <==> Holds(s.table, id, path) || Rivals(s.table, id, path, ty) == {})
  {
    if ok {
      GrantKeeps(s, id, path, ty, s');
    }
    if AllKept(s, s') {
      KeptAgrees(s, id, path, ty, ok, s');
    } else {
      var p :| p in s.table && !Kept(s, s', p);
      AcquireKeepsList(s, id, path, ty, ok, s');
      hide Inv, AcquireStep;
      LostEntryDisagrees(s, s', p);
    }
  }

  lemma GrantKeeps(s: State, id: HandleId, path: Path, ty: LockType, s': State)
    requires AcquireStep(s, id, path, ty, true, s')
    ensures AllKept(s, s') <==> Holds(s.table, id, path) || Rivals(s.table, id, path, ty) == {}
  {
    if !Holds(s.table, id, path) {
      var at :| GrantedAt(s, id, path, ty, at, s');
      if Rivals(s.table, id, path, ty) != {} {
        var p :| p in Rivals(s.table, id, path, ty);
        assert !Kept(s, s', p);
      }
    }
  }

  lemma KeptAgrees(s: State, id: HandleId, path: Path, ty: LockType, ok: bool, s': State)
    requires Agrees(s) && AcquireStep(s, id, path, ty, ok, s') && AllKept(s, s')
    ensures Agrees(s')
  {
    if !Holds(s.table, id, path) && ok {
      var at :| GrantedAt(s, id, path, ty, at, s');
    }
  }

  /** No list loses an entry. */
  lemma AcquireKeepsList(s: State, id: HandleId, path: Path, ty: LockType, ok: bool, s': State)
    requires Inv(s) && AcquireStep(s, id, path, ty, ok, s')
    ensures forall p :: p in s.table ==>
                          s.table[p].handleId in s'.known && s.table[p] in s'.known[s.table[p].handleId].locks
  {
    if !Holds(s.table, id, path) && ok {
      var at :| GrantedAt(s, id, path, ty, at, s');
    }
  }

  lemma BatchAgreement(s: State, id: HandleId, paths: seq<Path>, done: nat, s': State)
    requires Inv(s) && Agrees(s) && BatchStep(s, id, paths, done, s')
    ensures Agrees(s') <==>
            if done == |paths| then forall p :: !RivalOfSome(s.table, id, paths, p) else done == 0 && AllKept(s, s')
  {
    hide Inv;
    var sorted := SortPaths(paths);
    if done == |paths| {
      GrantedInOrder(s, id, sorted, s');
      GrantedAgreement(s, id, sorted, s');
      BatchGranted(s, id, paths, s');
      KeptUnlessRival(s, id, paths, s');
    } else {
      var mid, last :| BatchRefused(s, id, sorted, done, mid, last, s');
      GrantedInOrder(s, id, sorted[..done], mid);
      if done == 0 {
        assert sorted[..done] == [];
        assert s' == last;
        AcquireAgreement(s, id, sorted[done], Subtree, false, s');
      } else {
        RolledBackDisagrees(s, id, sorted[..done], mid, sorted[done], last);
      }
    }
  }

  lemma GrantedAgreement(s: State, id: HandleId, ps: seq<Path>, s': State)
    requires Inv(s) && Agrees(s) && id in s.known && id in s'.known
    requires AllGranted(s, id, ps, s') && ListGrown(s, id, ps, s')
    ensures Agrees(s') <==> AllKept(s, s')
  {
    if !AllKept(s, s') {
      var p :| p in s.table && !Kept(s, s', p);
      LostEntryDisagrees(s, s', p);
    }
  }

  lemma KeptUnlessRival(s: State, id: HandleId, ps: seq<Path>, s': State)
    requires AllGranted(s, id, ps, s') && Inv(s)
    ensures AllKept(s, s') <==> forall p :: !RivalOfSome(s.table, id, ps, p)
  {
    hide RivalOfSome, Inv;
  }

  lemma RolledBackDisagrees(s: State, id: HandleId, ps: seq<Path>, mid: State, path: Path, last: State)
    requires ps != [] && AllGranted(s, id, ps, mid) && Inv(mid)
    requires AcquireStep(mid, id, path, Subtree, false, last)
    ensures !Agrees(RolledBack(last, id, ps))
  {
    var p := ps[0];
    assert Holds(mid.table, id, p);
    assert p !in Rivals(mid.table, id, path, Subtree);
    assert p in HeldOf(last.table, id, ps);
    var e := mid.table[p];
    assert e.path == p && e in last.known[id].locks;
  }

  lemma ReleaseAgreement(s: State, id: HandleId)
    requires Inv(s) && Agrees(s) && id in s.known
    ensures Agrees(ReleaseAll(s, id))
  {
  }

  lemma ReleaseSomeAgreement(s: State, id: HandleId, paths: seq<Path>)
    requires Inv(s) && Agrees(s) && id in s.known
    ensures Agrees(ReleaseSome(s, id, paths))
  {
  }

  /** When the structures agree, the paths that some handles list are exactly those they own. */
  lemma ListedByOwners(s: State, ids: set<HandleId>, p: Path)
    requires Inv(s) && Agrees(s)
    ensures p in ListedBy(s.known, ids) <==> p in s.table && s.table[p].handleId in ids
  {
  }

  lemma StopAgreement(s: State)
    requires Inv(s) && Agrees(s)
    ensures Agrees(Stopped(s))
  {
  }

  lemma CleanupAgreement(s: State, at: int)
    requires Inv(s) && Agrees(s) && s.now <= at
    ensures Agrees(Cleaned(s, at)) <==>
            forall p :: p in s.table && Expired(s.table[p], at) ==> s.table[p].handleId in Stale(s, at)
  {
    var s', stale := Cleaned(s, at), Stale(s, at);
    if forall p :: p in s.table && Expired(s.table[p], at) ==> s.table[p].handleId in stale {
      forall i, e | i in s'.known && e in s'.known[i].locks ensures e.path in s'.table && s'.table[e.path] == e {
        assert SoundHandle(s.known[i], i, s.now, s.expire);
        ListedByOwners(s, stale, e.path);
        assert s.table[e.path] == e;
      }
    } else {
      var p :| p in s.table && Expired(s.table[p], at) && s.table[p].handleId !in stale;
      assert p !in s'.table;
      LostEntryDisagrees(s, s', p);
    }
  }

  /** The cleanup evicts a handle only when every lock it lists has expired. */
  lemma EvictedOnlyExpired(s: State, at: int, id: HandleId, e: LockEntry)
    requires Inv(s) && id in Stale(s, at) && e in s.known[id].locks
    ensures Expired(e, at)
  {
  }

  /** The owner gives up `p`, or the manager is stopped. */
  predicate GivesUp(op: Op, id: HandleId, p: Path) {
    match op
    case Create(_) => false
    case Acquire(_, _, _, _) => false
    case Batch(_, _, _) => false
    case Release(i) => i == id
    case ReleaseSelected(i, paths) => i == id && p in paths
    case Stop => true
    case Cleanup(_) => false
  }

  /** What a handle lists it owns. */
  lemma ListedIsOwned(s: State, id: HandleId, p: Path)
    requires Inv(s) && Agrees(s) && id in s.known && p in Listed(s.known[id].locks)
    ensures p in s.table && s.table[p].handleId == id && s.table[p] in s.known[id].locks
  {
    var e :| e in s.known[id].locks && e.path == p;
    assert SoundHandle(s.known[id], id, s.now, s.expire);
  }

  /** In agreement, an orderly step that is not the owner giving up keeps every unexpired entry. */
  lemma OrderlyStepKeeps(s: State, op: Op, s': State, p: Path)
    requires Inv(s) && Agrees(s) && Step(s, op, s') && Orderly(s, op, s')
    requires p in s.table && !Expired(s.table[p], s'.now) && !GivesUp(op, s.table[p].handleId, p)
    ensures Kept(s, s', p)
  {
    EntrySurvives(s, op, s', p);
    hide Inv, Agrees, Kept;
    if Removes(s, op, p) {
      match op
      case Batch(id, paths, done) =>
      case Release(id) => ListedIsOwned(s, id, p);
      case ReleaseSelected(id, paths) =>
      case Cleanup(at) =>
    }
  }

  ghost predicate OrderlyRun(states: seq<State>, ops: seq<Op>) {
    IsRun(states, ops) && forall i :: 0 <= i < |ops| ==> Orderly(states[i], ops[i], states[i + 1])
  }

  lemma {:induction false} OrderlyRunAgrees(states: seq<State>, ops: seq<Op>, j: nat)
    requires OrderlyRun(states, ops) && j < |states| && Initial(states[0])
    ensures Inv(states[j]) && Agrees(states[j])
  {
    if j > 0 {
      OrderlyRunAgrees(states, ops, j - 1);
      StepKeepsInv(states[j - 1], ops[j - 1], states[j]);
      AgreementExact(states[j - 1], ops[j - 1], states[j]);
    }
  }

  /** In an orderly run a lock is held until its owner gives it up or it expires. */
  lemma {:induction false} HeldUntilReleased(states: seq<State>, ops: seq<Op>, i: nat, j: nat, p: Path)
    requires OrderlyRun(states, ops) && Initial(states[0]) && i <= j < |states|
    requires p in states[i].table && !Expired(states[i].table[p], states[j].now)
    requires forall k :: i <= k < j ==> !GivesUp(ops[k], states[i].table[p].handleId, p)
    ensures p in states[j].table && states[j].table[p] == states[i].table[p]
    decreases j - i
  {
    if i < j {
      OrderlyRunAgrees(states, ops, j - 1);
      StepForward(states[j - 1], ops[j - 1], states[j]);
      HeldUntilReleased(states, ops, i, j - 1, p);
      OrderlyStepKeeps(states[j - 1], ops[j - 1], states[j], p);
    }
  }

  /** The last step of the run is the release of another handle, and it takes a live entry away. */
  ghost predicate ForeignLoss(states: seq<State>, ops: seq<Op>, p: Path) {
    && IsRun(states, ops) && Initial(states[0]) && |ops| > 0 && ops[|ops| - 1].Release?
    && var before := states[|ops| - 1];
    && p in before.table && before.table[p].handleId != ops[|ops| - 1].id
    && !Expired(before.table[p], states[|ops|].now)
    && p !in states[|ops|].table
  }

  /** "a" lets its lock on "/x" expire, "b" takes it over, and then "a" is released. */
  function TakeOverStates(x: Path): seq<State> {
    var s0 := State(map[], map[], {}, 0, 10);
    var s1 := s0.(known := map["a" := Handle([], 0)], active := {"a"});
    var s2 := s1.(known := s1.known["b" := Handle([], 0)], active := {"a", "b"});
    var s3 := Granted(s2, "a", x, Subtree, 0);
    var s4 := Granted(s3, "b", x, Subtree, 20).(now := 20);
    [s0, s1, s2, s3, s4, ReleaseAll(s4, "a")]
  }

  function TakeOverOps(x: Path): seq<Op> {
    [Create("a"), Create("b"), Acquire("a", x, Subtree, true), Acquire("b", x, Subtree, true), Release("a")]
  }

  lemma TakeOverIsRun(x: Path)
    ensures IsRun(TakeOverStates(x), TakeOverOps(x))
  {
    var ss := TakeOverStates(x);
    assert GrantedAt(ss[2], "a", x, Subtree, 0, ss[3]);
    assert GrantedAt(ss[3], "b", x, Subtree, 20, ss[4]);
  }

  /** Release deletes by path: a handle whose expired lock was taken over removes the new owner's live entry. */
  lemma ForeignEntryLost()
    ensures exists states, ops, p :: ForeignLoss(states, ops, p)
  {
    hide IsRun;
    var x: Path := "/x";
    var states, ops := TakeOverStates(x), TakeOverOps(x);
    TakeOverIsRun(x);
    var first := NewEntry(states[2], "a", x, Subtree, 0);
    assert states[4].known["a"].locks == [first] && x in Listed(states[4].known["a"].locks);
    assert ForeignLoss(states, ops, x);
  }

  /** At the end of the run two handles hold live subtree locks on `p` and `q`. */
  ghost predicate BothHeld(states: seq<State>, ops: seq<Op>, p: Path, q: Path) {
    && IsRun(states, ops) && Initial(states[0])
    && var s := states[|ops|];
    && p in s.table && q in s.table && s.table[p].handleId != s.table[q].handleId
    && s.table[p].lockType == s.table[q].lockType == Subtree
    && !Expired(s.table[p], s.now) && !Expired(s.table[q], s.now)
  }

  /** "a" locks the directory as `p`, "b" locks it as `q`. */
  function TwinStates(p: Path, q: Path): seq<State> {
    var s0 := State(map[], map[], {}, 0, 10);
    var s1 := s0.(known := map["a" := Handle([], 0)], active := {"a"});
    var s2 := s1.(known := s1.known["b" := Handle([], 0)], active := {"a", "b"});
    var s3 := Granted(s2, "a", p, Subtree, 0);
    [s0, s1, s2, s3, Granted(s3, "b", q, Subtree, 0)]
  }

  lemma TwinsAreRun(p: Path, q: Path)
    requires !IsPathConflict(q, p, Subtree, Subtree)
    ensures IsRun(TwinStates(p, q), [Create("a"), Create("b"), Acquire("a", p, Subtree, true), Acquire("b", q, Subtree, true)])
  {
    hide IsPathConflict;
    var ss := TwinStates(p, q);
    assert ss[3].table == map[p := NewEntry(ss[2], "a", p, Subtree, 0)];
    assert Rivals(ss[3].table, "b", q, Subtree) == {};
    assert GrantedAt(ss[2], "a", p, Subtree, 0, ss[3]);
    assert GrantedAt(ss[3], "b", q, Subtree, 0, ss[4]);
  }

  /** One directory, spelled without and with its final slash, can be locked by two handles at the same time. */
  lemma TwinsBothGranted(p: Path)
    requires p[|p| - 1] != '/'
    ensures Overlap(p, p + "/", Subtree, Subtree) && exists states, ops :: BothHeld(states, ops, p, p + "/")
  {
    hide IsRun, Below;
    var q: Path := p + "/";
    TwinsOverlap(p, q);
    assert p != q && !IsAncestor(p, q) && !IsAncestor(q, p);
    TwinsAreRun(p, q);
    var states := TwinStates(p, q);
    var table := states[4].table;
    assert Rivals(states[3].table, "b", q, Subtree) == {};
    assert p in table && q in table;
    assert BothHeld(states, [Create("a"), Create("b"), Acquire("a", p, Subtree, true), Acquire("b", q, Subtree, true)], p, q);
  }
}
