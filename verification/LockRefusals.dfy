/** When a request can be refused, and when a refusal takes something away: conditions on the state before the call. */
module LockRefusals {
  import opened Strings
  import opened LockPaths
  import opened LockModel
  import opened LockInvariant
  import opened LockTheorems
  import opened LockLifetime

  /**
   * `p` can stop the batch at its path number `j`: it is a live rival of that path, and whatever the earlier paths take
   * over expires before it.
   */
  ghost predicate StopsAt(s: State, id: HandleId, sorted: seq<Path>, j: nat, p: Path) {
    && j < |sorted| && !Holds(s.table, id, sorted[j]) && sorted[j] !in sorted[..j]
    && p in Rivals(s.table, id, sorted[j], Subtree) && !Expired(s.table[p], s.now)
    && forall q :: RivalOfSome(s.table, id, sorted[..j], q) ==> q in s.table && s.table[q].expiresAt < s.table[p].expiresAt
  }

  /** What a refusal after `j` grants says about the state before the batch. */
  lemma RefusalStops(s: State, id: HandleId, sorted: seq<Path>, j: nat, mid: State, last: State) returns (p: Path)
    requires Inv(s) && id in s.known && j < |sorted|
    requires AcquiredAll(s, id, sorted[..j], mid) && AcquireStep(mid, id, sorted[j], Subtree, false, last)
    ensures StopsAt(s, id, sorted, j, p)
  {
    hide AcquireStep, Inv, ListGrown, Rivals, Holds, IsPathConflict;
    var ps := sorted[..j];
    GrantedInOrder(s, id, ps, mid);
    p := LiveRivalIs(s, id, ps, mid, sorted[j], last);
    NotHeldByRefused(mid, id, sorted[j], last);
    NotHeldLater(s, id, ps, mid, sorted[j]);
    RivalsAreEntries(s, id, sorted[j], p);
    forall q | RivalOfSome(s.table, id, ps, q) ensures q in s.table && s.table[q].expiresAt < s.table[p].expiresAt {
      RivalExpired(s, id, ps, mid, q);
    }
  }

  lemma NotHeldByRefused(mid: State, id: HandleId, path: Path, last: State)
    requires AcquireStep(mid, id, path, Subtree, false, last)
    ensures !Holds(mid.table, id, path)
  {
  }

  lemma RivalsAreEntries(s: State, id: HandleId, path: Path, p: Path)
    requires p in Rivals(s.table, id, path, Subtree)
    ensures p in s.table && s.table[p].handleId != id
  {
  }

  lemma RivalExpired(s: State, id: HandleId, ps: seq<Path>, mid: State, q: Path)
    requires AllGranted(s, id, ps, mid) && RivalOfSome(s.table, id, ps, q)
    ensures q in s.table && Expired(s.table[q], mid.now)
  {
    hide Rivals;
    var r :| r in ps && !Holds(s.table, id, r) && q in Rivals(s.table, id, r, Subtree);
    RivalsAreEntries(s, id, r, q);
  }

  /** At time `t`, when all their rivals have expired, the paths are granted one after the other. */
  lemma {:induction false} GrantsAt(s: State, id: HandleId, ps: seq<Path>, t: int) returns (mid: State)
    requires Inv(s) && id in s.known && s.now <= t
    requires forall q :: RivalOfSome(s.table, id, ps, q) ==> q in s.table && s.table[q].expiresAt < t
    ensures AcquiredAll(s, id, ps, mid) && s.now <= mid.now <= t
    decreases |ps|
  {
    hide Inv, RivalOfSome, Rivals, IsPathConflict, Holds, AcquireStep, Granted;
    if ps == [] {
      mid := s;
    } else {
      var init, path := ps[..|ps| - 1], ps[|ps| - 1];
      forall q | RivalOfSome(s.table, id, init, q) ensures q in s.table && s.table[q].expiresAt < t {
        MoreRivals(s, id, init, ps, q);
      }
      var before := GrantsAt(s, id, init, t);
      GrantedInOrder(s, id, init, before);
      forall q | q in Rivals(before.table, id, path, Subtree) && !Holds(before.table, id, path)
        ensures q in before.table && Expired(before.table[q], t)
      {
        RivalFromStart(s, id, init, before, path, q);
        MoreRivals(s, id, [path], ps, q);
      }
      mid := OneMoreGrant(before, id, path, t);
      assert AcquiredVia(s, id, ps, before, mid);
    }
  }

  lemma MoreRivals(s: State, id: HandleId, ps: seq<Path>, all: seq<Path>, q: Path)
    requires RivalOfSome(s.table, id, ps, q) && forall r :: r in ps ==> r in all
    ensures RivalOfSome(s.table, id, all, q)
  {
  }

  /** Rivals met later were there at the start. */
  lemma RivalFromStart(s: State, id: HandleId, ps: seq<Path>, mid: State, path: Path, q: Path)
    requires AllGranted(s, id, ps, mid) && !Holds(mid.table, id, path) && q in Rivals(mid.table, id, path, Subtree)
    ensures q in mid.table && q in s.table && mid.table[q] == s.table[q] && RivalOfSome(s.table, id, [path], q)
  {
    hide IsPathConflict, OthersKept;
    NotHeldLater(s, id, ps, mid, path);
    assert path in [path] && q in Rivals(s.table, id, path, Subtree);
  }

  lemma OneMoreGrant(s: State, id: HandleId, path: Path, t: int) returns (s': State)
    requires id in s.known && s.now <= t
    requires !Holds(s.table, id, path) ==>
               forall q :: q in Rivals(s.table, id, path, Subtree) ==> q in s.table && Expired(s.table[q], t)
    ensures AcquireStep(s, id, path, Subtree, true, s') && s.now <= s'.now <= t
  {
    hide Rivals, Holds;
    if Holds(s.table, id, path) {
      s' := s;
    } else {
      s' := Granted(s, id, path, Subtree, t).(now := t);
      assert GrantedAt(s, id, path, Subtree, t, s');
    }
  }

  /** The batch is stopped by `p` when the clock stands at the expiry time of `p`. */
  lemma StopsHere(s: State, id: HandleId, paths: seq<Path>, j: nat, p: Path) returns (s': State)
    requires Inv(s) && id in s.known && StopsAt(s, id, SortPaths(paths), j, p)
    ensures j < |paths| && BatchStep(s, id, paths, j, s')
  {
    hide Inv, Holds, IsPathConflict, SortPaths, RivalOfSome, Rivals, RolledBack;
    var sorted := SortPaths(paths);
    RivalsAreEntries(s, id, sorted[j], p);
    var mid := GrantsAt(s, id, sorted[..j], s.table[p].expiresAt);
    GrantedInOrder(s, id, sorted[..j], mid);
    StillRival(s, id, sorted[..j], mid, sorted[j], p);
    RefusedNow(mid, id, sorted[j], p);
    s' := RolledBack(mid, id, sorted[..j]);
    assert BatchRefused(s, id, sorted, j, mid, mid, s');
  }

  lemma StillRival(s: State, id: HandleId, ps: seq<Path>, mid: State, path: Path, p: Path)
    requires AllGranted(s, id, ps, mid) && !Holds(s.table, id, path) && path !in ps
    requires p in Rivals(s.table, id, path, Subtree) && !RivalOfSome(s.table, id, ps, p)
    ensures !Holds(mid.table, id, path) && p in Rivals(mid.table, id, path, Subtree) && mid.table[p] == s.table[p]
  {
    hide IsPathConflict, RivalOfSome;
  }

  lemma RefusedNow(s: State, id: HandleId, path: Path, p: Path)
    requires id in s.known && !Holds(s.table, id, path)
    requires p in Rivals(s.table, id, path, Subtree) && p in s.table && !Expired(s.table[p], s.now)
    ensures AcquireStep(s, id, path, Subtree, false, s)
  {
    hide Rivals, Holds;
    assert s.table.Keys - s.table.Keys == {} && s.table - {} == s.table;
    assert StoppedBy(s, Rivals(s.table, id, path, Subtree), {}, p);
  }

  ghost predicate RefusedAfter(s: State, id: HandleId, paths: seq<Path>, j: nat, s': State) {
    j < |paths| && BatchStep(s, id, paths, j, s')
  }

  /** A batch can be refused at path number `j` exactly when some entry can stop it there. */
  lemma RefusableExactly(s: State, id: HandleId, paths: seq<Path>, j: nat)
    requires Inv(s) && id in s.known
    ensures (exists s' :: RefusedAfter(s, id, paths, j, s')) <==> (exists p :: StopsAt(s, id, SortPaths(paths), j, p))
  {
    hide Inv, StopsAt, SortPaths;
    if s' :| RefusedAfter(s, id, paths, j, s') {
      var mid, last :| BatchRefused(s, id, SortPaths(paths), j, mid, last, s');
      var p := RefusalStops(s, id, SortPaths(paths), j, mid, last);
    }
    if p :| StopsAt(s, id, SortPaths(paths), j, p) {
      var s' := StopsHere(s, id, paths, j, p);
      assert RefusedAfter(s, id, paths, j, s');
    }
  }

  /** The batch is refused and an entry that the handle held is gone. */
  ghost predicate Loses(s: State, id: HandleId, paths: seq<Path>, j: nat, s': State) {
    RefusedAfter(s, id, paths, j, s') && exists q :: Holds(s.table, id, q) && !Kept(s, s', q)
  }

  /** A path that the handle holds comes before one at which the batch can be stopped. */
  ghost predicate HeldBefore(s: State, id: HandleId, sorted: seq<Path>, j: nat, p: Path) {
    StopsAt(s, id, sorted, j, p) && exists q :: q in sorted[..j] && Holds(s.table, id, q)
  }

  /** Some outcome of the batch takes an entry of the handle away exactly under this condition on the state before. */
  lemma MayLoseExactly(s: State, id: HandleId, paths: seq<Path>)
    requires Inv(s) && id in s.known
    ensures (exists j, s' :: Loses(s, id, paths, j, s')) <==> (exists j, p :: HeldBefore(s, id, SortPaths(paths), j, p))
  {
    hide Inv, StopsAt, SortPaths, Kept, Holds, BatchStep;
    if j, s' :| Loses(s, id, paths, j, s') {
      RefusableExactly(s, id, paths, j);
      var p :| StopsAt(s, id, SortPaths(paths), j, p);
      AllOrNothing(s, id, paths, j, s');
      assert HeldBefore(s, id, SortPaths(paths), j, p);
    }
    if j, p :| HeldBefore(s, id, SortPaths(paths), j, p) {
      RefusableExactly(s, id, paths, j);
      var s' :| RefusedAfter(s, id, paths, j, s');
      AllOrNothing(s, id, paths, j, s');
      assert Loses(s, id, paths, j, s');
    }
  }

  /** A handle that holds none of the paths loses nothing, however the batch ends. */
  lemma NoneHeldNoneLost(s: State, id: HandleId, paths: seq<Path>, done: nat, s': State, p: Path)
    requires Inv(s) && BatchStep(s, id, paths, done, s')
    requires forall q :: q in paths ==> !Holds(s.table, id, q)
    requires Holds(s.table, id, p)
    ensures Kept(s, s', p)
  {
    hide Inv, BatchStep, SortPaths, Kept, Holds;
    if done == |paths| {
      BatchGranted(s, id, paths, s');
    } else {
      BatchNotGranted(s, id, paths, done, s');
      assert forall q :: q in SortPaths(paths)[..done] ==> q in SortPaths(paths);
    }
  }

  /** The last step of the run is a refused batch, and it takes an unexpired entry of its own handle away. */
  ghost predicate OwnLoss(states: seq<State>, ops: seq<Op>, p: Path) {
    && IsRun(states, ops) && Initial(states[0]) && |ops| > 0 && ops[|ops| - 1].Batch?
    && var before := states[|ops| - 1];
    && ops[|ops| - 1].done < |ops[|ops| - 1].paths| && Holds(before.table, ops[|ops| - 1].id, p)
    && !Expired(before.table[p], states[|ops|].now) && p !in states[|ops|].table
  }

  lemma SortedPair(p: Path, q: Path)
    requires |p| < |q|
    ensures SortPaths([p, q]) == [p, q]
  {
    assert [p, q][..1] == [p] && [p][..0] == [];
    assert SortPaths([p]) == InsertPath(p, SortPaths([])) == [p];
    assert SortPaths([p, q]) == InsertPath(q, [p]);
  }

  lemma PairRefused(s: State, p: Path, q: Path) returns (s': State)
    requires "a" in s.known && Holds(s.table, "a", p) && !Holds(s.table, "a", q) && |p| < |q|
    requires q in s.table && !Expired(s.table[q], s.now)
    ensures BatchStep(s, "a", [p, q], 1, s') && p !in s'.table && s'.now == s.now
  {
    SortedPair(p, q);
    var ps := [p, q][..1];
    assert ps == [p] && ps[..0] == [];
    assert AcquiredVia(s, "a", ps, s, s);
    assert q in Rivals(s.table, "a", q, Subtree);
    RefusedNow(s, "a", q, q);
    s' := RolledBack(s, "a", ps);
    assert BatchRefused(s, "a", [p, q], 1, s, s, s');
  }

  /** "a" holds `p`, "b" holds a longer path `q` apart from it; the batch of "a" for both is refused and takes `p` away. */
  lemma HeldEntryLost(p: Path, q: Path)
    requires |p| < |q| && !IsPathConflict(q, p, Subtree, Subtree)
    ensures exists states, ops :: OwnLoss(states, ops, p)
  {
    hide IsRun, IsPathConflict, Granted;
    TwinsAreRun(p, q);
    var before, ops := TwinStates(p, q), [Create("a"), Create("b"), Acquire("a", p, Subtree, true), Acquire("b", q, Subtree, true)];
    TwinsHold(p, q);
    var s' := PairRefused(before[4], p, q);
    RunGrows(before, ops, Batch("a", [p, q], 1), s');
    assert OwnLoss(before + [s'], ops + [Batch("a", [p, q], 1)], p);
  }

  lemma TwinsHold(p: Path, q: Path)
    requires !IsPathConflict(q, p, Subtree, Subtree)
    ensures var s := TwinStates(p, q)[4];
            && "a" in s.known && Holds(s.table, "a", p) && q in s.table && s.table[q].handleId == "b"
            && !Expired(s.table[p], s.now) && !Expired(s.table[q], s.now)
  {
    assert IsPathConflict(q, q, Subtree, Subtree);
    assert Rivals(TwinStates(p, q)[3].table, "b", q, Subtree) == {};
  }

  lemma RunGrows(states: seq<State>, ops: seq<Op>, op: Op, s': State)
    requires IsRun(states, ops) && Step(states[|ops|], op, s')
    ensures IsRun(states + [s'], ops + [op])
  {
    hide Step;
  }

  // ----- When a refusal ends the agreement of table and lists -----

  /** `p` is alive and stands in the way; `q`, and the entry at the path itself if there is one, expire before it. */
  ghost predicate DropsFirst(s: State, id: HandleId, path: Path, ty: LockType, p: Path, q: Path) {
    var rivals := Rivals(s.table, id, path, ty);
    && p in rivals && q in rivals && !Expired(s.table[p], s.now)
    && s.table[q].expiresAt < s.table[p].expiresAt
    && (path in s.table ==> s.table[path].expiresAt < s.table[p].expiresAt)
  }

  ghost predicate RefusalDisagrees(s: State, id: HandleId, path: Path, ty: LockType, s': State) {
    AcquireStep(s, id, path, ty, false, s') && !Agrees(s')
  }

  /** Some refusal of the request ends the agreement exactly when a live rival and an earlier one stand in the way. */
  lemma RefusalDisagreesExactly(s: State, id: HandleId, path: Path, ty: LockType)
    requires Inv(s) && Agrees(s) && id in s.known && !Holds(s.table, id, path)
    ensures (exists s' :: RefusalDisagrees(s, id, path, ty, s')) <==> (exists p, q :: DropsFirst(s, id, path, ty, p, q))
  {
    hide Inv, Agrees, AcquireStep, DropsFirst;
    if s' :| RefusalDisagrees(s, id, path, ty, s') {
      AcquireAgreement(s, id, path, ty, false, s');
      var p, q := DroppedBefore(s, id, path, ty, s');
    }
    if p, q :| DropsFirst(s, id, path, ty, p, q) {
      var s' := DropThenStop(s, id, path, ty, p, q);
      AcquireAgreement(s, id, path, ty, false, s');
      assert RefusalDisagrees(s, id, path, ty, s');
    }
  }

  lemma DroppedBefore(s: State, id: HandleId, path: Path, ty: LockType, s': State) returns (p: Path, q: Path)
    requires AcquireStep(s, id, path, ty, false, s') && !AllKept(s, s') && !Holds(s.table, id, path)
    ensures DropsFirst(s, id, path, ty, p, q)
  {
    hide IsPathConflict;
    var lost := s.table.Keys - s'.table.Keys;
    q :| q in s.table && !Kept(s, s', q);
    assert q in lost;
    p :| StoppedBy(s, Rivals(s.table, id, path, ty), lost, p);
  }

  lemma DropThenStop(s: State, id: HandleId, path: Path, ty: LockType, p: Path, q: Path) returns (s': State)
    requires id in s.known && !Holds(s.table, id, path) && DropsFirst(s, id, path, ty, p, q)
    ensures AcquireStep(s, id, path, ty, false, s') && !AllKept(s, s')
  {
    var lost := if path in s.table then {q, path} else {q};
    assert path in s.table ==> path in Rivals(s.table, id, path, ty);
    s' := s.(table := s.table - lost, now := s.table[p].expiresAt);
    assert s.table.Keys - s'.table.Keys == lost;
    hide Rivals, IsPathConflict;
    assert StoppedBy(s, Rivals(s.table, id, path, ty), lost, p);
    assert q in s.table && !Kept(s, s', q);
  }

  ghost predicate BatchDisagrees(s: State, id: HandleId, paths: seq<Path>, j: nat, s': State) {
    RefusedAfter(s, id, paths, j, s') && !Agrees(s')
  }

  /**
   * Some refusal of the batch ends the agreement exactly when it can be stopped after its first path, or at the first
   * path by an entry that outlives another rival.
   */
  lemma BatchDisagreesExactly(s: State, id: HandleId, paths: seq<Path>)
    requires Inv(s) && Agrees(s) && id in s.known
    ensures (exists j, s' :: BatchDisagrees(s, id, paths, j, s')) <==>
            || (exists j: nat, p :: j > 0 && StopsAt(s, id, SortPaths(paths), j, p))
            || (paths != [] && !Holds(s.table, id, SortPaths(paths)[0]) &&
                exists p, q :: DropsFirst(s, id, SortPaths(paths)[0], Subtree, p, q))
  {
    hide Inv, Agrees, StopsAt, SortPaths, Holds, DropsFirst, BatchStep, AcquireStep;
    var sorted := SortPaths(paths);
    if j, s' :| BatchDisagrees(s, id, paths, j, s') {
      RefusableExactly(s, id, paths, j);
      if j == 0 {
        FirstRefused(s, id, paths, s');
        NotHeldByRefused(s, id, sorted[0], s');
        assert RefusalDisagrees(s, id, sorted[0], Subtree, s');
        RefusalDisagreesExactly(s, id, sorted[0], Subtree);
      }
    }
    if j: nat, p :| j > 0 && StopsAt(s, id, sorted, j, p) {
      RefusableExactly(s, id, paths, j);
      var s' :| RefusedAfter(s, id, paths, j, s');
      BatchAgreement(s, id, paths, j, s');
      assert BatchDisagrees(s, id, paths, j, s');
    }
    if paths != [] && !Holds(s.table, id, sorted[0]) && exists p, q :: DropsFirst(s, id, sorted[0], Subtree, p, q) {
      RefusalDisagreesExactly(s, id, sorted[0], Subtree);
      var s' :| RefusalDisagrees(s, id, sorted[0], Subtree, s');
      FirstRefused(s, id, paths, s');
      assert BatchDisagrees(s, id, paths, 0, s');
    }
  }

  /** A batch that is refused at its first path is a refused request for that path. */
  lemma FirstRefused(s: State, id: HandleId, paths: seq<Path>, s': State)
    requires paths != [] && id in s.known
    ensures BatchStep(s, id, paths, 0, s') <==> AcquireStep(s, id, SortPaths(paths)[0], Subtree, false, s')
  {
    hide AcquireStep, SortPaths;
    var sorted := SortPaths(paths);
    assert sorted[..0] == [];
    if AcquireStep(s, id, sorted[0], Subtree, false, s') {
      assert RolledBack(s', id, []) == s';
      assert BatchRefused(s, id, sorted, 0, s, s', s');
    }
    if BatchStep(s, id, paths, 0, s') {
      var mid, last :| BatchRefused(s, id, sorted, 0, mid, last, s');
      assert mid == s && RolledBack(last, id, []) == last;
    }
  }
}
