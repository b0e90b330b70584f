/** The lock manager as a relation on abstract states: its table, its handles and its clock. */
module LockModel {
  import opened LockPaths
  import opened Strings

  type HandleId = string

  datatype LockEntry = LockEntry(path: Path, lockType: LockType, handleId: HandleId, acquiredAt: int, expiresAt: int)

  /** What a handle knows: the locks it lists, and when it last acquired one. */
  datatype Handle = Handle(locks: seq<LockEntry>, lastActiveAt: int)

  /**
   * `table` maps each locked path to its entry, `known` holds every handle ever created, `active` is the manager's
   * own handle map (released handles leave it but stay usable), `now` is the latest clock reading.
   */
  datatype State = State(table: map<Path, LockEntry>, known: map<HandleId, Handle>, active: set<HandleId>,
                         now: int, expire: int)

  datatype Op =
    | Create(id: HandleId)
    | Acquire(id: HandleId, path: Path, lockType: LockType, ok: bool)
    | Batch(id: HandleId, paths: seq<Path>, done: nat)
    | Release(id: HandleId)
    | ReleaseSelected(id: HandleId, paths: seq<Path>)
    | Stop
    | Cleanup(at: int)

  predicate Expired(e: LockEntry, at: int) {
    e.expiresAt < at
  }

  predicate Holds(table: map<Path, LockEntry>, id: HandleId, p: Path) {
    p in table && table[p].handleId == id
  }

  /** The entries of other handles that stand against a request. */
  function Rivals(table: map<Path, LockEntry>, id: HandleId, path: Path, ty: LockType): set<Path> {
    set p | p in table && table[p].handleId != id && IsPathConflict(path, p, ty, table[p].lockType)
  }

  /** The paths of `ps` that `id` holds. */
  function HeldOf(table: map<Path, LockEntry>, id: HandleId, ps: seq<Path>): set<Path> {
    set p | p in ps && Holds(table, id, p)
  }

  function Listed(locks: seq<LockEntry>): set<Path> {
    set e | e in locks :: e.path
  }

  /** The paths listed by any of the handles `ids`. */
  function ListedBy(known: map<HandleId, Handle>, ids: set<HandleId>): set<Path> {
    set id, e | id in ids && id in known && e in known[id].locks :: e.path
  }

  /** A handle's list without the entries for `paths`. */
  function Remaining(locks: seq<LockEntry>, paths: seq<Path>): (r: seq<LockEntry>)
    ensures forall e :: e in r <==> e in locks && e.path !in paths
  {
    if locks == [] then []
    else
      var rest := Remaining(locks[..|locks| - 1], paths);
      var last := locks[|locks| - 1];
      assert locks == locks[..|locks| - 1] + [last];
      if last.path in paths then rest else rest + [last]
  }

  function Forget(known: map<HandleId, Handle>, ids: set<HandleId>): map<HandleId, Handle> {
    map id | id in known :: if id in ids then known[id].(locks := []) else known[id]
  }

  function NewEntry(s: State, id: HandleId, path: Path, ty: LockType, at: int): LockEntry {
    LockEntry(path, ty, id, at, at + s.expire)
  }

  function Granted(s: State, id: HandleId, path: Path, ty: LockType, at: int): State
    requires id in s.known
  {
    var e := NewEntry(s, id, path, ty, at);
    s.(table := (s.table - Rivals(s.table, id, path, ty))[path := e],
       known := s.known[id := Handle(s.known[id].locks + [e], at)])
  }

  /** Every rival had expired before the grant at time `at`. */
  ghost predicate GrantedAt(s: State, id: HandleId, path: Path, ty: LockType, at: int, s': State)
    requires id in s.known
  {
    && s.now <= at <= s'.now
    && (forall p :: p in Rivals(s.table, id, path, ty) ==> Expired(s.table[p], at))
    && s' == Granted(s, id, path, ty, at).(now := s'.now)
  }

  /** `p` was met while it was alive, and the rivals dropped before had expired by then. */
  ghost predicate StoppedBy(s: State, rivals: set<Path>, lost: set<Path>, p: Path) {
    && p in rivals && p in s.table && p !in lost && !Expired(s.table[p], s.now)
    && forall q :: q in lost ==> q in s.table && s.table[q].expiresAt < s.table[p].expiresAt
  }

  /** A live rival was met, after some expired ones may have been dropped. */
  ghost predicate Refused(s: State, id: HandleId, path: Path, ty: LockType, s': State) {
    var lost := s.table.Keys - s'.table.Keys;
    var rivals := Rivals(s.table, id, path, ty);
    && s.now <= s'.now
    && s' == s.(table := s.table - lost, now := s'.now)
    && lost <= rivals
    && (forall p :: p in lost ==> Expired(s.table[p], s'.now))
    && (exists p :: StoppedBy(s, rivals, lost, p))
    && (path in s'.table ==> lost == {})
  }

  ghost predicate AcquireStep(s: State, id: HandleId, path: Path, ty: LockType, ok: bool, s': State) {
    && id in s.known
    && if Holds(s.table, id, path) then ok && s' == s
       else if ok then exists at :: GrantedAt(s, id, path, ty, at, s')
       else Refused(s, id, path, ty, s')
  }

  /** Subtree locks on all of `ps`, one after the other, were granted. */
  ghost predicate AcquiredAll(s: State, id: HandleId, ps: seq<Path>, s': State)
    decreases |ps|, 1
  {
    if ps == [] then s' == s else exists mid :: AcquiredVia(s, id, ps, mid, s')
  }

  ghost predicate AcquiredVia(s: State, id: HandleId, ps: seq<Path>, mid: State, s': State)
    requires ps != []
    decreases |ps|, 0
  {
    AcquiredAll(s, id, ps[..|ps| - 1], mid) && AcquireStep(mid, id, ps[|ps| - 1], Subtree, true, s')
  }

  function RolledBack(s: State, id: HandleId, ps: seq<Path>): State {
    s.(table := s.table - HeldOf(s.table, id, ps))
  }

  ghost predicate BatchRefused(s: State, id: HandleId, sorted: seq<Path>, done: nat, mid: State, last: State,
                               s': State)
  {
    && done < |sorted|
    && AcquiredAll(s, id, sorted[..done], mid)
    && AcquireStep(mid, id, sorted[done], Subtree, false, last)
    && s' == RolledBack(last, id, sorted[..done])
  }

  /** `done` is the number of paths, in sorted order, granted before the batch stopped. */
  ghost predicate BatchStep(s: State, id: HandleId, paths: seq<Path>, done: nat, s': State) {
    var sorted := SortPaths(paths);
    && id in s.known
    && if done == |paths| then AcquiredAll(s, id, sorted, s')
       else exists mid, last :: BatchRefused(s, id, sorted, done, mid, last, s')
  }

  function ReleaseAll(s: State, id: HandleId): State
    requires id in s.known
  {
    s.(table := s.table - Listed(s.known[id].locks),
       known := s.known[id := s.known[id].(locks := [])],
       active := s.active - {id})
  }

  function ReleaseSome(s: State, id: HandleId, paths: seq<Path>): State
    requires id in s.known
  {
    s.(table := s.table - HeldOf(s.table, id, paths),
       known := s.known[id := s.known[id].(locks := Remaining(s.known[id].locks, paths))])
  }

  function Stopped(s: State): State {
    s.(table := s.table - ListedBy(s.known, s.active), known := Forget(s.known, s.active), active := {})
  }

  /** The active handles that list a lock and have been idle for longer than the expiry time. */
  function Stale(s: State, at: int): set<HandleId> {
    set id | id in s.active && id in s.known && at - s.known[id].lastActiveAt > s.expire && |s.known[id].locks| > 0
  }

  function Cleaned(s: State, at: int): State {
    var stale := Stale(s, at);
    var kept := s.table - ListedBy(s.known, stale);
    State(map p | p in kept && !Expired(kept[p], at) :: kept[p], Forget(s.known, stale), s.active - stale, at, s.expire)
  }

  ghost predicate Step(s: State, op: Op, s': State) {
    match op
    case Create(id) =>
      id !in s.known && s.now <= s'.now &&
      s' == s.(known := s.known[id := Handle([], s'.now)], active := s.active + {id}, now := s'.now)
    case Acquire(id, path, ty, ok) => AcquireStep(s, id, path, ty, ok, s')
    case Batch(id, paths, done) => BatchStep(s, id, paths, done, s')
    case Release(id) => id in s.known && s' == ReleaseAll(s, id)
    case ReleaseSelected(id, paths) => id in s.known && s' == ReleaseSome(s, id, paths)
    case Stop => s' == Stopped(s)
    case Cleanup(at) => s.now <= at && s' == Cleaned(s, at)
  }

  ghost predicate Initial(s: State) {
    s.expire > 0 && s.table == map[] && s.known == map[] && s.active == {}
  }

  ghost predicate IsRun(states: seq<State>, ops: seq<Op>) {
    |states| == |ops| + 1 && forall i :: 0 <= i < |ops| ==> Step(states[i], ops[i], states[i + 1])
  }

  // Batch order: shorter paths first, equal lengths in byte order.

  predicate Before(a: Path, b: Path) {
    if |a| != |b| then |a| < |b| else LexBefore(a, b)
  }

  function InsertPath(p: Path, ps: seq<Path>): (r: seq<Path>)
    ensures multiset(r) == multiset(ps) + multiset{p}
    ensures |r| == |ps| + 1
  {
    if ps == [] then [p]
    else
      var last := |ps| - 1;
      assert ps == ps[..last] + [ps[last]];
      if Before(p, ps[last]) then InsertPath(p, ps[..last]) + [ps[last]] else ps + [p]
  }

  function SortPaths(ps: seq<Path>): (r: seq<Path>)
    ensures multiset(r) == multiset(ps)
    ensures |r| == |ps|
    ensures forall p :: p in r <==> p in ps
  {
    if ps == [] then []
    else
      var last := |ps| - 1;
      var r := InsertPath(ps[last], SortPaths(ps[..last]));
      assert ps == ps[..last] + [ps[last]];
      assert multiset(r) == multiset(ps);
      SameElements(r, ps);
      r
  }

  lemma SameElements(a: seq<Path>, b: seq<Path>)
    requires multiset(a) == multiset(b)
    ensures |a| == |b| && forall p :: p in a <==> p in b
  {
    assert |a| == |multiset(a)| == |multiset(b)| == |b|;
    forall p ensures p in a <==> p in b {
      assert p in a <==> p in multiset(a);
      assert p in b <==> p in multiset(b);
    }
  }

  ghost predicate Ascending(ps: seq<Path>) {
    forall i :: 0 < i < |ps| ==> !Before(ps[i], ps[i - 1])
  }

  lemma {:induction false} InsertAscending(p: Path, ps: seq<Path>)
    requires Ascending(ps)
    ensures Ascending(InsertPath(p, ps))
    ensures InsertPath(p, ps)[|ps|] == p || (ps != [] && InsertPath(p, ps)[|ps|] == ps[|ps| - 1] && Before(p, ps[|ps| - 1]))
  {
    var r := InsertPath(p, ps);
    if ps != [] {
      var last := |ps| - 1;
      if Before(p, ps[last]) {
        InsertAscending(p, ps[..last]);
        if |ps[last]| == |p| { LexAsymmetric(p, ps[last]); }
        var r' := InsertPath(p, ps[..last]);
        assert r == r' + [ps[last]];
      }
    }
  }

  lemma {:induction false} SortedAscending(ps: seq<Path>)
    ensures Ascending(SortPaths(ps))
  {
    if ps != [] {
      SortedAscending(ps[..|ps| - 1]);
      InsertAscending(ps[|ps| - 1], SortPaths(ps[..|ps| - 1]));
    }
  }

  /** The batch order: shorter paths first, and of two equally long ones the one with the smaller character first. */
  lemma SortAscending(ps: seq<Path>, i: nat)
    requires i + 1 < |ps|
    ensures multiset(SortPaths(ps)) == multiset(ps)
    ensures var a, b := SortPaths(ps)[i], SortPaths(ps)[i + 1];
            |a| < |b| || (|a| == |b| && (a == b || exists k :: 0 <= k < |a| && a[..k] == b[..k] && a[k] < b[k]))
  {
    SortedAscending(ps);
    var a, b := SortPaths(ps)[i], SortPaths(ps)[i + 1];
    assert !Before(SortPaths(ps)[i + 1], SortPaths(ps)[i + 1 - 1]);
    LexTotal(a, b);
    LexExactly(a, b);
  }
}
