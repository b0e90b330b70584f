/**
 With no more tokens than bottom directories the DAG executor can get stuck: one goroutine
 in each of as many bottom directories ends up holding a token and waiting for another.
 */
module DagStuck {
  import opened Prelude
  import opened DagModel
  import opened DagInvariant
  import opened DagSteps
  import opened DagFileSteps
  import opened DagDispatchSteps
  import opened DagTheorems
  import opened DagProgress
  import opened DagDeadlock

  // ---------------------------------------------------------------- first the dispatcher alone

  ghost predicate NoFileBegun(s: State) {
    forall f :: f in s.th.filePc ==> FileRank(s.th.filePc[f]) <= 1
  }

  lemma NoTokens(s: State)
    requires TokenInv(s.th, s.sem) && NoFileBegun(s) && !HoldsDirToken(CompletionOf(s.th, Dispatcher))
    ensures s.sem == {}
  {
    forall k ensures k !in s.sem {
      match k
      case FileToken(f) => assert !HoldsFileToken(s.th, f);
      case DirToken(t) => assert !HoldsDirToken(CompletionOf(s.th, t));
    }
  }

  lemma TokenPart(c: Config, s: State)
    requires Inv(c, s)
    ensures TokenInv(s.th, s.sem)
  {
    hide DispatchInv, OwnerInv, TokenInv, FileSlotsInv, ChildSlotsInv, PendingInv, CallInv, TaskInv, CountInv, WakeInv,
         Linked, ThreadShape, MemoryShape;
  }

  lemma DispatcherGoes(c: Config, s: State)
    requires Inv(c, s) && NoFileBegun(s) && c.maxConcurrent > 0
    requires !s.th.dispatcher.AwaitDone? && !s.th.dispatcher.Returned?
    ensures Enabled(c, s, Dispatcher)
  {
    hide Inv, NoFileBegun;
    TokenPart(c, s);
    hide TokenInv;
    if s.th.dispatcher.DispatchCompleting? && s.th.dispatcher.c.At? && s.th.dispatcher.c.stage.AwaitToken? {
      NoTokens(s);
    }
  }

  lemma DispatcherSparesFiles(c: Config, s: State)
    requires Inv(c, s) && NoFileBegun(s) && Enabled(c, s, Dispatcher)
    ensures Shape(c.dag, s) && NoFileBegun(Step(c, s, Dispatcher))
  {
    hide Inv, OwnerInv, DispatchInv, CompletionStep, Linked, ThreadShape, MemoryShape, FileRank;
    InvGrows(c, s, Dispatcher);
    assert FileRank(Queued) == 1 by { QueuedRank(); }
    if s.th.dispatcher.DispatchCompleting? {
      CompletionTarget(c, s, Dispatcher, s.th.dispatcher.c);
    } else {
      DispatcherMoves(c, s);
    }
  }

  lemma QueuedRank()
    ensures FileRank(Queued) == 1
  {
  }

  lemma AfterStep(c: Config, s: State, t: Thread, rest: seq<Thread>)
    requires Shape(c.dag, s) && Enabled(c, s, t)
    ensures After(c, s, [t] + rest) == After(c, Step(c, s, t), rest)
  {
    hide Shape, Enabled, Step;
    assert ([t] + rest)[1..] == rest;
  }

  lemma {:induction false} AfterJoins(c: Config, s: State, first: seq<Thread>, rest: seq<Thread>)
    requires After(c, s, first).Some?
    ensures After(c, s, first + rest) == After(c, After(c, s, first).value, rest)
    decreases |first|
  {
    hide Shape, Enabled, Step;
    if first == [] {
      assert first + rest == rest;
    } else {
      assert (first + rest)[1..] == first[1..] + rest;
      AfterJoins(c, Step(c, s, first[0]), first[1..], rest);
    }
  }

  ghost predicate Dispatched(c: Config, s: State) {
    Inv(c, s) && NoFileBegun(s) && (s.th.dispatcher.AwaitDone? || s.th.dispatcher.Returned?)
  }

  /** The dispatcher can finish its pass before any goroutine begins. */
  lemma {:induction false} DispatchFirst(c: Config, total: nat, s: State) returns (schedule: seq<Thread>)
    requires Inv(c, s) && NoFileBegun(s) && c.maxConcurrent > 0
    ensures After(c, s, schedule).Some? && Dispatched(c, After(c, s, schedule).value)
    decreases Budget(c.dag, total) - Work(total, s)
  {
    hide Inv, NoFileBegun, Shape, Step, Enabled, Grows, Work, Budget;
    if s.th.dispatcher.AwaitDone? || s.th.dispatcher.Returned? {
      schedule := [];
    } else {
      DispatcherGoes(c, s);
      StepKeepsInv(c, s, Dispatcher);
      DispatcherSparesFiles(c, s);
      StepGrows(c, s, Dispatcher);
      var s' := Step(c, s, Dispatcher);
      GrowsWork(total, s, s');
      WorkBound(c, total, s');
      var rest := DispatchFirst(c, total, s');
      schedule := [Dispatcher] + rest;
      AfterStep(c, s, Dispatcher, rest);
    }
  }

  // ---------------------------------------------------------------- then the goroutines of the chosen directories

  /** Only goroutines of the chosen directories have begun; none has gone past its first wait for a second token;
      in each directory at most one holds a token. */
  ghost predicate Crowding(c: Config, chosen: set<Uri>, s: State) {
    && s.th.dispatcher.AwaitDone?
    && (forall f :: f in s.th.filePc && f.dir !in chosen ==> s.th.filePc[f].Queued?)
    && (forall f :: f in s.th.filePc ==> !s.th.filePc[f].NotStarted?)
    && (forall f :: f in s.th.filePc && s.th.filePc[f].Completing? ==>
          s.th.filePc[f].c == Enter(f.dir) || s.th.filePc[f].c == At(f.dir, AwaitToken))
    && (forall f, g :: HoldsFileToken(s.th, f) && HoldsFileToken(s.th, g) && f.dir == g.dir ==> f == g)
    && (forall n :: n in chosen ==> n in s.hist.progress && s.hist.progress[n] <= 1)
  }

  ghost predicate Allowed(c: Config, chosen: set<Uri>, s: State, f: FileId) {
    && Enabled(c, s, Worker(f)) && f.dir in chosen
    && s.th.filePc[f] != Completing(At(f.dir, AwaitToken))
    && (s.th.filePc[f].Queued? ==> forall g :: HoldsFileToken(s.th, g) ==> g.dir != f.dir)
  }

  /** What an allowed step does to its own goroutine. */
  lemma AllowedEffect(c: Config, chosen: set<Uri>, s: State, f: FileId)
    requires FileDefined(c.dag, s.mem, f) && f in s.th.filePc && FileEnabled(c, s, s.th.filePc[f])
    requires s.th.filePc[f].Completing? ==> s.th.filePc[f].c == Enter(f.dir) && CompletionDefined(c.dag, s.mem, f.dir)
    ensures var s' := FileStep(c, s, f); var pc := s'.th.filePc[f];
      && s'.th == SetFile(s.th, f, pc)
      && FileRank(s.th.filePc[f]) > 0 && FileRank(pc) >= FileRank(s.th.filePc[f])
      && (pc.Completing? ==> pc.c == Enter(f.dir) || pc.c == At(f.dir, AwaitToken))
      && (s'.hist.progress == s.hist.progress || s'.hist.progress == s.hist.progress[f.dir := 1])
      && (HoldsFileToken(s'.th, f) ==> HoldsFileToken(s.th, f) || s.th.filePc[f].Queued?)
  {
    hide FileDefined, CompletionDefined, Delivered, FileTask;
  }

  lemma AllowedKeepsCrowding(c: Config, chosen: set<Uri>, s: State, f: FileId)
    requires Inv(c, s) && Crowding(c, chosen, s) && Allowed(c, chosen, s, f)
    ensures Shape(c.dag, s) && Crowding(c, chosen, Step(c, s, Worker(f)))
  {
    hide Inv, OwnerInv, DispatchInv, CompletionStep, Linked, ThreadShape, MemoryShape, FileDefined, CompletionDefined,
         FileStep, Shape, FileRank;
    InvGrows(c, s, Worker(f));
    var s' := Step(c, s, Worker(f));
    AllowedEffect(c, chosen, s, f);
    forall g, h | HoldsFileToken(s'.th, g) && HoldsFileToken(s'.th, h) && g.dir == h.dir ensures g == h {
      if g != f { assert HoldsFileToken(s.th, g); }
      if h != f { assert HoldsFileToken(s.th, h); }
    }
    assert s'.th.filePc[f] != NotStarted by { NotStartedRank(s'.th.filePc[f]); }
  }

  lemma NotStartedRank(pc: FilePc)
    ensures pc.NotStarted? <==> FileRank(pc) == 0
  {
  }

  ghost predicate Crowded(c: Config, chosen: set<Uri>, s: State) {
    Inv(c, s) && Crowding(c, chosen, s) && forall f :: !Allowed(c, chosen, s, f)
  }

  /** Allowed steps lead to a state without any. */
  lemma {:induction false} CrowdIn(c: Config, chosen: set<Uri>, total: nat, s: State) returns (schedule: seq<Thread>)
    requires Inv(c, s) && Crowding(c, chosen, s)
    ensures After(c, s, schedule).Some? && Crowded(c, chosen, After(c, s, schedule).value)
    decreases Budget(c.dag, total) - Work(total, s)
  {
    hide Inv, Crowding, Shape, Step, Enabled, Grows, Work, Budget;
    if f :| Allowed(c, chosen, s, f) {
      var t := Worker(f);
      StepKeepsInv(c, s, t);
      AllowedKeepsCrowding(c, chosen, s, f);
      StepGrows(c, s, t);
      var s' := Step(c, s, t);
      GrowsWork(total, s, s');
      WorkBound(c, total, s');
      var rest := CrowdIn(c, chosen, total, s');
      schedule := [t] + rest;
      AfterStep(c, s, t, rest);
    } else {
      schedule := [];
    }
  }

  // ---------------------------------------------------------------- between the two

  lemma BegunAfterClaim(c: Config, s: State, n: Uri)
    requires Inv(c, s) && NoFileBegun(s) && HasFiles(c.dag, n)
    ensures n !in s.mem.overviewDone && n in s.hist.progress && s.hist.progress[n] == 0
  {
    hide Inv, FileRank;
    assert IsFile(c.dag, FileId(n, 0));
    if n in s.mem.overviewDone { ClaimedChildren(c, s, n); }
    InvNode(c, s, n);
    if s.hist.progress[n] > 0 { ClaimedOnly(c, s, n); }
  }

  lemma NotClosed(c: Config, s: State, n: Uri)
    requires WellFormed(c.dag) && Inv(c, s) && n in c.dag.nodes && n in s.hist.progress && s.hist.progress[n] < 9
    ensures s.closed == 0
  {
    var height :| Ranked(c.dag, height);
    hide Inv, Linked, Ranked;
    ClosedWhenRootFinished(c, s);
    if s.closed != 0 { AllFinished(c, s, height, n); }
  }

  lemma ClosedWhenRootFinished(c: Config, s: State)
    requires Inv(c, s)
    ensures s.closed == 0 || (c.dag.root in s.hist.progress && s.hist.progress[c.dag.root] == 9)
  {
    hide DispatchInv, OwnerInv, TokenInv, FileSlotsInv, ChildSlotsInv, PendingInv, CallInv, TaskInv, WakeInv, Linked, ThreadShape, MemoryShape;
  }

  lemma ReturnedMeansClosed(c: Config, s: State)
    requires Inv(c, s) && s.th.dispatcher.Returned?
    ensures s.closed > 0
  {
    hide OwnerInv, TokenInv, FileSlotsInv, ChildSlotsInv, PendingInv, CallInv, TaskInv, CountInv, WakeInv, Linked, ThreadShape, MemoryShape;
  }

  lemma DispatchedCrowding(c: Config, chosen: set<Uri>, s: State)
    requires WellFormed(c.dag) && Dispatched(c, s) && chosen != {} && forall n :: n in chosen ==> HasFiles(c.dag, n)
    ensures Crowding(c, chosen, s)
  {
    hide Inv, Linked, FileRank, Ranked;
    var n0 :| n0 in chosen;
    BegunAfterClaim(c, s, n0);
    NotClosed(c, s, n0);
    if s.th.dispatcher.Returned? { ReturnedMeansClosed(c, s); }
    NothingUnspawned(c, s);
    forall f | f in s.th.filePc ensures s.th.filePc[f].Queued? && !HoldsFileToken(s.th, f) {
      EarlyRank(s.th.filePc[f]);
    }
    forall n | n in chosen ensures n in s.hist.progress && s.hist.progress[n] <= 1 { BegunAfterClaim(c, s, n); }
  }

  lemma EarlyRank(pc: FilePc)
    ensures FileRank(pc) <= 1 && !pc.NotStarted? ==> pc.Queued?
    ensures pc.Queued? ==> FileRank(pc) == 1
  {
  }

  // ---------------------------------------------------------------- a crowded state is stuck

  lemma CrowdedCompletions(c: Config, chosen: set<Uri>, s: State, t: Thread, n: Uri)
    requires Inv(c, s) && Crowding(c, chosen, s) && (RunsAt(s.th, t, n) || Waits(s.th, t, n))
    ensures t.Worker? && t.file in s.th.filePc && t.file.dir == n && HasFiles(c.dag, n)
    ensures s.th.filePc[t.file] == Completing(if RunsAt(s.th, t, n) then At(n, AwaitToken) else Enter(n))
  {
    hide Inv;
    FileExists(c, s, t.file);
  }

  /** Directories below a chosen one have no kept files and are finished. */
  lemma {:induction false} BelowChosenFinished(c: Config, chosen: set<Uri>, s: State, height: map<Uri, nat>, d0: Uri, n: Uri)
    requires Linked(c.dag) && Ranked(c.dag, height) && Inv(c, s) && Crowding(c, chosen, s)
    requires IsBottom(c.dag, d0) && n in c.dag.nodes && n in height && Below(c.dag, n, d0) && n != d0
    ensures n in s.hist.progress && s.hist.progress[n] == 9
    decreases height[n]
  {
    hide Inv, Linked, Ranked, Crowding, Below;
    assert !HasFiles(c.dag, n);
    forall m | Children(c.dag, n, m) ensures m in s.hist.progress && s.hist.progress[m] == 9 {
      ChildLower(c.dag, height, n, m);
      ChildBelow(c.dag, m, d0);
      BottomChildApart(c.dag, height, m, n, d0);
      BelowChosenFinished(c, chosen, s, height, d0, m);
    }
    forall t ensures !Waits(s.th, t, n) && !RunsAt(s.th, t, n) {
      if Waits(s.th, t, n) || RunsAt(s.th, t, n) { CrowdedCompletions(c, chosen, s, t, n); }
    }
    CrowdingAwaits(c, chosen, s);
    ReadyIsClaimed(c, s, n);
    IdleClaimFinished(c, s, n);
  }

  lemma ChildBelow(d: Dag, m: Uri, top: Uri)
    requires m in d.parent && Below(d, d.parent[m], top)
    ensures Below(d, m, top)
  {
    BelowSelf(d, m);
    BelowParent(d, m, m);
    BelowJoins(d, m, d.parent[m], top);
  }

  lemma BottomChildApart(d: Dag, height: map<Uri, nat>, m: Uri, n: Uri, top: Uri)
    requires Linked(d) && Ranked(d, height) && n in d.nodes && Children(d, n, m) && Below(d, n, top)
    ensures m != top
  {
    ChildLower(d, height, n, m);
    var k: nat :| Above(d, top, n, k);
    HeightGrows(d, height, top, n, k);
  }

  lemma CrowdingAwaits(c: Config, chosen: set<Uri>, s: State)
    requires Crowding(c, chosen, s)
    ensures s.th.dispatcher.AwaitDone?
  {
  }

  ghost predicate WaiterIn(s: State, f: FileId, n: Uri) {
    f.dir == n && f in s.th.filePc && s.th.filePc[f] == Completing(At(n, AwaitToken))
  }

  /** Without a waiter in it, a chosen directory has no goroutine with a token, and what has not begun could begin. */
  lemma NoWaiterExited(c: Config, chosen: set<Uri>, s: State, n: Uri, f: FileId)
    requires Crowded(c, chosen, s) && n in chosen && |chosen| <= c.maxConcurrent
    requires forall g :: !WaiterIn(s, g, n)
    requires f in s.th.filePc && f.dir == n
    ensures s.th.filePc[f].Exited?
  {
    hide Inv;
    forall g ensures HoldsFileToken(s.th, g) ==> g.dir in chosen && g.dir != n {
      assert !WaiterIn(s, g, n) && !Allowed(c, chosen, s, g);
    }
    TokenPart(c, s);
    TokenDirs(s, chosen, n);
    assert |chosen - {n}| == |chosen| - 1;
    assert !Allowed(c, chosen, s, f) && !WaiterIn(s, f, n);
  }

  lemma TokenDirs(s: State, chosen: set<Uri>, n: Uri)
    requires TokenInv(s.th, s.sem) && s.th.dispatcher.AwaitDone?
    requires forall f, g :: HoldsFileToken(s.th, f) && HoldsFileToken(s.th, g) && f.dir == g.dir ==> f == g
    requires forall f :: f in s.th.filePc && s.th.filePc[f].Completing? ==>
      s.th.filePc[f].c == Enter(f.dir) || s.th.filePc[f].c == At(f.dir, AwaitToken)
    requires forall f :: HoldsFileToken(s.th, f) ==> f.dir in chosen && f.dir != n
    ensures |s.sem| <= |chosen - {n}|
  {
    assert forall t :: !HoldsDirToken(CompletionOf(s.th, t));
    assert forall k :: k in s.sem ==> k.FileToken? && HoldsFileToken(s.th, k.file);
    var dirs := map k: Token | k in s.sem :: k.file.dir;
    forall x, y | x in s.sem && y in s.sem && dirs[x] == dirs[y] ensures x == y {
      assert HoldsFileToken(s.th, x.file) && HoldsFileToken(s.th, y.file);
    }
    InjectionCard(s.sem, chosen - {n}, dirs);
  }

  /** In a crowded state every chosen directory has a goroutine that holds a token and waits for another. */
  lemma ChosenWaiter(c: Config, chosen: set<Uri>, s: State, n: Uri)
    requires WellFormed(c.dag) && Crowded(c, chosen, s) && n in chosen && chosen <= Bottoms(c.dag)
    requires |chosen| <= c.maxConcurrent
    ensures exists f :: WaiterIn(s, f, n)
  {
    hide Crowded, WellFormed, Bottoms;
    CrowdedParts(c, chosen, s);
    BottomsAreNodes(c.dag, n);
    hide Inv, Crowding, IsFile, Children;
    if forall f :: !WaiterIn(s, f, n) {
      ChosenExited(c, chosen, s, n);
      ChosenChildren(c, chosen, s, n);
      ChosenReady(c, chosen, s, n);
    }
  }

  lemma CrowdedParts(c: Config, chosen: set<Uri>, s: State)
    requires Crowded(c, chosen, s)
    ensures Inv(c, s) && Crowding(c, chosen, s)
  {
    hide Inv, Crowding;
  }

  lemma ChosenExited(c: Config, chosen: set<Uri>, s: State, n: Uri)
    requires Crowded(c, chosen, s) && n in chosen && |chosen| <= c.maxConcurrent
    requires forall f :: !WaiterIn(s, f, n)
    ensures forall f :: IsFile(c.dag, f) && f.dir == n ==> f in s.th.filePc && FileRank(s.th.filePc[f]) >= 8
  {
    hide Inv, Crowded, Crowding, IsFile, FileRank, WaiterIn;
    CrowdedParts(c, chosen, s);
    InvDomains(c, s);
    forall f | IsFile(c.dag, f) && f.dir == n ensures f in s.th.filePc && FileRank(s.th.filePc[f]) >= 8 {
      NoWaiterExited(c, chosen, s, n, f);
      ExitedRank();
    }
  }

  lemma ChosenChildren(c: Config, chosen: set<Uri>, s: State, n: Uri)
    requires WellFormed(c.dag) && Inv(c, s) && Crowding(c, chosen, s) && n in Bottoms(c.dag)
    ensures forall m :: Children(c.dag, n, m) ==> m in s.hist.progress && s.hist.progress[m] == 9
  {
    var height :| Ranked(c.dag, height);
    hide Inv, Linked, Ranked, Crowding, Below;
    forall m | Children(c.dag, n, m) ensures m in s.hist.progress && s.hist.progress[m] == 9 {
      ChildLower(c.dag, height, n, m);
      BelowSelf(c.dag, n);
      ChildBelow(c.dag, m, n);
      BelowChosenFinished(c, chosen, s, height, n, m);
    }
  }

  lemma ChosenReady(c: Config, chosen: set<Uri>, s: State, n: Uri)
    requires Crowded(c, chosen, s) && n in chosen && n in c.dag.nodes
    requires forall f :: IsFile(c.dag, f) && f.dir == n ==> f in s.th.filePc && FileRank(s.th.filePc[f]) >= 8
    requires forall m :: Children(c.dag, n, m) ==> m in s.hist.progress && s.hist.progress[m] == 9
    ensures exists f :: WaiterIn(s, f, n)
  {
    hide Inv, IsFile, FileRank, Children;
    forall t ensures !Waits(s.th, t, n) {
      if Waits(s.th, t, n) {
        CrowdedCompletions(c, chosen, s, t, n);
        EnterAllowed(c, chosen, s, t.file, n);
      }
    }
    ReadyIsClaimed(c, s, n);
    if t :| RunsAt(s.th, t, n) {
      CrowdedCompletions(c, chosen, s, t, n);
      assert WaiterIn(s, t.file, n);
    } else {
      IdleClaimFinished(c, s, n);
    }
  }

  lemma EnterAllowed(c: Config, chosen: set<Uri>, s: State, f: FileId, n: Uri)
    requires f in s.th.filePc && f.dir == n && n in chosen && s.th.filePc[f] == Completing(Enter(n))
    ensures Allowed(c, chosen, s, f)
  {
  }

  lemma CrowdedStuck(c: Config, chosen: set<Uri>, s: State)
    requires WellFormed(c.dag) && Crowded(c, chosen, s) && chosen <= Bottoms(c.dag)
    requires |chosen| == c.maxConcurrent > 0
    ensures Stuck(c, s)
  {
    hide Inv, Linked, Ranked, Bottoms;
    var n0 :| n0 in chosen;
    assert n0 in c.dag.nodes by { BottomsAreNodes(c.dag, n0); }
    NotClosed(c, s, n0);
    SemaphoreFull(c, chosen, s);
    forall t ensures !Enabled(c, s, t) {
      match t
      case Dispatcher =>
      case Worker(f) => assert !Allowed(c, chosen, s, f);
    }
  }

  lemma BottomsAreNodes(d: Dag, n: Uri)
    requires n in Bottoms(d)
    ensures n in d.nodes && HasFiles(d, n)
  {
  }

  lemma SemaphoreFull(c: Config, chosen: set<Uri>, s: State)
    requires WellFormed(c.dag) && Crowded(c, chosen, s) && chosen <= Bottoms(c.dag)
    requires |chosen| == c.maxConcurrent
    ensures |s.sem| >= c.maxConcurrent
  {
    hide Inv, Crowding, Crowded, Bottoms, WellFormed, TokenInv, FileRank;
    CrowdedParts(c, chosen, s);
    TokenPart(c, s);
    forall n | n in chosen ensures exists f :: WaiterIn(s, f, n) { ChosenWaiter(c, chosen, s, n); }
    var tokens := map n | n in chosen :: FileToken(SomeWaiter(s, n));
    forall n | n in chosen ensures tokens[n] in s.sem && tokens[n].file.dir == n {
      WaiterHolds(s, SomeWaiter(s, n), n);
    }
    InjectionCard(chosen, s.sem, tokens);
  }

  lemma WaiterHolds(s: State, f: FileId, n: Uri)
    requires TokenInv(s.th, s.sem) && WaiterIn(s, f, n)
    ensures FileToken(f) in s.sem && f.dir == n
  {
    assert HoldsFileToken(s.th, f);
  }

  ghost function SomeWaiter(s: State, n: Uri): (f: FileId)
    requires exists f :: WaiterIn(s, f, n)
    ensures WaiterIn(s, f, n)
  {
    var f :| WaiterIn(s, f, n);
    f
  }

  // ---------------------------------------------------------------- the exact condition

  lemma {:induction false} SubsetOfSize<T>(s: set<T>, k: nat) returns (r: set<T>)
    requires k <= |s|
    ensures r <= s && |r| == k
    decreases |s|
  {
    if k == |s| {
      r := s;
    } else {
      var x :| x in s;
      r := SubsetOfSize(s - {x}, k);
    }
  }

  /** With no more tokens than bottom directories there is an interleaving that gets stuck. */
  lemma CanGetStuck(c: Config, order: seq<Uri>) returns (s: State)
    requires WellFormed(c.dag) && DispatchOrder(c.dag, order)
    requires 0 < c.maxConcurrent <= |Bottoms(c.dag)|
    ensures Reachable(c, order, s) && Stuck(c, s)
  {
    hide WellFormed, Bottoms, Stuck, Crowding, Crowded, Inv, Initial, NoFileBegun, Dispatched, HasFiles, DispatchOrder;
    var chosen := SubsetOfSize(Bottoms(c.dag), c.maxConcurrent);
    forall n | n in chosen ensures HasFiles(c.dag, n) { BottomsAreNodes(c.dag, n); }
    var s0 := Initial(c.dag, order);
    BeginsUndispatched(c, order);
    var first := DispatchFirst(c, |order|, s0);
    var s1 := After(c, s0, first).value;
    DispatchedCrowding(c, chosen, s1);
    DispatchedInv(c, s1);
    var rest := CrowdIn(c, chosen, |order|, s1);
    s := After(c, s1, rest).value;
    AfterJoins(c, s0, first, rest);
    CrowdedStuck(c, chosen, s);
    assert After(c, Initial(c.dag, order), first + rest) == Some(s);
  }

  lemma BeginsUndispatched(c: Config, order: seq<Uri>)
    requires WellFormed(c.dag) && DispatchOrder(c.dag, order)
    ensures Inv(c, Initial(c.dag, order)) && NoFileBegun(Initial(c.dag, order))
  {
    hide Inv, FileRank, IsFile, DispatchOrder, Linked;
    InitialInv(c, order);
    InitialFiles(c.dag, order);
    hide Initial;
  }

  lemma DispatchedInv(c: Config, s: State)
    requires Dispatched(c, s)
    ensures Inv(c, s)
  {
    hide Inv;
  }

  /** The executor never gets stuck, in any interleaving, exactly when it has more tokens than the tree has bottom
      directories: directories with a kept file and no directory with a kept file below them. */
  lemma DeadlockFreeExactly(c: Config, order: seq<Uri>)
    requires WellFormed(c.dag) && DispatchOrder(c.dag, order) && c.maxConcurrent > 0
    ensures (forall s :: Reachable(c, order, s) ==> !Stuck(c, s)) <==> |Bottoms(c.dag)| < c.maxConcurrent
  {
    hide Linked, Ranked, Bottoms, Stuck, Reachable;
    if |Bottoms(c.dag)| < c.maxConcurrent {
      forall s | Reachable(c, order, s) ensures !Stuck(c, s) { NeverStuck(c, order, s); }
    } else {
      var s := CanGetStuck(c, order);
    }
  }
}
