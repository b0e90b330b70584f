/** When the DAG executor can get stuck: exactly when the semaphore is no larger than the number of bottom directories. */
module DagDeadlock {
  import opened Prelude
  import opened DagModel
  import opened DagInvariant
  import opened DagSteps
  import opened DagFileSteps
  import opened DagDispatchSteps
  import opened DagTheorems
  import opened DagProgress

  // ---------------------------------------------------------------- bottom directories

  ghost predicate HasFiles(d: Dag, n: Uri) {
    n in d.nodes && d.nodes[n].filePaths != []
  }

  /** A directory with a kept file and no directory with a kept file below it. */
  ghost predicate IsBottom(d: Dag, n: Uri) {
    HasFiles(d, n) && forall m :: HasFiles(d, m) && Below(d, m, n) ==> m == n
  }

  ghost function Bottoms(d: Dag): set<Uri> {
    set n | n in d.nodes && IsBottom(d, n)
  }

  lemma {:induction false} AboveJoins(d: Dag, n: Uri, m: Uri, x: Uri, i: nat, j: nat)
    requires Above(d, n, m, i)
    ensures Above(d, m, x, j) ==> Above(d, n, x, i + j)
    decreases j
  {
    if j > 0 && x in d.parent { AboveJoins(d, n, m, d.parent[x], i, j - 1); }
  }

  lemma {:induction false} AboveSplits(d: Dag, n: Uri, m: Uri, x: Uri, i: nat, j: nat)
    requires i <= j && Above(d, n, x, i)
    ensures Above(d, m, x, j) ==> Above(d, m, n, j - i)
    decreases i
  {
    if i > 0 && x in d.parent { AboveSplits(d, n, m, d.parent[x], i - 1, j - 1); }
  }

  lemma BelowJoins(d: Dag, x: Uri, m: Uri, n: Uri)
    requires Below(d, x, m) && Below(d, m, n)
    ensures Below(d, x, n)
  {
    var j: nat :| Above(d, m, x, j);
    var i: nat :| Above(d, n, m, i);
    AboveJoins(d, n, m, x, i, j);
  }

  lemma BelowSelf(d: Dag, n: Uri)
    ensures Below(d, n, n)
  {
    assert Above(d, n, n, 0);
  }

  lemma BelowParent(d: Dag, x: Uri, n: Uri)
    requires Below(d, x, n) && n in d.parent
    ensures Below(d, x, d.parent[n])
  {
    assert Above(d, d.parent[n], d.parent[n], 0);
    assert Above(d, d.parent[n], n, 1);
    BelowJoins(d, x, n, d.parent[n]);
  }

  /** Of two directories above the same one, one is above the other. */
  lemma BelowBoth(d: Dag, x: Uri, n: Uri, m: Uri)
    requires Below(d, x, n) && Below(d, x, m)
    ensures Below(d, n, m) || Below(d, m, n)
  {
    var i: nat :| Above(d, n, x, i);
    var j: nat :| Above(d, m, x, j);
    if i <= j { AboveSplits(d, n, m, x, i, j); } else { AboveSplits(d, m, n, x, j, i); }
  }

  lemma {:induction false} HeightGrows(d: Dag, height: map<Uri, nat>, n: Uri, m: Uri, k: nat)
    requires Linked(d) && Ranked(d, height) && m in d.nodes
    ensures Above(d, n, m, k) ==> n in d.nodes && (if k == 0 then m == n else height[m] < height[n])
    decreases k
  {
    if k > 0 && m in d.parent { HeightGrows(d, height, n, d.parent[m], k - 1); }
  }

  /** Below every directory with a kept file there is a bottom directory. */
  lemma {:induction false} BottomBelow(d: Dag, height: map<Uri, nat>, n: Uri) returns (b: Uri)
    requires Linked(d) && Ranked(d, height) && HasFiles(d, n)
    ensures b in Bottoms(d) && Below(d, b, n)
    decreases height[n]
  {
    BelowSelf(d, n);
    if IsBottom(d, n) {
      b := n;
    } else {
      var m :| HasFiles(d, m) && Below(d, m, n) && m != n;
      var k: nat :| Above(d, n, m, k);
      HeightGrows(d, height, n, m, k);
      b := BottomBelow(d, height, m);
      BelowJoins(d, b, m, n);
    }
  }

  // ---------------------------------------------------------------- a goroutine completes only directories above its file

  ghost predicate AncestryInv(d: Dag, th: Threads) {
    forall f, n :: RunsAt(th, Worker(f), n) || Waits(th, Worker(f), n) ==> Below(d, f.dir, n)
  }

  /** How a step may change which directories the threads are completing. */
  lemma StepCompletions(c: Config, s: State, t: Thread)
    requires Inv(c, s) && Enabled(c, s, t)
    ensures Shape(c.dag, s)
    ensures var th' := Step(c, s, t).th;
      && (forall u :: u != t ==> CompletionOf(th', u) == CompletionOf(s.th, u))
      && (t.Worker? && CompletionOf(th', t).Some? ==>
            if CompletionOf(s.th, t).None? then CompletionOf(th', t) == Some(Enter(t.file.dir))
            else var n := CompletionOf(s.th, t).value.node;
                 CompletionOf(th', t).value.node == n
                 || (n in c.dag.parent && CompletionOf(th', t).value.node == c.dag.parent[n]))
  {
    hide Inv, OwnerInv, DispatchInv, CompletionStep, Linked, ThreadShape, MemoryShape;
    InvGrows(c, s, t);
    if CompletionOf(s.th, t).Some? {
      CompletionMoves(c, s, t, CompletionOf(s.th, t).value);
    } else if t.Dispatcher? {
      DispatcherMovesNoWorker(c, s);
    } else {
      FileMoves(c, s, t.file);
    }
  }

  lemma CompletionMoves(c: Config, s: State, t: Thread, k: Completion)
    requires CompletionDefined(c.dag, s.mem, k.node) && CompletionOf(s.th, t) == Some(k)
    ensures var th' := CompletionStep(c, s, t, k).th;
      && (forall u :: u != t ==> CompletionOf(th', u) == CompletionOf(s.th, u))
      && (CompletionOf(th', t).Some? ==>
            CompletionOf(th', t).value.node == k.node
            || (k.node in c.dag.parent && CompletionOf(th', t).value.node == c.dag.parent[k.node]))
  {
    hide CompletionStep, MoveTo, CompletionDefined;
    CompletionTarget(c, s, t, k);
    MoveFacts(s.th, t, NextCompletion(c, s, k));
  }

  lemma DispatcherMovesNoWorker(c: Config, s: State)
    requires DispatcherDefined(c.dag, s) && DispatcherEnabled(c, s) && !s.th.dispatcher.DispatchCompleting?
    requires ThreadShape(c.dag, s.th) && DispatchInv(c.dag, s.th, s.mem.dispatched, s.closed)
    requires s.th.todo != [] ==> s.th.todo[0] !in s.mem.dispatched
    ensures var th' := DispatcherStep(c, s).th;
      forall u :: u != Dispatcher ==> CompletionOf(th', u) == CompletionOf(s.th, u)
  {
  }

  lemma FileMoves(c: Config, s: State, f: FileId)
    requires FileDefined(c.dag, s.mem, f) && f in s.th.filePc && FileEnabled(c, s, s.th.filePc[f])
    requires !s.th.filePc[f].Completing?
    ensures var th' := FileStep(c, s, f).th;
      && (forall u :: u != Worker(f) ==> CompletionOf(th', u) == CompletionOf(s.th, u))
      && (CompletionOf(th', Worker(f)).Some? ==> CompletionOf(th', Worker(f)) == Some(Enter(f.dir)))
  {
  }

  lemma StepKeepsAncestry(c: Config, s: State, t: Thread)
    requires Inv(c, s) && Enabled(c, s, t) && AncestryInv(c.dag, s.th)
    ensures Shape(c.dag, s) && AncestryInv(c.dag, Step(c, s, t).th)
  {
    hide Inv, Shape, Step, Enabled;
    StepCompletions(c, s, t);
    var th' := Step(c, s, t).th;
    forall f, n | RunsAt(th', Worker(f), n) || Waits(th', Worker(f), n) ensures Below(c.dag, f.dir, n) {
      if Worker(f) != t || CompletionOf(s.th, t).Some? {
        var m := CompletionOf(s.th, Worker(f)).value.node;
        assert RunsAt(s.th, Worker(f), m) || Waits(s.th, Worker(f), m);
        if m != n { BelowParent(c.dag, f.dir, m); }
      } else {
        BelowSelf(c.dag, n);
      }
    }
  }

  lemma {:induction false} RunKeepsAncestry(c: Config, s: State, schedule: seq<Thread>)
    requires Inv(c, s) && AncestryInv(c.dag, s.th) && After(c, s, schedule).Some?
    ensures AncestryInv(c.dag, After(c, s, schedule).value.th)
    decreases |schedule|
  {
    hide Inv, Shape, Enabled, Step, AncestryInv;
    if schedule != [] {
      StepKeepsInv(c, s, schedule[0]);
      StepKeepsAncestry(c, s, schedule[0]);
      RunKeepsAncestry(c, Step(c, s, schedule[0]), schedule[1..]);
    }
  }

  // ---------------------------------------------------------------- enough tokens: never stuck

  ghost predicate Stuck(c: Config, s: State) {
    !s.th.dispatcher.Returned? && forall t :: !Enabled(c, s, t)
  }

  /** In a stuck state every token is held by a goroutine that waits for a second one. */
  lemma StuckHolders(c: Config, s: State, k: Token)
    requires Inv(c, s) && Stuck(c, s) && k in s.sem
    ensures k.FileToken? && k.file in s.th.filePc && s.th.filePc[k.file].Completing?
      && s.th.filePc[k.file].c.At? && s.th.filePc[k.file].c.stage.AwaitToken?
  {
    hide DispatchInv, OwnerInv, FileSlotsInv, ChildSlotsInv, PendingInv, CallInv, TaskInv, CountInv, WakeInv, Linked, ThreadShape, MemoryShape;
    match k
    case FileToken(f) =>
      assert HoldsFileToken(s.th, f);
      assert !Enabled(c, s, Worker(f));
    case DirToken(t) =>
      DirHolderEnabled(c, s, t);
  }

  lemma DirHolderEnabled(c: Config, s: State, t: Thread)
    requires TokenInv(s.th, s.sem) && DirToken(t) in s.sem
    ensures Enabled(c, s, t)
  {
  }

  lemma WaitingUnfinished(c: Config, s: State, t: Thread, n: Uri)
    requires Inv(c, s) && CompletionOf(s.th, t) == Some(At(n, AwaitToken))
    ensures n in s.mem.overviewDone && n in s.hist.progress && s.hist.progress[n] < 9
    ensures forall u :: RunsAt(s.th, u, n) ==> u == t
  {
    hide Inv, Linked;
    assert RunsAt(s.th, t, n);
    RunningOwned(c, s, t, n);
    ClaimedAlone(c, s, t, n);
  }

  lemma RunningOwned(c: Config, s: State, t: Thread, n: Uri)
    requires Inv(c, s) && RunsAt(s.th, t, n)
    ensures RunsProperly(c.dag, s.th, s.hist.owner, s.hist.progress, t, n)
  {
    hide DispatchInv, TokenInv, FileSlotsInv, ChildSlotsInv, PendingInv, CallInv, TaskInv, CountInv, WakeInv, Linked, MemoryShape, RunsProperly;
  }

  /** Two goroutines that wait for their second token work below different bottom directories. */
  lemma WaitersApart(c: Config, s: State, f: FileId, g: FileId, n: Uri, m: Uri, b: Uri)
    requires Inv(c, s)
    requires CompletionOf(s.th, Worker(f)) == Some(At(n, AwaitToken)) && CompletionOf(s.th, Worker(g)) == Some(At(m, AwaitToken))
    requires Below(c.dag, b, n) && Below(c.dag, b, m)
    ensures f == g
  {
    WaitingUnfinished(c, s, Worker(f), n);
    WaitingUnfinished(c, s, Worker(g), m);
    BelowBoth(c.dag, b, n, m);
    assert n == m by {
      hide Inv, Linked;
      if Below(c.dag, n, m) {
        var k: nat :| Above(c.dag, m, n, k);
        FinishedDescendant(c, s, m, n, k);
      } else {
        var k: nat :| Above(c.dag, n, m, k);
        FinishedDescendant(c, s, n, m, k);
      }
    }
    assert RunsAt(s.th, Worker(f), n) && RunsAt(s.th, Worker(g), n);
    hide Inv, Linked;
  }

  /** A bottom directory below each directory that has a kept file. */
  ghost function BottomOf(d: Dag, n: Uri): (b: Uri)
    requires WellFormed(d) && HasFiles(d, n)
    ensures b in Bottoms(d) && Below(d, b, n)
  {
    BottomExists(d, n);
    var b :| b in Bottoms(d) && Below(d, b, n);
    b
  }

  lemma BottomExists(d: Dag, n: Uri)
    requires WellFormed(d) && HasFiles(d, n)
    ensures exists b :: b in Bottoms(d) && Below(d, b, n)
  {
    var height :| Ranked(d, height);
    var b := BottomBelow(d, height, n);
  }

  lemma WaiterBelow(c: Config, s: State, f: FileId)
    requires Inv(c, s) && AncestryInv(c.dag, s.th)
    requires f in s.th.filePc && s.th.filePc[f].Completing? && s.th.filePc[f].c.At?
    ensures HasFiles(c.dag, f.dir) && Below(c.dag, f.dir, s.th.filePc[f].c.node)
  {
    hide Inv;
    FileExists(c, s, f);
    assert RunsAt(s.th, Worker(f), s.th.filePc[f].c.node);
  }

  lemma FileExists(c: Config, s: State, f: FileId)
    requires Inv(c, s) && f in s.th.filePc
    ensures IsFile(c.dag, f)
  {
    hide DispatchInv, OwnerInv, TokenInv, FileSlotsInv, ChildSlotsInv, PendingInv, CallInv, TaskInv, CountInv, WakeInv, Linked, MemoryShape;
  }

  /** In a stuck state there are no more tokens in use than bottom directories. */
  lemma StuckTokensBounded(c: Config, s: State)
    requires WellFormed(c.dag) && Inv(c, s) && AncestryInv(c.dag, s.th) && Stuck(c, s)
    ensures |s.sem| <= |Bottoms(c.dag)|
  {
    hide Linked, Inv, Stuck, IsFile, Bottoms, AncestryInv, Below, HasFiles;
    forall k | k in s.sem
      ensures k.FileToken? && HasFiles(c.dag, k.file.dir)
    {
      StuckHolders(c, s, k);
      WaiterBelow(c, s, k.file);
    }
    var bottom := map k | k in s.sem :: BottomOf(c.dag, k.file.dir);
    forall x, y | x in s.sem && y in s.sem && bottom[x] == bottom[y] ensures x == y {
      TokensApart(c, s, x, y, bottom[x]);
    }
    InjectionCard(s.sem, Bottoms(c.dag), bottom);
  }

  lemma TokensApart(c: Config, s: State, x: Token, y: Token, b: Uri)
    requires Inv(c, s) && AncestryInv(c.dag, s.th) && Stuck(c, s)
    requires x in s.sem && y in s.sem && x.FileToken? && y.FileToken?
    requires Below(c.dag, b, x.file.dir) && Below(c.dag, b, y.file.dir)
    ensures x == y
  {
    hide Linked, Inv, Stuck, IsFile, Bottoms, AncestryInv, Below, HasFiles;
    StuckHolders(c, s, x);
    StuckHolders(c, s, y);
    WaiterBelow(c, s, x.file);
    WaiterBelow(c, s, y.file);
    var n, m := s.th.filePc[x.file].c.node, s.th.filePc[y.file].c.node;
    BelowJoins(c.dag, b, x.file.dir, n);
    BelowJoins(c.dag, b, y.file.dir, m);
    WaitersApart(c, s, x.file, y.file, n, m, b);
  }

  /** Nobody waits for a token any more: every goroutine has exited and the dispatcher waits for `done`. */
  ghost predicate Quiet(c: Config, s: State) {
    && s.th.dispatcher.AwaitDone? && s.closed == 0
    && forall f :: f in s.th.filePc ==> s.th.filePc[f].Exited?
  }

  lemma StuckQuiet(c: Config, s: State)
    requires Inv(c, s) && Stuck(c, s) && |s.sem| < c.maxConcurrent
    ensures Quiet(c, s)
  {
    hide Inv;
    assert !Enabled(c, s, Dispatcher);
    assert s.th.dispatcher.AwaitDone? && s.closed == 0;
    NothingUnspawned(c, s);
    forall f | f in s.th.filePc ensures s.th.filePc[f].Exited? {
      assert !Enabled(c, s, Worker(f));
    }
  }

  lemma NothingUnspawned(c: Config, s: State)
    requires Inv(c, s) && s.th.dispatcher.AwaitDone?
    ensures forall f :: f in s.th.filePc ==> !s.th.filePc[f].NotStarted?
    ensures s.th.todo == []
  {
    hide OwnerInv, TokenInv, FileSlotsInv, ChildSlotsInv, PendingInv, CallInv, TaskInv, CountInv, WakeInv, Linked, ThreadShape, MemoryShape;
  }

  /** A directory whose children have all delivered has been claimed, once nobody is on the way to it. */
  lemma ReadyIsClaimed(c: Config, s: State, n: Uri)
    requires Inv(c, s) && n in c.dag.nodes && s.th.dispatcher.AwaitDone?
    requires forall t :: !Waits(s.th, t, n)
    requires forall f :: IsFile(c.dag, f) && f.dir == n ==> f in s.th.filePc && FileRank(s.th.filePc[f]) >= 8
    requires forall m :: Children(c.dag, n, m) ==> m in s.hist.progress && s.hist.progress[m] == 9
    ensures n in s.mem.overviewDone
  {
    hide Inv, IsFile, Children, FileRank;
    NodeSlots(c, s, n);
    EmptiesZero(s.mem.fileSummaries[n]);
    EmptiesZero(s.mem.childAbstracts[n]);
    WakeClaims(c, s, n);
  }

  lemma WakeClaims(c: Config, s: State, n: Uri)
    requires Inv(c, s) && n in c.dag.nodes && s.th.dispatcher.AwaitDone?
    requires forall t :: !Waits(s.th, t, n)
    ensures PendingExact(s.mem, n)
    ensures s.mem.pending[n] == 0 ==> n in s.mem.overviewDone
  {
    NothingUnspawned(c, s);
    hide DispatchInv, OwnerInv, TokenInv, FileSlotsInv, ChildSlotsInv, CallInv, TaskInv, CountInv, Linked, MemoryShape, ThreadShape;
  }

  lemma NodeSlots(c: Config, s: State, n: Uri)
    requires Inv(c, s) && n in c.dag.nodes
    requires forall f :: IsFile(c.dag, f) && f.dir == n ==> f in s.th.filePc && FileRank(s.th.filePc[f]) >= 8
    requires forall m :: Children(c.dag, n, m) ==> m in s.hist.progress && s.hist.progress[m] == 9
    ensures n in s.mem.fileSummaries && forall i :: 0 <= i < |s.mem.fileSummaries[n]| ==> s.mem.fileSummaries[n][i].Some?
    ensures n in s.mem.childAbstracts && forall i :: 0 <= i < |s.mem.childAbstracts[n]| ==> s.mem.childAbstracts[n][i].Some?
  {
    hide DispatchInv, OwnerInv, TokenInv, PendingInv, CallInv, TaskInv, CountInv, WakeInv, ThreadShape;
    assert HasNode(c.dag, s.mem, n);
    forall i | 0 <= i < |s.mem.fileSummaries[n]| ensures s.mem.fileSummaries[n][i].Some? {
      var f := FileId(n, i);
      assert IsFile(c.dag, f) && FileSlot(c, s.mem, f, s.th.filePc[f]);
    }
    forall i | 0 <= i < |s.mem.childAbstracts[n]| ensures s.mem.childAbstracts[n][i].Some? {
      var m := c.dag.nodes[n].childrenDirs[i];
      assert Indexed(c.dag.nodes[n].childrenDirs, c.dag.nodes[n].childIndex);
      assert Children(c.dag, n, m) && ChildSlot(c, s.mem, m, s.hist.progress[m]);
    }
  }

  /** A claimed directory that nobody is working on is finished. */
  lemma IdleClaimFinished(c: Config, s: State, n: Uri)
    requires Inv(c, s) && n in s.mem.overviewDone && forall t :: !RunsAt(s.th, t, n)
    ensures n in s.hist.progress && s.hist.progress[n] == 9
  {
    hide DispatchInv, TokenInv, FileSlotsInv, ChildSlotsInv, PendingInv, CallInv, TaskInv, CountInv, WakeInv, Linked, MemoryShape;
  }

  lemma QuietThreads(c: Config, s: State)
    requires Quiet(c, s)
    ensures forall t :: CompletionOf(s.th, t) == None
  {
  }

  lemma {:induction false} QuietFinished(c: Config, s: State, height: map<Uri, nat>, n: Uri)
    requires Linked(c.dag) && Ranked(c.dag, height)
    requires Inv(c, s) && Quiet(c, s) && n in c.dag.nodes && n in height
    ensures n in s.hist.progress && s.hist.progress[n] == 9
    decreases height[n]
  {
    hide Inv, Linked, Ranked;
    QuietThreads(c, s);
    forall m | Children(c.dag, n, m) ensures m in s.hist.progress && s.hist.progress[m] == 9 {
      ChildLower(c.dag, height, n, m);
      QuietFinished(c, s, height, m);
    }
    QuietFiles(c, s);
    hide Quiet;
    ReadyIsClaimed(c, s, n);
    IdleClaimFinished(c, s, n);
  }

  lemma QuietFiles(c: Config, s: State)
    requires Inv(c, s) && Quiet(c, s)
    ensures s.th.dispatcher.AwaitDone?
    ensures forall f :: IsFile(c.dag, f) ==> f in s.th.filePc && FileRank(s.th.filePc[f]) >= 8
  {
    hide Inv, IsFile, FileRank;
    InvDomains(c, s);
    assert FileRank(Exited) == 10 by { ExitedRank(); }
  }

  lemma ExitedRank()
    ensures FileRank(Exited) == 10
  {
  }

  lemma ChildLower(d: Dag, height: map<Uri, nat>, n: Uri, m: Uri)
    requires Linked(d) && Ranked(d, height) && n in d.nodes && Children(d, n, m)
    ensures m in d.nodes && m in height && n in height && height[m] < height[n]
  {
  }

  /** With more tokens than bottom directories some thread can always move until `Execute` returns. */
  lemma NeverStuck(c: Config, order: seq<Uri>, s: State)
    requires WellFormed(c.dag) && DispatchOrder(c.dag, order) && Reachable(c, order, s)
    requires |Bottoms(c.dag)| < c.maxConcurrent
    ensures !Stuck(c, s)
  {
    if Stuck(c, s) {
      ReachableInv(c, order, s);
      ReachableAncestry(c, order, s);
      StuckTokensBounded(c, s);
      StuckQuiet(c, s);
      var height :| Ranked(c.dag, height);
      assert c.dag.root in c.dag.nodes && c.dag.root in height;
      hide Linked, Stuck, Ranked;
      QuietFinished(c, s, height, c.dag.root);
      RootFinishedCloses(c, s);
    }
  }

  lemma RootFinishedCloses(c: Config, s: State)
    requires Inv(c, s) && c.dag.root in s.hist.progress && s.hist.progress[c.dag.root] == 9
    ensures s.closed == 1
  {
    hide DispatchInv, OwnerInv, TokenInv, FileSlotsInv, ChildSlotsInv, PendingInv, CallInv, TaskInv, WakeInv, Linked, MemoryShape;
  }

  lemma InitialAncestry(d: Dag, order: seq<Uri>)
    ensures AncestryInv(d, Initial(d, order).th)
  {
  }

  lemma ReachableAncestry(c: Config, order: seq<Uri>, s: State)
    requires Linked(c.dag) && DispatchOrder(c.dag, order) && Reachable(c, order, s)
    ensures AncestryInv(c.dag, s.th)
  {
    var schedule :| After(c, Initial(c.dag, order), schedule) == Some(s);
    InitialInv(c, order);
    InitialAncestry(c.dag, order);
    hide Inv, Initial, Linked, AncestryInv;
    RunKeepsAncestry(c, Initial(c.dag, order), schedule);
  }
}
