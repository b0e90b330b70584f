/**
 What holds in every interleaving of the DAG executor: bottom-up order, exactly-once
 summaries and tasks, exact totals when `Execute` returns, and termination.
 */
module DagTheorems {
  import opened Prelude
  import opened DagModel
  import opened DagInvariant
  import opened DagSteps
  import opened DagDispatchSteps

  // ---------------------------------------------------------------- runs

  /** The state after the threads of `schedule` have taken one step each, in that order. */
  ghost function After(c: Config, s: State, schedule: seq<Thread>): Option<State>
    decreases |schedule|
  {
    if schedule == [] then Some(s)
    else if Shape(c.dag, s) && Enabled(c, s, schedule[0]) then After(c, Step(c, s, schedule[0]), schedule[1..])
    else None
  }

  ghost predicate Reachable(c: Config, order: seq<Uri>, s: State) {
    exists schedule :: After(c, Initial(c.dag, order), schedule) == Some(s)
  }

  lemma {:induction false} RunKeepsInv(c: Config, s: State, schedule: seq<Thread>)
    requires Inv(c, s) && After(c, s, schedule).Some?
    ensures Inv(c, After(c, s, schedule).value)
    decreases |schedule|
  {
    hide Inv, Shape, Enabled, Step;
    if schedule != [] {
      StepKeepsInv(c, s, schedule[0]);
      RunKeepsInv(c, Step(c, s, schedule[0]), schedule[1..]);
    }
  }

  /** The state in which `dispatchLeaves` is called satisfies the invariant. */
  lemma InitialInv(c: Config, order: seq<Uri>)
    requires Linked(c.dag) && DispatchOrder(c.dag, order)
    ensures Inv(c, Initial(c.dag, order))
  {
    InitialThreads(c, order);
    InitialMemory(c, order);
    InitialLogs(c, order);
    hide DispatchInv, OwnerInv, TokenInv, FileSlotsInv, ChildSlotsInv, PendingInv, CallInv, TaskInv, CountInv, WakeInv;
    hide ThreadShape, MemoryShape, Linked;
  }

  lemma InitialThreads(c: Config, order: seq<Uri>)
    requires DispatchOrder(c.dag, order)
    ensures var s := Initial(c.dag, order);
      && ThreadShape(c.dag, s.th) && DispatchInv(c.dag, s.th, s.mem.dispatched, s.closed)
      && OwnerInv(c.dag, s.th, s.mem.overviewDone, s.hist.owner, s.hist.progress) && TokenInv(s.th, s.sem)
  {
    hide FileRank, Initial, CompletionOf;
    var s := Initial(c.dag, order);
    InitialFiles(c.dag, order);
    NobodyCompletes(c.dag, order);
    InitialFields(c.dag, order);
    assert forall f :: FileToken(f) !in s.sem && !HoldsFileToken(s.th, f);
  }

  lemma InitialFields(d: Dag, order: seq<Uri>)
    ensures var s := Initial(d, order);
      && s.th.todo == order && s.th.dispatcher == Pick && s.sem == {} && s.closed == 0
      && s.mem.dispatched == {} && s.mem.overviewDone == {} && s.hist.owner == map[]
      && s.hist.progress == map n | n in d.nodes :: 0
  {
  }

  lemma NobodyCompletes(d: Dag, order: seq<Uri>)
    ensures forall t :: CompletionOf(Initial(d, order).th, t) == None
  {
  }

  lemma InitialFiles(d: Dag, order: seq<Uri>)
    ensures var th := Initial(d, order).th;
      && (forall f :: f in th.filePc <==> IsFile(d, f))
      && (forall f :: f in th.filePc ==> th.filePc[f] == NotStarted && FileRank(th.filePc[f]) == 0)
  {
    var th := Initial(d, order).th;
    forall f | IsFile(d, f) ensures f in th.filePc { assert f == FileId(f.dir, f.idx); }
  }

  lemma InitialLogs(c: Config, order: seq<Uri>)
    requires Linked(c.dag)
    ensures var s := Initial(c.dag, order);
      && CallInv(s.th, s.hist.calls, s.hist.progress) && TaskInv(c, s.th, s.tasks, s.hist.progress)
      && CountInv(c.dag, s.th, s.stats, s.closed, s.hist.progress)
  {
    var s := Initial(c.dag, order);
    assert FilesIn(s.th, 3, 4) == {} && FilesIn(s.th, 6, 10) == {};
    assert DirsPast(s.hist.progress, 6) == {} && DirsPast(s.hist.progress, 7) == {};
  }

  lemma InitialMemory(c: Config, order: seq<Uri>)
    requires Linked(c.dag) && DispatchOrder(c.dag, order)
    ensures var s := Initial(c.dag, order);
      && MemoryShape(c.dag, s.mem) && FileSlotsInv(c, s.th, s.mem) && ChildSlotsInv(c, s.mem, s.hist.progress)
      && PendingInv(c.dag, s.th, s.mem) && WakeInv(c.dag, s.th, s.mem)
  {
    hide Linked, FileSlotsInv, ChildSlotsInv, FileRank, PendingInv, WakeInv, MemoryShape, InitialNode, Initial, IsFile;
    var s := Initial(c.dag, order);
    InitialFiles(c.dag, order);
    forall n | n in c.dag.nodes ensures InitialNode(c.dag, s, n) { InitialNodes(c.dag, order, n); }
    InitialFileSlots(c, s);
    InitialChildSlots(c, s);
    InitialPending(c, s);
  }

  lemma InitialPending(c: Config, s: State)
    requires Linked(c.dag) && forall n :: n in c.dag.nodes ==> InitialNode(c.dag, s, n)
    ensures MemoryShape(c.dag, s.mem) && PendingInv(c.dag, s.th, s.mem) && WakeInv(c.dag, s.th, s.mem)
  {
    hide Linked, Unvisited, HasNode, PendingExact, CompletionOf;
    RootIsNode(c.dag);
    assert InitialNode(c.dag, s, c.dag.root);
  }

  lemma RootIsNode(d: Dag)
    requires Linked(d)
    ensures d.root in d.nodes
  {
  }

  lemma InitialFileSlots(c: Config, s: State)
    requires Linked(c.dag) && forall n :: n in c.dag.nodes ==> InitialNode(c.dag, s, n)
    requires forall f :: f in s.th.filePc <==> IsFile(c.dag, f)
    requires forall f :: f in s.th.filePc ==> FileRank(s.th.filePc[f]) == 0
    ensures FileSlotsInv(c, s.th, s.mem)
  {
    forall f | f in s.th.filePc ensures FileSlot(c, s.mem, f, s.th.filePc[f]) {
      assert InitialNode(c.dag, s, f.dir);
      assert Indexed(c.dag.nodes[f.dir].filePaths, c.dag.nodes[f.dir].fileIndex);
    }
  }

  lemma InitialChildSlots(c: Config, s: State)
    requires Linked(c.dag) && forall n :: n in c.dag.nodes ==> InitialNode(c.dag, s, n)
    ensures ChildSlotsInv(c, s.mem, s.hist.progress)
  {
    forall n | n in c.dag.parent ensures n in s.hist.progress && ChildSlot(c, s.mem, n, s.hist.progress[n]) {
      var p := c.dag.parent[n];
      assert InitialNode(c.dag, s, p) && InitialNode(c.dag, s, n);
      assert Indexed(c.dag.nodes[p].childrenDirs, c.dag.nodes[p].childIndex);
    }
  }

  ghost predicate InitialNode(d: Dag, s: State, n: Uri) {
    && HasNode(d, s.mem, n) && PendingExact(s.mem, n) && n in s.hist.progress && s.hist.progress[n] == 0
    && (forall i :: 0 <= i < |s.mem.fileSummaries[n]| ==> s.mem.fileSummaries[n][i] == None)
    && (forall i :: 0 <= i < |s.mem.childAbstracts[n]| ==> s.mem.childAbstracts[n][i] == None)
    && s.mem.overviewDone == {} && (forall t :: CompletionOf(s.th, t) == None)
    && (s.mem.pending[n] == 0 ==> Unvisited(d, s.th, n))
  }

  lemma InitialNodes(d: Dag, order: seq<Uri>, n: Uri)
    requires DispatchOrder(d, order) && n in d.nodes
    ensures InitialNode(d, Initial(d, order), n)
  {
    var s := Initial(d, order);
    EmptiesFresh(s.mem.fileSummaries[n]);
    EmptiesFresh(s.mem.childAbstracts[n]);
    InitialFiles(d, order);
    assert forall t :: CompletionOf(s.th, t) == None;
  }

  lemma InvNode(c: Config, s: State, n: Uri)
    requires Inv(c, s) && n in c.dag.nodes
    ensures n in s.hist.progress
    ensures n != c.dag.root ==> n in c.dag.parent && c.dag.parent[n] in c.dag.nodes && Children(c.dag, c.dag.parent[n], n)
  {
    hide DispatchInv, TokenInv, FileSlotsInv, ChildSlotsInv, PendingInv, CallInv, TaskInv, CountInv, WakeInv, MemoryShape;
  }

  lemma InvDomains(c: Config, s: State)
    requires Inv(c, s)
    ensures s.hist.progress.Keys == c.dag.nodes.Keys && s.mem.overviewDone <= c.dag.nodes.Keys
    ensures forall f :: f in s.th.filePc <==> IsFile(c.dag, f)
  {
    hide DispatchInv, TokenInv, FileSlotsInv, ChildSlotsInv, PendingInv, CallInv, TaskInv, CountInv, WakeInv, Linked, MemoryShape;
  }

  lemma ReachableInv(c: Config, order: seq<Uri>, s: State)
    requires Linked(c.dag) && DispatchOrder(c.dag, order) && Reachable(c, order, s)
    ensures Inv(c, s)
  {
    var schedule :| After(c, Initial(c.dag, order), schedule) == Some(s);
    InitialInv(c, order);
    hide Inv;
    RunKeepsInv(c, Initial(c.dag, order), schedule);
  }

  // ---------------------------------------------------------------- a claimed directory has nothing left below it

  ghost predicate Children(d: Dag, n: Uri, m: Uri) {
    m in d.parent && d.parent[m] == n
  }

  /** Past its guard, a directory's kept files and child directories have all delivered. */
  lemma ClaimedChildren(c: Config, s: State, n: Uri)
    requires Inv(c, s) && n in s.mem.overviewDone
    ensures forall f :: IsFile(c.dag, f) && f.dir == n ==> f in s.th.filePc && FileRank(s.th.filePc[f]) >= 8
    ensures forall m :: Children(c.dag, n, m) ==> m in s.hist.progress && s.hist.progress[m] == 9
  {
    hide Inv, WakeInv, FileRank;
    InvMemory(c, s);
    InvDomains(c, s);
    assert PendingExact(s.mem, n);
    EmptiesZero(s.mem.fileSummaries[n]);
    EmptiesZero(s.mem.childAbstracts[n]);
    hide PendingInv, MemoryShape, PendingExact;
    forall f | IsFile(c.dag, f) && f.dir == n ensures f in s.th.filePc && FileRank(s.th.filePc[f]) >= 8 {
      assert FileSlot(c, s.mem, f, s.th.filePc[f]);
    }
    forall m | Children(c.dag, n, m) ensures m in s.hist.progress && s.hist.progress[m] == 9 {
      assert ChildSlot(c, s.mem, m, s.hist.progress[m]);
    }
  }

  ghost predicate FileReported(c: Config, s: State, f: FileId)
    requires IsFile(c.dag, f)
  {
    && FileCall(f) in s.hist.calls
    && FileTask(c, f) in s.tasks
    && f.dir in s.mem.fileSummaries && f.idx < |s.mem.fileSummaries[f.dir]|
    && s.mem.fileSummaries[f.dir][f.idx] == Some(FileSummaryOf(c, f))
  }

  ghost predicate DirReported(c: Config, s: State, n: Uri) {
    && DirCall(n) in s.hist.calls
    && DirTask(c, n) in s.tasks
    && (n in c.dag.parent ==>
          var p := c.dag.parent[n];
          && p in c.dag.nodes && n in c.dag.nodes[p].childIndex && p in s.mem.childAbstracts
          && c.dag.nodes[p].childIndex[n] < |s.mem.childAbstracts[p]|
          && s.mem.childAbstracts[p][c.dag.nodes[p].childIndex[n]] == Some(ChildAbstractOf(c, n)))
  }

  lemma RankedFile(c: Config, s: State, f: FileId)
    requires Inv(c, s) && f in s.th.filePc && FileRank(s.th.filePc[f]) >= 8
    ensures IsFile(c.dag, f) && FileReported(c, s, f)
  {
    assert FileSlot(c, s.mem, f, s.th.filePc[f]);
    hide DispatchInv, OwnerInv, TokenInv, ChildSlotsInv, PendingInv, CountInv, WakeInv;
  }

  lemma FinishedDir(c: Config, s: State, n: Uri)
    requires Inv(c, s) && n in s.hist.progress && s.hist.progress[n] == 9
    ensures DirReported(c, s, n)
  {
    if n in c.dag.parent { assert ChildSlot(c, s.mem, n, 9); }
    hide DispatchInv, OwnerInv, TokenInv, FileSlotsInv, ChildSlotsInv, PendingInv, CountInv, WakeInv;
  }

  /** `n` is the k-th ancestor of `m`. */
  ghost predicate Above(d: Dag, n: Uri, m: Uri, k: nat)
    decreases k
  {
    if k == 0 then m == n else m in d.parent && Above(d, n, d.parent[m], k - 1)
  }

  ghost predicate Below(d: Dag, m: Uri, n: Uri) {
    exists k: nat :: Above(d, n, m, k)
  }

  /** A set of directories that holds the children of its members holds their descendants too. */
  lemma {:induction false} DescendantsIn(d: Dag, done: set<Uri>, n: Uri, m: Uri, k: nat)
    requires forall x :: x in d.parent && d.parent[x] in done ==> x in done
    requires n in done
    ensures Above(d, n, m, k) ==> m in done && (m != n ==> m in d.parent && d.parent[m] in done)
    decreases k
  {
    if k > 0 && m in d.parent { DescendantsIn(d, done, n, d.parent[m], k - 1); }
  }

  lemma FinishedDescendant(c: Config, s: State, n: Uri, m: Uri, k: nat)
    requires Inv(c, s) && n in s.mem.overviewDone
    ensures Above(c.dag, n, m, k) ==> m in s.mem.overviewDone
    ensures Above(c.dag, n, m, k) && m != n ==> m in s.hist.progress && s.hist.progress[m] == 9
  {
    forall x | x in c.dag.parent && c.dag.parent[x] in s.mem.overviewDone
      ensures x in s.mem.overviewDone && x in s.hist.progress && s.hist.progress[x] == 9
    {
      InvParent(c, s, x);
      hide Inv, Linked;
      ClaimedChildren(c, s, c.dag.parent[x]);
      ClaimedOnly(c, s, x);
    }
    DescendantsIn(c.dag, s.mem.overviewDone, n, m, k);
    hide Inv, Linked;
  }

  lemma InvParent(c: Config, s: State, m: Uri)
    requires Inv(c, s) && m in c.dag.parent
    ensures c.dag.parent[m] in c.dag.nodes && Children(c.dag, c.dag.parent[m], m)
  {
    hide DispatchInv, OwnerInv, TokenInv, FileSlotsInv, ChildSlotsInv, PendingInv, CallInv, TaskInv, CountInv, WakeInv, MemoryShape;
  }

  lemma ClaimedOnly(c: Config, s: State, m: Uri)
    requires Inv(c, s) && m in s.hist.progress && s.hist.progress[m] > 0
    ensures m in s.mem.overviewDone
  {
  }

  lemma ClaimedAlone(c: Config, s: State, t: Thread, n: Uri)
    requires Inv(c, s) && RunsAt(s.th, t, n)
    ensures n in s.mem.overviewDone && forall u :: RunsAt(s.th, u, n) ==> u == t
    ensures CompletionOf(s.th, t).value.stage in {AwaitToken, Summarizing} ==> DirCall(n) !in s.hist.calls
  {
    hide DispatchInv, TokenInv, FileSlotsInv, ChildSlotsInv, PendingInv, TaskInv, CountInv, WakeInv, Linked, MemoryShape;
    assert RunsProperly(c.dag, s.th, s.hist.owner, s.hist.progress, t, n);
    assert forall u :: RunsAt(s.th, u, n) ==> RunsProperly(c.dag, s.th, s.hist.owner, s.hist.progress, u, n);
    assert s.hist.progress[n] < 3 ==> DirCall(n) !in s.hist.calls;
  }

  lemma ReportedBelow(c: Config, s: State, n: Uri, f: FileId, k: nat)
    requires Inv(c, s) && n in s.mem.overviewDone && IsFile(c.dag, f)
    ensures Above(c.dag, n, f.dir, k) ==> FileReported(c, s, f)
  {
    hide Inv, Linked, FileReported;
    if Above(c.dag, n, f.dir, k) {
      FinishedDescendant(c, s, n, f.dir, k);
      ClaimedChildren(c, s, f.dir);
      RankedFile(c, s, f);
    }
  }

  /** Bottom-up: a thread past the guard of `n` -- in particular one that is about to summarize `n` -- finds every
      kept file and every directory below `n` summarized, delivered and queued, and `n` itself not yet summarized
      unless this very thread has done it. */
  lemma SummarizedBottomUp(c: Config, order: seq<Uri>, s: State, t: Thread, n: Uri)
    requires Linked(c.dag) && DispatchOrder(c.dag, order) && Reachable(c, order, s)
    requires RunsAt(s.th, t, n)
    ensures forall f :: IsFile(c.dag, f) && Below(c.dag, f.dir, n) ==> FileReported(c, s, f)
    ensures forall m :: m in c.dag.nodes && m != n && Below(c.dag, m, n) ==> DirReported(c, s, m)
    ensures CompletionOf(s.th, t).value.stage in {AwaitToken, Summarizing} ==> DirCall(n) !in s.hist.calls
    ensures forall u :: RunsAt(s.th, u, n) ==> u == t
  {
    ReachableInv(c, order, s);
    ClaimedAlone(c, s, t, n);
    hide Inv, Linked, FileReported, DirReported, Above, RunsAt, Reachable;
    forall f | IsFile(c.dag, f) && Below(c.dag, f.dir, n) ensures FileReported(c, s, f) {
      var k: nat :| Above(c.dag, n, f.dir, k);
      ReportedBelow(c, s, n, f, k);
    }
    forall m | m in c.dag.nodes && m != n && Below(c.dag, m, n) ensures DirReported(c, s, m) {
      var k: nat :| Above(c.dag, n, m, k);
      FinishedDescendant(c, s, n, m, k);
      FinishedDir(c, s, m);
    }
  }

  /** In every interleaving no file and no directory is summarized twice, no task is queued twice, and `done` is closed at most once. */
  lemma AtMostOnce(c: Config, order: seq<Uri>, s: State)
    requires Linked(c.dag) && DispatchOrder(c.dag, order) && Reachable(c, order, s)
    ensures Distinct(s.hist.calls) && Distinct(s.tasks) && s.closed <= 1
    ensures forall n :: n in c.dag.nodes ==> n in s.mem.pending && s.mem.pending[n] >= 0
  {
    ReachableInv(c, order, s);
    assert forall n :: n in c.dag.nodes ==> PendingExact(s.mem, n);
    hide DispatchInv, OwnerInv, TokenInv, FileSlotsInv, ChildSlotsInv, WakeInv, Linked;
  }

  // ---------------------------------------------------------------- the return of Execute

  /** Everything is done once the root's activation is over. */
  lemma {:induction false} AllFinished(c: Config, s: State, height: map<Uri, nat>, n: Uri)
    requires Inv(c, s) && Ranked(c.dag, height) && n in c.dag.nodes
    requires c.dag.root in s.hist.progress && s.hist.progress[c.dag.root] == 9
    ensures n in height && c.dag.root in height
    ensures n in s.hist.progress && s.hist.progress[n] == 9 && n in s.mem.overviewDone
    decreases height[c.dag.root] - height[n]
  {
    InvNode(c, s, n);
    hide Inv, Linked;
    if n != c.dag.root {
      var p := c.dag.parent[n];
      AllFinished(c, s, height, p);
      ClaimedChildren(c, s, p);
    }
    ClaimedOnly(c, s, n);
  }

  ghost function AllFiles(d: Dag): set<FileId> {
    set n, i | n in d.nodes && 0 <= i < |d.nodes[n].filePaths| :: FileId(n, i)
  }

  ghost predicate IsExpectedTask(c: Config, task: VectorizeTask) {
    || (exists f :: IsFile(c.dag, f) && task == FileTask(c, f))
    || (exists n :: n in c.dag.nodes && task == DirTask(c, n))
  }

  /** When `Execute` returns nil: one task per kept file and one per directory and no others, each with the two texts
      that `summarize` gave for its URI, all summaries and abstracts in place, and the counters at their final values. */
  lemma ReturnedComplete(c: Config, order: seq<Uri>, s: State)
    requires WellFormed(c.dag) && DispatchOrder(c.dag, order) && Reachable(c, order, s) && s.th.dispatcher.Returned?
    ensures Distinct(s.tasks) && forall task :: task in s.tasks <==>
      || (exists n, i :: n in c.dag.nodes && 0 <= i < |c.dag.nodes[n].filePaths|
            && var file := c.dag.nodes[n].filePaths[i];
               task == VectorizeTask("file", file, c.contextType, c.summarize(file).gist, c.summarize(file).overview, n))
      || (exists n :: n in c.dag.nodes
            && task == VectorizeTask("directory", n, c.contextType, c.summarize(n).gist, c.summarize(n).overview, ""))
    ensures forall n :: n in c.dag.nodes ==> DirectoryFilled(c, s.mem, n)
    ensures s.stats == Stats(0, |s.tasks|, 0) && s.closed == 1
    ensures |s.tasks| == |set n, i | n in c.dag.nodes && 0 <= i < |c.dag.nodes[n].filePaths| :: (n, i)| + |c.dag.nodes|
  {
    hide Inv, Linked, Ranked, FileReported, DirReported, Initial, Reachable, DispatchOrder, IsExpectedTask, DirectoryFilled;
    AllReported(c, order, s);
    TasksSpelled(c, s.tasks);
    forall n | n in c.dag.nodes ensures DirectoryFilled(c, s.mem, n) {
      SlotsFilled(c, s, n);
    }
    TaskTotal(c, s.tasks);
    FilePositions(c.dag);
  }

  ghost predicate FileTold(summarize: Uri -> Summary, file: Uri, slot: Option<FileSummary>) {
    && slot.Some? && Names(file, slot.value.name)
    && slot.value.gist == summarize(file).gist && slot.value.overview == summarize(file).overview
  }

  ghost predicate ChildTold(summarize: Uri -> Summary, dir: Uri, slot: Option<ChildAbstract>) {
    slot.Some? && Names(dir, slot.value.name) && slot.value.gist == summarize(dir).gist
  }

  /** The slots of a directory: each kept file and each child directory under its name, with what `summarize` gave for it. */
  ghost predicate DirectoryFilled(c: Config, m: Memory, n: Uri)
    requires n in c.dag.nodes
  {
    var files, dirs := c.dag.nodes[n].filePaths, c.dag.nodes[n].childrenDirs;
    && n in m.fileSummaries && |m.fileSummaries[n]| == |files|
    && n in m.childAbstracts && |m.childAbstracts[n]| == |dirs|
    && (forall i :: 0 <= i < |files| ==> FileTold(c.summarize, files[i], m.fileSummaries[n][i]))
    && (forall i :: 0 <= i < |dirs| ==> ChildTold(c.summarize, dirs[i], m.childAbstracts[n][i]))
  }

  lemma FileFilled(c: Config, s: State, n: Uri, i: nat)
    requires n in c.dag.nodes && i < |c.dag.nodes[n].filePaths| && FileReported(c, s, FileId(n, i))
    ensures n in s.mem.fileSummaries && i < |s.mem.fileSummaries[n]|
    ensures FileTold(c.summarize, c.dag.nodes[n].filePaths[i], s.mem.fileSummaries[n][i])
  {
    hide Names, UriName;
    NamesItself(c.dag.nodes[n].filePaths[i]);
  }

  lemma ChildFilled(c: Config, s: State, n: Uri, i: nat)
    requires Linked(c.dag) && n in c.dag.nodes && i < |c.dag.nodes[n].childrenDirs|
    requires DirReported(c, s, c.dag.nodes[n].childrenDirs[i])
    ensures n in s.mem.childAbstracts && i < |s.mem.childAbstracts[n]|
    ensures ChildTold(c.summarize, c.dag.nodes[n].childrenDirs[i], s.mem.childAbstracts[n][i])
  {
    hide Names, UriName;
    assert Indexed(c.dag.nodes[n].childrenDirs, c.dag.nodes[n].childIndex);
    NamesItself(c.dag.nodes[n].childrenDirs[i]);
  }

  lemma ChildIsNode(d: Dag, n: Uri, i: nat)
    requires Linked(d) && n in d.nodes && i < |d.nodes[n].childrenDirs|
    ensures d.nodes[n].childrenDirs[i] in d.nodes
  {
    var m := d.nodes[n].childrenDirs[i];
    assert Indexed(d.nodes[n].childrenDirs, d.nodes[n].childIndex);
    assert m in d.nodes[n].childIndex && m in d.parent.Keys;
  }

  lemma SlotsFilled(c: Config, s: State, n: Uri)
    requires Linked(c.dag) && MemoryShape(c.dag, s.mem) && n in c.dag.nodes
    requires forall f :: IsFile(c.dag, f) ==> FileReported(c, s, f)
    requires forall m :: m in c.dag.nodes ==> DirReported(c, s, m)
    ensures DirectoryFilled(c, s.mem, n)
  {
    hide Linked, FileReported, DirReported, FileTold, ChildTold;
    assert HasNode(c.dag, s.mem, n);
    hide MemoryShape;
    var files, dirs := c.dag.nodes[n].filePaths, c.dag.nodes[n].childrenDirs;
    forall i | 0 <= i < |files| ensures FileTold(c.summarize, files[i], s.mem.fileSummaries[n][i]) {
      assert IsFile(c.dag, FileId(n, i));
      FileFilled(c, s, n, i);
    }
    forall i | 0 <= i < |dirs| ensures ChildTold(c.summarize, dirs[i], s.mem.childAbstracts[n][i]) {
      ChildIsNode(c.dag, n, i);
      ChildFilled(c, s, n, i);
    }
  }

  /** Every file and directory has been summarized, delivered and queued, and the counters say so. */
  lemma AllReported(c: Config, order: seq<Uri>, s: State)
    requires WellFormed(c.dag) && DispatchOrder(c.dag, order) && Reachable(c, order, s) && s.th.dispatcher.Returned?
    ensures Distinct(s.tasks) && forall task :: task in s.tasks <==> IsExpectedTask(c, task)
    ensures forall f :: IsFile(c.dag, f) ==> FileReported(c, s, f)
    ensures forall n :: n in c.dag.nodes ==> DirReported(c, s, n)
    ensures s.stats == Stats(0, |AllFiles(c.dag)| + |c.dag.nodes|, 0) && s.closed == 1
    ensures Linked(c.dag) && MemoryShape(c.dag, s.mem)
  {
    hide Inv, Linked, Ranked, FileReported, DirReported, Initial, Reachable, DispatchOrder, IsExpectedTask;
    ReachableInv(c, order, s);
    ReturnedClosed(c, s);
    var height := SomeHeight(c.dag);
    forall n | n in c.dag.nodes ensures n in s.hist.progress && s.hist.progress[n] == 9 && DirReported(c, s, n) {
      AllFinished(c, s, height, n);
      FinishedDir(c, s, n);
    }
    forall f | IsFile(c.dag, f)
      ensures FileReported(c, s, f) && f in s.th.filePc && FileRank(s.th.filePc[f]) >= 8
    {
      AllFinished(c, s, height, f.dir);
      ClaimedChildren(c, s, f.dir);
      RankedFile(c, s, f);
    }
    TasksExact(c, s);
    TotalsFinal(c, s);
    InvMemory(c, s);
  }

  lemma TasksSpelled(c: Config, tasks: seq<VectorizeTask>)
    requires forall task :: task in tasks <==> IsExpectedTask(c, task)
    ensures forall task :: task in tasks <==>
      || (exists n, i :: n in c.dag.nodes && 0 <= i < |c.dag.nodes[n].filePaths|
            && var file := c.dag.nodes[n].filePaths[i];
               task == VectorizeTask("file", file, c.contextType, c.summarize(file).gist, c.summarize(file).overview, n))
      || (exists n :: n in c.dag.nodes
            && task == VectorizeTask("directory", n, c.contextType, c.summarize(n).gist, c.summarize(n).overview, ""))
  {
    forall n, i | n in c.dag.nodes && 0 <= i < |c.dag.nodes[n].filePaths|
      ensures var file := c.dag.nodes[n].filePaths[i];
              VectorizeTask("file", file, c.contextType, c.summarize(file).gist, c.summarize(file).overview, n) in tasks
    {
      assert IsFile(c.dag, FileId(n, i)) && IsExpectedTask(c, FileTask(c, FileId(n, i)));
    }
  }

  lemma FileTasks(c: Config) returns (tasks: set<VectorizeTask>)
    requires Linked(c.dag)
    ensures forall task :: task in tasks <==> exists f :: IsFile(c.dag, f) && task == FileTask(c, f)
    ensures |tasks| == |AllFiles(c.dag)|
  {
    TaskNames(c);
    AllFilesAre(c.dag);
    hide Linked, IsFile, AllFiles, FileTask;
    tasks := set f | f in AllFiles(c.dag) :: FileTask(c, f);
    var taskOf := map f | f in AllFiles(c.dag) :: FileTask(c, f);
    BijectionCard(AllFiles(c.dag), tasks, taskOf);
  }

  lemma DirTasks(c: Config) returns (tasks: set<VectorizeTask>)
    ensures forall task :: task in tasks <==> exists n :: n in c.dag.nodes && task == DirTask(c, n)
    ensures |tasks| == |c.dag.nodes|
  {
    tasks := set n | n in c.dag.nodes :: DirTask(c, n);
    BijectionCard(c.dag.nodes.Keys, tasks, map n | n in c.dag.nodes :: DirTask(c, n));
  }

  lemma ExpectedTasks(c: Config) returns (tasks: set<VectorizeTask>)
    requires Linked(c.dag)
    ensures forall task :: task in tasks <==> IsExpectedTask(c, task)
    ensures |tasks| == |AllFiles(c.dag)| + |c.dag.nodes|
  {
    TaskNames(c);
    var ofFiles := FileTasks(c);
    var ofDirs := DirTasks(c);
    hide Linked, IsFile, AllFiles, FileTask, DirTask;
    assert ofFiles !! ofDirs;
    tasks := ofFiles + ofDirs;
  }

  /** As many tasks as kept files and directories together. */
  lemma TaskTotal(c: Config, tasks: seq<VectorizeTask>)
    requires Linked(c.dag) && Distinct(tasks) && forall task :: task in tasks <==> IsExpectedTask(c, task)
    ensures |tasks| == |AllFiles(c.dag)| + |c.dag.nodes|
  {
    hide Linked, IsExpectedTask, AllFiles, Distinct;
    var expected := ExpectedTasks(c);
    DistinctCard(tasks);
    assert (set task | task in tasks) == expected;
  }

  lemma FilePositions(d: Dag)
    ensures |set n, i | n in d.nodes && 0 <= i < |d.nodes[n].filePaths| :: (n, i)| == |AllFiles(d)|
  {
    var positions := set n, i | n in d.nodes && 0 <= i < |d.nodes[n].filePaths| :: (n, i);
    AllFilesAre(d);
    var positionOf := map f | f in AllFiles(d) :: (f.dir, f.idx as int);
    forall p | p in positions ensures exists f :: f in AllFiles(d) && positionOf[f] == p {
      assert IsFile(d, FileId(p.0, p.1)) && positionOf[FileId(p.0, p.1)] == p;
    }
    BijectionCard(AllFiles(d), positions, positionOf);
  }

  lemma SomeHeight(d: Dag) returns (height: map<Uri, nat>)
    requires WellFormed(d)
    ensures Linked(d) && Ranked(d, height)
  {
    hide Linked, Ranked;
    height :| Ranked(d, height);
  }

  lemma ReturnedClosed(c: Config, s: State)
    requires Inv(c, s) && s.th.dispatcher.Returned?
    ensures s.closed == 1 && c.dag.root in s.hist.progress && s.hist.progress[c.dag.root] == 9
  {
    hide OwnerInv, TokenInv, FileSlotsInv, ChildSlotsInv, PendingInv, CallInv, TaskInv, WakeInv, Linked, MemoryShape;
  }

  lemma TasksExact(c: Config, s: State)
    requires Inv(c, s)
    requires forall f :: IsFile(c.dag, f) ==> FileReported(c, s, f)
    requires forall n :: n in c.dag.nodes ==> DirReported(c, s, n)
    ensures Distinct(s.tasks) && forall task :: task in s.tasks <==> IsExpectedTask(c, task)
  {
    hide Inv, Linked, FileTask, DirTask, IsFile;
    forall f | IsFile(c.dag, f) ensures FileTask(c, f) in s.tasks { assert FileReported(c, s, f); }
    forall n | n in c.dag.nodes ensures DirTask(c, n) in s.tasks { assert DirReported(c, s, n); }
    OnlyExpectedTasks(c, s);
  }

  lemma OnlyExpectedTasks(c: Config, s: State)
    requires Inv(c, s)
    ensures Distinct(s.tasks) && forall task :: task in s.tasks ==> IsExpectedTask(c, task)
  {
    hide Inv;
    InvDomains(c, s);
    TaskPart(c, s);
    TasksExpected(c, s.th, s.tasks, s.hist.progress);
  }

  lemma TasksExpected(c: Config, th: Threads, tasks: seq<VectorizeTask>, progress: map<Uri, nat>)
    requires TaskInv(c, th, tasks, progress) && progress.Keys == c.dag.nodes.Keys
    ensures Distinct(tasks) && forall task :: task in tasks ==> IsExpectedTask(c, task)
  {
    hide FileTask, DirTask, FileRank;
    forall task | task in tasks ensures IsExpectedTask(c, task) {
      if n :| n in progress && task == DirTask(c, n) {
        assert n in c.dag.nodes;
      } else {
        var f :| f in th.filePc && IsFile(c.dag, f) && task == FileTask(c, f);
      }
    }
  }

  lemma TaskPart(c: Config, s: State)
    requires Inv(c, s)
    ensures TaskInv(c, s.th, s.tasks, s.hist.progress) && CountInv(c.dag, s.th, s.stats, s.closed, s.hist.progress)
  {
    hide DispatchInv, OwnerInv, TokenInv, FileSlotsInv, ChildSlotsInv, PendingInv, CallInv, TaskInv, CountInv, WakeInv, Linked;
  }

  lemma AllFilesAre(d: Dag)
    ensures forall f :: f in AllFiles(d) <==> IsFile(d, f)
  {
    forall f | IsFile(d, f) ensures f in AllFiles(d) {
      assert f == FileId(f.dir, f.idx);
    }
  }

  lemma TotalsFinal(c: Config, s: State)
    requires Inv(c, s)
    requires forall n :: n in c.dag.nodes ==> n in s.hist.progress && s.hist.progress[n] == 9
    requires forall f :: IsFile(c.dag, f) ==> f in s.th.filePc && FileRank(s.th.filePc[f]) >= 8
    ensures s.stats == Stats(0, |AllFiles(c.dag)| + |c.dag.nodes|, 0)
  {
    hide Inv, Linked, TaskInv, FileRank, IsFile, AllFiles, FilesIn, DirsPast;
    InvDomains(c, s);
    TaskPart(c, s);
    FinalFileCounts(c.dag, s.th);
    FinalDirCounts(c.dag, s.hist.progress);
  }

  lemma FinalDirCounts(d: Dag, progress: map<Uri, nat>)
    requires progress.Keys == d.nodes.Keys && forall n :: n in progress ==> progress[n] == 9
    ensures |DirsPast(progress, 6)| == |DirsPast(progress, 7)| == |d.nodes|
  {
    assert DirsPast(progress, 6) == d.nodes.Keys;
    assert DirsPast(progress, 7) == d.nodes.Keys;
  }

  lemma FinalFileCounts(d: Dag, th: Threads)
    requires forall f :: f in th.filePc <==> IsFile(d, f)
    requires forall f :: IsFile(d, f) ==> FileRank(th.filePc[f]) >= 8
    ensures FilesIn(th, 3, 4) == {} && FilesIn(th, 6, 10) == AllFiles(d)
  {
    AllFilesAre(d);
    forall f | IsFile(d, f) ensures 8 <= FileRank(th.filePc[f]) <= 10 { RankAtMost10(th.filePc[f]); }
    hide FileRank, IsFile, AllFiles;
    assert forall f :: f in FilesIn(th, 6, 10) <==> f in AllFiles(d);
  }

  lemma RankAtMost10(pc: FilePc)
    ensures FileRank(pc) <= 10
  {
  }
}
