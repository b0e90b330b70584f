/** The DAG executor's runs are finite, and the order in which its calls happen is bottom-up. */
module DagProgress {
  import opened Prelude
  import opened DagModel
  import opened DagInvariant
  import opened DagSteps
  import opened DagFileSteps
  import opened DagDispatchSteps
  import opened DagTheorems

  // ---------------------------------------------------------------- work done

  /** The rungs (x, 0) to (x, rank[x] - 1) climbed by every x. */
  ghost function Rungs<T(!new)>(rank: map<T, nat>): set<(T, nat)> {
    set x, k | x in rank && 0 <= k < rank[x] :: (x, k)
  }

  lemma RungsGrow<T(!new)>(rank: map<T, nat>, rank': map<T, nat>)
    requires rank.Keys == rank'.Keys && forall x :: x in rank ==> rank[x] <= rank'[x]
    ensures |Rungs(rank)| <= |Rungs(rank')|
    ensures (exists x :: x in rank && rank[x] < rank'[x]) ==> |Rungs(rank)| < |Rungs(rank')|
  {
    var a, b := Rungs(rank), Rungs(rank');
    assert a <= b;
    if x :| x in rank && rank[x] < rank'[x] {
      assert (x, rank[x]) in b && (x, rank[x]) !in a;
    }
    SubsetCard(a, b);
  }

  ghost function RungsOf<T(!new)>(x: T, h: nat): set<(T, nat)> {
    set k: nat | 0 <= k < h :: (x, k)
  }

  lemma {:induction false} LadderCard<T(!new)>(x: T, h: nat)
    ensures |RungsOf(x, h)| == h
  {
    if h == 0 {
      assert RungsOf(x, h) == {};
    } else {
      LadderCard(x, h - 1);
      assert RungsOf(x, h) == RungsOf(x, h - 1) + {(x, h - 1)};
    }
  }

  lemma RungsSplit<T(!new)>(rank: map<T, nat>, x: T)
    requires x in rank
    ensures |Rungs(rank)| == |Rungs(rank - {x})| + rank[x]
  {
    var rest := Rungs(rank - {x});
    LadderCard(x, rank[x]);
    assert Rungs(rank) == rest + RungsOf(x, rank[x]);
    assert rest !! RungsOf(x, rank[x]);
  }

  lemma RungsNone<T(!new)>(rank: map<T, nat>)
    requires |rank| == 0
    ensures Rungs(rank) == {}
  {
    assert rank == map[];
  }

  /** With every rank at most `h` there are at most `h` rungs each. */
  lemma {:induction false} RungsBound<T(!new)>(rank: map<T, nat>, h: nat, size: nat)
    requires (forall x :: x in rank ==> rank[x] <= h) && size == |rank|
    ensures |Rungs(rank)| <= h * size
    decreases size
  {
    hide Rungs;
    if size == 0 {
      RungsNone(rank);
    } else {
      assert |rank.Keys| == size;
      var x :| x in rank.Keys;
      RungsSplit(rank, x);
      assert (rank - {x}).Keys == rank.Keys - {x};
      assert |(rank - {x}).Keys| == size - 1;
      RungsBound(rank - {x}, h, size - 1);
      assert h * size == h * (size - 1) + h;
    }
  }

  ghost function FileRanks(th: Threads): map<FileId, nat> {
    map f | f in th.filePc :: FileRank(th.filePc[f])
  }

  /** Position of the dispatcher in its pass over `total` nodes, three notches to a node. */
  ghost function DispatchRank(total: nat, th: Threads): int {
    var seen := total - |th.todo|;
    match th.dispatcher
    case Pick => 3 * seen
    case Spawn(_, _) => 3 * seen - 2
    case DispatchCompleting(_) => 3 * seen - 1
    case AwaitDone => 3 * total + 1
    case Returned => 3 * total + 2
  }

  ghost function Work(total: nat, s: State): int {
    |Rungs(FileRanks(s.th))| + |Rungs(s.hist.progress)| + DispatchRank(total, s.th)
  }

  /** Every step raises the rank of a file, of a directory or of the dispatcher, and lowers none. */
  ghost predicate Grows(s: State, s': State) {
    && s'.th.filePc.Keys == s.th.filePc.Keys && s'.hist.progress.Keys == s.hist.progress.Keys
    && (forall f :: f in s.th.filePc ==> FileRank(s.th.filePc[f]) <= FileRank(s'.th.filePc[f]))
    && (forall n :: n in s.hist.progress ==> s.hist.progress[n] <= s'.hist.progress[n])
    && (forall total :: DispatchRank(total, s.th) <= DispatchRank(total, s'.th))
    && (|| (exists f :: f in s.th.filePc && FileRank(s.th.filePc[f]) < FileRank(s'.th.filePc[f]))
        || (exists n :: n in s.hist.progress && s.hist.progress[n] < s'.hist.progress[n])
        || (forall total :: DispatchRank(total, s.th) < DispatchRank(total, s'.th)))
  }

  lemma GrowsWork(total: nat, s: State, s': State)
    requires Grows(s, s')
    ensures Work(total, s) < Work(total, s')
  {
    RungsGrow(FileRanks(s.th), FileRanks(s'.th));
    RungsGrow(s.hist.progress, s'.hist.progress);
    if f :| f in s.th.filePc && FileRank(s.th.filePc[f]) < FileRank(s'.th.filePc[f]) {
      assert f in FileRanks(s.th);
    }
  }

  lemma CompletionGrows(c: Config, s: State, t: Thread, k: Completion)
    requires CompletionDefined(c.dag, s.mem, k.node) && CompletionOf(s.th, t) == Some(k)
    requires OwnerInv(c.dag, s.th, s.mem.overviewDone, s.hist.owner, s.hist.progress) && k.node in c.dag.nodes
    ensures Grows(s, CompletionStep(c, s, t, k))
  {
    hide OwnerInv, CompletionDefined, CompletionStep, MoveTo, Grows;
    OwnerFacts(c.dag, s.th, s.mem.overviewDone, s.hist.owner, s.hist.progress, t, k.node);
    assert k.At? ==> RunsAt(s.th, t, k.node);
    ProgressGrows(c, s, t, k);
    if k.Enter? && k.node in s.mem.overviewDone {
      LeavingGrows(s, t, CompletionStep(c, s, t, k));
    } else {
      AdvancingGrows(s, t, CompletionStep(c, s, t, k), k.node);
    }
  }

  /** An activation that finds its directory claimed ends, and its thread goes on. */
  lemma LeavingGrows(s: State, t: Thread, s': State)
    requires CompletionOf(s.th, t).Some? && s'.th == MoveTo(s.th, t, None) && s'.hist.progress == s.hist.progress
    ensures Grows(s, s')
  {
    MoveFacts(s.th, t, None);
  }

  /** Any other one brings its directory further. */
  lemma AdvancingGrows(s: State, t: Thread, s': State, n: Uri)
    requires CompletionOf(s.th, t).Some? && s'.th == MoveTo(s.th, t, CompletionOf(s'.th, t))
    requires n in s.hist.progress && n in s'.hist.progress && s'.hist.progress[n] > s.hist.progress[n]
    requires s'.hist.progress == s.hist.progress[n := s'.hist.progress[n]]
    ensures Grows(s, s')
  {
    MoveFacts(s.th, t, CompletionOf(s'.th, t));
  }

  lemma ProgressGrows(c: Config, s: State, t: Thread, k: Completion)
    requires CompletionDefined(c.dag, s.mem, k.node) && CompletionOf(s.th, t) == Some(k)
    requires k.node in s.hist.progress
    requires if k.At? then s.hist.progress[k.node] == StageRank(k.stage)
             else s.hist.progress[k.node] == 0 <==> k.node !in s.mem.overviewDone
    ensures var s' := CompletionStep(c, s, t, k); var n := k.node;
      if k.Enter? && n in s.mem.overviewDone then s'.th == MoveTo(s.th, t, None) && s'.hist.progress == s.hist.progress
      else s'.th == MoveTo(s.th, t, CompletionOf(s'.th, t))
           && n in s'.hist.progress && s'.hist.progress[n] > s.hist.progress[n]
           && s'.hist.progress == s.hist.progress[n := s'.hist.progress[n]]
  {
    hide CompletionDefined, Reported, DirTask, MoveTo, CompletionStep;
    CompletionTarget(c, s, t, k);
    CompletionRanks(c, s, t, k);
    MoveFacts(s.th, t, NextCompletion(c, s, k));
  }

  /** Where `onNodeComplete` goes next. */
  function NextCompletion(c: Config, s: State, k: Completion): Option<Completion>
    requires CompletionDefined(c.dag, s.mem, k.node)
  {
    var n := k.node;
    match k
    case Enter(_) => if n in s.mem.overviewDone then None else Some(At(n, AwaitToken))
    case At(_, AwaitToken) => Some(At(n, Summarizing))
    case At(_, Summarizing) => Some(At(n, ReleaseToken))
    case At(_, ReleaseToken) => Some(At(n, Record))
    case At(_, Record) => Some(At(n, CountDone))
    case At(_, CountDone) => Some(At(n, CountPending))
    case At(_, CountPending) => Some(At(n, Notify))
    case At(_, Notify) =>
      if n in c.dag.parent then (if Reported(c, s.mem, n).pending[c.dag.parent[n]] <= 0 then Some(Enter(c.dag.parent[n])) else None)
      else if n == c.dag.root then Some(At(n, CloseDone)) else None
    case At(_, CloseDone) => None
  }

  lemma CompletionTarget(c: Config, s: State, t: Thread, k: Completion)
    requires CompletionDefined(c.dag, s.mem, k.node)
    ensures CompletionStep(c, s, t, k).th == MoveTo(s.th, t, NextCompletion(c, s, k))
  {
    hide MoveTo, Reported, DirTask;
  }

  /** How far the directory has come after it. */
  ghost function RankAfter(c: Config, k: Completion): nat {
    match k
    case Enter(_) => 1
    case At(n, stage) => if stage.Notify? && (n in c.dag.parent || n != c.dag.root) then 9 else StageRank(stage) + 1
  }

  lemma CompletionRanks(c: Config, s: State, t: Thread, k: Completion)
    requires CompletionDefined(c.dag, s.mem, k.node)
    ensures CompletionStep(c, s, t, k).hist.progress == if k.Enter? && k.node in s.mem.overviewDone then s.hist.progress
                                                        else s.hist.progress[k.node := RankAfter(c, k)]
  {
    hide MoveTo, Reported, DirTask, CompletionDefined;
    match k
    case Enter(_) =>
    case At(n, stage) =>
      match stage {
        case Notify =>
        case CloseDone =>
        case _ =>
      }
  }
  lemma FileGrows(c: Config, s: State, f: FileId)
    requires FileDefined(c.dag, s.mem, f) && f in s.th.filePc && FileEnabled(c, s, s.th.filePc[f])
    requires !s.th.filePc[f].Completing?
    ensures Grows(s, FileStep(c, s, f))
  {
    hide FileDefined, Delivered, FileTask, FileStep, FileRank, FileEnabled;
    FileStepRank(c, s, f);
    OnePcGrows(s, FileStep(c, s, f), f);
  }

  /** The file moves on to a later position; other threads and the directories stay where they are. */
  lemma FileStepRank(c: Config, s: State, f: FileId)
    requires FileDefined(c.dag, s.mem, f) && f in s.th.filePc && FileEnabled(c, s, s.th.filePc[f])
    requires !s.th.filePc[f].Completing?
    ensures var s' := FileStep(c, s, f);
            && f in s'.th.filePc && FileRank(s.th.filePc[f]) < FileRank(s'.th.filePc[f])
            && s'.th == s.th.(filePc := s.th.filePc[f := s'.th.filePc[f]])
            && s'.hist.progress == s.hist.progress
  {
    hide FileDefined, Delivered, FileTask, HasNode, CompletionStep;
  }

  lemma OnePcGrows(s: State, s': State, f: FileId)
    requires f in s.th.filePc && f in s'.th.filePc && FileRank(s.th.filePc[f]) < FileRank(s'.th.filePc[f])
    requires s'.th == s.th.(filePc := s.th.filePc[f := s'.th.filePc[f]]) && s'.hist.progress == s.hist.progress
    ensures Grows(s, s')
  {
    hide FileRank;
  }

  lemma DispatcherGrows(c: Config, s: State)
    requires DispatcherDefined(c.dag, s) && DispatcherEnabled(c, s) && !s.th.dispatcher.DispatchCompleting?
    requires ThreadShape(c.dag, s.th)
    requires s.th.todo != [] ==> s.th.todo[0] !in s.mem.dispatched
    requires DispatchInv(c.dag, s.th, s.mem.dispatched, s.closed)
    ensures Grows(s, DispatcherStep(c, s))
  {
    var s' := DispatcherStep(c, s);
    DispatcherMoves(c, s);
    if s.th.dispatcher.Spawn? && s.th.dispatcher.next < |c.dag.nodes[s.th.dispatcher.node].filePaths| {
      var f := FileId(s.th.dispatcher.node, s.th.dispatcher.next);
      assert IsFile(c.dag, f) && f in s.th.filePc;
      assert s.th.filePc[f].NotStarted? <==> Unspawned(s.th, f);
      assert FileRank(s.th.filePc[f]) < FileRank(s'.th.filePc[f]);
    }
    hide DispatcherStep, DispatchInv, ThreadShape, FileRank;
  }

  lemma StepGrows(c: Config, s: State, t: Thread)
    requires Inv(c, s) && Enabled(c, s, t)
    ensures Shape(c.dag, s) && Grows(s, Step(c, s, t))
  {
    InvGrows(c, s, t);
    hide Inv, OwnerInv, DispatchInv, ThreadShape, MemoryShape, Linked, CompletionStep, Grows;
    match t
    case Dispatcher => DispatchStepGrows(c, s);
    case Worker(f) => FileStepGrows(c, s, f);
  }

  lemma DispatchStepGrows(c: Config, s: State)
    requires Inv(c, s) && Enabled(c, s, Dispatcher)
    ensures DispatcherDefined(c.dag, s) && Grows(s, DispatcherStep(c, s))
  {
    InvGrows(c, s, Dispatcher);
    hide Inv, OwnerInv, DispatchInv, Shape, ThreadShape, MemoryShape, Linked, CompletionStep, Grows;
    if s.th.dispatcher.DispatchCompleting? { CompletionGrows(c, s, Dispatcher, s.th.dispatcher.c); } else { DispatcherGrows(c, s); }
  }

  lemma FileStepGrows(c: Config, s: State, f: FileId)
    requires Inv(c, s) && Enabled(c, s, Worker(f))
    ensures FileDefined(c.dag, s.mem, f)
    ensures s.th.filePc[f].Completing? ==> CompletionDefined(c.dag, s.mem, s.th.filePc[f].c.node)
    ensures Grows(s, FileStep(c, s, f))
  {
    hide Inv, OwnerInv, DispatchInv, Shape, ThreadShape, MemoryShape, Linked, CompletionStep, Grows, FileDefined, CompletionDefined;
    InvGrows(c, s, Worker(f));
    if s.th.filePc[f].Completing? { CompletionGrows(c, s, Worker(f), s.th.filePc[f].c); } else { FileGrows(c, s, f); }
  }

  lemma InvGrows(c: Config, s: State, t: Thread)
    requires Inv(c, s) && Enabled(c, s, t)
    ensures Shape(c.dag, s) && DispatcherDefined(c.dag, s)
    ensures OwnerInv(c.dag, s.th, s.mem.overviewDone, s.hist.owner, s.hist.progress)
    ensures DispatchInv(c.dag, s.th, s.mem.dispatched, s.closed)
    ensures s.th.todo != [] ==> s.th.todo[0] !in s.mem.dispatched
    ensures t.Worker? ==> FileDefined(c.dag, s.mem, t.file)
    ensures CompletionOf(s.th, t).Some? ==> CompletionDefined(c.dag, s.mem, CompletionOf(s.th, t).value.node)
    ensures CompletionOf(s.th, t).Some? ==> CompletionOf(s.th, t).value.node in c.dag.nodes
  {
    InvThreads(c, s);
    StepDefined(c, s);
    if s.th.todo != [] { NotYetDispatched(c.dag, s.th, s.mem.dispatched, s.closed); }
    if CompletionOf(s.th, t).Some? { ShapeDefines(c.dag, s, CompletionOf(s.th, t).value.node); }
    if t.Worker? { InvAtFile(c, s, t.file); }
    hide Shape, DispatcherDefined, FileDefined, CompletionDefined, DispatchInv, TokenInv, FileSlotsInv, ChildSlotsInv;
    hide PendingInv, CallInv, TaskInv, CountInv, WakeInv, Linked, ThreadShape, MemoryShape, OwnerInv;
  }

  // ---------------------------------------------------------------- every run is finite

  /** More steps than this no run can take: 10 for each kept file, 9 for each directory, and the dispatcher's own. */
  ghost function Budget(d: Dag, total: nat): int {
    10 * |AllFiles(d)| + 9 * |d.nodes| + 3 * total + 2
  }

  lemma WorkBound(c: Config, total: nat, s: State)
    requires Inv(c, s)
    ensures Work(total, s) <= Budget(c.dag, total)
  {
    hide Inv, AllFiles, IsFile, FileRank, Rungs;
    InvDomains(c, s);
    ProgressBound(c, s);
    AllFilesAre(c.dag);
    assert s.th.filePc.Keys == AllFiles(c.dag);
    forall f | f in FileRanks(s.th) ensures FileRanks(s.th)[f] <= 10 { RankAtMost10(s.th.filePc[f]); }
    assert FileRanks(s.th).Keys == s.th.filePc.Keys;
    assert |FileRanks(s.th)| == |FileRanks(s.th).Keys| && |s.hist.progress| == |s.hist.progress.Keys|;
    assert |c.dag.nodes| == |c.dag.nodes.Keys|;
    RungsBound(FileRanks(s.th), 10, |FileRanks(s.th)|);
    RungsBound(s.hist.progress, 9, |s.hist.progress|);
  }

  lemma ProgressBound(c: Config, s: State)
    requires Inv(c, s)
    ensures forall n :: n in s.hist.progress ==> s.hist.progress[n] <= 9
  {
    hide DispatchInv, TokenInv, FileSlotsInv, ChildSlotsInv, PendingInv, CallInv, TaskInv, CountInv, WakeInv, Linked, MemoryShape;
  }

  lemma {:induction false} RunGrows(c: Config, total: nat, s: State, schedule: seq<Thread>)
    requires Inv(c, s) && After(c, s, schedule).Some?
    ensures Work(total, After(c, s, schedule).value) >= Work(total, s) + |schedule|
    decreases |schedule|
  {
    hide Inv, Shape, Enabled, Step, Work, Grows;
    if schedule != [] {
      StepGrows(c, s, schedule[0]);
      GrowsWork(total, s, Step(c, s, schedule[0]));
      StepKeepsInv(c, s, schedule[0]);
      RunGrows(c, total, Step(c, s, schedule[0]), schedule[1..]);
    }
  }

  /** In every interleaving the number of steps is bounded by the size of the tree. */
  lemma RunsAreFinite(c: Config, order: seq<Uri>, schedule: seq<Thread>)
    requires Linked(c.dag) && DispatchOrder(c.dag, order)
    requires After(c, Initial(c.dag, order), schedule).Some?
    ensures |schedule| <= Budget(c.dag, |order|)
  {
    var s0 := Initial(c.dag, order);
    InitialInv(c, order);
    assert Work(|order|, s0) >= 0;
    hide Inv, Work, Budget, Initial;
    RunGrows(c, |order|, s0, schedule);
    RunKeepsInv(c, s0, schedule);
    WorkBound(c, |order|, After(c, s0, schedule).value);
  }

  // ---------------------------------------------------------------- the order of the calls

  ghost predicate ChildrenCalled(d: Dag, calls: seq<Call>, n: Uri) {
    && (forall f :: IsFile(d, f) && f.dir == n ==> FileCall(f) in calls)
    && (forall m :: Children(d, n, m) ==> DirCall(m) in calls)
  }

  /** No directory is summarized before its kept files and its child directories. */
  ghost predicate CallsBottomUp(d: Dag, calls: seq<Call>) {
    forall i :: 0 <= i < |calls| && calls[i].DirCall? ==> ChildrenCalled(d, calls[..i], calls[i].dir)
  }

  lemma CallsAppend(d: Dag, calls: seq<Call>, x: Call)
    requires CallsBottomUp(d, calls) && (x.DirCall? ==> ChildrenCalled(d, calls, x.dir))
    ensures CallsBottomUp(d, calls + [x])
  {
    var calls' := calls + [x];
    forall i | 0 <= i < |calls'| && calls'[i].DirCall? ensures ChildrenCalled(d, calls'[..i], calls'[i].dir) {
      if i < |calls| { assert calls'[..i] == calls[..i]; } else { assert calls'[..i] == calls; }
    }
  }

  lemma RunningChildrenCalled(c: Config, s: State, t: Thread, n: Uri)
    requires Inv(c, s) && RunsAt(s.th, t, n)
    ensures ChildrenCalled(c.dag, s.hist.calls, n)
  {
    ClaimedAlone(c, s, t, n);
    ClaimedChildren(c, s, n);
    hide DispatchInv, OwnerInv, TokenInv, FileSlotsInv, ChildSlotsInv, PendingInv, TaskInv, CountInv, WakeInv, Linked, MemoryShape;
  }

  /** The only steps that call the summarizer. */
  lemma StepCalls(c: Config, s: State, t: Thread)
    requires Shape(c.dag, s) && Enabled(c, s, t)
    ensures var calls' := Step(c, s, t).hist.calls;
      || calls' == s.hist.calls
      || (t.Worker? && calls' == s.hist.calls + [FileCall(t.file)])
      || (CompletionOf(s.th, t).Some? && RunsAt(s.th, t, CompletionOf(s.th, t).value.node)
          && calls' == s.hist.calls + [DirCall(CompletionOf(s.th, t).value.node)])
  {
    hide Linked, MemoryShape, FileDefined, CompletionDefined, HasNode, CompletionStep, Delivered, FileTask;
    assert CompletionOf(s.th, t).Some? ==> CompletionOf(s.th, t).value.node in c.dag.nodes;
    if CompletionOf(s.th, t).Some? {
      ShapeDefines(c.dag, s, CompletionOf(s.th, t).value.node);
      CompletionCalls(c, s, t, CompletionOf(s.th, t).value);
    }
  }

  lemma CompletionCalls(c: Config, s: State, t: Thread, k: Completion)
    requires CompletionDefined(c.dag, s.mem, k.node)
    ensures var calls' := CompletionStep(c, s, t, k).hist.calls;
      calls' == s.hist.calls || (k.At? && calls' == s.hist.calls + [DirCall(k.node)])
  {
    hide CompletionDefined, Reported, DirTask, MoveTo;
  }

  lemma {:induction false} RunCallsBottomUp(c: Config, s: State, schedule: seq<Thread>)
    requires Inv(c, s) && After(c, s, schedule).Some? && CallsBottomUp(c.dag, s.hist.calls)
    ensures CallsBottomUp(c.dag, After(c, s, schedule).value.hist.calls)
    decreases |schedule|
  {
    hide Inv, Shape, Enabled, Step, CallsBottomUp, ChildrenCalled;
    if schedule != [] {
      var t := schedule[0];
      var s' := Step(c, s, t);
      StepKeepsInv(c, s, t);
      StepCalls(c, s, t);
      if s'.hist.calls != s.hist.calls {
        if t.Worker? && s'.hist.calls == s.hist.calls + [FileCall(t.file)] {
          CallsAppend(c.dag, s.hist.calls, FileCall(t.file));
        } else {
          var n := CompletionOf(s.th, t).value.node;
          RunningChildrenCalled(c, s, t, n);
          CallsAppend(c.dag, s.hist.calls, DirCall(n));
        }
      }
      RunCallsBottomUp(c, s', schedule[1..]);
    }
  }

  /** In the order of the calls of any run, every directory comes after all its kept files and child directories. */
  lemma CallsComeBottomUp(c: Config, order: seq<Uri>, s: State)
    requires Linked(c.dag) && DispatchOrder(c.dag, order) && Reachable(c, order, s)
    ensures CallsBottomUp(c.dag, s.hist.calls)
  {
    var schedule :| After(c, Initial(c.dag, order), schedule) == Some(s);
    InitialInv(c, order);
    assert Initial(c.dag, order).hist.calls == [];
    hide Inv, Initial, ChildrenCalled;
    RunCallsBottomUp(c, Initial(c.dag, order), schedule);
  }
}
