/** Every step of every thread keeps the invariant of the DAG executor. */
module DagSteps {
  import opened Prelude
  import opened DagModel
  import opened DagInvariant

  // ---------------------------------------------------------------- onNodeComplete

  lemma InvShape(c: Config, s: State)
    requires Inv(c, s)
    ensures Shape(c.dag, s)
  {
  }

  lemma OwnerFacts(d: Dag, th: Threads, done: set<Uri>, owner: map<Uri, Thread>, progress: map<Uri, nat>,
                   t: Thread, n: Uri)
    requires OwnerInv(d, th, done, owner, progress) && n in d.nodes
    ensures n in progress && progress[n] <= 9 && (progress[n] == 0 <==> n !in done)
    ensures RunsAt(th, t, n) ==> RunsProperly(d, th, owner, progress, t, n)
  {
  }

  lemma SlotFacts(c: Config, m: Memory, progress: map<Uri, nat>, n: Uri)
    requires ChildSlotsInv(c, m, progress) && n in c.dag.parent && n in progress
    ensures ChildSlot(c, m, n, progress[n])
  {
  }

  lemma IdleTokens(th: Threads, sem: set<Token>, t: Thread)
    requires TokenInv(th, sem) && !HoldsDirToken(CompletionOf(th, t))
    ensures sem - {DirToken(t)} == sem
  {
  }

  lemma SkipKeepsInv(c: Config, s: State, t: Thread, n: Uri)
    requires Inv(c, s) && Waits(s.th, t, n) && n in s.mem.overviewDone
    ensures Inv(c, s.(th := MoveTo(s.th, t, None)))
  {
    hide DispatchInv, OwnerInv, FileSlotsInv, ChildSlotsInv, TokenInv, CallInv, TaskInv, CountInv, WakeInv;
    MoveKeepsThreadShape(c.dag, s.th, t, None);
    MoveKeepsDispatch(c.dag, s.th, t, None, s.mem.dispatched, s.closed, s.closed);
    SkipKeepsOwner(c.dag, s.th, t, s.mem.overviewDone, s.hist.owner, s.hist.progress, n);
    IdleTokens(s.th, s.sem, t);
    MoveKeepsTokens(s.th, t, None, s.sem, s.sem);
    MoveKeepsFileSlots(c, s.th, t, None, s.mem, s.mem);
    MoveKeepsPending(c.dag, s.th, t, None, s.mem, s.mem);
    MoveKeepsWake(c.dag, s.th, t, None, s.mem, s.mem);
    SkipKeepsLogs(c, s, t);
  }

  lemma SkipKeepsLogs(c: Config, s: State, t: Thread)
    requires Linked(c.dag) && CompletionOf(s.th, t).Some?
    requires CallInv(s.th, s.hist.calls, s.hist.progress) && TaskInv(c, s.th, s.tasks, s.hist.progress)
    requires CountInv(c.dag, s.th, s.stats, s.closed, s.hist.progress)
    ensures var th' := MoveTo(s.th, t, None);
      && CallInv(th', s.hist.calls, s.hist.progress) && TaskInv(c, th', s.tasks, s.hist.progress)
      && CountInv(c.dag, th', s.stats, s.closed, s.hist.progress)
  {
    MoveFacts(s.th, t, None);
    var th' := MoveTo(s.th, t, None);
    assert FilesIn(th', 3, 4) == FilesIn(s.th, 3, 4);
    assert FilesIn(th', 6, 10) == FilesIn(s.th, 6, 10);
  }

  lemma ClaimKeepsInv(c: Config, s: State, t: Thread, n: Uri)
    requires Inv(c, s) && Waits(s.th, t, n) && n in c.dag.nodes && n !in s.mem.overviewDone
    ensures Inv(c, CompletionStep(c, s, t, Enter(n)))
  {
    hide DispatchInv, OwnerInv, FileSlotsInv, ChildSlotsInv, TokenInv, CallInv, TaskInv, CountInv, WakeInv;
    var next := Some(At(n, AwaitToken));
    var m' := s.mem.(overviewDone := s.mem.overviewDone + {n});
    assert CompletionStep(c, s, t, Enter(n)) ==
           s.(th := MoveTo(s.th, t, next), mem := m',
              hist := s.hist.(owner := s.hist.owner[n := t], progress := s.hist.progress[n := 1]));
    hide CompletionStep, MoveTo;
    OwnerFacts(c.dag, s.th, s.mem.overviewDone, s.hist.owner, s.hist.progress, t, n);
    MoveKeepsThreadShape(c.dag, s.th, t, next);
    MoveKeepsDispatch(c.dag, s.th, t, next, s.mem.dispatched, s.closed, s.closed);
    ClaimKeepsOwner(c.dag, s.th, t, s.mem.overviewDone, s.hist.owner, s.hist.progress, n);
    IdleTokens(s.th, s.sem, t);
    MoveKeepsTokens(s.th, t, next, s.sem, s.sem);
    MoveKeepsFileSlots(c, s.th, t, next, s.mem, m');
    MoveKeepsChildSlots(c, s.mem, m', s.hist.progress, n, 1);
    MoveKeepsPending(c.dag, s.th, t, next, s.mem, m');
    MoveKeepsWake(c.dag, s.th, t, next, s.mem, m');
    MoveKeepsCalls(s.th, t, next, s.hist.calls, s.hist.progress, n, 1, s.hist.calls);
    MoveKeepsTasks(c, s.th, t, next, s.tasks, s.hist.progress, n, 1, s.tasks);
    MoveKeepsCounts(c.dag, s.th, t, next, s.stats, s.closed, s.hist.progress, n, 1, s.stats, s.closed);
  }

  /** A step past the guard that leaves the nodes' memory alone: progress `p` decides what else may change. */
  ghost predicate Advances(c: Config, s: State, t: Thread, n: Uri, next: Option<Completion>, p: nat, s': State) {
    && RunsAt(s.th, t, n) && n in s.hist.progress && s.hist.progress[n] < p <= 9
    && (p == 9 ==> n == c.dag.root)
    && (if next.Some? then next.value.At? && next.value.node == n && p == StageRank(next.value.stage)
                           && (next.value.stage.CloseDone? ==> n == c.dag.root)
        else p == 9)
    && s'.th == MoveTo(s.th, t, next) && s'.mem == s.mem
    && s'.sem == (if HoldsDirToken(next) then s.sem + {DirToken(t)} else s.sem - {DirToken(t)})
    && s'.tasks == (if s.hist.progress[n] < 5 <= p then s.tasks + [DirTask(c, n)] else s.tasks)
    && s'.stats.runningNodes == s.stats.runningNodes
    && s'.stats.doneNodes == s.stats.doneNodes + (if s.hist.progress[n] < 6 <= p then 1 else 0)
    && s'.stats.pendingNodes == s.stats.pendingNodes - (if s.hist.progress[n] < 7 <= p then 1 else 0)
    && s'.closed == s.closed + (if n == c.dag.root && p == 9 then 1 else 0)
    && s'.hist == s.hist.(calls := if s.hist.progress[n] < 3 <= p then s.hist.calls + [DirCall(n)] else s.hist.calls,
                          progress := s.hist.progress[n := p])
  }

  lemma AdvanceKeepsInv(c: Config, s: State, t: Thread, n: Uri, next: Option<Completion>, p: nat, s': State)
    requires Inv(c, s) && Advances(c, s, t, n, next, p, s')
    ensures Inv(c, s')
  {
    hide DispatchInv, OwnerInv, FileSlotsInv, ChildSlotsInv, TokenInv, CallInv, TaskInv, CountInv, WakeInv;
    assert n in c.dag.nodes;
    MoveKeepsThreadShape(c.dag, s.th, t, next);
    MoveKeepsDispatch(c.dag, s.th, t, next, s.mem.dispatched, s.closed, s'.closed);
    AdvanceKeepsOwner(c.dag, s.th, t, next, s.mem.overviewDone, s.hist.owner, s.hist.progress, n, p);
    MoveKeepsTokens(s.th, t, next, s.sem, s'.sem);
    MoveKeepsFileSlots(c, s.th, t, next, s.mem, s.mem);
    MoveKeepsChildSlots(c, s.mem, s.mem, s.hist.progress, n, p);
    MoveKeepsPending(c.dag, s.th, t, next, s.mem, s.mem);
    MoveKeepsWake(c.dag, s.th, t, next, s.mem, s.mem);
    MoveKeepsCalls(s.th, t, next, s.hist.calls, s.hist.progress, n, p, s'.hist.calls);
    MoveKeepsTasks(c, s.th, t, next, s.tasks, s.hist.progress, n, p, s'.tasks);
    MoveKeepsCounts(c.dag, s.th, t, next, s.stats, s.closed, s.hist.progress, n, p, s'.stats, s'.closed);
  }

  /** The node memory after a report, seen by the thread that made it. */
  lemma ReportKeepsMemory(c: Config, s: State, t: Thread, n: Uri, next: Option<Completion>)
    requires Inv(c, s) && RunsAt(s.th, t, n) && n in c.dag.parent && n in s.hist.progress && s.hist.progress[n] < 9
    requires CompletionDefined(c.dag, s.mem, n)
    requires var m' := Reported(c, s.mem, n);
      next == if m'.pending[c.dag.parent[n]] <= 0 then Some(Enter(c.dag.parent[n])) else None
    ensures var m' := Reported(c, s.mem, n); var th' := MoveTo(s.th, t, next);
      && (next.Some? ==> next.value.node in c.dag.nodes)
      && MemoryShape(c.dag, m') && m'.overviewDone == s.mem.overviewDone && m'.dispatched == s.mem.dispatched
      && FileSlotsInv(c, th', m') && ChildSlotsInv(c, m', s.hist.progress[n := 9])
      && PendingInv(c.dag, th', m') && WakeInv(c.dag, th', m')
  {
    hide Inv, FileSlotsInv, ChildSlotsInv, PendingInv, WakeInv, MemoryShape, PendingExact, MoveTo, RunsAt, Reported, ChildSlot;
    InvMemory(c, s);
    var m' := Reported(c, s.mem, n);
    ParentIsNode(c.dag, n);
    PendingPart(c.dag, s.th, s.mem);
    SlotFacts(c, s.mem, s.hist.progress, n);
    SlotUnfilled(c, s.mem, n, s.hist.progress[n]);
    ReportedFacts(c, s.mem, n);
    RunsCompletes(s.th, t, n);
    MoveKeepsFileSlots(c, s.th, t, next, s.mem, m');
    ReportKeepsChildSlots(c, s.mem, s.hist.progress, n);
    ReportKeepsWake(c.dag, s.th, t, next, s.mem, m', n, c.dag.parent[n]);
  }

  lemma ParentIsNode(d: Dag, n: Uri)
    requires Linked(d) && n in d.parent
    ensures d.parent[n] in d.nodes && n in d.nodes
  {
  }

  lemma PendingPart(d: Dag, th: Threads, m: Memory)
    requires PendingInv(d, th, m)
    ensures forall x :: x in d.nodes ==> PendingExact(m, x)
  {
  }

  lemma RunsCompletes(th: Threads, t: Thread, n: Uri)
    requires RunsAt(th, t, n)
    ensures CompletionOf(th, t).Some?
  {
  }

  /** Short of its last stage a child has not yet filled its slot. */
  lemma SlotUnfilled(c: Config, m: Memory, n: Uri, p: nat)
    requires ChildSlot(c, m, n, p) && p < 9
    ensures ChildSlot(c, m, n, 0)
  {
  }

  /** One child less to wait for: the parent's counter stays exact, and at zero the reporting thread goes on to it. */
  lemma ReportKeepsWake(d: Dag, th: Threads, t: Thread, next: Option<Completion>, m: Memory, m': Memory, n: Uri, p: Uri)
    requires PendingInv(d, th, m) && WakeInv(d, th, m) && RunsAt(th, t, n)
    requires p in m.pending && m.pending[p] >= 1 && m'.pending == m.pending[p := m.pending[p] - 1]
    requires m'.overviewDone == m.overviewDone && forall x :: x in d.nodes ==> PendingExact(m', x)
    requires next == if m'.pending[p] <= 0 then Some(Enter(p)) else None
    ensures PendingInv(d, MoveTo(th, t, next), m') && WakeInv(d, MoveTo(th, t, next), m')
  {
    hide PendingExact, MoveTo, WakeInv;
    MoveKeepsPending(d, th, t, next, m, m');
    MoveKeepsWake(d, th, t, next, m, m');
  }

  lemma InvMemory(c: Config, s: State)
    requires Inv(c, s)
    ensures Linked(c.dag) && MemoryShape(c.dag, s.mem) && FileSlotsInv(c, s.th, s.mem) && ChildSlotsInv(c, s.mem, s.hist.progress)
    ensures PendingInv(c.dag, s.th, s.mem) && WakeInv(c.dag, s.th, s.mem)
  {
    hide Linked, MemoryShape, FileSlotsInv, ChildSlotsInv, PendingInv, WakeInv, DispatchInv, OwnerInv, TokenInv, CallInv, TaskInv, CountInv;
  }

  lemma ReportKeepsInv(c: Config, s: State, t: Thread, n: Uri)
    requires Inv(c, s) && CompletionOf(s.th, t) == Some(At(n, Notify)) && n in c.dag.parent
    ensures CompletionDefined(c.dag, s.mem, n) && Inv(c, CompletionStep(c, s, t, At(n, Notify)))
  {
    hide DispatchInv, OwnerInv, FileSlotsInv, ChildSlotsInv, TokenInv, PendingInv, CallInv, TaskInv, CountInv, WakeInv,
         Linked, MemoryShape, ThreadShape, MoveTo, Reported, CompletionDefined;
    ReportFacts(c, s, t, n);
    var m' := Reported(c, s.mem, n);
    var next := if m'.pending[c.dag.parent[n]] <= 0 then Some(Enter(c.dag.parent[n])) else None;
    ReportKeepsThreads(c, s, t, n, next);
    ReportKeepsLogs(c, s, t, n, next);
    ReportKeepsMemory(c, s, t, n, next);
  }

  lemma ReportFacts(c: Config, s: State, t: Thread, n: Uri)
    requires Inv(c, s) && CompletionOf(s.th, t) == Some(At(n, Notify)) && n in c.dag.parent
    ensures CompletionDefined(c.dag, s.mem, n) && RunsAt(s.th, t, n)
    ensures n in s.hist.progress && s.hist.progress[n] < 9 && c.dag.parent[n] in Reported(c, s.mem, n).pending
  {
    hide DispatchInv, OwnerInv, FileSlotsInv, ChildSlotsInv, TokenInv, PendingInv, CallInv, TaskInv, CountInv, WakeInv;
    InvShape(c, s);
    OwnerFacts(c.dag, s.th, s.mem.overviewDone, s.hist.owner, s.hist.progress, t, n);
    ShapeDefines(c.dag, s, n);
  }

  /** The parts of the invariant about threads and owners. */
  lemma ReportKeepsThreads(c: Config, s: State, t: Thread, n: Uri, next: Option<Completion>)
    requires Inv(c, s) && CompletionOf(s.th, t) == Some(At(n, Notify)) && n in c.dag.parent
    requires next == None || next == Some(Enter(c.dag.parent[n]))
    ensures var th', progress' := MoveTo(s.th, t, next), s.hist.progress[n := 9];
            && ThreadShape(c.dag, th') && DispatchInv(c.dag, th', s.mem.dispatched, s.closed)
            && OwnerInv(c.dag, th', s.mem.overviewDone, s.hist.owner, progress')
  {
    hide DispatchInv, OwnerInv, FileSlotsInv, ChildSlotsInv, TokenInv, PendingInv, CallInv, TaskInv, CountInv, WakeInv, MemoryShape;
    OwnerFacts(c.dag, s.th, s.mem.overviewDone, s.hist.owner, s.hist.progress, t, n);
    MoveKeepsThreadShape(c.dag, s.th, t, next);
    MoveKeepsDispatch(c.dag, s.th, t, next, s.mem.dispatched, s.closed, s.closed);
    AdvanceKeepsOwner(c.dag, s.th, t, next, s.mem.overviewDone, s.hist.owner, s.hist.progress, n, 9);
  }

  /** The parts about tokens, calls, tasks and statistics. */
  lemma ReportKeepsLogs(c: Config, s: State, t: Thread, n: Uri, next: Option<Completion>)
    requires Inv(c, s) && CompletionOf(s.th, t) == Some(At(n, Notify)) && n in c.dag.parent
    requires next == None || next == Some(Enter(c.dag.parent[n]))
    ensures var th', progress' := MoveTo(s.th, t, next), s.hist.progress[n := 9];
            && TokenInv(th', s.sem) && CallInv(th', s.hist.calls, progress') && TaskInv(c, th', s.tasks, progress')
            && CountInv(c.dag, th', s.stats, s.closed, progress')
  {
    hide DispatchInv, OwnerInv, FileSlotsInv, ChildSlotsInv, TokenInv, PendingInv, CallInv, TaskInv, CountInv, WakeInv, MemoryShape;
    OwnerFacts(c.dag, s.th, s.mem.overviewDone, s.hist.owner, s.hist.progress, t, n);
    IdleTokens(s.th, s.sem, t);
    MoveKeepsTokens(s.th, t, next, s.sem, s.sem);
    MoveKeepsCalls(s.th, t, next, s.hist.calls, s.hist.progress, n, 9, s.hist.calls);
    MoveKeepsTasks(c, s.th, t, next, s.tasks, s.hist.progress, n, 9, s.tasks);
    MoveKeepsCounts(c.dag, s.th, t, next, s.stats, s.closed, s.hist.progress, n, 9, s.stats, s.closed);
  }

  lemma CompletionKeepsInv(c: Config, s: State, t: Thread, k: Completion)
    requires Inv(c, s) && CompletionOf(s.th, t) == Some(k) && CompletionEnabled(c, s, k)
    ensures CompletionDefined(c.dag, s.mem, k.node) && Inv(c, CompletionStep(c, s, t, k))
  {
    hide Inv, Shape, Linked, Advances, RunsProperly, HoldsDirToken;
    InvActivation(c, s, t, k);
    var s' := CompletionStep(c, s, t, k);
    var n := k.node;
    match k
    case Enter(_) =>
      assert Waits(s.th, t, n);
      if n in s.mem.overviewDone { SkipKeepsInv(c, s, t, n); } else { ClaimKeepsInv(c, s, t, n); }
    case At(_, stage) =>
      if stage.Notify? && n in c.dag.parent {
        ReportKeepsInv(c, s, t, n);
      } else {
        var next := CompletionOf(s'.th, t);
        var p := s'.hist.progress[n];
        StageAdvances(c, s, t, n, stage);
        AdvanceKeepsInv(c, s, t, n, next, p, s');
      }
  }

  /** What the invariant says about the activation that takes the step. */
  lemma InvActivation(c: Config, s: State, t: Thread, k: Completion)
    requires Inv(c, s) && CompletionOf(s.th, t) == Some(k)
    ensures k.node in c.dag.nodes && CompletionDefined(c.dag, s.mem, k.node)
    ensures k.node !in c.dag.parent ==> k.node == c.dag.root
    ensures k.At? ==> RunsProperly(c.dag, s.th, s.hist.owner, s.hist.progress, t, k.node)
    ensures DirToken(t) in s.sem <==> HoldsDirToken(CompletionOf(s.th, t))
  {
    hide DispatchInv, FileSlotsInv, ChildSlotsInv, PendingInv, CallInv, TaskInv, CountInv, WakeInv, RunsProperly;
    ShapeDefines(c.dag, s, k.node);
    assert k.At? ==> RunsAt(s.th, t, k.node);
  }

  /** Where an activation goes that does not report to a parent. */
  ghost function NextAt(c: Config, n: Uri, stage: Stage): Option<Completion> {
    match stage
    case AwaitToken => Some(At(n, Summarizing))
    case Summarizing => Some(At(n, ReleaseToken))
    case ReleaseToken => Some(At(n, Record))
    case Record => Some(At(n, CountDone))
    case CountDone => Some(At(n, CountPending))
    case CountPending => Some(At(n, Notify))
    case Notify => if n == c.dag.root then Some(At(n, CloseDone)) else None
    case CloseDone => None
  }

  lemma TokenAt(n: Uri, stage: Stage, next: Option<Completion>)
    ensures HoldsDirToken(Some(At(n, stage))) <==> stage.Summarizing? || stage.ReleaseToken?
    ensures HoldsDirToken(next) <==> next.Some? && next.value.At? && (next.value.stage.Summarizing? || next.value.stage.ReleaseToken?)
  {
  }

  lemma TokenThere(sem: set<Token>, k: Token)
    ensures if k in sem then sem + {k} == sem else sem - {k} == sem
  {
  }

  lemma StageAdvances(c: Config, s: State, t: Thread, n: Uri, stage: Stage)
    requires CompletionDefined(c.dag, s.mem, n) && CompletionOf(s.th, t) == Some(At(n, stage))
    requires n !in c.dag.parent ==> n == c.dag.root
    requires RunsProperly(c.dag, s.th, s.hist.owner, s.hist.progress, t, n)
    requires DirToken(t) in s.sem <==> HoldsDirToken(CompletionOf(s.th, t))
    requires stage.Notify? ==> n !in c.dag.parent
    ensures var s' := CompletionStep(c, s, t, At(n, stage));
      n in s'.hist.progress && Advances(c, s, t, n, CompletionOf(s'.th, t), s'.hist.progress[n], s')
  {
    hide CompletionDefined, CompletionStep, Advances, RunsProperly, HoldsDirToken;
    if stage.AwaitToken? || stage.Summarizing? || stage.ReleaseToken? {
      TokenStageAdvances(c, s, t, n, stage);
    } else if stage.Record? || stage.CountDone? || stage.CountPending? {
      CountStageAdvances(c, s, t, n, stage);
    } else {
      LastStageAdvances(c, s, t, n, stage);
    }
  }

  lemma TokenStageAdvances(c: Config, s: State, t: Thread, n: Uri, stage: Stage)
    requires CompletionDefined(c.dag, s.mem, n) && CompletionOf(s.th, t) == Some(At(n, stage))
    requires n !in c.dag.parent ==> n == c.dag.root
    requires RunsProperly(c.dag, s.th, s.hist.owner, s.hist.progress, t, n)
    requires DirToken(t) in s.sem <==> HoldsDirToken(CompletionOf(s.th, t))
    requires stage.AwaitToken? || stage.Summarizing? || stage.ReleaseToken?
    ensures var s' := CompletionStep(c, s, t, At(n, stage));
      n in s'.hist.progress && Advances(c, s, t, n, CompletionOf(s'.th, t), s'.hist.progress[n], s')
  {
    hide CompletionDefined, HasNode, DirTask, MoveTo, HoldsDirToken;
    var s' := CompletionStep(c, s, t, At(n, stage));
    MoveFacts(s.th, t, NextAt(c, n, stage));
    TokenAt(n, stage, NextAt(c, n, stage));
    TokenThere(s.sem, DirToken(t));
  }

  lemma CountStageAdvances(c: Config, s: State, t: Thread, n: Uri, stage: Stage)
    requires CompletionDefined(c.dag, s.mem, n) && CompletionOf(s.th, t) == Some(At(n, stage))
    requires n !in c.dag.parent ==> n == c.dag.root
    requires RunsProperly(c.dag, s.th, s.hist.owner, s.hist.progress, t, n)
    requires DirToken(t) in s.sem <==> HoldsDirToken(CompletionOf(s.th, t))
    requires stage.Record? || stage.CountDone? || stage.CountPending?
    ensures var s' := CompletionStep(c, s, t, At(n, stage));
      n in s'.hist.progress && Advances(c, s, t, n, CompletionOf(s'.th, t), s'.hist.progress[n], s')
  {
    hide CompletionDefined, HasNode, DirTask, MoveTo, HoldsDirToken;
    var s' := CompletionStep(c, s, t, At(n, stage));
    MoveFacts(s.th, t, NextAt(c, n, stage));
    TokenAt(n, stage, NextAt(c, n, stage));
    TokenThere(s.sem, DirToken(t));
  }

  lemma LastStageAdvances(c: Config, s: State, t: Thread, n: Uri, stage: Stage)
    requires CompletionDefined(c.dag, s.mem, n) && CompletionOf(s.th, t) == Some(At(n, stage))
    requires n !in c.dag.parent ==> n == c.dag.root
    requires RunsProperly(c.dag, s.th, s.hist.owner, s.hist.progress, t, n)
    requires DirToken(t) in s.sem <==> HoldsDirToken(CompletionOf(s.th, t))
    requires (stage.Notify? && n !in c.dag.parent) || stage.CloseDone?
    ensures var s' := CompletionStep(c, s, t, At(n, stage));
      n in s'.hist.progress && Advances(c, s, t, n, CompletionOf(s'.th, t), s'.hist.progress[n], s')
  {
    hide CompletionDefined, HasNode, DirTask, MoveTo, HoldsDirToken;
    var s' := CompletionStep(c, s, t, At(n, stage));
    MoveFacts(s.th, t, NextAt(c, n, stage));
    TokenAt(n, stage, NextAt(c, n, stage));
    TokenThere(s.sem, DirToken(t));
  }
}
