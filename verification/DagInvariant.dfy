/**
 The inductive invariant of the DAG executor, in independent parts, and the proof
 that every step of every thread keeps each of them.
 */
module DagInvariant {
  import opened Prelude
  import opened DagModel

  // ---------------------------------------------------------------- the parts

  ghost predicate Unspawned(th: Threads, f: FileId) {
    f.dir in th.todo || (th.dispatcher.Spawn? && th.dispatcher.node == f.dir && th.dispatcher.next <= f.idx)
  }

  ghost predicate DispatchInv(d: Dag, th: Threads, dispatched: set<Uri>, closed: nat) {
    && Distinct(th.todo)
    && (forall n :: n in dispatched <==> n in d.nodes && n !in th.todo)
    && (th.dispatcher.Spawn? ==> th.dispatcher.node !in th.todo)
    && (forall f :: f in th.filePc ==> (th.filePc[f].NotStarted? <==> Unspawned(th, f)))
    && (th.dispatcher.AwaitDone? || th.dispatcher.Returned? ==> th.todo == [])
    && (th.dispatcher.Returned? ==> closed > 0)
  }

  ghost predicate RunsAt(th: Threads, t: Thread, n: Uri) {
    CompletionOf(th, t).Some? && CompletionOf(th, t).value.At? && CompletionOf(th, t).value.node == n
  }

  ghost predicate Waits(th: Threads, t: Thread, n: Uri) {
    CompletionOf(th, t) == Some(Enter(n))
  }

  ghost predicate RunsProperly(d: Dag, th: Threads, owner: map<Uri, Thread>, progress: map<Uri, nat>, t: Thread, n: Uri) {
    && RunsAt(th, t, n) && n in owner && owner[n] == t && n in progress
    && progress[n] == StageRank(CompletionOf(th, t).value.stage)
    && (CompletionOf(th, t).value.stage.CloseDone? ==> n == d.root)
  }

  /** At most one activation passes each node's guard: `owner` is the thread that did. */
  ghost predicate OwnerInv(d: Dag, th: Threads, done: set<Uri>, owner: map<Uri, Thread>, progress: map<Uri, nat>) {
    && done <= d.nodes.Keys
    && owner.Keys == done
    && progress.Keys == d.nodes.Keys
    && (forall n :: n in progress ==> progress[n] <= 9 && (progress[n] == 0 <==> n !in done))
    && (forall t, n :: RunsAt(th, t, n) ==> RunsProperly(d, th, owner, progress, t, n))
    && (forall n :: n in owner && n in progress && progress[n] < 9 ==> RunsAt(th, owner[n], n))
  }

  ghost predicate HoldsDirToken(k: Option<Completion>) {
    k.Some? && k.value.At? && (k.value.stage.Summarizing? || k.value.stage.ReleaseToken?)
  }

  ghost predicate HoldsFileToken(th: Threads, f: FileId) {
    f in th.filePc && 2 <= FileRank(th.filePc[f]) <= 9
  }

  ghost predicate TokenInv(th: Threads, sem: set<Token>) {
    && (forall f :: FileToken(f) in sem <==> HoldsFileToken(th, f))
    && (forall t :: DirToken(t) in sem <==> HoldsDirToken(CompletionOf(th, t)))
  }

  ghost predicate FileSlot(c: Config, m: Memory, f: FileId, pc: FilePc)
  {
    && FileDefined(c.dag, m, f)
    && m.fileSummaries[f.dir][f.idx] == if FileRank(pc) >= 8 then Some(FileSummaryOf(c, f)) else None
  }

  ghost predicate FileSlotsInv(c: Config, th: Threads, m: Memory) {
    forall f :: f in th.filePc ==> FileSlot(c, m, f, th.filePc[f])
  }

  ghost predicate ChildSlot(c: Config, m: Memory, n: Uri, progress: nat)
  {
    && n in c.dag.parent && CompletionDefined(c.dag, m, n)
    && m.childAbstracts[c.dag.parent[n]][c.dag.nodes[c.dag.parent[n]].childIndex[n]]
         == if progress == 9 then Some(ChildAbstractOf(c, n)) else None
  }

  ghost predicate ChildSlotsInv(c: Config, m: Memory, progress: map<Uri, nat>) {
    forall n :: n in c.dag.parent ==> n in progress && ChildSlot(c, m, n, progress[n])
  }

  ghost predicate PendingExact(m: Memory, n: Uri) {
    && n in m.pending && n in m.fileSummaries && n in m.childAbstracts
    && m.pending[n] == Empties(m.fileSummaries[n]) + Empties(m.childAbstracts[n])
  }

  /** `Pending` is the number of children that have not delivered, and it is 0 for whoever reaches the guard. */
  ghost predicate PendingInv(d: Dag, th: Threads, m: Memory) {
    && (forall n :: n in d.nodes ==> PendingExact(m, n))
    && (forall n :: n in m.overviewDone ==> n in m.pending && m.pending[n] == 0)
    && (forall t, n :: Waits(th, t, n) ==> n in m.pending && m.pending[n] == 0)
  }

  ghost predicate CallInv(th: Threads, calls: seq<Call>, progress: map<Uri, nat>) {
    && Distinct(calls)
    && (forall f :: FileCall(f) in calls <==> f in th.filePc && FileRank(th.filePc[f]) >= 4)
    && (forall n :: DirCall(n) in calls <==> n in progress && progress[n] >= 3)
  }

  ghost predicate TaskInv(c: Config, th: Threads, tasks: seq<VectorizeTask>, progress: map<Uri, nat>) {
    && Distinct(tasks)
    && (forall f :: f in th.filePc && IsFile(c.dag, f) ==> (FileTask(c, f) in tasks <==> FileRank(th.filePc[f]) >= 7))
    && (forall n :: n in progress ==> (DirTask(c, n) in tasks <==> progress[n] >= 5))
    && (forall task :: task in tasks ==>
          || (exists f :: f in th.filePc && IsFile(c.dag, f) && task == FileTask(c, f))
          || (exists n :: n in progress && task == DirTask(c, n)))
  }

  ghost function FilesIn(th: Threads, lo: nat, hi: nat): set<FileId> {
    set f | f in th.filePc && lo <= FileRank(th.filePc[f]) <= hi
  }

  ghost function DirsPast(progress: map<Uri, nat>, stage: nat): set<Uri> {
    set n | n in progress && progress[n] >= stage
  }

  ghost predicate CountInv(d: Dag, th: Threads, stats: Stats, closed: nat, progress: map<Uri, nat>) {
    && stats.runningNodes == |FilesIn(th, 3, 4)|
    && stats.doneNodes == |FilesIn(th, 6, 10)| + |DirsPast(progress, 6)|
    && stats.pendingNodes == |d.nodes| - |DirsPast(progress, 7)|
    && closed == if d.root in progress && progress[d.root] == 9 then 1 else 0
  }

  /** A directory without files that the dispatcher has still to look at. */
  ghost predicate Unvisited(d: Dag, th: Threads, n: Uri) {
    && n in d.nodes && d.nodes[n].filePaths == []
    && (n in th.todo || (th.dispatcher.Spawn? && th.dispatcher.node == n))
  }

  ghost predicate SomeoneWaits(th: Threads, n: Uri) {
    exists t :: Waits(th, t, n)
  }

  /** No wake-up is lost: a node whose children have all delivered has been claimed, or someone is on the way to claim it. */
  ghost predicate WakeInv(d: Dag, th: Threads, m: Memory) {
    forall n :: n in d.nodes && n in m.pending && m.pending[n] == 0 && n !in m.overviewDone ==>
      SomeoneWaits(th, n) || Unvisited(d, th, n)
  }

  ghost predicate Inv(c: Config, s: State) {
    && Linked(c.dag) && ThreadShape(c.dag, s.th) && MemoryShape(c.dag, s.mem)
    && DispatchInv(c.dag, s.th, s.mem.dispatched, s.closed)
    && OwnerInv(c.dag, s.th, s.mem.overviewDone, s.hist.owner, s.hist.progress)
    && TokenInv(s.th, s.sem)
    && FileSlotsInv(c, s.th, s.mem) && ChildSlotsInv(c, s.mem, s.hist.progress)
    && PendingInv(c.dag, s.th, s.mem)
    && CallInv(s.th, s.hist.calls, s.hist.progress) && TaskInv(c, s.th, s.tasks, s.hist.progress)
    && CountInv(c.dag, s.th, s.stats, s.closed, s.hist.progress)
    && WakeInv(c.dag, s.th, s.mem)
  }

  // ---------------------------------------------------------------- moving a completing thread

  lemma MoveFacts(th: Threads, t: Thread, next: Option<Completion>)
    requires CompletionOf(th, t).Some?
    ensures var th' := MoveTo(th, t, next);
      && CompletionOf(th', t) == next
      && (forall u :: u != t ==> CompletionOf(th', u) == CompletionOf(th, u))
      && th'.filePc.Keys == th.filePc.Keys && th'.todo == th.todo
      && (forall f :: f in th.filePc && Worker(f) != t ==> th'.filePc[f] == th.filePc[f])
      && (forall f :: f in th.filePc && Worker(f) == t ==>
            FileRank(th.filePc[f]) == 8 && FileRank(th'.filePc[f]) == if next.Some? then 8 else 9)
      && th'.dispatcher.Spawn? == th.dispatcher.Spawn?
      && (th'.dispatcher.Spawn? || th'.dispatcher.AwaitDone? || th'.dispatcher.Returned? ==> th'.dispatcher == th.dispatcher)
  {
  }

  lemma MoveKeepsThreadShape(d: Dag, th: Threads, t: Thread, next: Option<Completion>)
    requires ThreadShape(d, th) && CompletionOf(th, t).Some?
    requires next.Some? ==> next.value.node in d.nodes
    ensures ThreadShape(d, MoveTo(th, t, next))
  {
    MoveFacts(th, t, next);
  }

  lemma MoveKeepsDispatch(d: Dag, th: Threads, t: Thread, next: Option<Completion>, dispatched: set<Uri>, closed: nat, closed': nat)
    requires DispatchInv(d, th, dispatched, closed) && CompletionOf(th, t).Some? && closed <= closed'
    ensures DispatchInv(d, MoveTo(th, t, next), dispatched, closed')
  {
  }

  lemma MoveKeepsTokens(th: Threads, t: Thread, next: Option<Completion>, sem: set<Token>, sem': set<Token>)
    requires TokenInv(th, sem) && CompletionOf(th, t).Some?
    requires sem' == if HoldsDirToken(next) then sem + {DirToken(t)} else sem - {DirToken(t)}
    ensures TokenInv(MoveTo(th, t, next), sem')
  {
    MoveFacts(th, t, next);
    var th' := MoveTo(th, t, next);
    forall f ensures FileToken(f) in sem' <==> HoldsFileToken(th', f) {
      assert FileToken(f) in sem <==> HoldsFileToken(th, f);
    }
  }

  lemma MoveKeepsFileSlots(c: Config, th: Threads, t: Thread, next: Option<Completion>, m: Memory, m': Memory)
    requires FileSlotsInv(c, th, m) && CompletionOf(th, t).Some?
    requires m'.fileSummaries == m.fileSummaries && m'.pending.Keys == m.pending.Keys
    requires MemoryShape(c.dag, m')
    ensures FileSlotsInv(c, MoveTo(th, t, next), m')
  {
    MoveFacts(th, t, next);
    var th' := MoveTo(th, t, next);
    forall f | f in th'.filePc ensures FileSlot(c, m', f, th'.filePc[f]) {
      assert FileSlot(c, m, f, th.filePc[f]);
      assert HasNode(c.dag, m', f.dir);
    }
  }

  lemma MoveKeepsCalls(th: Threads, t: Thread, next: Option<Completion>, calls: seq<Call>,
                       progress: map<Uri, nat>, n: Uri, p: nat, calls': seq<Call>)
    requires CallInv(th, calls, progress) && CompletionOf(th, t).Some? && n in progress && progress[n] <= p
    requires calls' == if progress[n] < 3 <= p then calls + [DirCall(n)] else calls
    ensures CallInv(MoveTo(th, t, next), calls', progress[n := p])
  {
  }

  /** `FileTask` and `DirTask` name distinct tasks for distinct files and nodes. */
  lemma TaskNames(c: Config)
    requires Linked(c.dag)
    ensures forall f, g :: IsFile(c.dag, f) && IsFile(c.dag, g) && FileTask(c, f) == FileTask(c, g) ==> f == g
    ensures forall f, n :: IsFile(c.dag, f) ==> FileTask(c, f) != DirTask(c, n)
  {
  }

  lemma MoveKeepsTasks(c: Config, th: Threads, t: Thread, next: Option<Completion>, tasks: seq<VectorizeTask>,
                       progress: map<Uri, nat>, n: Uri, p: nat, tasks': seq<VectorizeTask>)
    requires Linked(c.dag)
    requires TaskInv(c, th, tasks, progress) && CompletionOf(th, t).Some? && n in progress && progress[n] <= p
    requires tasks' == if progress[n] < 5 <= p then tasks + [DirTask(c, n)] else tasks
    ensures TaskInv(c, MoveTo(th, t, next), tasks', progress[n := p])
  {
    MoveFacts(th, t, next);
    TaskNames(c);
    hide Linked, FileTask, DirTask, MoveTo, IsFile;
    assert forall x :: x in tasks' <==> x in tasks || (progress[n] < 5 <= p && x == DirTask(c, n));
  }

  lemma MoveKeepsCounts(d: Dag, th: Threads, t: Thread, next: Option<Completion>, stats: Stats, closed: nat,
                        progress: map<Uri, nat>, n: Uri, p: nat, stats': Stats, closed': nat)
    requires CountInv(d, th, stats, closed, progress) && CompletionOf(th, t).Some?
    requires n in progress && progress[n] < 9 && progress[n] <= p <= 9
    requires stats'.runningNodes == stats.runningNodes
    requires stats'.doneNodes == stats.doneNodes + if progress[n] < 6 <= p then 1 else 0
    requires stats'.pendingNodes == stats.pendingNodes - if progress[n] < 7 <= p then 1 else 0
    requires closed' == closed + if n == d.root && p == 9 then 1 else 0
    ensures CountInv(d, MoveTo(th, t, next), stats', closed', progress[n := p])
  {
    MoveFacts(th, t, next);
    var th' := MoveTo(th, t, next);
    assert FilesIn(th', 3, 4) == FilesIn(th, 3, 4);
    assert FilesIn(th', 6, 10) == FilesIn(th, 6, 10);
    PastBecomes(progress, n, p, 6);
    PastBecomes(progress, n, p, 7);
  }

  lemma PastBecomes(progress: map<Uri, nat>, n: Uri, p: nat, stage: nat)
    requires n in progress && progress[n] <= p
    ensures |DirsPast(progress[n := p], stage)| == |DirsPast(progress, stage)| + if progress[n] < stage <= p then 1 else 0
  {
    var before, after := DirsPast(progress, stage), DirsPast(progress[n := p], stage);
    if progress[n] < stage <= p {
      assert after == before + {n};
    } else {
      assert after == before;
    }
  }

  // ---------------------------------------------------------------- who owns which node

  lemma ClaimKeepsOwner(d: Dag, th: Threads, t: Thread, done: set<Uri>, owner: map<Uri, Thread>, progress: map<Uri, nat>, n: Uri)
    requires OwnerInv(d, th, done, owner, progress) && Waits(th, t, n) && n in d.nodes && n !in done
    ensures OwnerInv(d, MoveTo(th, t, Some(At(n, AwaitToken))), done + {n},
                     owner[n := t], progress[n := 1])
  {
    var th' := MoveTo(th, t, Some(At(n, AwaitToken)));
    var owner', progress' := owner[n := t], progress[n := 1];
    MoveFacts(th, t, Some(At(n, AwaitToken)));
    forall u, m | RunsAt(th', u, m) ensures RunsProperly(d, th', owner', progress', u, m) {
      if u != t {
        assert RunsAt(th, u, m) && RunsProperly(d, th, owner, progress, u, m);
      }
    }
    forall m | m in owner' && progress'[m] < 9 ensures RunsAt(th', owner'[m], m) {
      if m != n {
        assert RunsAt(th, owner[m], m);
        assert owner[m] != t;
      }
    }
  }

  lemma SkipKeepsOwner(d: Dag, th: Threads, t: Thread, done: set<Uri>, owner: map<Uri, Thread>, progress: map<Uri, nat>, n: Uri)
    requires OwnerInv(d, th, done, owner, progress) && Waits(th, t, n)
    ensures OwnerInv(d, MoveTo(th, t, None), done, owner, progress)
  {
    var th' := MoveTo(th, t, None);
    MoveFacts(th, t, None);
    forall u, m | RunsAt(th', u, m) ensures RunsProperly(d, th', owner, progress, u, m) {
      assert RunsAt(th, u, m) && RunsProperly(d, th, owner, progress, u, m);
    }
    forall m | m in owner && progress[m] < 9 ensures RunsAt(th', owner[m], m) {
      assert RunsAt(th, owner[m], m);
      assert owner[m] != t;
    }
  }

  /** A step past the guard: the activation goes on to stage `p`, or ends (9). */
  lemma AdvanceKeepsOwner(d: Dag, th: Threads, t: Thread, next: Option<Completion>, done: set<Uri>,
                          owner: map<Uri, Thread>, progress: map<Uri, nat>, n: Uri, p: nat)
    requires OwnerInv(d, th, done, owner, progress) && RunsAt(th, t, n)
    requires if next.Some? && next.value.At?
             then next.value.node == n && p == StageRank(next.value.stage) && (next.value.stage.CloseDone? ==> n == d.root)
             else p == 9
    ensures OwnerInv(d, MoveTo(th, t, next), done, owner, progress[n := p])
  {
    var th' := MoveTo(th, t, next);
    var progress' := progress[n := p];
    MoveFacts(th, t, next);
    assert RunsProperly(d, th, owner, progress, t, n);
    forall u, m | RunsAt(th', u, m) ensures RunsProperly(d, th', owner, progress', u, m) {
      if u != t {
        assert RunsAt(th, u, m) && RunsProperly(d, th, owner, progress, u, m);
      }
    }
    forall m | m in owner && progress'[m] < 9 ensures RunsAt(th', owner[m], m) {
      if m != n {
        assert RunsAt(th, owner[m], m);
        assert owner[m] != t;
      }
    }
  }

  // ---------------------------------------------------------------- reporting to the parent

  lemma ReportedFacts(c: Config, m: Memory, n: Uri)
    requires Linked(c.dag) && MemoryShape(c.dag, m) && n in c.dag.parent && ChildSlot(c, m, n, 0)
    requires forall x :: x in c.dag.nodes ==> PendingExact(m, x)
    ensures var p := c.dag.parent[n]; var m' := Reported(c, m, n);
      && m.pending[p] >= 1 && m'.pending == m.pending[p := m.pending[p] - 1]
      && MemoryShape(c.dag, m')
      && (forall x :: x in c.dag.nodes ==> PendingExact(m', x))
      && m'.fileSummaries == m.fileSummaries && m'.overviewDone == m.overviewDone && m'.dispatched == m.dispatched
  {
    var p := c.dag.parent[n];
    var i := c.dag.nodes[p].childIndex[n];
    EmptiesFill(m.childAbstracts[p], i, ChildAbstractOf(c, n));
    var m' := Reported(c, m, n);
    forall x | x in c.dag.nodes ensures HasNode(c.dag, m', x) && PendingExact(m', x) {
      assert HasNode(c.dag, m, x) && PendingExact(m, x);
    }
  }

  lemma ReportKeepsChildSlots(c: Config, m: Memory, progress: map<Uri, nat>, n: Uri)
    requires Linked(c.dag) && MemoryShape(c.dag, m) && ChildSlotsInv(c, m, progress)
    requires n in c.dag.parent && n in progress && progress[n] < 9
    requires MemoryShape(c.dag, Reported(c, m, n))
    ensures ChildSlotsInv(c, Reported(c, m, n), progress[n := 9])
  {
    var m' := Reported(c, m, n);
    forall x | x in c.dag.parent ensures x in progress && ChildSlot(c, m', x, progress[n := 9][x]) {
      assert ChildSlot(c, m, x, progress[x]) && ChildSlot(c, m, n, progress[n]);
      assert HasNode(c.dag, m', x) && HasNode(c.dag, m', c.dag.parent[x]);
      var p := c.dag.parent[x];
      assert Indexed(c.dag.nodes[p].childrenDirs, c.dag.nodes[p].childIndex);
    }
  }

  lemma MoveKeepsChildSlots(c: Config, m: Memory, m': Memory, progress: map<Uri, nat>, n: Uri, p: nat)
    requires ChildSlotsInv(c, m, progress) && m'.childAbstracts == m.childAbstracts
    requires m'.pending == m.pending && m'.fileSummaries == m.fileSummaries
    requires n in progress && (n in c.dag.parent ==> (progress[n] < 9 && p < 9) || progress[n] == p)
    ensures ChildSlotsInv(c, m', progress[n := p])
  {
  }

  lemma MoveKeepsPending(d: Dag, th: Threads, t: Thread, next: Option<Completion>, m: Memory, m': Memory)
    requires PendingInv(d, th, m) && CompletionOf(th, t).Some?
    requires forall n :: n in d.nodes ==> PendingExact(m', n)
    requires forall n :: n in m.pending && m.pending[n] == 0 ==> n in m'.pending && m'.pending[n] == 0
    requires forall n :: n in m'.overviewDone ==> n in m.overviewDone || Waits(th, t, n)
    requires next.Some? && next.value.Enter? ==> next.value.node in m'.pending && m'.pending[next.value.node] == 0
    ensures PendingInv(d, MoveTo(th, t, next), m')
  {
    MoveFacts(th, t, next);
    var th' := MoveTo(th, t, next);
    forall u, n | Waits(th', u, n) ensures n in m'.pending && m'.pending[n] == 0 {
      if u != t { assert Waits(th, u, n); }
    }
  }

  lemma MoveKeepsWake(d: Dag, th: Threads, t: Thread, next: Option<Completion>, m: Memory, m': Memory)
    requires WakeInv(d, th, m) && CompletionOf(th, t).Some?
    requires forall n :: n in d.nodes && n in m'.pending && m'.pending[n] == 0 && n !in m'.overviewDone ==>
      next == Some(Enter(n)) || (n in m.pending && m.pending[n] == 0 && n !in m.overviewDone && !Waits(th, t, n))
    ensures WakeInv(d, MoveTo(th, t, next), m')
  {
    MoveFacts(th, t, next);
    var th' := MoveTo(th, t, next);
    forall n | n in d.nodes && n in m'.pending && m'.pending[n] == 0 && n !in m'.overviewDone
      ensures SomeoneWaits(th', n) || Unvisited(d, th', n)
    {
      if next == Some(Enter(n)) {
        assert Waits(th', t, n);
      } else if SomeoneWaits(th, n) {
        var u :| Waits(th, u, n);
        assert Waits(th', u, n);
      } else {
        assert Unvisited(d, th, n);
      }
    }
  }
}
