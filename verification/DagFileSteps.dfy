/** The steps of a file goroutine before and after it completes directories keep the invariant. */
module DagFileSteps {
  import opened Prelude
  import opened DagModel
  import opened DagInvariant
  import opened DagSteps

  function SetFile(th: Threads, f: FileId, pc: FilePc): Threads {
    th.(filePc := th.filePc[f := pc])
  }

  /** A goroutine outside `onNodeComplete` moves on; it may just be entering it. */
  ghost predicate Moves(d: Dag, th: Threads, f: FileId, pc: FilePc) {
    && f in th.filePc && IsFile(d, f)
    && 1 <= FileRank(th.filePc[f]) < FileRank(pc) && FileRank(th.filePc[f]) != 8
    && (pc.Completing? ==> pc.c == Enter(f.dir))
  }

  lemma FileFacts(d: Dag, th: Threads, f: FileId, pc: FilePc)
    requires Moves(d, th, f, pc)
    ensures var th' := SetFile(th, f, pc);
      && CompletionOf(th, Worker(f)) == None
      && CompletionOf(th', Worker(f)) == (if pc.Completing? then Some(Enter(f.dir)) else None)
      && (forall t :: t != Worker(f) ==> CompletionOf(th', t) == CompletionOf(th, t))
      && (forall t, n :: RunsAt(th', t, n) <==> RunsAt(th, t, n))
      && th'.filePc.Keys == th.filePc.Keys
  {
  }

  lemma FileKeepsThreads(d: Dag, th: Threads, f: FileId, pc: FilePc, dispatched: set<Uri>, closed: nat)
    requires Moves(d, th, f, pc) && ThreadShape(d, th) && DispatchInv(d, th, dispatched, closed)
    ensures ThreadShape(d, SetFile(th, f, pc)) && DispatchInv(d, SetFile(th, f, pc), dispatched, closed)
  {
    FileFacts(d, th, f, pc);
    var th' := SetFile(th, f, pc);
    forall g | g in th'.filePc ensures th'.filePc[g].NotStarted? <==> Unspawned(th', g) {
      assert th.filePc[g].NotStarted? <==> Unspawned(th, g);
    }
  }

  lemma FileKeepsOwner(d: Dag, th: Threads, f: FileId, pc: FilePc, done: set<Uri>, owner: map<Uri, Thread>, progress: map<Uri, nat>)
    requires Moves(d, th, f, pc) && OwnerInv(d, th, done, owner, progress)
    ensures OwnerInv(d, SetFile(th, f, pc), done, owner, progress)
  {
    FileFacts(d, th, f, pc);
    var th' := SetFile(th, f, pc);
    forall t, n | RunsAt(th', t, n) ensures RunsProperly(d, th', owner, progress, t, n) {
      assert RunsAt(th, t, n) && RunsProperly(d, th, owner, progress, t, n);
    }
  }

  lemma FileKeepsTokens(d: Dag, th: Threads, f: FileId, pc: FilePc, sem: set<Token>, sem': set<Token>)
    requires Moves(d, th, f, pc) && TokenInv(th, sem)
    requires sem' == if 2 <= FileRank(pc) <= 9 then sem + {FileToken(f)} else sem - {FileToken(f)}
    ensures TokenInv(SetFile(th, f, pc), sem')
  {
  }

  lemma FileKeepsSlots(c: Config, th: Threads, f: FileId, pc: FilePc, m: Memory)
    requires Moves(c.dag, th, f, pc) && FileSlotsInv(c, th, m) && (FileRank(th.filePc[f]) >= 8 <==> FileRank(pc) >= 8)
    ensures FileSlotsInv(c, SetFile(th, f, pc), m)
  {
  }

  lemma FileKeepsPending(d: Dag, th: Threads, f: FileId, pc: FilePc, m: Memory, m': Memory)
    requires Moves(d, th, f, pc) && PendingInv(d, th, m)
    requires forall n :: n in d.nodes ==> PendingExact(m', n)
    requires forall n :: n in m.pending && m.pending[n] == 0 ==> n in m'.pending && m'.pending[n] == 0
    requires m'.overviewDone == m.overviewDone
    requires pc.Completing? ==> f.dir in m'.pending && m'.pending[f.dir] == 0
    ensures PendingInv(d, SetFile(th, f, pc), m')
  {
    FileFacts(d, th, f, pc);
    var th' := SetFile(th, f, pc);
    forall t, n | Waits(th', t, n) ensures n in m'.pending && m'.pending[n] == 0 {
      if t != Worker(f) { assert Waits(th, t, n); }
    }
  }

  lemma FileKeepsWake(d: Dag, th: Threads, f: FileId, pc: FilePc, m: Memory, m': Memory)
    requires Moves(d, th, f, pc) && WakeInv(d, th, m) && m'.overviewDone == m.overviewDone
    requires forall n :: n in d.nodes && n in m'.pending && m'.pending[n] == 0 ==>
      (n == f.dir && pc.Completing?) || (n in m.pending && m.pending[n] == 0)
    ensures WakeInv(d, SetFile(th, f, pc), m')
  {
    FileFacts(d, th, f, pc);
    var th' := SetFile(th, f, pc);
    forall n | n in d.nodes && n in m'.pending && m'.pending[n] == 0 && n !in m'.overviewDone
      ensures SomeoneWaits(th', n) || Unvisited(d, th', n)
    {
      if n == f.dir && pc.Completing? {
        assert Waits(th', Worker(f), n);
      } else if SomeoneWaits(th, n) {
        var t :| Waits(th, t, n);
        assert Waits(th', t, n);
      } else {
        assert Unvisited(d, th, n);
      }
    }
  }

  lemma FileKeepsCalls(d: Dag, th: Threads, f: FileId, pc: FilePc, calls: seq<Call>, progress: map<Uri, nat>, calls': seq<Call>)
    requires Moves(d, th, f, pc) && CallInv(th, calls, progress)
    requires calls' == if FileRank(th.filePc[f]) < 4 <= FileRank(pc) then calls + [FileCall(f)] else calls
    ensures CallInv(SetFile(th, f, pc), calls', progress)
  {
  }

  lemma FileKeepsTasks(c: Config, th: Threads, f: FileId, pc: FilePc, tasks: seq<VectorizeTask>, progress: map<Uri, nat>,
                       tasks': seq<VectorizeTask>)
    requires Moves(c.dag, th, f, pc) && Linked(c.dag) && TaskInv(c, th, tasks, progress)
    requires tasks' == if FileRank(th.filePc[f]) < 7 <= FileRank(pc) then tasks + [FileTask(c, f)] else tasks
    ensures TaskInv(c, SetFile(th, f, pc), tasks', progress)
  {
    TaskNames(c);
    hide Linked, FileTask, DirTask, IsFile;
    var added := FileRank(th.filePc[f]) < 7 <= FileRank(pc);
    assert forall x :: x in tasks' <==> x in tasks || (added && x == FileTask(c, f));
  }

  lemma OneChange<T>(before: set<T>, after: set<T>, x: T)
    requires before - {x} == after - {x}
    ensures |after| == |before| + (if x in after then 1 else 0) - (if x in before then 1 else 0)
  {
    if x in before { assert before == (before - {x}) + {x}; } else { assert before == before - {x}; }
    if x in after { assert after == (after - {x}) + {x}; } else { assert after == after - {x}; }
  }

  lemma FilesInBecomes(d: Dag, th: Threads, f: FileId, pc: FilePc, lo: nat, hi: nat)
    requires Moves(d, th, f, pc)
    ensures |FilesIn(SetFile(th, f, pc), lo, hi)| == |FilesIn(th, lo, hi)|
      + (if lo <= FileRank(pc) <= hi then 1 else 0) - (if lo <= FileRank(th.filePc[f]) <= hi then 1 else 0)
  {
    hide FileRank;
    assert FilesIn(th, lo, hi) - {f} == FilesIn(SetFile(th, f, pc), lo, hi) - {f};
    OneChange(FilesIn(th, lo, hi), FilesIn(SetFile(th, f, pc), lo, hi), f);
  }

  lemma FileKeepsCounts(d: Dag, th: Threads, f: FileId, pc: FilePc, stats: Stats, stats': Stats, closed: nat, progress: map<Uri, nat>)
    requires Moves(d, th, f, pc) && CountInv(d, th, stats, closed, progress)
    requires FileRank(pc) <= FileRank(th.filePc[f]) + 2 && (FileRank(pc) > FileRank(th.filePc[f]) + 1 ==> FileRank(pc) > 7)
    requires stats' == Stats(stats.runningNodes + (if FileRank(pc) == 3 then 1 else 0) - (if FileRank(pc) == 5 then 1 else 0),
                             stats.doneNodes + (if FileRank(pc) == 6 then 1 else 0), stats.pendingNodes)
    ensures CountInv(d, SetFile(th, f, pc), stats', closed, progress)
  {
    FilesInBecomes(d, th, f, pc, 3, 4);
    FilesInBecomes(d, th, f, pc, 6, 10);
    hide FileRank;
    assert FileRank(pc) <= 10 by { RankBound(pc); }
  }

  lemma RankBound(pc: FilePc)
    ensures FileRank(pc) <= 10
  {
  }

  ghost predicate FileAdvances(c: Config, s: State, f: FileId, pc: FilePc, s': State) {
    && Moves(c.dag, s.th, f, pc) && FileRank(pc) == FileRank(s.th.filePc[f]) + 1
    && s'.th == SetFile(s.th, f, pc) && s'.mem == s.mem && s'.closed == s.closed
    && s'.sem == (if 2 <= FileRank(pc) <= 9 then s.sem + {FileToken(f)} else s.sem - {FileToken(f)})
    && s'.tasks == (if FileRank(pc) == 7 then s.tasks + [FileTask(c, f)] else s.tasks)
    && s'.stats == Stats(s.stats.runningNodes + (if FileRank(pc) == 3 then 1 else 0) - (if FileRank(pc) == 5 then 1 else 0),
                         s.stats.doneNodes + (if FileRank(pc) == 6 then 1 else 0), s.stats.pendingNodes)
    && s'.hist == s.hist.(calls := if FileRank(pc) == 4 then s.hist.calls + [FileCall(f)] else s.hist.calls)
  }

  lemma FileAdvanceKeepsInv(c: Config, s: State, f: FileId, pc: FilePc, s': State)
    requires Inv(c, s) && FileAdvances(c, s, f, pc, s') && FileRank(pc) != 8
    ensures Inv(c, s')
  {
    hide DispatchInv, OwnerInv, FileSlotsInv, ChildSlotsInv, TokenInv, CallInv, TaskInv, CountInv, WakeInv, MemoryShape;
    FileKeepsThreads(c.dag, s.th, f, pc, s.mem.dispatched, s.closed);
    FileKeepsOwner(c.dag, s.th, f, pc, s.mem.overviewDone, s.hist.owner, s.hist.progress);
    FileKeepsTokens(c.dag, s.th, f, pc, s.sem, s'.sem);
    FileKeepsSlots(c, s.th, f, pc, s.mem);
    FileKeepsPending(c.dag, s.th, f, pc, s.mem, s.mem);
    FileKeepsWake(c.dag, s.th, f, pc, s.mem, s.mem);
    FileKeepsCalls(c.dag, s.th, f, pc, s.hist.calls, s.hist.progress, s'.hist.calls);
    FileKeepsTasks(c, s.th, f, pc, s.tasks, s.hist.progress, s'.tasks);
    FileKeepsCounts(c.dag, s.th, f, pc, s.stats, s'.stats, s.closed, s.hist.progress);
  }

  // ---------------------------------------------------------------- delivery

  lemma DeliveredFacts(c: Config, m: Memory, f: FileId)
    requires Linked(c.dag) && MemoryShape(c.dag, m) && FileSlot(c, m, f, Recorded)
    requires forall x :: x in c.dag.nodes ==> PendingExact(m, x)
    ensures var m' := Delivered(c, m, f);
      && m.pending[f.dir] >= 1 && m'.pending == m.pending[f.dir := m.pending[f.dir] - 1]
      && MemoryShape(c.dag, m')
      && (forall x :: x in c.dag.nodes ==> PendingExact(m', x))
      && m'.childAbstracts == m.childAbstracts && m'.overviewDone == m.overviewDone && m'.dispatched == m.dispatched
  {
    EmptiesFill(m.fileSummaries[f.dir], f.idx, FileSummaryOf(c, f));
    var m' := Delivered(c, m, f);
    forall x | x in c.dag.nodes ensures HasNode(c.dag, m', x) && PendingExact(m', x) {
      assert HasNode(c.dag, m, x) && PendingExact(m, x);
    }
  }

  lemma DeliverKeepsFileSlots(c: Config, th: Threads, f: FileId, pc: FilePc, m: Memory)
    requires Moves(c.dag, th, f, pc) && FileSlotsInv(c, th, m) && th.filePc[f].Recorded? && FileRank(pc) >= 8
    requires FileDefined(c.dag, m, f) && MemoryShape(c.dag, Delivered(c, m, f))
    ensures FileSlotsInv(c, SetFile(th, f, pc), Delivered(c, m, f))
  {
  }

  lemma DeliverKeepsChildSlots(c: Config, m: Memory, m': Memory, progress: map<Uri, nat>)
    requires ChildSlotsInv(c, m, progress) && MemoryShape(c.dag, m') && m'.childAbstracts == m.childAbstracts
    ensures ChildSlotsInv(c, m', progress)
  {
  }

  /** The node memory after a delivery, seen by the goroutine that made it. */
  lemma DeliverKeepsMemory(c: Config, th: Threads, m: Memory, progress: map<Uri, nat>, f: FileId, pc: FilePc)
    requires Linked(c.dag) && MemoryShape(c.dag, m) && PendingInv(c.dag, th, m) && WakeInv(c.dag, th, m)
    requires FileSlotsInv(c, th, m) && ChildSlotsInv(c, m, progress)
    requires f in th.filePc && th.filePc[f].Recorded? && FileSlot(c, m, f, Recorded)
    requires pc == if Delivered(c, m, f).pending[f.dir] <= 0 then Completing(Enter(f.dir)) else Finishing
    ensures var m' := Delivered(c, m, f); var th' := SetFile(th, f, pc);
      && Moves(c.dag, th, f, pc)
      && MemoryShape(c.dag, m') && m'.overviewDone == m.overviewDone && m'.dispatched == m.dispatched
      && FileSlotsInv(c, th', m') && ChildSlotsInv(c, m', progress)
      && PendingInv(c.dag, th', m') && WakeInv(c.dag, th', m')
  {
    hide FileSlotsInv, ChildSlotsInv, WakeInv, MemoryShape;
    var m' := Delivered(c, m, f);
    DeliveredFacts(c, m, f);
    DeliverKeepsFileSlots(c, th, f, pc, m);
    DeliverKeepsChildSlots(c, m, m', progress);
    FileKeepsPending(c.dag, th, f, pc, m, m');
    FileKeepsWake(c.dag, th, f, pc, m, m');
  }

  lemma DeliverKeepsInv(c: Config, s: State, f: FileId, pc: FilePc, s': State)
    requires Inv(c, s) && f in s.th.filePc && s.th.filePc[f].Recorded? && FileSlot(c, s.mem, f, Recorded)
    requires pc == if Delivered(c, s.mem, f).pending[f.dir] <= 0 then Completing(Enter(f.dir)) else Finishing
    requires s' == s.(th := SetFile(s.th, f, pc), mem := Delivered(c, s.mem, f))
    ensures Inv(c, s')
  {
    hide DispatchInv, OwnerInv, FileSlotsInv, ChildSlotsInv, TokenInv, PendingInv, CallInv, TaskInv, CountInv, WakeInv, MemoryShape;
    hide FileSlot, Linked, ThreadShape;
    DeliverKeepsMemory(c, s.th, s.mem, s.hist.progress, f, pc);
    FileKeepsThreads(c.dag, s.th, f, pc, s.mem.dispatched, s.closed);
    FileKeepsOwner(c.dag, s.th, f, pc, s.mem.overviewDone, s.hist.owner, s.hist.progress);
    BusyToken(s.th, s.sem, f);
    FileKeepsTokens(c.dag, s.th, f, pc, s.sem, s.sem);
    FileKeepsCalls(c.dag, s.th, f, pc, s.hist.calls, s.hist.progress, s.hist.calls);
    FileKeepsTasks(c, s.th, f, pc, s.tasks, s.hist.progress, s.tasks);
    FileKeepsCounts(c.dag, s.th, f, pc, s.stats, s.stats, s.closed, s.hist.progress);
  }

  lemma BusyToken(th: Threads, sem: set<Token>, f: FileId)
    requires TokenInv(th, sem) && HoldsFileToken(th, f)
    ensures sem + {FileToken(f)} == sem
  {
  }

  lemma PlainStepAdvances(c: Config, s: State, f: FileId)
    requires FileDefined(c.dag, s.mem, f) && f in s.th.filePc && FileEnabled(c, s, s.th.filePc[f])
    requires !s.th.filePc[f].Recorded? && !s.th.filePc[f].Completing?
    requires FileToken(f) in s.sem <==> HoldsFileToken(s.th, f)
    ensures FileAdvances(c, s, f, FileStep(c, s, f).th.filePc[f], FileStep(c, s, f))
  {
  }

  lemma InvAtFile(c: Config, s: State, f: FileId)
    requires Inv(c, s) && f in s.th.filePc
    ensures Shape(c.dag, s) && FileSlot(c, s.mem, f, s.th.filePc[f])
    ensures FileToken(f) in s.sem <==> HoldsFileToken(s.th, f)
  {
  }

  lemma FileStepKeepsInv(c: Config, s: State, f: FileId)
    requires Inv(c, s) && Enabled(c, s, Worker(f))
    ensures Shape(c.dag, s) && Inv(c, Step(c, s, Worker(f)))
  {
    InvAtFile(c, s, f);
    hide Inv, Shape, CompletionStep;
    var pc := s.th.filePc[f];
    if pc.Completing? {
      CompletionKeepsInv(c, s, Worker(f), pc.c);
    } else if pc.Recorded? {
      DeliverKeepsInv(c, s, f, FileStep(c, s, f).th.filePc[f], FileStep(c, s, f));
    } else {
      PlainStepAdvances(c, s, f);
      FileAdvanceKeepsInv(c, s, f, FileStep(c, s, f).th.filePc[f], FileStep(c, s, f));
    }
  }
}
