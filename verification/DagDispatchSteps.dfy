/** The steps of `dispatchLeaves` and `dispatchNode` keep the invariant, and with that every step does. */
module DagDispatchSteps {
  import opened Prelude
  import opened DagModel
  import opened DagInvariant
  import opened DagSteps
  import opened DagFileSteps

  /** The dispatcher, outside `onNodeComplete`, moves on: it may start one goroutine and may enter a completion. */
  ghost predicate Dispatches(th: Threads, th': Threads) {
    && CompletionOf(th, Dispatcher) == None
    && (CompletionOf(th', Dispatcher).Some? ==> CompletionOf(th', Dispatcher).value.Enter?)
    && th'.filePc.Keys == th.filePc.Keys
    && (forall f :: f in th.filePc ==>
          th'.filePc[f] == th.filePc[f] || (th.filePc[f] == NotStarted && th'.filePc[f] == Queued))
  }

  lemma DispatchFacts(th: Threads, th': Threads)
    requires Dispatches(th, th')
    ensures forall t :: t != Dispatcher ==> CompletionOf(th', t) == CompletionOf(th, t)
    ensures forall t, n :: RunsAt(th', t, n) <==> RunsAt(th, t, n)
    ensures forall f :: f in th.filePc ==>
      FileRank(th'.filePc[f]) == FileRank(th.filePc[f]) || (FileRank(th.filePc[f]) == 0 && FileRank(th'.filePc[f]) == 1)
  {
  }

  lemma DispatchKeepsOwner(d: Dag, th: Threads, th': Threads, done: set<Uri>, owner: map<Uri, Thread>, progress: map<Uri, nat>)
    requires Dispatches(th, th') && OwnerInv(d, th, done, owner, progress)
    ensures OwnerInv(d, th', done, owner, progress)
  {
    DispatchFacts(th, th');
    forall t, n | RunsAt(th', t, n) ensures RunsProperly(d, th', owner, progress, t, n) {
      assert RunsAt(th, t, n) && RunsProperly(d, th, owner, progress, t, n);
    }
  }

  lemma DispatchKeepsTokens(th: Threads, th': Threads, sem: set<Token>)
    requires Dispatches(th, th') && TokenInv(th, sem)
    ensures TokenInv(th', sem)
  {
  }

  lemma DispatchKeepsSlots(c: Config, th: Threads, th': Threads, m: Memory, m': Memory)
    requires Dispatches(th, th') && FileSlotsInv(c, th, m)
    requires m' == m.(dispatched := m'.dispatched)
    ensures FileSlotsInv(c, th', m')
  {
  }

  lemma DispatchKeepsLogs(c: Config, th: Threads, th': Threads, calls: seq<Call>, tasks: seq<VectorizeTask>,
                          stats: Stats, closed: nat, progress: map<Uri, nat>)
    requires Dispatches(th, th')
    requires CallInv(th, calls, progress) && TaskInv(c, th, tasks, progress) && CountInv(c.dag, th, stats, closed, progress)
    ensures CallInv(th', calls, progress) && TaskInv(c, th', tasks, progress) && CountInv(c.dag, th', stats, closed, progress)
  {
    DispatchFacts(th, th');
    hide FileRank;
    assert FilesIn(th', 3, 4) == FilesIn(th, 3, 4);
    assert FilesIn(th', 6, 10) == FilesIn(th, 6, 10);
    hide FileTask, DirTask;
  }

  lemma DispatchKeepsPending(d: Dag, th: Threads, th': Threads, m: Memory, m': Memory)
    requires Dispatches(th, th') && PendingInv(d, th, m) && m' == m.(dispatched := m'.dispatched)
    requires forall n :: Waits(th', Dispatcher, n) ==> n in m.pending && m.pending[n] == 0
    ensures PendingInv(d, th', m')
  {
    DispatchFacts(th, th');
    forall n | n in d.nodes ensures PendingExact(m', n) {
      assert PendingExact(m, n);
    }
    forall t, n | Waits(th', t, n) ensures n in m.pending && m.pending[n] == 0 {
      if t != Dispatcher { assert Waits(th, t, n); }
    }
  }

  lemma DispatchKeepsWake(d: Dag, th: Threads, th': Threads, m: Memory, m': Memory)
    requires Dispatches(th, th') && WakeInv(d, th, m) && m' == m.(dispatched := m'.dispatched)
    requires forall n :: Unvisited(d, th, n) && n in m.pending && m.pending[n] == 0 ==>
      Unvisited(d, th', n) || Waits(th', Dispatcher, n)
    ensures WakeInv(d, th', m')
  {
    DispatchFacts(th, th');
    forall n | n in d.nodes && n in m.pending && m.pending[n] == 0 && n !in m.overviewDone
      ensures SomeoneWaits(th', n) || Unvisited(d, th', n)
    {
      if SomeoneWaits(th, n) {
        var t :| Waits(th, t, n);
        assert Waits(th', t, n);
      } else {
        assert Unvisited(d, th, n);
      }
    }
  }

  /** Everything a dispatching step must get right, given that it touches only threads and `dispatched`. */
  lemma DispatchKeepsInv(c: Config, s: State, s': State)
    requires Inv(c, s) && Dispatches(s.th, s'.th)
    requires s' == s.(th := s'.th, mem := s.mem.(dispatched := s'.mem.dispatched))
    requires ThreadShape(c.dag, s'.th) && DispatchInv(c.dag, s'.th, s'.mem.dispatched, s.closed)
    requires forall n :: Waits(s'.th, Dispatcher, n) ==> n in s.mem.pending && s.mem.pending[n] == 0
    requires forall n :: Unvisited(c.dag, s.th, n) && n in s.mem.pending && s.mem.pending[n] == 0 ==>
      Unvisited(c.dag, s'.th, n) || Waits(s'.th, Dispatcher, n)
    ensures Inv(c, s')
  {
    DispatchedShape(c, s.mem, s'.mem, s.hist.progress);
    hide DispatchInv, OwnerInv, FileSlotsInv, ChildSlotsInv, TokenInv, PendingInv, CallInv, TaskInv, CountInv, WakeInv;
    hide MemoryShape, ThreadShape, Linked, Dispatches, Unvisited;
    DispatchKeepsOwner(c.dag, s.th, s'.th, s.mem.overviewDone, s.hist.owner, s.hist.progress);
    DispatchKeepsTokens(s.th, s'.th, s.sem);
    DispatchKeepsSlots(c, s.th, s'.th, s.mem, s'.mem);
    DispatchKeepsLogs(c, s.th, s'.th, s.hist.calls, s.tasks, s.stats, s.closed, s.hist.progress);
    DispatchKeepsPending(c.dag, s.th, s'.th, s.mem, s'.mem);
    DispatchKeepsWake(c.dag, s.th, s'.th, s.mem, s'.mem);
  }

  lemma DispatchedShape(c: Config, m: Memory, m': Memory, progress: map<Uri, nat>)
    requires MemoryShape(c.dag, m) && ChildSlotsInv(c, m, progress) && m' == m.(dispatched := m'.dispatched)
    ensures MemoryShape(c.dag, m') && ChildSlotsInv(c, m', progress)
  {
  }

  lemma InvThreads(c: Config, s: State)
    requires Inv(c, s)
    ensures Shape(c.dag, s) && DispatchInv(c.dag, s.th, s.mem.dispatched, s.closed)
    ensures forall n :: n in c.dag.nodes ==> PendingExact(s.mem, n)
  {
  }

  /** What `dispatchLeaves` does between two looks at the node map. */
  ghost predicate PicksNext(th: Threads, dispatched: set<Uri>, th': Threads, dispatched': set<Uri>) {
    && th.dispatcher.Pick?
    && if th.todo == [] then th' == th.(dispatcher := AwaitDone) && dispatched' == dispatched
       else th' == th.(todo := th.todo[1..], dispatcher := Spawn(th.todo[0], 0))
            && dispatched' == dispatched + {th.todo[0]}
  }

  lemma PickKeepsThreads(d: Dag, th: Threads, dispatched: set<Uri>, closed: nat, th': Threads, dispatched': set<Uri>)
    requires ThreadShape(d, th) && DispatchInv(d, th, dispatched, closed) && PicksNext(th, dispatched, th', dispatched')
    ensures Dispatches(th, th') && ThreadShape(d, th') && DispatchInv(d, th', dispatched', closed)
    ensures forall n :: Unvisited(d, th, n) ==> Unvisited(d, th', n)
  {
    if th.todo != [] {
      assert forall x :: x in th.todo <==> x == th.todo[0] || x in th'.todo;
    }
    forall f | f in th'.filePc ensures th'.filePc[f].NotStarted? <==> Unspawned(th', f) {
      assert th.filePc[f].NotStarted? <==> Unspawned(th, f);
    }
    forall t | CompletionOf(th', t).Some? ensures CompletionOf(th', t).value.node in d.nodes {
      assert CompletionOf(th', t) == CompletionOf(th, t);
    }
  }

  /** A directory reaches the dispatcher once only: its `Dispatched` flag is still unset. */
  lemma NotYetDispatched(d: Dag, th: Threads, dispatched: set<Uri>, closed: nat)
    requires DispatchInv(d, th, dispatched, closed) && th.todo != []
    ensures th.todo[0] !in dispatched
  {
  }

  /** What `dispatchNode` does between two files. */
  ghost predicate SpawnsNext(d: Dag, th: Threads, m: Memory, th': Threads) {
    && th.dispatcher.Spawn?
    && var n := th.dispatcher.node;
       var i := th.dispatcher.next;
       n in d.nodes && n in m.pending &&
       if i < |d.nodes[n].filePaths| then
         th' == th.(filePc := th.filePc[FileId(n, i) := Queued], dispatcher := Spawn(n, i + 1))
       else if |d.nodes[n].filePaths| == 0 && m.pending[n] <= 0 then th' == th.(dispatcher := DispatchCompleting(Enter(n)))
       else th' == th.(dispatcher := Pick)
  }

  lemma SpawnKeepsThreads(d: Dag, th: Threads, m: Memory, dispatched: set<Uri>, closed: nat, th': Threads)
    requires ThreadShape(d, th) && DispatchInv(d, th, dispatched, closed)
    requires SpawnsNext(d, th, m, th') && PendingExact(m, th.dispatcher.node)
    ensures Dispatches(th, th') && ThreadShape(d, th') && DispatchInv(d, th', dispatched, closed)
    ensures forall n :: Waits(th', Dispatcher, n) ==> n in m.pending && m.pending[n] == 0
    ensures forall n :: Unvisited(d, th, n) && n in m.pending && m.pending[n] == 0 ==>
      Unvisited(d, th', n) || Waits(th', Dispatcher, n)
  {
    var n, i := th.dispatcher.node, th.dispatcher.next;
    if i < |d.nodes[n].filePaths| {
      assert th.filePc[FileId(n, i)].NotStarted? <==> Unspawned(th, FileId(n, i));
    }
    forall f | f in th'.filePc ensures th'.filePc[f].NotStarted? <==> Unspawned(th', f) {
      assert th.filePc[f].NotStarted? <==> Unspawned(th, f);
    }
    forall t | CompletionOf(th', t).Some? ensures CompletionOf(th', t).value.node in d.nodes {
      if t.Worker? { assert CompletionOf(th', t) == CompletionOf(th, t); }
    }
  }

  /** The three ways in which the dispatcher moves outside `onNodeComplete`. */
  lemma DispatcherMoves(c: Config, s: State)
    requires DispatcherDefined(c.dag, s) && DispatcherEnabled(c, s) && !s.th.dispatcher.DispatchCompleting?
    requires s.th.todo != [] ==> s.th.todo[0] !in s.mem.dispatched
    ensures var s' := DispatcherStep(c, s);
      && s' == s.(th := s'.th, mem := s.mem.(dispatched := s'.mem.dispatched))
      && (s.th.dispatcher.Pick? ==> PicksNext(s.th, s.mem.dispatched, s'.th, s'.mem.dispatched))
      && (s.th.dispatcher.Spawn? ==> SpawnsNext(c.dag, s.th, s.mem, s'.th) && s'.mem == s.mem)
      && (s.th.dispatcher.AwaitDone? ==> s.closed > 0 && s'.th == s.th.(dispatcher := Returned) && s'.mem == s.mem)
  {
  }

  lemma PickKeepsInv(c: Config, s: State, s': State)
    requires Inv(c, s) && s' == s.(th := s'.th, mem := s.mem.(dispatched := s'.mem.dispatched))
    requires PicksNext(s.th, s.mem.dispatched, s'.th, s'.mem.dispatched)
    ensures Inv(c, s')
  {
    InvThreads(c, s);
    hide Inv, Linked, MemoryShape, ThreadShape, DispatchInv, Unvisited, Dispatches;
    PickKeepsThreads(c.dag, s.th, s.mem.dispatched, s.closed, s'.th, s'.mem.dispatched);
    DispatchKeepsInv(c, s, s');
  }

  lemma SpawnKeepsInv(c: Config, s: State, s': State)
    requires Inv(c, s) && s' == s.(th := s'.th, mem := s.mem.(dispatched := s'.mem.dispatched))
    requires SpawnsNext(c.dag, s.th, s.mem, s'.th) && s'.mem == s.mem
    ensures Inv(c, s')
  {
    InvThreads(c, s);
    hide Inv, Linked, MemoryShape, ThreadShape, DispatchInv, Unvisited, Dispatches;
    assert PendingExact(s.mem, s.th.dispatcher.node);
    hide SpawnsNext;
    SpawnKeepsThreads(c.dag, s.th, s.mem, s.mem.dispatched, s.closed, s'.th);
    DispatchKeepsInv(c, s, s');
  }

  lemma ReturnKeepsInv(c: Config, s: State, s': State)
    requires Inv(c, s) && s' == s.(th := s'.th, mem := s.mem.(dispatched := s'.mem.dispatched))
    requires s.th.dispatcher.AwaitDone? && s.closed > 0 && s'.th == s.th.(dispatcher := Returned) && s'.mem == s.mem
    ensures Inv(c, s')
  {
    InvThreads(c, s);
    hide Inv, Linked, MemoryShape, ThreadShape, DispatchInv, Unvisited, Dispatches;
    ReturnKeepsThreads(c.dag, s.th, s.mem.dispatched, s.closed);
    DispatchKeepsInv(c, s, s');
  }

  lemma DispatcherStepKeepsInv(c: Config, s: State)
    requires Inv(c, s) && Enabled(c, s, Dispatcher)
    ensures Shape(c.dag, s) && Inv(c, Step(c, s, Dispatcher))
  {
    InvThreads(c, s);
    if s.th.todo != [] { NotYetDispatched(c.dag, s.th, s.mem.dispatched, s.closed); }
    assert DispatcherDefined(c.dag, s) by { StepDefined(c, s); }
    hide Inv, CompletionStep, Linked, MemoryShape, ThreadShape, DispatchInv, Unvisited, PendingExact, PicksNext, SpawnsNext;
    if s.th.dispatcher.DispatchCompleting? {
      CompletionKeepsInv(c, s, Dispatcher, s.th.dispatcher.c);
    } else {
      DispatcherMoves(c, s);
      var s' := DispatcherStep(c, s);
      if s.th.dispatcher.Pick? { PickKeepsInv(c, s, s'); }
      else if s.th.dispatcher.Spawn? { SpawnKeepsInv(c, s, s'); }
      else { ReturnKeepsInv(c, s, s'); }
    }
  }

  lemma StepDefined(c: Config, s: State)
    requires Shape(c.dag, s)
    ensures DispatcherDefined(c.dag, s)
  {
    if s.th.dispatcher.DispatchCompleting? {
      assert CompletionOf(s.th, Dispatcher).Some?;
      ShapeDefines(c.dag, s, s.th.dispatcher.c.node);
    }
  }

  lemma ReturnKeepsThreads(d: Dag, th: Threads, dispatched: set<Uri>, closed: nat)
    requires ThreadShape(d, th) && DispatchInv(d, th, dispatched, closed) && th.dispatcher.AwaitDone? && closed > 0
    ensures var th' := th.(dispatcher := Returned);
      && Dispatches(th, th') && ThreadShape(d, th') && DispatchInv(d, th', dispatched, closed)
      && forall n :: Unvisited(d, th, n) ==> Unvisited(d, th', n)
  {
    var th' := th.(dispatcher := Returned);
    forall f | f in th'.filePc ensures th'.filePc[f].NotStarted? <==> Unspawned(th', f) {
      assert th.filePc[f].NotStarted? <==> Unspawned(th, f);
    }
    forall t | CompletionOf(th', t).Some? ensures CompletionOf(th', t).value.node in d.nodes {
      assert CompletionOf(th', t) == CompletionOf(th, t);
    }
  }

  /** Every step of every thread keeps the invariant. */
  lemma StepKeepsInv(c: Config, s: State, t: Thread)
    requires Inv(c, s) && Enabled(c, s, t)
    ensures Shape(c.dag, s) && Inv(c, Step(c, s, t))
  {
    hide Inv, Step;
    match t
    case Dispatcher => DispatcherStepKeepsInv(c, s);
    case Worker(f) => FileStepKeepsInv(c, s, f);
  }
}
