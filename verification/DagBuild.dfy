/**
 `buildDAG` over a directory listing, and `Execute`: build the node maps, then let any
 enabled thread move until the dispatcher returns.
 */
module DagBuild {
  import opened Prelude
  import opened DagModel
  import opened DagInvariant
  import opened DagSteps
  import opened DagDispatchSteps
  import opened DagTheorems
  import opened DagProgress
  import opened DagDeadlock
  import opened DagTree
  import opened DagOutcome

  // ---------------------------------------------------------------- the executor object

  lemma MapAssoc<K, V>(a: map<K, V>, b: map<K, V>, c: map<K, V>)
    ensures (a + b) + c == a + (b + c)
  {
  }

  lemma AllSnoc(ts: seq<DirTree>, i: nat, parentUri: Uri)
    requires i < |ts| && ts[i].Listed?
    ensures NodesOfAll(ts[..i + 1]) == NodesOfAll(ts[..i]) + NodesOf(ts[i])
    ensures LinksOfAll(ts[..i + 1], parentUri) == LinksOfAll(ts[..i], parentUri) + LinksOf(ts[i], parentUri)
  {
    assert ts[..i + 1][..i] == ts[..i];
  }

  class SemanticDagExecutor {
    const recursive: bool
    const maxConcurrent: nat
    const contextType: string
    const summarize: Uri -> Summary
    var nodes: map<Uri, DirNode>
    var parent: map<Uri, Uri>
    var state: State

    constructor (contextType: string, recursive: bool, maxConcurrent: int, summarize: Uri -> Summary)
      ensures this.contextType == contextType && this.recursive == recursive && this.summarize == summarize
      ensures this.maxConcurrent == if maxConcurrent <= 0 then 10 else maxConcurrent
      ensures nodes == map[] && parent == map[]
    {
      this.contextType, this.recursive, this.summarize := contextType, recursive, summarize;
      this.maxConcurrent := if maxConcurrent <= 0 then 10 else maxConcurrent;
      nodes, parent := map[], map[];
      state := Initial(Dag("", map[], map[]), []);
    }

    /** The loops of `buildDAG` that filter the files of one directory and index its files and subdirectories. */
    static method BuildNode(files: seq<Uri>, dirs: seq<Uri>) returns (node: DirNode)
      ensures node == NodeOf(files, dirs)
    {
      var filtered: seq<Uri> := [];
      for i := 0 to |files|
        invariant filtered == Kept(files[..i])
      {
        assert files[..i + 1][..i] == files[..i];
        if Keeps(files[i]) { filtered := filtered + [files[i]]; }
      }
      assert files[..|files|] == files;
      var fileIndex := BuildIndex(filtered);
      var childIndex := BuildIndex(dirs);
      node := DirNode(filtered, fileIndex, dirs, childIndex);
    }

    static method BuildIndex(names: seq<Uri>) returns (index: map<Uri, nat>)
      ensures index == IndexOf(names)
    {
      index := map[];
      for i := 0 to |names|
        invariant index == IndexOf(names[..i])
      {
        assert names[..i + 1][..i] == names[..i];
        index := index[names[i] := i];
      }
      assert names[..|names|] == names;
    }

    /** The critical section of `buildDAG` that records one directory. */
    method Record(uri: Uri, node: DirNode, parentUri: Uri)
      modifies this`nodes, this`parent
      ensures nodes == old(nodes) + map[uri := node]
      ensures parent == old(parent) + if parentUri != "" then map[uri := parentUri] else map[]
    {
      nodes := nodes[uri := node];
      if parentUri != "" {
        parent := parent[uri := parentUri];
      }
    }

    /** `buildDAG`: false when a listing failed. */
    method BuildDag(t: DirTree, parentUri: Uri) returns (ok: bool)
      modifies this`nodes, this`parent
      ensures ok <==> Listable(Effective(t, recursive))
      ensures ok ==> nodes == old(nodes) + NodesOf(Effective(t, recursive))
      ensures ok ==> parent == old(parent) + LinksOf(Effective(t, recursive), parentUri)
      decreases t, 1
    {
      hide NodeOf, RootUris, NodesOf, LinksOf, Kept, IndexOf, Keeps;
      ok := false;
      if t.Listed? {
        ghost var e := Effective(t, recursive);
        assert e.Listed? && e.uri == t.uri && e.files == t.files && e.dirs == if recursive then t.dirs else [];
        var node := BuildNode(t.files, if recursive then RootUris(t.dirs) else []);
        Record(t.uri, node, parentUri);
        ok := true;
        if recursive {
          ok := BuildDags(t.dirs, t.uri);
        } else {
          assert RootUris(e.dirs) == [];
        }
        TreeMaps(e, node, parentUri);
        MapAssoc(old(nodes), map[t.uri := node], NodesOfAll(e.dirs));
        MapAssoc(old(parent), if parentUri != "" then map[t.uri := parentUri] else map[], LinksOfAll(e.dirs, t.uri));
      }
    }

    method BuildDags(ts: seq<DirTree>, parentUri: Uri) returns (ok: bool)
      requires recursive
      modifies this`nodes, this`parent
      ensures ok <==> forall i :: 0 <= i < |ts| ==> Listable(ts[i])
      ensures ok ==> nodes == old(nodes) + NodesOfAll(ts) && parent == old(parent) + LinksOfAll(ts, parentUri)
      decreases ts, 0
    {
      hide NodesOf, LinksOf, Listable;
      for i := 0 to |ts|
        invariant forall j :: 0 <= j < i ==> Listable(ts[j])
        invariant nodes == old(nodes) + NodesOfAll(ts[..i])
        invariant parent == old(parent) + LinksOfAll(ts[..i], parentUri)
      {
        ghost var n0, p0 := nodes, parent;
        var done := BuildDag(ts[i], parentUri);
        if !done {
          return false;
        }
        ListableIsListed(ts[i]);
        AllSnoc(ts, i, parentUri);
        MapAssoc(old(nodes), NodesOfAll(ts[..i]), NodesOf(ts[i]));
        MapAssoc(old(parent), LinksOfAll(ts[..i], parentUri), LinksOf(ts[i], parentUri));
      }
      assert ts[..|ts|] == ts;
      ok := true;
    }

    /**
     * `Execute`: build the graph, then let any enabled thread move, in whatever order, until the dispatcher returns. With
     * too few tokens for the tree it may come to a state in which no thread can move: there the program hangs.
     */
    method Execute(t: DirTree) returns (outcome: Outcome, ghost order: seq<Uri>)
      requires nodes == map[] && parent == map[]
      requires Listable(Effective(t, recursive)) ==> GoodTree(Effective(t, recursive))
      modifies this
      ensures outcome.NotListed? <==> exists d :: Visited(t, recursive, d) && d.Unlistable?
      ensures outcome.Finished? ==>
                && (forall n :: n in nodes <==> exists d :: Visited(t, recursive, d) && d.uri == n)
                && TasksTell(t, recursive, contextType, summarize, state.tasks)
                && (forall d :: Visited(t, recursive, d) ==> SlotsTell(d, recursive, summarize, state.mem))
                && CallsTell(t, recursive, state.mem.fileSummaries, state.hist.calls)
                && state.stats == Stats(0, |state.tasks|, 0) && state.closed == 1
      ensures !outcome.NotListed? ==>
                var c := Config(DagOf(Effective(t, recursive)), maxConcurrent, contextType, summarize);
                && DispatchOrder(c.dag, order) && Reachable(c, order, state)
                && (outcome.Finished? ==> state.th.dispatcher.Returned?)
                && (outcome.Hanging? ==> Stuck(c, state) && |Bottoms(c.dag)| >= maxConcurrent)
    {
      hide GoodTree, Listable, Effective, Bottoms, Initial, Runnable, NodesOf, LinksOf, Inv, Shape, Step,
           Enabled, Work, Budget, Grows, WellFormed, Reachable, Stuck, Visited, TasksTell, SlotsTell, CallsTell;
      order := [];
      ListedExactly(t, recursive);
      var ok := BuildDag(t, "");
      if !ok {
        return NotListed, order;
      }
      ListableListed(t, recursive);
      var c := Config(Dag(t.uri, nodes, parent), maxConcurrent, contextType, summarize);
      assert c.dag == DagOf(Effective(t, recursive));
      BuiltWellFormed(Effective(t, recursive));
      var some := SomeOrder(nodes.Keys);
      order := some;
      state := Initial(c.dag, some);
      ghost var schedule := [];
      StartsValid(c, some);
      while !state.th.dispatcher.Returned?
        invariant After(c, Initial(c.dag, some), schedule) == Some(state) && Inv(c, state)
        invariant nodes == c.dag.nodes && parent == c.dag.parent
        decreases Budget(c.dag, |some|) - Work(|some|, state)
      {
        ReachedBy(c, some, state, schedule);
        var runnable := Runnable(c, state);
        if runnable == {} {
          NobodyMoves(c, some, state);
          return Hanging, some;
        }
        var th :| th in runnable;
        StepTaken(c, some, state, schedule, th);
        state := Step(c, state, th);
        schedule := schedule + [th];
      }
      ReachedBy(c, some, state, schedule);
      EndsDelivered(t, recursive, c, some, state);
      outcome := Finished;
    }
  }

  datatype Outcome = NotListed | Finished | Hanging

  lemma ReachedBy(c: Config, order: seq<Uri>, s: State, schedule: seq<Thread>)
    requires After(c, Initial(c.dag, order), schedule) == Some(s)
    ensures Reachable(c, order, s)
  {
    hide Initial;
  }

  lemma StartsValid(c: Config, order: seq<Uri>)
    requires WellFormed(c.dag) && DispatchOrder(c.dag, order)
    ensures Inv(c, Initial(c.dag, order))
    ensures After(c, Initial(c.dag, order), []) == Some(Initial(c.dag, order))
  {
    hide Inv, Linked, DispatchOrder, Initial;
    InitialInv(c, order);
  }

  /** Without an enabled thread the executor hangs, and then the tokens were too few. */
  lemma NobodyMoves(c: Config, order: seq<Uri>, s: State)
    requires WellFormed(c.dag) && DispatchOrder(c.dag, order) && Reachable(c, order, s)
    requires !s.th.dispatcher.Returned? && Runnable(c, s) == {}
    ensures Stuck(c, s) && |Bottoms(c.dag)| >= c.maxConcurrent
  {
    hide Inv, Initial, WellFormed, DispatchOrder, Bottoms, Reachable, Runnable, Enabled;
    forall t ensures !Enabled(c, s, t) {
      assert t !in Runnable(c, s);
    }
    assert Stuck(c, s);
    hide Stuck;
    if |Bottoms(c.dag)| < c.maxConcurrent {
      NeverStuck(c, order, s);
    }
  }

  /** The threads that can move. */
  function Runnable(c: Config, s: State): (threads: set<Thread>)
    ensures forall t :: t in threads <==> Enabled(c, s, t)
  {
    (set f | f in s.th.filePc && Enabled(c, s, Worker(f)) :: Worker(f))
    + if Enabled(c, s, Dispatcher) then {Dispatcher} else {}
  }

  lemma ListableListed(t: DirTree, recursive: bool)
    requires Listable(Effective(t, recursive))
    ensures t.Listed? && Effective(t, recursive).Listed? && Effective(t, recursive).uri == t.uri
  {
  }

  lemma StepTaken(c: Config, order: seq<Uri>, s: State, schedule: seq<Thread>, t: Thread)
    requires Inv(c, s) && Enabled(c, s, t) && After(c, Initial(c.dag, order), schedule) == Some(s)
    ensures Shape(c.dag, s) && Inv(c, Step(c, s, t))
    ensures After(c, Initial(c.dag, order), schedule + [t]) == Some(Step(c, s, t))
    ensures Work(|order|, s) < Work(|order|, Step(c, s, t)) <= Budget(c.dag, |order|)
  {
    hide Inv, Initial, Shape, Step, Enabled, Grows, Work, Budget;
    StepKeepsInv(c, s, t);
    StepGrows(c, s, t);
    GrowsWork(|order|, s, Step(c, s, t));
    WorkBound(c, |order|, Step(c, s, t));
    AfterSnoc(c, Initial(c.dag, order), schedule, t);
  }

  lemma {:induction false} AfterSnoc(c: Config, s: State, schedule: seq<Thread>, t: Thread)
    requires After(c, s, schedule).Some? && Shape(c.dag, After(c, s, schedule).value) && Enabled(c, After(c, s, schedule).value, t)
    ensures After(c, s, schedule + [t]) == Some(Step(c, After(c, s, schedule).value, t))
    decreases |schedule|
  {
    hide Shape, Step, Enabled;
    if schedule == [] {
      assert schedule + [t] == [t];
    } else {
      assert (schedule + [t])[1..] == schedule[1..] + [t];
      AfterSnoc(c, Step(c, s, schedule[0]), schedule[1..], t);
    }
  }

  lemma EndsDelivered(t: DirTree, recursive: bool, c: Config, order: seq<Uri>, s: State)
    requires GoodTree(Effective(t, recursive)) && c.dag == DagOf(Effective(t, recursive))
    requires WellFormed(c.dag) && DispatchOrder(c.dag, order) && Reachable(c, order, s) && s.th.dispatcher.Returned?
    ensures forall n :: n in c.dag.nodes <==> exists d :: Visited(t, recursive, d) && d.uri == n
    ensures TasksTell(t, recursive, c.contextType, c.summarize, s.tasks)
    ensures forall d :: Visited(t, recursive, d) ==> SlotsTell(d, recursive, c.summarize, s.mem)
    ensures CallsTell(t, recursive, s.mem.fileSummaries, s.hist.calls)
    ensures s.stats == Stats(0, |s.tasks|, 0) && s.closed == 1
  {
    hide WellFormed, DispatchOrder, Reachable, FileReported, DirReported, CallsBottomUp, IsExpectedTask, DirectoryFilled,
         GoodTree, NodesOf, LinksOf, Visited, TasksTell, SlotsTell, CallsTell, Linked, Effective;
    AllReported(c, order, s);
    TasksDelivered(t, recursive, c, s.tasks);
    ReturnedComplete(c, order, s);
    AtMostOnce(c, order, s);
    CallsComeBottomUp(c, order, s);
    forall n | n in c.dag.nodes ensures DirCall(n) in s.hist.calls {
      DirCalled(c, s, n);
    }
    CallsDelivered(t, recursive, c, s.mem, s.hist.calls);
    forall n | n in c.dag.nodes ensures exists d :: Visited(t, recursive, d) && d.uri == n {
      var d := NodeVisited(t, recursive, n);
    }
    forall d | Visited(t, recursive, d) ensures d.uri in c.dag.nodes && SlotsTell(d, recursive, c.summarize, s.mem) {
      VisitedNode(t, recursive, d);
      SlotsDelivered(t, recursive, c, s.mem, d);
    }
  }

  lemma DirCalled(c: Config, s: State, n: Uri)
    requires n in c.dag.nodes && forall m :: m in c.dag.nodes ==> DirReported(c, s, m)
    ensures DirCall(n) in s.hist.calls
  {
    assert DirReported(c, s, n);
  }

  /** Go ranges over a map in an unspecified order. */
  method SomeOrder(keys: set<Uri>) returns (order: seq<Uri>)
    ensures Distinct(order) && forall n :: n in order <==> n in keys
  {
    order := [];
    var rest := keys;
    while rest != {}
      invariant rest <= keys && Distinct(order)
      invariant forall n :: n in order <==> n in keys && n !in rest
      decreases rest
    {
      var n :| n in rest;
      order, rest := order + [n], rest - {n};
    }
  }
}
