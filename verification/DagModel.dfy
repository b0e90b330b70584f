/**
 The semantic DAG executor as an interleaved step system: one thread that walks
 the directory nodes (`dispatchLeaves`), one goroutine per kept file, and a
 counting semaphore.  A step is one access to shared memory, one critical
 section, or one callback.
 */
module DagModel {
  import opened Prelude

  type Uri = string

  /** The immutable half of a `DirNode`: what `buildDAG` writes once. */
  datatype DirNode = DirNode(
    filePaths: seq<Uri>, fileIndex: map<Uri, nat>,
    childrenDirs: seq<Uri>, childIndex: map<Uri, nat>)

  /** The `nodes` and `parent` maps with the root URI. */
  datatype Dag = Dag(root: Uri, nodes: map<Uri, DirNode>, parent: map<Uri, Uri>)

  /** What the summarize callback returns for a URI. */
  datatype Summary = Summary(gist: string, overview: string)

  datatype Config = Config(dag: Dag, maxConcurrent: nat, contextType: string, summarize: Uri -> Summary)

  datatype FileSummary = FileSummary(name: string, gist: string, overview: string)
  datatype ChildAbstract = ChildAbstract(name: string, gist: string)
  datatype VectorizeTask = VectorizeTask(
    taskType: string, uri: Uri, contextType: string, gist: string, overview: string, parentUri: Uri)

  /** One kept file: its directory and its position in that directory's `FilePaths`. */
  datatype FileId = FileId(dir: Uri, idx: nat)

  datatype Thread = Dispatcher | Worker(file: FileId)

  /** A summarize call, recorded for the theorems only. */
  datatype Call = FileCall(file: FileId) | DirCall(dir: Uri)

  /** A semaphore token, labelled with who put it there; the code sees only how many there are. */
  datatype Token = FileToken(file: FileId) | DirToken(thread: Thread)

  /** Where a thread stands inside one activation of `onNodeComplete`. */
  datatype Stage =
    | AwaitToken | Summarizing | ReleaseToken | Record | CountDone | CountPending | Notify | CloseDone

  /** `Enter`: about to take the node's lock and read `OverviewDone`; `At`: past that guard. */
  datatype Completion = Enter(node: Uri) | At(node: Uri, stage: Stage)

  datatype FilePc =
    | NotStarted | Queued | TokenHeld | Started | Summarized | Stopped | Counted | Recorded
    | Completing(c: Completion) | Finishing | Exited

  datatype DispatcherPc =
    | Pick | Spawn(node: Uri, next: nat) | DispatchCompleting(c: Completion) | AwaitDone | Returned

  /** Where every thread stands; `todo` is what `dispatchLeaves` has still to range over. */
  datatype Threads = Threads(todo: seq<Uri>, dispatcher: DispatcherPc, filePc: map<FileId, FilePc>)

  /** The mutable half of every `DirNode`. */
  datatype Memory = Memory(
    pending: map<Uri, int>,
    fileSummaries: map<Uri, seq<Option<FileSummary>>>,
    childAbstracts: map<Uri, seq<Option<ChildAbstract>>>,
    overviewDone: set<Uri>,
    dispatched: set<Uri>)

  datatype Stats = Stats(runningNodes: int, doneNodes: int, pendingNodes: int)

  /** Recorded for the theorems; no step reads it.  `owner` is the thread that passed a node's guard and
      `progress` how far its activation has come: 0 before the guard, 9 after the return. */
  datatype History = History(calls: seq<Call>, owner: map<Uri, Thread>, progress: map<Uri, nat>)

  datatype State = State(
    th: Threads, mem: Memory, sem: set<Token>, tasks: seq<VectorizeTask>, stats: Stats, closed: nat, hist: History)

  // ---------------------------------------------------------------- graph

  ghost predicate IsFile(d: Dag, f: FileId) {
    f.dir in d.nodes && f.idx < |d.nodes[f.dir].filePaths|
  }

  function PathOf(d: Dag, f: FileId): Uri
    requires IsFile(d, f)
  {
    d.nodes[f.dir].filePaths[f.idx]
  }

  ghost predicate Indexed(names: seq<Uri>, index: map<Uri, nat>) {
    && (forall i :: 0 <= i < |names| ==> names[i] in index && index[names[i]] == i)
    && (forall u :: u in index ==> index[u] < |names| && names[index[u]] == u)
  }

  ghost predicate Linked(d: Dag) {
    && d.root in d.nodes
    && d.parent.Keys == d.nodes.Keys - {d.root}
    && (forall n :: n in d.nodes ==> Indexed(d.nodes[n].filePaths, d.nodes[n].fileIndex))
    && (forall n :: n in d.nodes ==> Indexed(d.nodes[n].childrenDirs, d.nodes[n].childIndex))
    && (forall n, c :: n in d.nodes && c in d.nodes[n].childIndex ==> c in d.parent && d.parent[c] == n)
    && (forall c :: c in d.parent ==> d.parent[c] in d.nodes && c in d.nodes[d.parent[c]].childIndex)
  }

  /** `height` grows towards the root: the links form a finite tree. */
  ghost predicate Ranked(d: Dag, height: map<Uri, nat>) {
    && height.Keys == d.nodes.Keys
    && (forall n :: n in d.parent && n in height && d.parent[n] in height ==> height[n] < height[d.parent[n]])
    && (d.root in height ==> forall n :: n in height ==> height[n] <= height[d.root])
  }

  ghost predicate WellFormed(d: Dag) {
    Linked(d) && exists height :: Ranked(d, height)
  }

  /** The part of a URI after its last '/', or all of it when nothing follows one. */
  function UriName(uri: Uri): (name: string) {
    var cut := AfterLastSlash(uri, |uri|);
    if cut == 0 || cut == |uri| then uri else uri[cut..]
  }

  /** One past the last '/' among the first `n` characters, 0 when there is none. */
  function AfterLastSlash(uri: Uri, n: nat): (cut: nat)
    requires n <= |uri|
    ensures cut <= n
    ensures cut > 0 ==> uri[cut - 1] == '/'
    ensures forall i :: cut <= i < n ==> uri[i] != '/'
  {
    if n == 0 then 0 else if uri[n - 1] == '/' then n else AfterLastSlash(uri, n - 1)
  }

  /** `name` is what follows the last slash of `uri`, or the whole of `uri` where that would be empty. */
  ghost predicate Names(uri: Uri, name: string) {
    || (name != "" && '/' !in name && (uri == name || exists front: string :: uri == front + "/" + name))
    || (uri == name && (name == "" || name[|name| - 1] == '/'))
  }

  lemma NamesItself(uri: Uri)
    ensures Names(uri, UriName(uri))
  {
    var cut := AfterLastSlash(uri, |uri|);
    if cut != 0 && cut != |uri| {
      assert uri == uri[..cut - 1] + "/" + uri[cut..];
    }
  }

  lemma NamesOnly(uri: Uri, name: string)
    requires Names(uri, name)
    ensures name == UriName(uri)
  {
    if uri != name {
      var front: string :| uri == front + "/" + name;
      assert uri[|front|] == '/' && uri[|front| + 1..] == name;
      assert AfterLastSlash(uri, |uri|) == |front| + 1;
    }
  }

  // ---------------------------------------------------------------- values written by the threads

  function FileSummaryOf(c: Config, f: FileId): FileSummary
    requires IsFile(c.dag, f)
  {
    var s := c.summarize(PathOf(c.dag, f));
    FileSummary(UriName(PathOf(c.dag, f)), s.gist, s.overview)
  }

  function ChildAbstractOf(c: Config, n: Uri): ChildAbstract {
    ChildAbstract(UriName(n), c.summarize(n).gist)
  }

  function FileTask(c: Config, f: FileId): VectorizeTask
    requires IsFile(c.dag, f)
  {
    var s := c.summarize(PathOf(c.dag, f));
    VectorizeTask("file", PathOf(c.dag, f), c.contextType, s.gist, s.overview, f.dir)
  }

  function DirTask(c: Config, n: Uri): VectorizeTask {
    var s := c.summarize(n);
    VectorizeTask("directory", n, c.contextType, s.gist, s.overview, "")
  }

  // ---------------------------------------------------------------- thread positions

  function CompletionOf(th: Threads, t: Thread): Option<Completion> {
    match t
    case Dispatcher => if th.dispatcher.DispatchCompleting? then Some(th.dispatcher.c) else None
    case Worker(f) => if f in th.filePc && th.filePc[f].Completing? then Some(th.filePc[f].c) else None
  }

  /** Moves a completing thread; `None` is the return from its outermost `onNodeComplete`. */
  function MoveTo(th: Threads, t: Thread, next: Option<Completion>): Threads {
    match t
    case Dispatcher => th.(dispatcher := if next.None? then Pick else DispatchCompleting(next.value))
    case Worker(f) => th.(filePc := th.filePc[f := if next.None? then Finishing else Completing(next.value)])
  }

  function StageRank(stage: Stage): nat {
    match stage
    case AwaitToken => 1 case Summarizing => 2 case ReleaseToken => 3 case Record => 4
    case CountDone => 5 case CountPending => 6 case Notify => 7 case CloseDone => 8
  }

  /** How far a file goroutine has come, 0 to 10. */
  function FileRank(pc: FilePc): nat {
    match pc
    case NotStarted => 0 case Queued => 1 case TokenHeld => 2 case Started => 3 case Summarized => 4
    case Stopped => 5 case Counted => 6 case Recorded => 7 case Completing(_) => 8 case Finishing => 9
    case Exited => 10
  }

  // ---------------------------------------------------------------- what each step needs to be defined

  predicate HasNode(d: Dag, m: Memory, n: Uri) {
    && n in d.nodes && n in m.pending && n in m.fileSummaries && n in m.childAbstracts
    && |m.fileSummaries[n]| == |d.nodes[n].filePaths|
    && |m.childAbstracts[n]| == |d.nodes[n].childrenDirs|
  }

  predicate CompletionDefined(d: Dag, m: Memory, n: Uri) {
    && HasNode(d, m, n)
    && (n in d.parent ==>
          var p := d.parent[n];
          HasNode(d, m, p) && n in d.nodes[p].childIndex && d.nodes[p].childIndex[n] < |d.nodes[p].childrenDirs|)
  }

  predicate FileDefined(d: Dag, m: Memory, f: FileId) {
    && HasNode(d, m, f.dir) && f.idx < |d.nodes[f.dir].filePaths|
    && var fp := d.nodes[f.dir].filePaths[f.idx];
       fp in d.nodes[f.dir].fileIndex && d.nodes[f.dir].fileIndex[fp] == f.idx
  }

  /** Map domains and the nodes that threads point at. */
  ghost predicate ThreadShape(d: Dag, th: Threads) {
    && (forall f :: f in th.filePc <==> IsFile(d, f))
    && (forall t :: CompletionOf(th, t).Some? ==> CompletionOf(th, t).value.node in d.nodes)
    && (th.dispatcher.Spawn? ==> th.dispatcher.node in d.nodes
                                 && th.dispatcher.next <= |d.nodes[th.dispatcher.node].filePaths|)
    && (forall i :: 0 <= i < |th.todo| ==> th.todo[i] in d.nodes)
  }

  ghost predicate MemoryShape(d: Dag, m: Memory) {
    forall n :: n in d.nodes ==> HasNode(d, m, n)
  }

  ghost predicate Shape(d: Dag, s: State) {
    && Linked(d) && ThreadShape(d, s.th) && MemoryShape(d, s.mem)
    && s.hist.progress.Keys == d.nodes.Keys
  }

  lemma ShapeDefines(d: Dag, s: State, n: Uri)
    requires Shape(d, s) && n in d.nodes
    ensures CompletionDefined(d, s.mem, n)
  {
    if n in d.parent {
      assert HasNode(d, s.mem, d.parent[n]);
    }
  }

  // ---------------------------------------------------------------- enabled threads

  predicate CompletionEnabled(c: Config, s: State, k: Completion) {
    k.At? && k.stage.AwaitToken? ==> |s.sem| < c.maxConcurrent
  }

  predicate FileEnabled(c: Config, s: State, pc: FilePc) {
    match pc
    case NotStarted => false
    case Exited => false
    case Queued => |s.sem| < c.maxConcurrent
    case Completing(k) => CompletionEnabled(c, s, k)
    case _ => true
  }

  predicate DispatcherEnabled(c: Config, s: State) {
    match s.th.dispatcher
    case DispatchCompleting(k) => CompletionEnabled(c, s, k)
    case AwaitDone => s.closed > 0
    case Returned => false
    case _ => true
  }

  predicate Enabled(c: Config, s: State, t: Thread) {
    match t
    case Dispatcher => DispatcherEnabled(c, s)
    case Worker(f) => f in s.th.filePc && FileEnabled(c, s, s.th.filePc[f])
  }

  // ---------------------------------------------------------------- steps

  /** The critical section in which a finished child reports to its parent. */
  function Reported(c: Config, m: Memory, n: Uri): Memory
    requires CompletionDefined(c.dag, m, n) && n in c.dag.parent
  {
    var p := c.dag.parent[n];
    var slots := m.childAbstracts[p][c.dag.nodes[p].childIndex[n] := Some(ChildAbstractOf(c, n))];
    m.(childAbstracts := m.childAbstracts[p := slots], pending := m.pending[p := m.pending[p] - 1])
  }

  /** One step of `onNodeComplete` by thread `t`.
      The parent's activation is the last thing a child's activation does: what follows it in the code,
      `if node.URI == d.rootURI`, is false for every node that has a parent, so the thread moves on to it. */
  function CompletionStep(c: Config, s: State, t: Thread, k: Completion): State
    requires CompletionDefined(c.dag, s.mem, k.node)
  {
    var n := k.node;
    match k
    case Enter(_) =>
      if n in s.mem.overviewDone then s.(th := MoveTo(s.th, t, None))
      else s.(th := MoveTo(s.th, t, Some(At(n, AwaitToken))),
              mem := s.mem.(overviewDone := s.mem.overviewDone + {n}),
              hist := s.hist.(owner := s.hist.owner[n := t], progress := s.hist.progress[n := 1]))
    case At(_, AwaitToken) =>
      Advance(s, t, n, Summarizing).(sem := s.sem + {DirToken(t)})
    case At(_, Summarizing) =>
      var s' := Advance(s, t, n, ReleaseToken);
      s'.(hist := s'.hist.(calls := s.hist.calls + [DirCall(n)]))
    case At(_, ReleaseToken) =>
      Advance(s, t, n, Record).(sem := s.sem - {DirToken(t)})
    case At(_, Record) =>
      Advance(s, t, n, CountDone).(tasks := s.tasks + [DirTask(c, n)])
    case At(_, CountDone) =>
      Advance(s, t, n, CountPending).(stats := s.stats.(doneNodes := s.stats.doneNodes + 1))
    case At(_, CountPending) =>
      Advance(s, t, n, Notify).(stats := s.stats.(pendingNodes := s.stats.pendingNodes - 1))
    case At(_, Notify) =>
      if n in c.dag.parent then
        var p := c.dag.parent[n];
        var mem := Reported(c, s.mem, n);
        s.(mem := mem, hist := s.hist.(progress := s.hist.progress[n := 9]),
           th := MoveTo(s.th, t, if mem.pending[p] <= 0 then Some(Enter(p)) else None))
      else if n == c.dag.root then Advance(s, t, n, CloseDone)
      else s.(hist := s.hist.(progress := s.hist.progress[n := 9]), th := MoveTo(s.th, t, None))
    case At(_, CloseDone) =>
      s.(closed := s.closed + 1, hist := s.hist.(progress := s.hist.progress[n := 9]), th := MoveTo(s.th, t, None))
  }

  /** Thread `t` goes on to `stage` of its activation for `n`. */
  function Advance(s: State, t: Thread, n: Uri, stage: Stage): State {
    s.(th := MoveTo(s.th, t, Some(At(n, stage))),
       hist := s.hist.(progress := s.hist.progress[n := StageRank(stage)]))
  }

  /** The critical section that ends a file goroutine's own work: fill the slot and decrement. */
  function Delivered(c: Config, m: Memory, f: FileId): Memory
    requires FileDefined(c.dag, m, f)
  {
    var slots := m.fileSummaries[f.dir][c.dag.nodes[f.dir].fileIndex[PathOf(c.dag, f)] := Some(FileSummaryOf(c, f))];
    m.(fileSummaries := m.fileSummaries[f.dir := slots], pending := m.pending[f.dir := m.pending[f.dir] - 1])
  }

  function SetPc(s: State, f: FileId, pc: FilePc): State {
    s.(th := s.th.(filePc := s.th.filePc[f := pc]))
  }

  function FileStep(c: Config, s: State, f: FileId): State
    requires FileDefined(c.dag, s.mem, f) && f in s.th.filePc && FileEnabled(c, s, s.th.filePc[f])
    requires s.th.filePc[f].Completing? ==> CompletionDefined(c.dag, s.mem, s.th.filePc[f].c.node)
  {
    match s.th.filePc[f]
    case Queued => SetPc(s, f, TokenHeld).(sem := s.sem + {FileToken(f)})
    case TokenHeld => SetPc(s, f, Started).(stats := s.stats.(runningNodes := s.stats.runningNodes + 1))
    case Started => SetPc(s, f, Summarized).(hist := s.hist.(calls := s.hist.calls + [FileCall(f)]))
    case Summarized => SetPc(s, f, Stopped).(stats := s.stats.(runningNodes := s.stats.runningNodes - 1))
    case Stopped => SetPc(s, f, Counted).(stats := s.stats.(doneNodes := s.stats.doneNodes + 1))
    case Counted => SetPc(s, f, Recorded).(tasks := s.tasks + [FileTask(c, f)])
    case Recorded =>
      var mem := Delivered(c, s.mem, f);
      SetPc(s, f, if mem.pending[f.dir] <= 0 then Completing(Enter(f.dir)) else Finishing).(mem := mem)
    case Completing(k) => CompletionStep(c, s, Worker(f), k)
    case Finishing => SetPc(s, f, Exited).(sem := s.sem - {FileToken(f)})
  }

  predicate DispatcherDefined(d: Dag, s: State) {
    match s.th.dispatcher
    case Spawn(n, _) => HasNode(d, s.mem, n)
    case DispatchCompleting(k) => CompletionDefined(d, s.mem, k.node)
    case _ => true
  }

  function DispatcherStep(c: Config, s: State): State
    requires DispatcherDefined(c.dag, s) && DispatcherEnabled(c, s)
  {
    var th := s.th;
    match th.dispatcher
    case Pick =>
      if th.todo == [] then s.(th := th.(dispatcher := AwaitDone))
      else if th.todo[0] in s.mem.dispatched then s.(th := th.(todo := th.todo[1..]))
      else s.(th := th.(todo := th.todo[1..], dispatcher := Spawn(th.todo[0], 0)),
              mem := s.mem.(dispatched := s.mem.dispatched + {th.todo[0]}))
    case Spawn(n, i) =>
      if i < |c.dag.nodes[n].filePaths| then
        s.(th := th.(filePc := th.filePc[FileId(n, i) := Queued], dispatcher := Spawn(n, i + 1)))
      else if |c.dag.nodes[n].filePaths| == 0 && s.mem.pending[n] <= 0 then
        s.(th := th.(dispatcher := DispatchCompleting(Enter(n))))
      else s.(th := th.(dispatcher := Pick))
    case DispatchCompleting(k) => CompletionStep(c, s, Dispatcher, k)
    case AwaitDone => s.(th := th.(dispatcher := Returned))
  }

  /** One step of thread `t`. */
  function Step(c: Config, s: State, t: Thread): State
    requires Shape(c.dag, s) && Enabled(c, s, t)
  {
    match t
    case Dispatcher =>
      assert CompletionOf(s.th, Dispatcher).Some? ==> CompletionOf(s.th, Dispatcher).value.node in c.dag.nodes;
      DispatcherStep(c, s)
    case Worker(f) =>
      assert CompletionOf(s.th, t).Some? ==> CompletionOf(s.th, t).value.node in c.dag.nodes;
      FileStep(c, s, f)
  }

  // ---------------------------------------------------------------- start

  ghost predicate DispatchOrder(d: Dag, order: seq<Uri>) {
    Distinct(order) && forall n :: n in order <==> n in d.nodes
  }

  /** The state in which `Execute` calls `dispatchLeaves`; `order` is the order in which it ranges over the nodes. */
  function Initial(d: Dag, order: seq<Uri>): State {
    State(
      Threads(order, Pick,
              map n, i | n in d.nodes && 0 <= i < |d.nodes[n].filePaths| :: FileId(n, i) := NotStarted),
      Memory(map n | n in d.nodes :: |d.nodes[n].filePaths| + |d.nodes[n].childrenDirs|,
             map n | n in d.nodes :: seq(|d.nodes[n].filePaths|, _ => None),
             map n | n in d.nodes :: seq(|d.nodes[n].childrenDirs|, _ => None),
             {}, {}),
      {}, [], Stats(0, 0, |d.nodes|), 0,
      History([], map[], map n | n in d.nodes :: 0))
  }
}
