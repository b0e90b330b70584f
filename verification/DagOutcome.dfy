/**
 What a finished `Execute` has done to the listing it was given, told without the
 graph: which tasks are collected, what stands in every slot, and the final counters.
 */
module DagOutcome {
  import opened Prelude
  import opened DagModel
  import opened DagInvariant
  import opened DagTheorems
  import opened DagProgress
  import opened DagTree

  // ---------------------------------------------------------------- kept files

  /** A file that is neither the message log of a session nor hidden. */
  ghost predicate IsKept(file: Uri) {
    exists name :: Names(file, name) && name != "messages.jsonl" && (name == "" || name[0] != '.')
  }

  lemma KeptExactly(file: Uri)
    ensures IsKept(file) <==> Keeps(file)
  {
    NamesItself(file);
    if IsKept(file) {
      var name :| Names(file, name) && name != "messages.jsonl" && (name == "" || name[0] != '.');
      NamesOnly(file, name);
    }
  }

  /** The positions of the kept files, in order. */
  ghost predicate KeptAt(files: seq<Uri>, at: seq<nat>) {
    && (forall j, k :: 0 <= j < k < |at| ==> at[j] < at[k])
    && (forall j :: 0 <= j < |at| ==> at[j] < |files|)
    && (forall i :: 0 <= i < |files| ==> (i in at <==> IsKept(files[i])))
  }

  lemma KeptAtOneMore(files: seq<Uri>, last: nat, front: seq<nat>)
    requires |files| == last + 1 && KeptAt(files[..last], front)
    ensures KeptAt(files, if IsKept(files[last]) then front + [last] else front)
  {
    hide IsKept;
    var at := if IsKept(files[last]) then front + [last] else front;
    forall i | 0 <= i < |files| ensures i in at <==> IsKept(files[i]) {
      if i < last { assert files[..last][i] == files[i]; }
    }
  }

  lemma KeptOneMore(files: seq<Uri>, last: nat)
    requires |files| == last + 1
    ensures Kept(files) == if IsKept(files[last]) then Kept(files[..last]) + [files[last]] else Kept(files[..last])
  {
    hide IsKept, Keeps;
    KeptExactly(files[last]);
  }

  lemma {:induction false} KeptInOrder(files: seq<Uri>) returns (at: seq<nat>)
    ensures KeptAt(files, at) && |at| == |Kept(files)|
    ensures forall k :: 0 <= k < |at| ==> at[k] < |files| && files[at[k]] == Kept(files)[k]
  {
    if files == [] {
      at := [];
    } else {
      hide IsKept, Keeps, Kept, KeptAt;
      var last := |files| - 1;
      var front := KeptInOrder(files[..last]);
      KeptAtOneMore(files, last, front);
      KeptOneMore(files, last);
      SamePlaces(files, last, front, Kept(files[..last]));
      at := if IsKept(files[last]) then front + [last] else front;
    }
  }

  lemma SamePlaces(files: seq<Uri>, last: nat, front: seq<nat>, kept: seq<Uri>)
    requires |files| == last + 1 && KeptAt(files[..last], front) && |front| == |kept|
    requires forall k :: 0 <= k < |front| ==> files[..last][front[k]] == kept[k]
    ensures forall k :: 0 <= k < |front| ==> front[k] < last && files[front[k]] == kept[k]
    ensures forall k :: 0 <= k < |front + [last]| ==> files[(front + [last])[k]] == (kept + [files[last]])[k]
  {
    hide IsKept;
  }

  // ---------------------------------------------------------------- the directories that are visited

  /** `d` is the listing `t` or, at any depth, one below it. */
  ghost predicate Within(d: DirTree, t: DirTree) {
    d == t || (t.Listed? && exists i :: 0 <= i < |t.dirs| && Within(d, t.dirs[i]))
  }

  /** Without `recursive` only the root is looked at. */
  ghost predicate Visited(t: DirTree, recursive: bool, d: DirTree) {
    d == t || (recursive && Within(d, t))
  }

  lemma {:induction false} ListableExactly(t: DirTree)
    ensures Listable(t) <==> forall d :: Within(d, t) ==> d.Listed?
  {
    if t.Listed? {
      forall i | 0 <= i < |t.dirs| ensures Listable(t.dirs[i]) <==> forall d :: Within(d, t.dirs[i]) ==> d.Listed? {
        ListableExactly(t.dirs[i]);
      }
      if Listable(t) {
        forall d | Within(d, t) ensures d.Listed? {
          if d != t {
            var i :| 0 <= i < |t.dirs| && Within(d, t.dirs[i]);
            assert Listable(t.dirs[i]);
          }
        }
      } else {
        var i :| 0 <= i < |t.dirs| && !Listable(t.dirs[i]);
        var d :| Within(d, t.dirs[i]) && !d.Listed?;
        assert Within(d, t);
      }
    } else {
      assert Within(t, t);
    }
  }

  lemma ListedExactly(t: DirTree, recursive: bool)
    ensures Listable(Effective(t, recursive)) <==> forall d :: Visited(t, recursive, d) ==> d.Listed?
  {
    ListableExactly(t);
    assert Visited(t, recursive, t);
  }

  /** The listing whose subdirectories are followed: `d` itself when recursive, `d` without them otherwise. */
  lemma VisitedWithin(t: DirTree, recursive: bool, d: DirTree)
    requires Visited(t, recursive, d)
    ensures Within(Effective(d, recursive), Effective(t, recursive))
  {
  }

  // ---------------------------------------------------------------- their nodes

  lemma {:induction false} GoodAt(ts: seq<DirTree>, i: nat)
    requires GoodForest(ts) && i < |ts|
    ensures GoodTree(ts[i])
    ensures forall n :: n in NodesOf(ts[i]) ==> n in NodesOfAll(ts) && NodesOfAll(ts)[n] == NodesOf(ts[i])[n]
    decreases |ts|
  {
    hide NodesOf;
    var last := |ts| - 1;
    ForestParts(ts);
    if i < last {
      GoodAt(ts[..last], i);
      assert ts[..last][i] == ts[i];
    }
  }

  lemma {:induction false} NodeWithin(d: DirTree, t: DirTree)
    requires GoodTree(t) && Within(d, t)
    ensures d.Listed? && d.uri in NodesOf(t) && NodesOf(t)[d.uri] == NodeOf(d.files, RootUris(d.dirs))
    decreases t
  {
    hide NodeOf, RootUris;
    if d != t {
      var i :| 0 <= i < |t.dirs| && Within(d, t.dirs[i]);
      GoodAt(t.dirs, i);
      NodeWithin(d, t.dirs[i]);
    } else {
      TreeMaps(t, NodeOf(t.files, RootUris(t.dirs)), "");
    }
  }

  lemma {:induction false} NodeIsWithin(n: Uri, t: DirTree) returns (d: DirTree)
    requires GoodTree(t) && n in NodesOf(t)
    ensures Within(d, t) && d.uri == n
    decreases t, 0
  {
    if n == t.uri {
      d := t;
    } else {
      var i: nat;
      i, d := NodeIsInside(n, t.dirs);
      assert Within(d, t);
    }
  }

  lemma {:induction false} NodeIsInside(n: Uri, ts: seq<DirTree>) returns (i: nat, d: DirTree)
    requires GoodForest(ts) && n in NodesOfAll(ts)
    ensures i < |ts| && Within(d, ts[i]) && d.uri == n
    decreases ts
  {
    ForestParts(ts);
    var last := |ts| - 1;
    if n in NodesOf(ts[last]) {
      i := last;
      d := NodeIsWithin(n, ts[last]);
    } else {
      i, d := NodeIsInside(n, ts[..last]);
      assert ts[..last][i] == ts[i];
    }
  }

  lemma VisitedNode(t: DirTree, recursive: bool, d: DirTree)
    requires GoodTree(Effective(t, recursive)) && Visited(t, recursive, d)
    ensures d.Listed? && d.uri in NodesOf(Effective(t, recursive))
    ensures NodesOf(Effective(t, recursive))[d.uri] == NodeOf(d.files, RootUris(if recursive then d.dirs else []))
  {
    hide NodeOf, RootUris, NodesOf, GoodTree;
    VisitedWithin(t, recursive, d);
    NodeWithin(Effective(d, recursive), Effective(t, recursive));
    hide Visited, Within;
  }

  lemma NodeVisited(t: DirTree, recursive: bool, n: Uri) returns (d: DirTree)
    requires GoodTree(Effective(t, recursive)) && n in NodesOf(Effective(t, recursive))
    ensures Visited(t, recursive, d) && d.uri == n
  {
    hide NodesOf, GoodTree;
    d := NodeIsWithin(n, Effective(t, recursive));
    if !recursive {
      d := t;
    }
  }

  // ---------------------------------------------------------------- what Execute leaves behind

  /** One task per kept file and one per directory, no others, with the texts that `summarize` gave for the URI. */
  ghost predicate TasksTell(t: DirTree, recursive: bool, contextType: string, summarize: Uri -> Summary, tasks: seq<VectorizeTask>) {
    && Distinct(tasks)
    && forall task :: task in tasks <==>
         || (exists d, file :: Visited(t, recursive, d) && d.Listed? && file in d.files && IsKept(file)
               && task == VectorizeTask("file", file, contextType, summarize(file).gist, summarize(file).overview, d.uri))
         || (exists d :: Visited(t, recursive, d)
               && task == VectorizeTask("directory", d.uri, contextType, summarize(d.uri).gist, summarize(d.uri).overview, ""))
  }

  /** The slots of one directory: its kept files in order and, when they were visited, its subdirectories in order. */
  ghost predicate SlotsTell(d: DirTree, recursive: bool, summarize: Uri -> Summary, m: Memory) {
    && d.Listed? && d.uri in m.fileSummaries && d.uri in m.childAbstracts
    && (exists at :: KeptAt(d.files, at) && |m.fileSummaries[d.uri]| == |at|
          && forall k :: 0 <= k < |at| ==> FileTold(summarize, d.files[at[k]], m.fileSummaries[d.uri][k]))
    && |m.childAbstracts[d.uri]| == (if recursive then |d.dirs| else 0)
    && (forall i :: 0 <= i < |m.childAbstracts[d.uri]| ==> ChildTold(summarize, d.dirs[i].uri, m.childAbstracts[d.uri][i]))
  }

  /** Every directory is summarized once, after all the files in its slots and all its visited subdirectories. */
  ghost predicate CallsTell(t: DirTree, recursive: bool, fileSummaries: map<Uri, seq<Option<FileSummary>>>, calls: seq<Call>) {
    && Distinct(calls)
    && (forall d :: Visited(t, recursive, d) ==> DirCall(d.uri) in calls)
    && (forall d, j :: Visited(t, recursive, d) && d.Listed? && 0 <= j < |calls| && calls[j] == DirCall(d.uri) ==>
          && d.uri in fileSummaries
          && (forall k :: 0 <= k < |fileSummaries[d.uri]| ==> FileCall(FileId(d.uri, k)) in calls[..j])
          && (recursive ==> forall i :: 0 <= i < |d.dirs| ==> DirCall(d.dirs[i].uri) in calls[..j]))
  }

  lemma TasksDelivered(t: DirTree, recursive: bool, c: Config, tasks: seq<VectorizeTask>)
    requires GoodTree(Effective(t, recursive)) && c.dag == DagOf(Effective(t, recursive))
    requires Distinct(tasks) && forall task :: task in tasks <==> IsExpectedTask(c, task)
    ensures TasksTell(t, recursive, c.contextType, c.summarize, tasks)
  {
    hide GoodTree, NodesOf, IsKept, Keeps, Visited, RootUris, Kept, IndexOf;
    forall d, file | Visited(t, recursive, d) && d.Listed? && file in d.files && IsKept(file)
      ensures VectorizeTask("file", file, c.contextType, c.summarize(file).gist, c.summarize(file).overview, d.uri) in tasks
    {
      KeptExactly(file);
      VisitedNode(t, recursive, d);
      var i :| 0 <= i < |Kept(d.files)| && Kept(d.files)[i] == file;
      assert IsFile(c.dag, FileId(d.uri, i)) && IsExpectedTask(c, FileTask(c, FileId(d.uri, i)));
    }
    forall d | Visited(t, recursive, d)
      ensures VectorizeTask("directory", d.uri, c.contextType, c.summarize(d.uri).gist, c.summarize(d.uri).overview, "") in tasks
    {
      VisitedNode(t, recursive, d);
      assert IsExpectedTask(c, DirTask(c, d.uri));
    }
    forall task | task in tasks
      ensures (exists d, file :: Visited(t, recursive, d) && d.Listed? && file in d.files && IsKept(file)
                 && task == VectorizeTask("file", file, c.contextType, c.summarize(file).gist, c.summarize(file).overview, d.uri))
           || (exists d :: Visited(t, recursive, d)
                 && task == VectorizeTask("directory", d.uri, c.contextType, c.summarize(d.uri).gist, c.summarize(d.uri).overview, ""))
    {
      assert IsExpectedTask(c, task);
      if f :| IsFile(c.dag, f) && task == FileTask(c, f) {
        var d := NodeVisited(t, recursive, f.dir);
        VisitedNode(t, recursive, d);
        KeptExactly(PathOf(c.dag, f));
        assert PathOf(c.dag, f) in Kept(d.files);
      } else {
        var n :| n in c.dag.nodes && task == DirTask(c, n);
        var d := NodeVisited(t, recursive, n);
      }
    }
  }

  lemma SlotsDelivered(t: DirTree, recursive: bool, c: Config, m: Memory, d: DirTree)
    requires GoodTree(Effective(t, recursive)) && c.dag == DagOf(Effective(t, recursive))
    requires Visited(t, recursive, d) && d.uri in c.dag.nodes && DirectoryFilled(c, m, d.uri)
    ensures SlotsTell(d, recursive, c.summarize, m)
  {
    hide GoodTree, NodesOf, IsKept, Keeps, Visited, Kept, IndexOf, FileTold, ChildTold;
    VisitedNode(t, recursive, d);
    var at := KeptInOrder(d.files);
  }

  lemma CallsDelivered(t: DirTree, recursive: bool, c: Config, m: Memory, calls: seq<Call>)
    requires GoodTree(Effective(t, recursive)) && c.dag == DagOf(Effective(t, recursive)) && Linked(c.dag)
    requires Distinct(calls) && CallsBottomUp(c.dag, calls) && forall n :: n in c.dag.nodes ==> DirCall(n) in calls
    requires forall n :: n in c.dag.nodes ==> DirectoryFilled(c, m, n)
    ensures CallsTell(t, recursive, m.fileSummaries, calls)
  {
    hide GoodTree, NodesOf, Visited, Kept, IndexOf, CallsBottomUp, Linked, FileTold, ChildTold;
    forall d | Visited(t, recursive, d) ensures DirCall(d.uri) in calls {
      VisitedNode(t, recursive, d);
    }
    forall d, j | Visited(t, recursive, d) && d.Listed? && 0 <= j < |calls| && calls[j] == DirCall(d.uri)
      ensures d.uri in m.fileSummaries
      ensures forall k :: 0 <= k < |m.fileSummaries[d.uri]| ==> FileCall(FileId(d.uri, k)) in calls[..j]
      ensures recursive ==> forall i :: 0 <= i < |d.dirs| ==> DirCall(d.dirs[i].uri) in calls[..j]
    {
      VisitedNode(t, recursive, d);
      assert DirectoryFilled(c, m, d.uri);
      BeforeDirectory(c.dag, calls, j);
      forall k | 0 <= k < |m.fileSummaries[d.uri]| ensures FileCall(FileId(d.uri, k)) in calls[..j] {
        assert IsFile(c.dag, FileId(d.uri, k));
      }
      if recursive {
        forall i | 0 <= i < |d.dirs| ensures DirCall(d.dirs[i].uri) in calls[..j] {
          assert c.dag.nodes[d.uri].childrenDirs[i] == d.dirs[i].uri;
        }
      }
    }
  }

  lemma BeforeDirectory(d: Dag, calls: seq<Call>, j: nat)
    requires Linked(d) && CallsBottomUp(d, calls) && j < |calls| && calls[j].DirCall? && calls[j].dir in d.nodes
    ensures var n := calls[j].dir;
      && (forall f :: IsFile(d, f) && f.dir == n ==> FileCall(f) in calls[..j])
      && (forall i :: 0 <= i < |d.nodes[n].childrenDirs| ==> DirCall(d.nodes[n].childrenDirs[i]) in calls[..j])
  {
    var n := calls[j].dir;
    assert ChildrenCalled(d, calls[..j], n);
    assert Indexed(d.nodes[n].childrenDirs, d.nodes[n].childIndex);
    forall i | 0 <= i < |d.nodes[n].childrenDirs| ensures DirCall(d.nodes[n].childrenDirs[i]) in calls[..j] {
      assert Children(d, n, d.nodes[n].childrenDirs[i]);
    }
  }
}
