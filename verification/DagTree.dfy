/**
 `buildDAG` as a function of the directory listing, and the proof that a listing with
 distinct URIs is built into a well-formed graph.
 */
module DagTree {
  import opened Prelude
  import opened DagModel

  /** What `listChildren` answers, unrolled: an error, or files and subdirectories. */
  datatype DirTree = Unlistable(uri: Uri) | Listed(uri: Uri, files: seq<Uri>, dirs: seq<DirTree>)

  // ---------------------------------------------------------------- which files are kept

  const SKIP_FILENAMES := {"messages.jsonl"}

  predicate Keeps(file: Uri) {
    var name := UriName(file);
    name !in SKIP_FILENAMES && !("." <= name)
  }

  function Kept(files: seq<Uri>): (kept: seq<Uri>)
    ensures forall f :: f in kept <==> f in files && Keeps(f)
  {
    if files == [] then [] else
    var front := Kept(files[..|files| - 1]);
    if Keeps(files[|files| - 1]) then front + [files[|files| - 1]] else front
  }

  /** Position of each name; of a repeated name, the last one. */
  function IndexOf(names: seq<Uri>): (index: map<Uri, nat>)
    ensures forall u :: u in index <==> u in names
    ensures forall u :: u in index ==> index[u] < |names| && names[index[u]] == u
  {
    if names == [] then map[] else
    IndexOf(names[..|names| - 1])[names[|names| - 1] := |names| - 1]
  }

  lemma IndexedWhenDistinct(names: seq<Uri>)
    requires Distinct(names)
    ensures Indexed(names, IndexOf(names))
  {
  }

  // ---------------------------------------------------------------- the maps that are built

  /** Without `recursive` the subdirectories are not looked at. */
  function Effective(t: DirTree, recursive: bool): DirTree {
    if t.Unlistable? || recursive then t else Listed(t.uri, t.files, [])
  }

  predicate Listable(t: DirTree) {
    t.Listed? && forall i :: 0 <= i < |t.dirs| ==> Listable(t.dirs[i])
  }

  function RootUris(ts: seq<DirTree>): (uris: seq<Uri>)
    ensures |uris| == |ts| && forall i :: 0 <= i < |ts| ==> uris[i] == ts[i].uri
  {
    seq(|ts|, i requires 0 <= i < |ts| => ts[i].uri)
  }

  function NodeOf(files: seq<Uri>, dirs: seq<Uri>): DirNode {
    DirNode(Kept(files), IndexOf(Kept(files)), dirs, IndexOf(dirs))
  }

  function NodesOf(t: DirTree): map<Uri, DirNode>
    requires t.Listed?
  {
    map[t.uri := NodeOf(t.files, RootUris(t.dirs))] + NodesOfAll(t.dirs)
  }

  function NodesOfAll(ts: seq<DirTree>): map<Uri, DirNode> {
    if ts == [] then map[] else
    var last := ts[|ts| - 1];
    NodesOfAll(ts[..|ts| - 1]) + if last.Listed? then NodesOf(last) else map[]
  }

  /** The `parent` entries written while building `t` below `parentUri` ("" for none). */
  function LinksOf(t: DirTree, parentUri: Uri): map<Uri, Uri>
    requires t.Listed?
  {
    (if parentUri != "" then map[t.uri := parentUri] else map[]) + LinksOfAll(t.dirs, t.uri)
  }

  function LinksOfAll(ts: seq<DirTree>, parentUri: Uri): map<Uri, Uri> {
    if ts == [] then map[] else
    var last := ts[|ts| - 1];
    LinksOfAll(ts[..|ts| - 1], parentUri) + if last.Listed? then LinksOf(last, parentUri) else map[]
  }

  function DagOf(t: DirTree): Dag
    requires t.Listed?
  {
    Dag(t.uri, NodesOf(t), LinksOf(t, ""))
  }

  // ---------------------------------------------------------------- distinct URIs give a well-formed graph

  /** No directory URI is empty or occurs twice, and no kept file occurs twice in its directory. */
  ghost predicate GoodTree(t: DirTree) {
    t.Listed? && t.uri != "" && Distinct(Kept(t.files)) && GoodForest(t.dirs) && t.uri !in NodesOfAll(t.dirs)
  }

  ghost predicate GoodForest(ts: seq<DirTree>) {
    if ts == [] then true else
    var last := ts[|ts| - 1];
    GoodForest(ts[..|ts| - 1]) && GoodTree(last) && NodesOfAll(ts[..|ts| - 1]).Keys !! NodesOf(last).Keys
  }

  ghost predicate RootsOk(roots: seq<Uri>, nodes: map<Uri, DirNode>, links: map<Uri, Uri>) {
    && Distinct(roots)
    && (forall r :: r in roots ==> r in nodes && r !in links)
    && (forall n :: n in nodes ==> n in links || n in roots)
    && (forall n :: n in links ==> n in nodes)
  }

  ghost predicate NodesOk(nodes: map<Uri, DirNode>) {
    forall n :: n in nodes ==>
      Indexed(nodes[n].filePaths, nodes[n].fileIndex) && Indexed(nodes[n].childrenDirs, nodes[n].childIndex)
  }

  ghost predicate IsLink(nodes: map<Uri, DirNode>, n: Uri, c: Uri) {
    n in nodes && c in nodes[n].childIndex
  }

  ghost predicate LinksOk(nodes: map<Uri, DirNode>, links: map<Uri, Uri>) {
    && (forall n, c :: IsLink(nodes, n, c) ==> c in links && links[c] == n)
    && (forall c :: c in links ==> IsLink(nodes, links[c], c))
  }

  ghost predicate HeightOk(nodes: map<Uri, DirNode>, links: map<Uri, Uri>, height: map<Uri, nat>, bound: nat) {
    && height.Keys == nodes.Keys
    && (forall n :: n in height ==> height[n] < bound)
    && (forall c :: c in links && c in height && links[c] in height ==> height[c] < height[links[c]])
  }

  /** A forest with the given roots: its links are those of its nodes, and heights below `bound` grow along them. */
  ghost predicate Forest(roots: seq<Uri>, nodes: map<Uri, DirNode>, links: map<Uri, Uri>, height: map<Uri, nat>, bound: nat) {
    RootsOk(roots, nodes, links) && NodesOk(nodes) && LinksOk(nodes, links) && HeightOk(nodes, links, height, bound)
  }

  lemma RootsJoin(r1: seq<Uri>, n1: map<Uri, DirNode>, l1: map<Uri, Uri>, r2: seq<Uri>, n2: map<Uri, DirNode>, l2: map<Uri, Uri>)
    requires RootsOk(r1, n1, l1) && RootsOk(r2, n2, l2) && n1.Keys !! n2.Keys
    ensures RootsOk(r1 + r2, n1 + n2, l1 + l2)
  {
    assert forall r :: r in r1 + r2 <==> r in r1 || r in r2;
    forall i, j | 0 <= i < j < |r1 + r2| ensures (r1 + r2)[i] != (r1 + r2)[j] {
      if i < |r1| <= j { assert r1[i] in r1 && r2[j - |r1|] in r2; }
    }
  }

  lemma LinksJoin(n1: map<Uri, DirNode>, l1: map<Uri, Uri>, n2: map<Uri, DirNode>, l2: map<Uri, Uri>)
    requires LinksOk(n1, l1) && LinksOk(n2, l2) && n1.Keys !! n2.Keys && l1.Keys <= n1.Keys && l2.Keys <= n2.Keys
    ensures LinksOk(n1 + n2, l1 + l2)
  {
    forall n, c | IsLink(n1 + n2, n, c) ensures c in l1 + l2 && (l1 + l2)[c] == n {
      if n in n2 { assert IsLink(n2, n, c); } else { assert IsLink(n1, n, c); }
    }
    forall c | c in l1 + l2 ensures IsLink(n1 + n2, (l1 + l2)[c], c) {
      if c in l2 { assert IsLink(n2, l2[c], c); } else { assert IsLink(n1, l1[c], c); }
    }
  }

  lemma HeightJoin(n1: map<Uri, DirNode>, l1: map<Uri, Uri>, h1: map<Uri, nat>, b1: nat,
                   n2: map<Uri, DirNode>, l2: map<Uri, Uri>, h2: map<Uri, nat>, b2: nat)
    requires HeightOk(n1, l1, h1, b1) && HeightOk(n2, l2, h2, b2) && n1.Keys !! n2.Keys
    requires LinksOk(n1, l1) && LinksOk(n2, l2) && l1.Keys <= n1.Keys && l2.Keys <= n2.Keys
    ensures HeightOk(n1 + n2, l1 + l2, h1 + h2, b1 + b2)
  {
  }

  lemma ForestJoin(r1: seq<Uri>, n1: map<Uri, DirNode>, l1: map<Uri, Uri>, h1: map<Uri, nat>, b1: nat,
                   r2: seq<Uri>, n2: map<Uri, DirNode>, l2: map<Uri, Uri>, h2: map<Uri, nat>, b2: nat)
    requires Forest(r1, n1, l1, h1, b1) && Forest(r2, n2, l2, h2, b2) && n1.Keys !! n2.Keys
    ensures Forest(r1 + r2, n1 + n2, l1 + l2, h1 + h2, b1 + b2)
  {
    hide Indexed, HeightOk, LinksOk;
    RootsJoin(r1, n1, l1, r2, n2, l2);
    LinksJoin(n1, l1, n2, l2);
    HeightJoin(n1, l1, h1, b1, n2, l2, h2, b2);
  }

  lemma ForestRoot(root: Uri, files: seq<Uri>, roots: seq<Uri>, nodes: map<Uri, DirNode>, links: map<Uri, Uri>,
                   height: map<Uri, nat>, bound: nat)
    requires Forest(roots, nodes, links, height, bound) && root !in nodes && Distinct(Kept(files))
    ensures Forest([root], map[root := NodeOf(files, roots)] + nodes,
                   links + (map r | r in roots :: root), height[root := bound], bound + 1)
  {
    hide LinksOk, HeightOk, Indexed, NodeOf;
    NodeIsOk(files, roots);
    RootOnTop(root, NodeOf(files, roots), roots, nodes, links, height, bound);
    hide RootsOk;
  }

  lemma NodeIsOk(files: seq<Uri>, roots: seq<Uri>)
    requires Distinct(Kept(files)) && Distinct(roots)
    ensures var node := NodeOf(files, roots);
      && Indexed(node.filePaths, node.fileIndex) && Indexed(node.childrenDirs, node.childIndex)
      && node.childIndex.Keys == (set r | r in roots)
  {
    IndexedWhenDistinct(Kept(files));
    IndexedWhenDistinct(roots);
    hide Indexed;
  }

  lemma RootOnTop(root: Uri, node: DirNode, roots: seq<Uri>, nodes: map<Uri, DirNode>, links: map<Uri, Uri>,
                  height: map<Uri, nat>, bound: nat)
    requires RootsOk(roots, nodes, links) && LinksOk(nodes, links) && HeightOk(nodes, links, height, bound)
    requires root !in nodes && node.childIndex.Keys == (set r | r in roots)
    ensures var nodes' := map[root := node] + nodes; var links' := links + (map r | r in roots :: root);
      && RootsOk([root], nodes', links') && LinksOk(nodes', links') && HeightOk(nodes', links', height[root := bound], bound + 1)
  {
    hide LinksOk, HeightOk;
    var nodes' := map[root := node] + nodes;
    var links' := links + (map r | r in roots :: root);
    LinksOnTop(root, node, roots, nodes, links);
    HeightOnTop(root, roots, nodes, links, height, bound, nodes');
    assert forall n :: n in [root] <==> n == root;
  }

  lemma LinksOnTop(root: Uri, node: DirNode, roots: seq<Uri>, nodes: map<Uri, DirNode>, links: map<Uri, Uri>)
    requires LinksOk(nodes, links) && RootsOk(roots, nodes, links)
    requires root !in nodes && node.childIndex.Keys == (set r | r in roots)
    ensures LinksOk(map[root := node] + nodes, links + (map r | r in roots :: root))
  {
    var nodes' := map[root := node] + nodes;
    var links' := links + (map r | r in roots :: root);
    forall n, c | IsLink(nodes', n, c) ensures c in links' && links'[c] == n {
      if n != root { assert IsLink(nodes, n, c); }
    }
    forall c | c in links' ensures IsLink(nodes', links'[c], c) {
      if c !in roots { assert IsLink(nodes, links[c], c); }
    }
  }

  lemma HeightOnTop(root: Uri, roots: seq<Uri>, nodes: map<Uri, DirNode>, links: map<Uri, Uri>,
                    height: map<Uri, nat>, bound: nat, nodes': map<Uri, DirNode>)
    requires LinksOk(nodes, links) && RootsOk(roots, nodes, links) && HeightOk(nodes, links, height, bound)
    requires root !in nodes && nodes'.Keys == nodes.Keys + {root}
    ensures HeightOk(nodes', links + (map r | r in roots :: root), height[root := bound], bound + 1)
  {
  }

  lemma TreeMaps(t: DirTree, node: DirNode, parentUri: Uri)
    requires t.Listed? && node == NodeOf(t.files, RootUris(t.dirs))
    ensures NodesOf(t) == map[t.uri := node] + NodesOfAll(t.dirs)
    ensures LinksOf(t, parentUri) == (if parentUri != "" then map[t.uri := parentUri] else map[]) + LinksOfAll(t.dirs, t.uri)
    ensures t.dirs == [] ==> NodesOfAll(t.dirs) == map[] && LinksOfAll(t.dirs, t.uri) == map[]
  {
  }

  lemma {:induction false} TreeForest(t: DirTree) returns (height: map<Uri, nat>, bound: nat)
    requires GoodTree(t)
    ensures Forest([t.uri], NodesOf(t), LinksOf(t, ""), height, bound)
    ensures t.uri in NodesOf(t) && LinksOf(t, "").Keys == NodesOf(t).Keys - {t.uri}
    decreases t
  {
    hide Forest, GoodTree, GoodForest, NodesOf, NodesOfAll, LinksOf, LinksOfAll, LinksInside, RootUris, NodeOf;
    GoodBelow(t);
    var h, b := ForestOf(t.dirs);
    height, bound := h[t.uri := b], b + 1;
    LinksOfForest(t.dirs, t.uri);
    ForestRoot(t.uri, t.files, RootUris(t.dirs), NodesOfAll(t.dirs), LinksInside(t.dirs), h, b);
    TreeLinks(t);
    TreeMaps(t, NodeOf(t.files, RootUris(t.dirs)), "");
    ForestTop(t.uri, NodesOf(t), LinksOf(t, ""), height, bound);
  }

  lemma ListableIsListed(t: DirTree)
    requires Listable(t)
    ensures t.Listed?
  {
  }

  lemma GoodBelow(t: DirTree)
    requires GoodTree(t)
    ensures t.Listed? && t.uri != "" && Distinct(Kept(t.files)) && GoodForest(t.dirs) && t.uri !in NodesOfAll(t.dirs)
  {
  }

  lemma TreeLinks(t: DirTree)
    requires t.Listed?
    ensures LinksOf(t, "") == LinksOfAll(t.dirs, t.uri)
    ensures forall p :: p != "" ==> LinksOf(t, p) == map[t.uri := p] + LinksOf(t, "")
  {
    assert LinksOf(t, "") == LinksOfAll(t.dirs, t.uri);
  }

  lemma ForestTop(root: Uri, nodes: map<Uri, DirNode>, links: map<Uri, Uri>, height: map<Uri, nat>, bound: nat)
    requires Forest([root], nodes, links, height, bound)
    ensures root in nodes && root !in links && links.Keys == nodes.Keys - {root}
  {
    hide NodesOk, LinksOk, HeightOk;
    assert root in [root];
    assert forall n :: n in [root] <==> n == root;
  }

  /** The links inside the trees of a forest, without those of its roots. */
  ghost function LinksInside(ts: seq<DirTree>): map<Uri, Uri> {
    if ts == [] then map[] else
    var last := ts[|ts| - 1];
    LinksInside(ts[..|ts| - 1]) + if last.Listed? then LinksOf(last, "") else map[]
  }

  lemma {:induction false} ForestOf(ts: seq<DirTree>) returns (height: map<Uri, nat>, bound: nat)
    requires GoodForest(ts)
    ensures Forest(RootUris(ts), NodesOfAll(ts), LinksInside(ts), height, bound)
    decreases ts
  {
    if ts == [] {
      height, bound := map[], 0;
    } else {
      var front, last := ts[..|ts| - 1], ts[|ts| - 1];
      hide Forest, GoodForest, GoodTree, NodesOf, NodesOfAll, LinksOf, LinksInside, RootUris;
      ForestParts(ts);
      var h1, b1 := ForestOf(front);
      var h2, b2 := TreeForest(last);
      ForestJoin(RootUris(front), NodesOfAll(front), LinksInside(front), h1, b1,
                 [last.uri], NodesOf(last), LinksOf(last, ""), h2, b2);
      height, bound := h1 + h2, b1 + b2;
    }
  }

  lemma ForestParts(ts: seq<DirTree>)
    requires GoodForest(ts) && ts != []
    ensures var front, last := ts[..|ts| - 1], ts[|ts| - 1];
            && GoodForest(front) && GoodTree(last) && last.Listed? && NodesOfAll(front).Keys !! NodesOf(last).Keys
            && RootUris(ts) == RootUris(front) + [last.uri]
            && NodesOfAll(ts) == NodesOfAll(front) + NodesOf(last)
            && LinksInside(ts) == LinksInside(front) + LinksOf(last, "")
  {
  }

  lemma {:induction false} RootsAreNodes(ts: seq<DirTree>)
    requires GoodForest(ts)
    ensures forall r :: r in RootUris(ts) ==> r in NodesOfAll(ts)
  {
    if ts != [] {
      RootsAreNodes(ts[..|ts| - 1]);
      assert RootUris(ts) == RootUris(ts[..|ts| - 1]) + [ts[|ts| - 1].uri];
    }
  }

  /** Building a forest below a directory adds one link per root. */
  lemma {:induction false} LinksOfForest(ts: seq<DirTree>, p: Uri)
    requires GoodForest(ts) && p != ""
    ensures LinksOfAll(ts, p) == LinksInside(ts) + (map r | r in RootUris(ts) :: p)
    decreases ts
  {
    if ts != [] {
      var front, last := ts[..|ts| - 1], ts[|ts| - 1];
      hide Forest, RootUris;
      LinksOfForest(front, p);
      var h, b := TreeForest(last);
      TreeLinks(last);
      RootsAreNodes(front);
      RootUrisSplit(ts);
      assert forall r :: r in RootUris(ts) <==> r in RootUris(front) || r == last.uri;
      assert last.uri !in RootUris(front);
      LinksRegroup(LinksInside(front), RootUris(front), LinksOf(last, ""), last.uri, RootUris(ts), p);
    }
  }

  lemma RootUrisSplit(ts: seq<DirTree>)
    requires ts != []
    ensures RootUris(ts) == RootUris(ts[..|ts| - 1]) + [ts[|ts| - 1].uri]
  {
  }

  lemma LinksRegroup(inside: map<Uri, Uri>, roots: seq<Uri>, links: map<Uri, Uri>, root: Uri, all: seq<Uri>, p: Uri)
    requires forall r :: r in all <==> r in roots || r == root
    requires root !in links && forall r :: r in roots ==> r !in links
    ensures (inside + (map r | r in roots :: p)) + (map[root := p] + links)
         == (inside + links) + (map r | r in all :: p)
  {
  }

  /** A listing with distinct URIs is built into a well-formed graph. */
  lemma BuiltWellFormed(t: DirTree)
    requires GoodTree(t)
    ensures WellFormed(DagOf(t))
  {
    hide Linked, Ranked, Forest;
    var height, bound := TreeForest(t);
    RootHighest(DagOf(t), height, bound);
    ForestLinked(DagOf(t), height, bound);
  }

  lemma ForestLinked(d: Dag, height: map<Uri, nat>, bound: nat)
    requires Forest([d.root], d.nodes, d.parent, height, bound)
    ensures Linked(d)
  {
    hide Indexed, HeightOk, RootsOk;
    ForestTop(d.root, d.nodes, d.parent, height, bound);
    forall n, c | n in d.nodes && c in d.nodes[n].childIndex ensures c in d.parent && d.parent[c] == n {
      assert IsLink(d.nodes, n, c);
    }
    forall c | c in d.parent ensures d.parent[c] in d.nodes && c in d.nodes[d.parent[c]].childIndex {
      assert IsLink(d.nodes, d.parent[c], c);
    }
  }

  lemma RootHighest(d: Dag, height: map<Uri, nat>, bound: nat)
    requires Forest([d.root], d.nodes, d.parent, height, bound)
    ensures Ranked(d, height)
  {
    assert d.root in [d.root];
    forall n | n in height ensures height[n] <= height[d.root] {
      Climb(d, height, bound, n);
    }
  }

  lemma {:induction false} Climb(d: Dag, height: map<Uri, nat>, bound: nat, n: Uri)
    requires Forest([d.root], d.nodes, d.parent, height, bound) && n in height && d.root in height
    ensures height[n] <= height[d.root]
    decreases bound - height[n]
  {
    if n != d.root { Climb(d, height, bound, d.parent[n]); }
  }
}
