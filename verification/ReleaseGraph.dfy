/** The packages of a release and how they depend on each other (packaging/generate_supply_chain.py). */
module ReleaseGraph {
  import opened Orders
  import opened Ranking
  import opened Basics

  // ----- Cargo metadata -----

  /** kinds lists the dependency kinds; Cargo writes none, or an empty one, for a normal dependency. */
  datatype Edge = Edge(pkg: string, kinds: seq<Option<string>>)

  datatype Node = Node(id: string, deps: seq<Edge>)

  datatype Metadata = Metadata(root: Option<string>, members: seq<string>, nodes: seq<Node>)

  type Nodes = map<string, seq<Edge>>

  datatype Error = NoSingleRoot | RootHasNoNode | MissingNode(id: string) | NoDependencies

  datatype Release = Release(root: string, included: set<string>, outgoing: map<string, set<string>>, incomingKinds: map<string, set<string>>)

  datatype Result<+T> = Ok(value: T) | Err(error: Error)

  // ----- edges -----

  function KindName(kind: Option<string>): string {
    if kind.None? || kind.value == "" then "normal" else kind.value
  }

  /** The kinds of an edge that matter for a release: all but dev. */
  function Kinds(e: Edge): set<string> {
    if e.kinds == [] then {"normal"} else (set k | k in e.kinds :: KindName(k)) - {"dev"}
  }

  /** An edge matters iff Cargo lists no kind for it, or one that is not for development; an empty kind is a normal one. */
  lemma EdgeMattersIff(e: Edge)
    ensures Kinds(e) != {} <==> e.kinds == [] || exists i :: 0 <= i < |e.kinds| && e.kinds[i] != Some("dev")
    ensures "dev" !in Kinds(e)
    ensures "normal" in Kinds(e) <==>
            e.kinds == [] || exists i :: 0 <= i < |e.kinds| && (e.kinds[i] == None || e.kinds[i] == Some("") || e.kinds[i] == Some("normal"))
    ensures forall k :: k != "normal" && k != "dev" && k != "" ==> (k in Kinds(e) <==> Some(k) in e.kinds)
  {
    if i :| 0 <= i < |e.kinds| && e.kinds[i] != Some("dev") {
      assert e.kinds[i] in e.kinds && KindName(e.kinds[i]) in Kinds(e);
    }
    if i :| 0 <= i < |e.kinds| && (e.kinds[i] == None || e.kinds[i] == Some("") || e.kinds[i] == Some("normal")) {
      assert e.kinds[i] in e.kinds && KindName(e.kinds[i]) == "normal";
    }
    forall k | k != "normal" && k != "dev" && k != "" && Some(k) in e.kinds ensures k in Kinds(e) {
      assert KindName(Some(k)) == k;
    }
  }

  method DependencyKinds(e: Edge) returns (kinds: set<string>)
    ensures kinds == Kinds(e)
  {
    kinds := {};
    if e.kinds == [] {
      return {"normal"};
    }
    for i := 0 to |e.kinds|
      invariant kinds == (set k | k in e.kinds[..i] :: KindName(k)) - {"dev"}
    {
      assert e.kinds[..i + 1] == e.kinds[..i] + [e.kinds[i]];
      var kind := KindName(e.kinds[i]);
      if kind != "dev" {
        kinds := kinds + {kind};
      }
    }
    assert e.kinds[..|e.kinds|] == e.kinds;
  }

  /** An edge as the release sees it. */
  datatype Arc = Arc(pkg: string, kinds: set<string>)

  type Graph = map<string, seq<Arc>>

  /** graph shows what every edge means for the release. */
  ghost predicate Shows(deps: seq<Edge>, arcs: seq<Arc>) {
    |arcs| == |deps| && forall k {:trigger arcs[k]} :: 0 <= k < |deps| ==> arcs[k] == Arc(deps[k].pkg, Kinds(deps[k]))
  }

  ghost predicate ShowsAll(nodes: Nodes, graph: Graph) {
    nodes.Keys == graph.Keys && forall id :: id in nodes ==> Shows(nodes[id], graph[id])
  }

  function GraphOf(nodes: Nodes): (graph: Graph)
    ensures ShowsAll(nodes, graph)
  {
    map id | id in nodes :: seq(|nodes[id]|, k requires 0 <= k < |nodes[id]| => Arc(nodes[id][k].pkg, Kinds(nodes[id][k])))
  }

  method KindsOfEdge(deps: seq<Edge>, k: nat, ghost arcs: seq<Arc>) returns (kinds: set<string>)
    requires k < |deps| && Shows(deps, arcs)
    ensures kinds == arcs[k].kinds && deps[k].pkg == arcs[k].pkg
  {
    kinds := DependencyKinds(deps[k]);
  }

  /** The packages that these edges lead to in a release. */
  function Children(arcs: seq<Arc>): set<string> {
    if arcs == [] then {}
    else Children(arcs[..|arcs| - 1]) + if arcs[|arcs| - 1].kinds != {} then {arcs[|arcs| - 1].pkg} else {}
  }

  /** The kinds of the edges that lead to one package. */
  function KindsTo(arcs: seq<Arc>, pkg: string): set<string> {
    if arcs == [] then {}
    else KindsTo(arcs[..|arcs| - 1], pkg) + if arcs[|arcs| - 1].pkg == pkg then arcs[|arcs| - 1].kinds else {}
  }

  lemma {:induction false} ChildrenHaveKinds(arcs: seq<Arc>, pkg: string)
    ensures pkg in Children(arcs) <==> KindsTo(arcs, pkg) != {}
  {
    if arcs != [] {
      ChildrenHaveKinds(arcs[..|arcs| - 1], pkg);
    }
  }

  // ----- reachability -----

  /** A path from the root: every step is an edge with a kind other than dev. */
  ghost predicate Path(graph: Graph, root: string, path: seq<string>) {
    && path != [] && path[0] == root
    && forall i :: 0 <= i < |path| - 1 ==> path[i] in graph && path[i + 1] in Children(graph[path[i]])
  }

  ghost predicate Reachable(graph: Graph, root: string, x: string) {
    exists path :: Path(graph, root, path) && path[|path| - 1] == x
  }

  lemma RootIsReachable(graph: Graph, root: string)
    ensures Reachable(graph, root, root)
  {
    assert Path(graph, root, [root]);
  }

  lemma ChildIsReachable(graph: Graph, root: string, x: string, y: string)
    requires Reachable(graph, root, x) && x in graph && y in Children(graph[x])
    ensures Reachable(graph, root, y)
  {
    var path :| Path(graph, root, path) && path[|path| - 1] == x;
    assert Path(graph, root, path + [y]);
  }

  /** A set that holds the root and the children of its members holds everything reachable. */
  lemma {:induction false} ClosedHoldsPath(graph: Graph, root: string, s: set<string>, path: seq<string>)
    requires root in s && forall x :: x in s && x in graph ==> Children(graph[x]) <= s
    requires Path(graph, root, path)
    ensures path[|path| - 1] in s
  {
    if |path| > 1 {
      ClosedHoldsPath(graph, root, s, path[..|path| - 1]);
      var i := |path| - 2;
      assert path[i + 1] in Children(graph[path[i]]);
    }
  }

  // ----- one node -----

  function Get(m: map<string, set<string>>, k: string): set<string> {
    if k in m then m[k] else {}
  }

  predicate Distinct(s: seq<string>) {
    forall i, j :: 0 <= i < j < |s| ==> s[i] != s[j]
  }

  lemma DistinctMore(s: seq<string>, x: string)
    requires Distinct(s) && x !in Elements(s)
    ensures Distinct(s + [x]) && Elements(s + [x]) == Elements(s) + {x}
  {
    assert forall i :: 0 <= i < |s| ==> s[i] in Elements(s);
    assert forall y :: y in s + [x] <==> y in s || y == x;
  }

  /** What following edges changes; found lists what was seen for the first time. */
  datatype Seen = Seen(included: set<string>, found: seq<string>, outgoing: map<string, set<string>>, incomingKinds: map<string, set<string>>)

  function StepEdge(id: string, child: string, kinds: set<string>, s: Seen): Seen {
    if kinds == {} then s
    else
      Seen(s.included + {child},
           if child in s.included then s.found else s.found + [child],
           s.outgoing[id := Get(s.outgoing, id) + {child}],
           s.incomingKinds[child := Get(s.incomingKinds, child) + kinds])
  }

  ghost predicate FoundIs(children: set<string>, start: Seen, s: Seen) {
    s.included == start.included + children && Elements(s.found) == children - start.included && Distinct(s.found)
  }

  predicate OutgoingIs(id: string, children: set<string>, before: map<string, set<string>>, after: map<string, set<string>>) {
    after == if children == {} then before else before[id := Get(before, id) + children]
  }

  ghost predicate KindsAre(kindsTo: string -> set<string>, before: map<string, set<string>>, after: map<string, set<string>>) {
    forall b {:trigger Get(after, b)} :: Get(after, b) == Get(before, b) + kindsTo(b)
  }

  ghost predicate Followed(id: string, children: set<string>, kindsTo: string -> set<string>, start: Seen, s: Seen) {
    && FoundIs(children, start, s)
    && OutgoingIs(id, children, start.outgoing, s.outgoing)
    && KindsAre(kindsTo, start.incomingKinds, s.incomingKinds)
  }

  function KindsFrom(arcs: seq<Arc>): string -> set<string> { b => KindsTo(arcs, b) }

  lemma FoundMore(id: string, children: set<string>, start: Seen, s: Seen, child: string, kinds: set<string>)
    requires FoundIs(children, start, s) && kinds != {}
    ensures FoundIs(children + {child}, start, StepEdge(id, child, kinds, s))
  {
    if child !in s.included {
      DistinctMore(s.found, child);
    }
  }

  lemma OutgoingMore(id: string, children: set<string>, before: map<string, set<string>>, after: map<string, set<string>>, child: string)
    requires OutgoingIs(id, children, before, after)
    ensures OutgoingIs(id, children + {child}, before, after[id := Get(after, id) + {child}])
  {
    assert Get(after, id) == Get(before, id) + children;
    assert Get(before, id) + children + {child} == Get(before, id) + (children + {child});
  }

  lemma KindsMore(
      kindsTo: string -> set<string>, kindsTo': string -> set<string>, before: map<string, set<string>>, after: map<string, set<string>>,
      child: string, kinds: set<string>)
    requires KindsAre(kindsTo, before, after)
    requires forall b :: kindsTo'(b) == kindsTo(b) + if b == child then kinds else {}
    ensures KindsAre(kindsTo', before, after[child := Get(after, child) + kinds])
  {
    forall b ensures Get(after[child := Get(after, child) + kinds], b) == Get(before, b) + kindsTo'(b) {
      assert Get(after, b) == Get(before, b) + kindsTo(b);
    }
  }

  lemma FollowedMore(
      id: string, children: set<string>, children': set<string>, kindsTo: string -> set<string>, kindsTo': string -> set<string>,
      start: Seen, s: Seen, child: string, kinds: set<string>)
    requires Followed(id, children, kindsTo, start, s)
    requires children' == children + if kinds != {} then {child} else {}
    requires forall b :: kindsTo'(b) == kindsTo(b) + if b == child then kinds else {}
    ensures Followed(id, children', kindsTo', start, StepEdge(id, child, kinds, s))
  {
    if kinds != {} {
      FoundMore(id, children, start, s, child, kinds);
      OutgoingMore(id, children, start.outgoing, s.outgoing, child);
      KindsMore(kindsTo, kindsTo', start.incomingKinds, s.incomingKinds, child, kinds);
    } else {
      assert children' == children && forall b :: kindsTo'(b) == kindsTo(b);
    }
  }

  lemma KindsOfMore(arcs: seq<Arc>, k: nat)
    requires k < |arcs|
    ensures Children(arcs[..k + 1]) == Children(arcs[..k]) + if arcs[k].kinds != {} then {arcs[k].pkg} else {}
    ensures forall b :: KindsFrom(arcs[..k + 1])(b) == KindsFrom(arcs[..k])(b) + if b == arcs[k].pkg then arcs[k].kinds else {}
  {
    assert arcs[..k + 1][..k] == arcs[..k];
    forall b ensures KindsTo(arcs[..k + 1], b) == KindsTo(arcs[..k], b) + if arcs[k].pkg == b then arcs[k].kinds else {} {
    }
  }

  method FollowEdge(id: string, child: string, kinds: set<string>, s: Seen) returns (after: Seen)
    ensures after == StepEdge(id, child, kinds, s)
  {
    after := s;
    if kinds != {} {
      var outgoing := s.outgoing[id := Get(s.outgoing, id) + {child}];
      var incomingKinds := s.incomingKinds[child := Get(s.incomingKinds, child) + kinds];
      after := after.(outgoing := outgoing, incomingKinds := incomingKinds);
      if child !in s.included {
        after := after.(included := s.included + {child}, found := s.found + [child]);
      } else {
        assert s.included + {child} == s.included;
      }
    }
  }

  /** Follows the edges of one node: notes edges and kinds, and queues what is seen for the first time. */
  method FollowEdges(id: string, deps: seq<Edge>, start: Seen, ghost arcs: seq<Arc>) returns (s: Seen)
    requires start.found == [] && Shows(deps, arcs)
    ensures Followed(id, Children(arcs), KindsFrom(arcs), start, s)
  {
    s := start;
    ghost var front := [];
    for k := 0 to |deps|
      invariant front == arcs[..k] && Followed(id, Children(front), KindsFrom(front), start, s)
    {
      var kinds := KindsOfEdge(deps, k, arcs);
      KindsOfMore(arcs, k);
      ghost var next := arcs[..k + 1];
      FollowedMore(id, Children(front), Children(next), KindsFrom(front), KindsFrom(next), start, s, deps[k].pkg, kinds);
      s := FollowEdge(id, deps[k].pkg, kinds, s);
      front := next;
    }
    assert front == arcs;
  }

  // ----- the worklist -----

  /** The edges and kinds of the nodes that are done, and nothing else. */
  ghost predicate Recorded(graph: Graph, done: set<string>, outgoing: map<string, set<string>>, incomingKinds: map<string, set<string>>) {
    && done <= graph.Keys
    && (forall a :: a in outgoing <==> a in done && Children(graph[a]) != {})
    && (forall a :: a in outgoing ==> outgoing[a] == Children(graph[a]))
    && KindsRecorded(graph, done, incomingKinds)
  }

  ghost predicate KindsRecorded(graph: Graph, done: set<string>, incomingKinds: map<string, set<string>>) {
    done <= graph.Keys && forall b, k :: k in Get(incomingKinds, b) <==> exists a :: a in done && k in KindsTo(graph[a], b)
  }

  lemma RecordOne(graph: Graph, done: set<string>, id: string, start: Seen, s: Seen)
    requires Recorded(graph, done, start.outgoing, start.incomingKinds) && id in graph && id !in done
    requires Followed(id, Children(graph[id]), KindsFrom(graph[id]), start, s)
    ensures Recorded(graph, done + {id}, s.outgoing, s.incomingKinds)
  {
  }

  /** Every package that the metadata mentions. */
  function Mentioned(graph: Graph, root: string): set<string> {
    {root} + set x, e | x in graph && e in graph[x] :: e.pkg
  }

  lemma {:induction false} ChildrenAreMentioned(deps: seq<Arc>)
    ensures forall y :: y in Children(deps) ==> exists e :: e in deps && e.pkg == y
  {
    if deps != [] {
      var front, last := deps[..|deps| - 1], deps[|deps| - 1];
      ChildrenAreMentioned(front);
      assert deps == front + [last];
      forall y | y in Children(deps) ensures exists e :: e in deps && e.pkg == y {
        if y in Children(front) {
          var e :| e in front && e.pkg == y;
          assert e in deps;
        } else {
          assert last in deps;
        }
      }
    }
  }

  /** The worklist: what is included is done or waits, once, and comes from the root. */
  ghost predicate Working(graph: Graph, root: string, included: set<string>, done: set<string>, pending: seq<string>) {
    && root in included && included <= Mentioned(graph, root)
    && done <= graph.Keys
    && done !! Elements(pending) && included == done + Elements(pending)
    && Distinct(pending)
    && (forall x :: x in included ==> Reachable(graph, root, x))
    && (forall x :: x in done ==> Children(graph[x]) <= included)
  }

  lemma WorkOn(
      graph: Graph, root: string, included: set<string>, done: set<string>, pending: seq<string>, found: seq<string>)
    requires Working(graph, root, included, done, pending) && pending != [] && pending[|pending| - 1] in graph
    requires Elements(found) == Children(graph[pending[|pending| - 1]]) - included
    requires Distinct(found)
    ensures var id := pending[|pending| - 1];
            Working(graph, root, included + Children(graph[id]), done + {id}, pending[..|pending| - 1] + found)
  {
    var id, front := pending[|pending| - 1], pending[..|pending| - 1];
    var next := front + found;
    assert id in Elements(pending);
    assert Elements(pending) == Elements(front) + {id} by { assert pending == front + [id]; }
    assert Elements(next) == Elements(front) + Elements(found);
    forall i, j | 0 <= i < j < |next| ensures next[i] != next[j] {
      if i < |front| <= j {
        assert next[i] in Elements(pending) && next[j] in Elements(found);
      }
    }
    forall y | y in Children(graph[id]) ensures Reachable(graph, root, y) && y in Mentioned(graph, root) {
      ChildIsReachable(graph, root, id, y);
      ChildrenAreMentioned(graph[id]);
    }
  }

  /** The release graph is exact, or the walk met a reachable package without a node. */
  ghost predicate Exact(graph: Graph, root: string, r: Release) {
    && r.root == root
    && (forall x :: x in r.included <==> Reachable(graph, root, x))
    && Recorded(graph, r.included, r.outgoing, r.incomingKinds)
  }

  lemma FinishedIsExact(
      graph: Graph, root: string, included: set<string>, outgoing: map<string, set<string>>, incomingKinds: map<string, set<string>>)
    requires Working(graph, root, included, included, []) && Recorded(graph, included, outgoing, incomingKinds)
    ensures Exact(graph, root, Release(root, included, outgoing, incomingKinds))
  {
    forall x | Reachable(graph, root, x) ensures x in included {
      var path :| Path(graph, root, path) && path[|path| - 1] == x;
      ClosedHoldsPath(graph, root, included, path);
    }
  }

  /** Visits the node on top of the worklist. */
  method VisitNode(nodes: Nodes, ghost graph: Graph, ghost root: string, s: Seen, pending: seq<string>, ghost done: set<string>)
    returns (after: Seen, next: seq<string>)
    requires Working(graph, root, s.included, done, pending) && Recorded(graph, done, s.outgoing, s.incomingKinds)
    requires ShowsAll(nodes, graph) && pending != [] && pending[|pending| - 1] in nodes
    ensures var id := pending[|pending| - 1];
            && Working(graph, root, after.included, done + {id}, next)
            && Recorded(graph, done + {id}, after.outgoing, after.incomingKinds) && id !in done
    ensures s.included <= after.included <= Mentioned(graph, root)
    ensures after.included == s.included ==> |next| < |pending|
  {
    var id := pending[|pending| - 1];
    assert id in Elements(pending);
    var start := s.(found := []);
    after := FollowEdges(id, nodes[id], start, graph[id]);
    next := pending[..|pending| - 1] + after.found;
    WorkOn(graph, root, s.included, done, pending, after.found);
    RecordOne(graph, done, id, start, after);
    if after.found != [] {
      assert after.found[0] in Elements(after.found);
    }
  }

  /** The walk from the root; order lists the nodes in the order in which they were visited. */
  method Walk(nodes: Nodes, root: string, ghost graph: Graph) returns (r: Result<Release>, ghost order: seq<string>)
    requires root in nodes && ShowsAll(nodes, graph)
    ensures r.Ok? ==> Exact(graph, root, r.value)
    ensures r.Ok? ==> Elements(order) == r.value.included && Distinct(order)
    ensures r.Err? ==> r.error.MissingNode? && Reachable(graph, root, r.error.id) && r.error.id !in graph
  {
    var s, pending := Seen({root}, [], map[], map[]), [root];
    ghost var done: set<string> := {};
    order := [];
    RootIsReachable(graph, root);
    while pending != []
      invariant Working(graph, root, s.included, done, pending)
      invariant Recorded(graph, done, s.outgoing, s.incomingKinds)
      invariant Elements(order) == done && Distinct(order)
      decreases Mentioned(graph, root) - s.included, |pending|
    {
      var id := pending[|pending| - 1];
      if id !in nodes {
        assert id in Elements(pending);
        return Err(MissingNode(id)), order;
      }
      ghost var was := s.included;
      s, pending := VisitNode(nodes, graph, root, s, pending, done);
      DistinctMore(order, id);
      done, order := done + {id}, order + [id];
    }
    FinishedIsExact(graph, root, s.included, s.outgoing, s.incomingKinds);
    return Ok(Release(root, s.included, s.outgoing, s.incomingKinds)), order;
  }

  /** The node of each package; a later node of the same package replaces an earlier one. */
  function NodeMap(nodes: seq<Node>): Nodes {
    if nodes == [] then map[]
    else NodeMap(nodes[..|nodes| - 1])[nodes[|nodes| - 1].id := nodes[|nodes| - 1].deps]
  }

  function RootOf(m: Metadata): Option<string> {
    if m.root.Some? && m.root.value != "" then m.root
    else if |m.members| == 1 then Some(m.members[0])
    else None
  }

  /** Success is exactly: one root, which has a node, as has everything reachable, and something is. */
  method ResolveReleaseGraph(m: Metadata) returns (r: Result<Release>)
    ensures r == Err(NoSingleRoot) <==> RootOf(m).None?
    ensures r == Err(RootHasNoNode) <==> RootOf(m).Some? && RootOf(m).value !in NodeMap(m.nodes)
    ensures r.Ok? ==> Exact(GraphOf(NodeMap(m.nodes)), RootOf(m).value, r.value) && |r.value.included| > 1
    ensures r.Err? && r.error.MissingNode? ==>
              RootOf(m).Some? && Reachable(GraphOf(NodeMap(m.nodes)), RootOf(m).value, r.error.id) && r.error.id !in NodeMap(m.nodes)
    ensures r == Err(NoDependencies) ==>
              RootOf(m).Some? && forall x :: Reachable(GraphOf(NodeMap(m.nodes)), RootOf(m).value, x) <==> x == RootOf(m).value
  {
    var root := RootOf(m);
    if root.None? {
      return Err(NoSingleRoot);
    }
    var nodes := NodeMap(m.nodes);
    if root.value !in nodes {
      return Err(RootHasNoNode);
    }
    ghost var order;
    r, order := Walk(nodes, root.value, GraphOf(nodes));
    if r.Ok? && |r.value.included| <= 1 {
      RootIsReachable(GraphOf(nodes), root.value);
      SubsetSameSize({root.value}, r.value.included);
      return Err(NoDependencies);
    }
  }

  // ----- the dependency entries of the bill of materials -----

  datatype Entry = Entry(ref: string, dependsOn: seq<string>)

  /** Packages are listed by their reference; packages that share one are told apart by their identifier. */
  predicate RefBefore(refs: string -> string, a: string, b: string) {
    if refs(a) != refs(b) then CompareStrings(refs(a), refs(b)) == Less else CompareStrings(a, b) == Less
  }

  function ByRef(refs: string -> string): (string, string) -> bool {
    (a, b) => RefBefore(refs, a, b)
  }

  lemma RefOrderIsStrict(refs: string -> string)
    ensures StrictOrder(ByRef(refs))
  {
    StringsTotal();
    var before := ByRef(refs);
    forall x, y ensures (before(x, y) ==> !before(y, x)) && (before(x, y) || before(y, x) || x == y) {
      assert CompareStrings(refs(x), refs(y)) == CompareStrings(refs(y), refs(x)).Reverse();
      assert CompareStrings(x, y) == CompareStrings(y, x).Reverse();
      assert CompareStrings(refs(x), refs(y)) == Equal <==> refs(x) == refs(y);
      assert CompareStrings(x, y) == Equal <==> x == y;
    }
    forall x, y, z | before(x, y) && before(y, z) ensures before(x, z) {
      assert CompareStrings(refs(x), refs(y)) == CompareStrings(refs(y), refs(x)).Reverse();
      assert CompareStrings(x, y) == Less && CompareStrings(y, z) == Less ==> CompareStrings(x, z) == Less;
    }
  }

  method ListByRef(ids: set<string>, refs: string -> string) returns (r: seq<string>)
    ensures Elements(r) == ids && Ascending(ByRef(refs), r) && |r| == |ids|
  {
    var before := ByRef(refs);
    RefOrderIsStrict(refs);
    r := [];
    var rest := ids;
    while rest != {}
      invariant Ascending(before, r) && Elements(r) !! rest && ids == Elements(r) + rest
      invariant Precede(before, r, rest)
      decreases |rest|
    {
      ghost var first := FirstExists(before, rest);
      var m :| m in rest && forall y :: y in rest && y != m ==> before(m, y);
      ExtendListing(before, r, rest, m);
      r, rest := r + [m], rest - {m};
    }
    AscendingCardinality(before, r);
  }

  ghost predicate Lists(entries: seq<Entry>, ref: string) {
    exists e :: e in entries && e.ref == ref
  }

  /** entry k is that of package k. */
  ghost predicate EntryFits(graph: Graph, refs: string -> string, entry: Entry, id: string) {
    entry.ref == refs(id) && id in graph && SameRefs(entry.dependsOn, Children(graph[id]), refs)
  }

  ghost predicate EntriesFit(graph: Graph, refs: string -> string, entries: seq<Entry>, ids: seq<string>) {
    |entries| <= |ids| && forall k :: 0 <= k < |entries| ==> EntryFits(graph, refs, entries[k], ids[k])
  }

  method EntryOf(ghost graph: Graph, r: Release, refs: string -> string, id: string) returns (entry: Entry)
    requires Exact(graph, r.root, r) && id in r.included
    ensures EntryFits(graph, refs, entry, id)
  {
    var targets := Get(r.outgoing, id) * r.included;
    AllTargetsIncluded(graph, r, id);
    var children := ListByRef(targets, refs);
    var dependsOn := seq(|children|, i requires 0 <= i < |children| => refs(children[i]));
    RefsOfListing(children, dependsOn, refs);
    return Entry(refs(id), dependsOn);
  }

  /**
   Every included package has one entry, in order of reference, and depends on exactly the packages it has a release
   edge to; so each reference that an entry depends on is itself listed.
   */
  method DependencyEntries(ghost graph: Graph, r: Release, refs: string -> string) returns (entries: seq<Entry>, ghost ids: seq<string>)
    requires Exact(graph, r.root, r)
    ensures Elements(ids) == r.included && |entries| == |ids| == |r.included| && Ascending(ByRef(refs), ids)
    ensures EntriesFit(graph, refs, entries, ids)
    ensures forall e, d :: e in entries && d in e.dependsOn ==> Lists(entries, d)
  {
    var listing := ListByRef(r.included, refs);
    ids := listing;
    entries := EntriesOf(graph, r, refs, listing);
    AllListed(graph, r, refs, entries, ids);
  }

  method EntriesOf(ghost graph: Graph, r: Release, refs: string -> string, listing: seq<string>) returns (entries: seq<Entry>)
    requires Exact(graph, r.root, r) && Elements(listing) <= r.included
    ensures |entries| == |listing| && EntriesFit(graph, refs, entries, listing)
  {
    entries := [];
    for k := 0 to |listing|
      invariant |entries| == k && EntriesFit(graph, refs, entries, listing)
    {
      assert listing[k] in Elements(listing);
      var entry := EntryOf(graph, r, refs, listing[k]);
      entries := entries + [entry];
    }
  }

  lemma AllListed(graph: Graph, r: Release, refs: string -> string, entries: seq<Entry>, ids: seq<string>)
    requires Exact(graph, r.root, r) && Elements(ids) == r.included && |entries| == |ids| && EntriesFit(graph, refs, entries, ids)
    ensures forall e, d :: e in entries && d in e.dependsOn ==> Lists(entries, d)
  {
    forall e, d | e in entries && d in e.dependsOn ensures Lists(entries, d) {
      EverythingIsListed(graph, r, refs, entries, ids, e, d);
    }
  }

  /** refs lists the references of these packages. */
  ghost predicate SameRefs(listed: seq<string>, ids: set<string>, refs: string -> string) {
    forall d :: d in listed <==> exists x :: x in ids && refs(x) == d
  }

  lemma RefsOfListing(children: seq<string>, dependsOn: seq<string>, refs: string -> string)
    requires |dependsOn| == |children| && forall i :: 0 <= i < |children| ==> dependsOn[i] == refs(children[i])
    ensures SameRefs(dependsOn, Elements(children), refs)
  {
    forall d ensures d in dependsOn <==> exists x :: x in Elements(children) && refs(x) == d {
      if d in dependsOn {
        var i :| 0 <= i < |dependsOn| && dependsOn[i] == d;
        assert children[i] in Elements(children);
      }
      if x :| x in Elements(children) && refs(x) == d {
        var i :| 0 <= i < |children| && children[i] == x;
        assert dependsOn[i] == d;
      }
    }
  }

  /** The filter on included children drops nothing. */
  lemma AllTargetsIncluded(graph: Graph, r: Release, id: string)
    requires Exact(graph, r.root, r) && id in r.included
    ensures id in graph && Get(r.outgoing, id) * r.included == Get(r.outgoing, id) == Children(graph[id])
  {
    forall y | y in Children(graph[id]) ensures y in r.included {
      ChildIsReachable(graph, r.root, id, y);
    }
  }

  lemma EverythingIsListed(
      graph: Graph, r: Release, refs: string -> string, entries: seq<Entry>, ids: seq<string>, e: Entry, d: string)
    requires Exact(graph, r.root, r) && Elements(ids) == r.included && |entries| == |ids|
    requires EntriesFit(graph, refs, entries, ids)
    requires e in entries && d in e.dependsOn
    ensures Lists(entries, d)
  {
    var k :| 0 <= k < |entries| && entries[k] == e;
    assert EntryFits(graph, refs, entries[k], ids[k]);
    assert ids[k] in Elements(ids);
    var x :| x in Children(graph[ids[k]]) && refs(x) == d;
    ChildIsReachable(graph, r.root, ids[k], x);
    assert x in Elements(ids);
    var i :| 0 <= i < |ids| && ids[i] == x;
    assert EntryFits(graph, refs, entries[i], ids[i]);
  }
}
