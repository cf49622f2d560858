/** Production maps and the breadth-first depth of a node
    (src/core/production_map/mod.rs, src/erpnext/production_order.rs). */
module ProductionGraph {
  import opened Orders
  import opened Text

  datatype NodeKind =
    | Start | Location | Material | Apparatus | KkProduct | Formula
    | Condition | Task | Wait | Output | End

  datatype Node = Node(id: string, kind: NodeKind, title: string, assignedTitle: string, x: real, y: real)

  datatype Edge = Edge(from: string, to: string)

  /** Widths and roll counts are exact numbers. */
  datatype Definition = Definition(
    id: string,
    productCode: string,
    title: string,
    code: string,
    orderNumber: string,
    rollCount: Option<real>,
    widthMm: Option<real>,
    nodes: seq<Node>,
    edges: seq<Edge>)

  const USIZE_MAX: nat := 0xFFFF_FFFF_FFFF_FFFF

  // ------------------------------------------------------------ walks and depth

  function StartIds(nodes: seq<Node>): (ids: seq<string>)
    ensures forall id :: id in ids <==> exists n | n in nodes :: n.kind == Start && n.id == id
    ensures |ids| <= |nodes|
  {
    if nodes == [] then []
    else
      assert nodes == [nodes[0]] + nodes[1..];
      (if nodes[0].kind == Start then [nodes[0].id] else []) + StartIds(nodes[1..])
  }

  predicate HasEdge(plan: Definition, from: string, to: string) {
    Edge(from, to) in plan.edges
  }

  function Successors(edges: seq<Edge>, from: string): (ids: seq<string>)
    ensures forall to :: to in ids <==> Edge(from, to) in edges
  {
    if edges == [] then []
    else
      assert edges == [edges[0]] + edges[1..];
      (if edges[0].from == from then [edges[0].to] else []) + Successors(edges[1..], from)
  }

  /** A walk from a Start node along the edges; it may revisit nodes and use undeclared ids. */
  ghost predicate Walk(plan: Definition, w: seq<string>) {
    && w != []
    && w[0] in StartIds(plan.nodes)
    && forall i | 0 <= i < |w| - 1 :: HasEdge(plan, w[i], w[i + 1])
  }

  ghost predicate WalkTo(plan: Definition, w: seq<string>, id: string) {
    Walk(plan, w) && w[|w| - 1] == id
  }

  ghost predicate Reachable(plan: Definition, id: string) {
    exists w :: WalkTo(plan, w, id)
  }

  /** `d` edges reach the node and no walk is shorter. */
  ghost predicate IsDepth(plan: Definition, id: string, d: nat) {
    && (exists w :: WalkTo(plan, w, id) && |w| == d + 1)
    && (forall w :: WalkTo(plan, w, id) ==> d + 1 <= |w|)
  }

  /** The shortest distance from a Start node, or `usize::MAX` when there is none. */
  ghost function Depth(plan: Definition, id: string): nat {
    if exists d: nat :: IsDepth(plan, id, d) then
      var d: nat :| IsDepth(plan, id, d); d
    else USIZE_MAX
  }

  lemma DepthIs(plan: Definition, id: string, d: nat)
    requires IsDepth(plan, id, d)
    ensures Depth(plan, id) == d
  {
    var e := Depth(plan, id);
    assert IsDepth(plan, id, e);
    var w :| WalkTo(plan, w, id) && |w| == d + 1;
    var v :| WalkTo(plan, v, id) && |v| == e + 1;
  }

  // ---------------------------------------------------------- breadth-first search

  lemma WalkExtends(plan: Definition, w: seq<string>, to: string)
    requires Walk(plan, w) && HasEdge(plan, w[|w| - 1], to)
    ensures WalkTo(plan, w + [to], to)
  {
  }

  lemma WalkPrefix(plan: Definition, w: seq<string>)
    requires Walk(plan, w) && |w| > 1
    ensures Walk(plan, w[..|w| - 1]) && HasEdge(plan, w[|w| - 2], w[|w| - 1])
  {
  }

  /** A set with the starts that no edge leaves holds every walk's end. */
  lemma {:induction false} ClosedHoldsWalks(plan: Definition, seen: set<string>, w: seq<string>)
    requires Walk(plan, w)
    requires forall id | id in StartIds(plan.nodes) :: id in seen
    requires forall u, v | u in seen && HasEdge(plan, u, v) :: v in seen
    ensures w[|w| - 1] in seen
  {
    if |w| > 1 {
      WalkPrefix(plan, w);
      ClosedHoldsWalks(plan, seen, w[..|w| - 1]);
    }
  }

  ghost function Ids(plan: Definition): set<string> {
    (set id | id in StartIds(plan.nodes)) + (set e | e in plan.edges :: e.to)
  }

  lemma {:induction false} SmallSet<T>(s: seq<T>)
    ensures |(set x | x in s)| <= |s|
  {
    if s != [] {
      SmallSet(s[1..]);
      assert s == [s[0]] + s[1..];
      assert (set x | x in s) == (set x | x in s[1..]) + {s[0]};
    }
  }

  lemma {:induction false} FewTargets(edges: seq<Edge>)
    ensures |(set e | e in edges :: e.to)| <= |edges|
  {
    if edges != [] {
      FewTargets(edges[1..]);
      assert edges == [edges[0]] + edges[1..];
      assert (set e | e in edges :: e.to) == (set e | e in edges[1..] :: e.to) + {edges[0].to};
    }
  }

  lemma FewIds(plan: Definition)
    ensures |Ids(plan)| <= |plan.nodes| + |plan.edges|
  {
    SmallSet(StartIds(plan.nodes));
    FewTargets(plan.edges);
  }

  lemma SubsetSize<T>(a: set<T>, b: set<T>)
    requires a <= b
    ensures |a| <= |b|
  {
    assert b == a + (b - a);
  }

  /** One layer of the search: the ids not seen before are marked and their successors queued. */
  method ExpandFrontier(plan: Definition, frontier: seq<string>, seen: set<string>)
    returns (next: seq<string>, seen': set<string>)
    ensures seen' == seen + (set id | id in frontier)
    ensures forall id | id in next :: exists u :: u in frontier && HasEdge(plan, u, id)
    ensures forall u, v | u in seen' && u !in seen && HasEdge(plan, u, v) :: v in next
    ensures seen' == seen ==> next == []
  {
    next, seen' := [], seen;
    for k := 0 to |frontier|
      invariant seen' == seen + (set id | id in frontier[..k])
      invariant forall id | id in next :: exists u :: u in frontier && HasEdge(plan, u, id)
      invariant forall u, v | u in seen' && u !in seen && HasEdge(plan, u, v) :: v in next
      invariant seen' == seen ==> next == []
    {
      var current := frontier[k];
      assert frontier[..k + 1] == frontier[..k] + [current];
      if current in seen' { continue; }
      seen' := seen' + {current};
      assert forall id | id in Successors(plan.edges, current) :: HasEdge(plan, current, id);
      next := next + Successors(plan.edges, current);
    }
    assert frontier[..|frontier|] == frontier;
  }

  method NodeDepth(plan: Definition, nodeId: string) returns (depth: nat)
    ensures depth == Depth(plan, nodeId)
    ensures Reachable(plan, nodeId) ==> IsDepth(plan, nodeId, depth) && depth <= |plan.nodes| + |plan.edges|
    ensures !Reachable(plan, nodeId) ==> depth == USIZE_MAX
  {
    var frontier := StartIds(plan.nodes);
    var seen: set<string> := {};
    depth := 0;
    InitialLayer(plan);
    while frontier != []
      invariant SearchState(plan, nodeId, frontier, seen, depth)
      decreases Ids(plan) - seen, |frontier|
    {
      if nodeId in frontier {
        Found(plan, nodeId, frontier, seen, depth);
        return;
      }
      var next, seen' := ExpandFrontier(plan, frontier, seen);
      NextLayer(plan, nodeId, frontier, seen, depth, next, seen');
      if seen' == seen { assert next == []; } else { assert Ids(plan) - seen' < Ids(plan) - seen; }
      frontier, seen := next, seen';
      depth := depth + 1;
    }
    Missing(plan, nodeId, seen, depth);
    depth := USIZE_MAX;
  }

  /** The queue holds only ids that a walk of `depth` edges reaches. */
  ghost predicate QueuedAt(plan: Definition, frontier: seq<string>, depth: nat) {
    forall id | id in frontier :: id in Ids(plan) && exists w :: WalkTo(plan, w, id) && |w| == depth + 1
  }

  /** Walks of fewer than `depth` edges end among the ids seen. */
  ghost predicate NearerSeen(plan: Definition, seen: set<string>, depth: nat) {
    forall w | Walk(plan, w) && |w| <= depth :: w[|w| - 1] in seen
  }

  /** No edge leaves the ids seen except into the queue, and the starts are covered. */
  ghost predicate ClosedUpTo(plan: Definition, frontier: seq<string>, seen: set<string>) {
    && (forall id | id in StartIds(plan.nodes) :: id in seen || id in frontier)
    && (forall u, v | u in seen && HasEdge(plan, u, v) :: v in seen || v in frontier)
  }

  ghost predicate SearchState(plan: Definition, nodeId: string, frontier: seq<string>, seen: set<string>, depth: nat) {
    && QueuedAt(plan, frontier, depth)
    && NearerSeen(plan, seen, depth)
    && ClosedUpTo(plan, frontier, seen)
    && nodeId !in seen
    && seen <= Ids(plan)
    && (frontier != [] ==> depth <= |seen|)
  }

  lemma InitialLayer(plan: Definition)
    ensures forall nodeId :: SearchState(plan, nodeId, StartIds(plan.nodes), {}, 0)
  {
    forall id | id in StartIds(plan.nodes) ensures exists w :: WalkTo(plan, w, id) && |w| == 1 {
      assert WalkTo(plan, [id], id);
    }
  }

  lemma NextQueued(plan: Definition, frontier: seq<string>, depth: nat, next: seq<string>)
    requires QueuedAt(plan, frontier, depth)
    requires forall id | id in next :: exists u :: u in frontier && HasEdge(plan, u, id)
    ensures QueuedAt(plan, next, depth + 1)
  {
    forall id | id in next
      ensures id in Ids(plan) && exists w :: WalkTo(plan, w, id) && |w| == depth + 2
    {
      var u :| u in frontier && HasEdge(plan, u, id);
      var w :| WalkTo(plan, w, u) && |w| == depth + 1;
      WalkExtends(plan, w, id);
      assert |w + [id]| == depth + 2;
      assert Edge(u, id).to == id;
    }
  }

  lemma NextNearer(plan: Definition, frontier: seq<string>, seen: set<string>, depth: nat, seen': set<string>)
    requires NearerSeen(plan, seen, depth) && ClosedUpTo(plan, frontier, seen)
    requires seen' == seen + (set id | id in frontier)
    ensures NearerSeen(plan, seen', depth + 1)
  {
    forall w | Walk(plan, w) && |w| == depth + 1 ensures w[|w| - 1] in seen' {
      if |w| > 1 {
        WalkPrefix(plan, w);
        var p := w[..|w| - 1];
        assert p[|p| - 1] == w[|w| - 2];
        assert w[|w| - 2] in seen;
      }
    }
  }

  lemma NextLayer(plan: Definition, nodeId: string, frontier: seq<string>, seen: set<string>, depth: nat,
                  next: seq<string>, seen': set<string>)
    requires SearchState(plan, nodeId, frontier, seen, depth)
    requires frontier != [] && nodeId !in frontier
    requires seen' == seen + (set id | id in frontier)
    requires forall id | id in next :: exists u :: u in frontier && HasEdge(plan, u, id)
    requires forall u, v | u in seen' && u !in seen && HasEdge(plan, u, v) :: v in next
    requires seen' == seen ==> next == []
    ensures SearchState(plan, nodeId, next, seen', depth + 1)
  {
    NextQueued(plan, frontier, depth, next);
    NextNearer(plan, frontier, seen, depth, seen');
    assert ClosedUpTo(plan, next, seen');
    if seen' != seen {
      assert seen' == seen + (seen' - seen) && seen' - seen != {};
    }
  }

  lemma Found(plan: Definition, nodeId: string, frontier: seq<string>, seen: set<string>, depth: nat)
    requires SearchState(plan, nodeId, frontier, seen, depth) && nodeId in frontier
    ensures Reachable(plan, nodeId) && IsDepth(plan, nodeId, depth) && Depth(plan, nodeId) == depth
    ensures depth <= |plan.nodes| + |plan.edges|
  {
    DepthIs(plan, nodeId, depth);
    FewIds(plan);
    SubsetSize(seen, Ids(plan));
  }

  lemma Missing(plan: Definition, nodeId: string, seen: set<string>, depth: nat)
    requires SearchState(plan, nodeId, [], seen, depth)
    ensures !Reachable(plan, nodeId) && Depth(plan, nodeId) == USIZE_MAX
  {
    forall w | Walk(plan, w) ensures w[|w| - 1] != nodeId {
      ClosedHoldsWalks(plan, seen, w);
    }
  }

  // --------------------------------------------------------------------- flow order

  /** Depth first, then y, x and id. */
  ghost predicate FlowLe(plan: Definition, a: Node, b: Node) {
    RankLe(Depth(plan, a.id), Depth(plan, b.id), a, b)
  }

  ghost function FlowOrdering(plan: Definition): (Node, Node) -> bool {
    (a, b) => FlowLe(plan, a, b)
  }

  predicate RankLe(da: nat, db: nat, a: Node, b: Node) {
    || da < db
    || (da == db && (a.y < b.y || (a.y == b.y && (a.x < b.x || (a.x == b.x && StrLe(a.id, b.id))))))
  }

  function ApparatusOf(nodes: seq<Node>): (r: seq<Node>)
    ensures forall n :: n in r <==> n in nodes && n.kind == NodeKind.Apparatus
  {
    if nodes == [] then []
    else
      assert nodes == [nodes[0]] + nodes[1..];
      (if nodes[0].kind == NodeKind.Apparatus then [nodes[0]] else []) + ApparatusOf(nodes[1..])
  }

  /** `apparatus_nodes_in_flow_order`. */
  ghost function FlowOrder(plan: Definition): seq<Node> {
    SortBy(ApparatusOf(plan.nodes), FlowOrdering(plan))
  }

  lemma FlowLePreorder(plan: Definition)
    ensures TotalPreorder(FlowOrdering(plan))
  {
    forall a: Node, b: Node ensures FlowLe(plan, a, b) || FlowLe(plan, b, a) { StrLeTotal(a.id, b.id); }
    forall a: Node, b: Node, c: Node | FlowLe(plan, a, b) && FlowLe(plan, b, c) ensures FlowLe(plan, a, c) {
      if StrLe(a.id, b.id) && StrLe(b.id, c.id) { StrLeTrans(a.id, b.id, c.id); }
    }
  }

  lemma {:induction false} SortByAgrees<T>(s: seq<T>, le: (T, T) -> bool, le': (T, T) -> bool)
    requires forall a, b | a in s && b in s :: le(a, b) == le'(a, b)
    ensures SortBy(s, le) == SortBy(s, le')
  {
    if s != [] {
      assert s == [s[0]] + s[1..];
      SortByAgrees(s[1..], le, le');
      SortByPermutes(s[1..], le);
      InsertAgrees(s[0], SortBy(s[1..], le), s, le, le');
    }
  }

  lemma {:induction false} InsertAgrees<T>(x: T, t: seq<T>, s: seq<T>, le: (T, T) -> bool, le': (T, T) -> bool)
    requires x in s && forall y | y in multiset(t) :: y in s
    requires forall a, b | a in s && b in s :: le(a, b) == le'(a, b)
    ensures InsertSorted(x, t, le) == InsertSorted(x, t, le')
  {
    if t != [] {
      assert t[0] in multiset(t);
      assert t == [t[0]] + t[1..];
      InsertAgrees(x, t[1..], s, le, le');
    }
  }

  /** The depth of each apparatus, by id. */
  method DepthsOf(plan: Definition, apparatus: seq<Node>) returns (depths: map<string, nat>)
    ensures forall a | a in apparatus :: a.id in depths
    ensures forall id | id in depths :: depths[id] == Depth(plan, id)
  {
    depths := map[];
    for i := 0 to |apparatus|
      invariant forall j | 0 <= j < i :: apparatus[j].id in depths
      invariant forall id | id in depths :: depths[id] == Depth(plan, id)
    {
      var d := NodeDepth(plan, apparatus[i].id);
      depths := depths[apparatus[i].id := d];
    }
  }

  /** The order of the flow, as the rule has it: by depth, and in one depth by height on the canvas, then
      from left to right, then by id. */
  ghost predicate InFlowOrder(plan: Definition, nodes: seq<Node>) {
    forall i, j | 0 <= i < j < |nodes| ::
      var a, b := nodes[i], nodes[j];
      var d, e := Depth(plan, a.id), Depth(plan, b.id);
      d < e || (d == e && (a.y < b.y || (a.y == b.y && (a.x < b.x || (a.x == b.x && Ascends(a.id, b.id))))))
  }

  /** The flow order lists every apparatus node once, in that order. */
  lemma FlowOrderIsSorted(plan: Definition)
    ensures multiset(FlowOrder(plan)) == multiset(ApparatusOf(plan.nodes)) && InFlowOrder(plan, FlowOrder(plan))
  {
    var le := FlowOrdering(plan);
    var flow := FlowOrder(plan);
    FlowLePreorder(plan);
    SortByPermutes(ApparatusOf(plan.nodes), le);
    SortBySorted(ApparatusOf(plan.nodes), le);
    forall i, j | 0 <= i < j < |flow|
      ensures FlowLe(plan, flow[i], flow[j]) && (StrLe(flow[i].id, flow[j].id) <==> Ascends(flow[i].id, flow[j].id))
    {
      assert le(flow[i], flow[j]);
      StrLeIs(flow[i].id, flow[j].id);
    }
  }

  /** `apparatus_nodes_in_flow_order`: sorting with a depth computed for every comparison, or once
      per node, is the same. */
  method ApparatusNodesInFlowOrder(plan: Definition) returns (nodes: seq<Node>)
    ensures nodes == FlowOrder(plan) && InFlowOrder(plan, nodes)
    ensures multiset(nodes) == multiset(ApparatusOf(plan.nodes))
  {
    var apparatus := ApparatusOf(plan.nodes);
    var depths := DepthsOf(plan, apparatus);
    var le := (a: Node, b: Node) => a.id in depths && b.id in depths && RankLe(depths[a.id], depths[b.id], a, b);
    nodes := SortBy(apparatus, le);
    SortByAgrees(apparatus, le, FlowOrdering(plan));
    FlowOrderIsSorted(plan);
  }

  // ------------------------------------------------ the order does not depend on listing

  lemma {:induction false} ApparatusPermutes(nodes: seq<Node>)
    ensures forall n :: multiset(ApparatusOf(nodes))[n]
                     == if n.kind == NodeKind.Apparatus then multiset(nodes)[n] else 0
  {
    if nodes != [] {
      ApparatusPermutes(nodes[1..]);
      assert nodes == [nodes[0]] + nodes[1..];
    }
  }

  lemma DepthDependsOnGraph(plan: Definition, other: Definition, id: string)
    requires forall n :: n in plan.nodes <==> n in other.nodes
    requires forall e :: e in plan.edges <==> e in other.edges
    ensures Depth(plan, id) == Depth(other, id)
  {
    forall w ensures Walk(plan, w) == Walk(other, w) {
      assert forall s :: s in StartIds(plan.nodes) <==> s in StartIds(other.nodes);
      assert forall a, b :: HasEdge(plan, a, b) == HasEdge(other, a, b);
    }
    assert forall w :: WalkTo(plan, w, id) == WalkTo(other, w, id);
    assert forall d: nat :: IsDepth(plan, id, d) == IsDepth(other, id, d);
    if d: nat :| IsDepth(plan, id, d) {
      DepthIs(plan, id, d);
      DepthIs(other, id, d);
    }
  }

  ghost predicate SameGraph(plan: Definition, other: Definition) {
    multiset(plan.nodes) == multiset(other.nodes) && forall e :: e in plan.edges <==> e in other.edges
  }

  lemma FlowLeAgrees(plan: Definition, other: Definition, a: Node, b: Node)
    requires SameGraph(plan, other)
    ensures FlowLe(plan, a, b) == FlowLe(other, a, b)
  {
    assert forall n :: n in plan.nodes <==> n in multiset(plan.nodes);
    assert forall n :: n in other.nodes <==> n in multiset(other.nodes);
    DepthDependsOnGraph(plan, other, a.id);
    DepthDependsOnGraph(plan, other, b.id);
  }

  lemma FlowOrderFacts(plan: Definition)
    ensures SortedBy(FlowOrder(plan), FlowOrdering(plan))
    ensures multiset(FlowOrder(plan)) == multiset(ApparatusOf(plan.nodes))
  {
    FlowLePreorder(plan);
    SortByPermutes(ApparatusOf(plan.nodes), FlowOrdering(plan));
    SortBySorted(ApparatusOf(plan.nodes), FlowOrdering(plan));
  }

  ghost predicate DistinctApparatus(nodes: seq<Node>) {
    forall a, b | a in multiset(ApparatusOf(nodes)) && b in multiset(ApparatusOf(nodes)) && a.id == b.id :: a == b
  }

  lemma TiesAreEqual(plan: Definition, a: Node, b: Node)
    requires DistinctApparatus(plan.nodes)
    requires a in multiset(ApparatusOf(plan.nodes)) && b in multiset(ApparatusOf(plan.nodes))
    requires FlowLe(plan, a, b) && FlowLe(plan, b, a)
    ensures a == b
  {
    StrLeTotal(a.id, b.id);
  }

  lemma OtherFlowSorted(plan: Definition, other: Definition, t: seq<Node>)
    requires SameGraph(plan, other) && SortedBy(t, FlowOrdering(other))
    ensures SortedBy(t, FlowOrdering(plan))
  {
    forall i, j | 0 <= i < j < |t| ensures FlowOrdering(plan)(t[i], t[j]) {
      assert FlowOrdering(other)(t[i], t[j]);
      FlowLeAgrees(plan, other, t[i], t[j]);
    }
  }

  lemma SameApparatus(a: seq<Node>, b: seq<Node>)
    requires multiset(a) == multiset(b)
    ensures multiset(ApparatusOf(a)) == multiset(ApparatusOf(b))
  {
    ApparatusPermutes(a);
    ApparatusPermutes(b);
  }

  lemma NoFlowTies(plan: Definition, s: seq<Node>)
    requires DistinctApparatus(plan.nodes) && multiset(s) == multiset(ApparatusOf(plan.nodes))
    ensures forall a, b |
              a in multiset(s) && b in multiset(s) && FlowOrdering(plan)(a, b) && FlowOrdering(plan)(b, a) :: a == b
  {
    forall a, b | a in multiset(s) && b in multiset(s) && FlowOrdering(plan)(a, b) && FlowOrdering(plan)(b, a)
      ensures a == b
    {
      TiesAreEqual(plan, a, b);
    }
  }

  /** Listing the same nodes and edges in another order changes nothing, when the apparatus ids
      are distinct. */
  lemma FlowOrderIgnoresListing(plan: Definition, other: Definition)
    requires SameGraph(plan, other) && DistinctApparatus(plan.nodes)
    ensures FlowOrder(plan) == FlowOrder(other)
  {
    FlowOrderFacts(plan);
    FlowOrderFacts(other);
    OtherFlowSorted(plan, other, FlowOrder(other));
    SameApparatus(plan.nodes, other.nodes);
    NoFlowTies(plan, FlowOrder(plan));
    SortedUnique(FlowOrder(plan), FlowOrder(other), FlowOrdering(plan));
  }
}
