/** Bundles: the subtree walk of src/uaf/db/graph_db.py and the snapshot export and import of
    src/uaf/db/bundle.py. */
module Bundles {
  import opened Collections
  import opened Graphs
  import opened JsonValues
  import opened Nodes
  import opened Serialization
  import opened Operations
  import opened OperationLogs
  import opened Materializer
  import opened Inverses
  import opened Indexing
  import opened GraphDbs
  import opened JournaledGraphDbs
  import opened Queries

  // ----- the subtree -----

  /** descendants: exactly the ids reachable through child lists, the root included. */
  method Descendants(s: State, root: NodeId) returns (result: set<NodeId>)
    ensures forall n :: n in result <==> Reaches(s.children.vals, root, n)
  {
    ghost var g := s.children.vals;
    result := {};
    var stack := [root];
    WalkStart(g, root);
    while stack != []
      invariant WalkInvariant(g, root, result, stack)
      decreases Vertices(g) + {root} - result, |stack|
    {
      hide WalkInvariant, Reaches, Vertices;
      var current := Last(stack);
      if current in result {
        WalkSkip(g, root, result, stack);
        stack := Init(stack);
      } else {
        WalkStackInside(g, root, result, stack);
        var childIds := Kids(s, current);
        WalkVisit(g, root, result, stack, childIds);
        result := result + {current};
        stack := Init(stack) + childIds;
      }
    }
    WalkEnd(g, root, result);
  }

  /** Every listed child of a member is a member. */
  ghost predicate ClosedUnderKids(s: State, ids: seq<NodeId>) {
    forall id, k :: id in ids && k in Kids(s, id) ==> k in ids
  }

  /** However it is enumerated, a subtree contains the children of its members. */
  lemma SubtreeIsClosed(s: State, root: NodeId, ids: seq<NodeId>)
    requires forall n :: n in ids <==> Reaches(s.children.vals, root, n)
    ensures ClosedUnderKids(s, ids)
  {
    forall id, k | id in ids && k in Kids(s, id) ensures k in ids {
      ReachesStep(s.children.vals, root, id, k);
    }
  }

  // ----- _build_snapshot_journal; `ids` is the subtree in the order its set is iterated -----

  function NodeCreations(s: State, ids: seq<NodeId>, now: Time): seq<Operation> {
    if ids == [] then []
    else
      var rest := NodeCreations(s, ids[1..], now);
      if ids[0] in s.nodes then [CreateNode(s.nodes[ids[0]], [], now, None)] + rest else rest
  }

  /** The edges leaving the subtree's nodes, source by source. */
  function OutEdges(s: State, ids: seq<NodeId>): seq<Edge> {
    if ids == [] then [] else GetEdgesFrom(s, ids[0]) + OutEdges(s, ids[1..])
  }

  function EdgeCreations(edges: seq<Edge>, now: Time): seq<Operation> {
    if edges == [] then [] else [CreateEdge(edges[0], [], now, None)] + EdgeCreations(edges[1..], now)
  }

  /** The live part of a child list. */
  function LiveIds(nodes: map<NodeId, Node>, ids: seq<NodeId>): (r: seq<NodeId>)
    ensures forall x :: x in r <==> x in ids && x in nodes
  {
    if ids == [] then [] else (if ids[0] in nodes then [ids[0]] else []) + LiveIds(nodes, ids[1..])
  }

  function Orders(s: State, ids: seq<NodeId>, now: Time): seq<Operation> {
    if ids == [] then []
    else
      var rest := Orders(s, ids[1..], now);
      var order := LiveIds(s.nodes, Kids(s, ids[0]));
      if order != [] then [ReorderChildren(ids[0], order, [], now, None)] + rest else rest
  }

  function SnapshotOps(s: State, ids: seq<NodeId>, now: Time): seq<Operation> {
    NodeCreations(s, ids, now) + EdgeCreations(OutEdges(s, ids), now) + Orders(s, ids, now)
  }

  /** `tuple(c.meta.id for c in children)` */
  function IdsOf(nodes: seq<Node>): seq<NodeId> {
    if nodes == [] then [] else [nodes[0].meta.id] + IdsOf(nodes[1..])
  }

  lemma {:induction false} IdsOfChildren(nodes: map<NodeId, Node>, ids: seq<NodeId>)
    requires forall id :: id in nodes ==> nodes[id].meta.id == id
    ensures IdsOf(LiveChildren(nodes, ids)) == LiveIds(nodes, ids)
  {
    if ids != [] {
      IdsOfChildren(nodes, ids[1..]);
      if ids[0] in nodes {
        assert LiveChildren(nodes, ids)[1..] == LiveChildren(nodes, ids[1..]);
      } else {
        assert LiveChildren(nodes, ids) == LiveChildren(nodes, ids[1..]);
      }
    }
  }

  method WriteNodeCreations(s: State, ids: seq<NodeId>, now: Time) returns (ops: seq<Operation>)
    ensures ops == NodeCreations(s, ids, now)
  {
    ops := [];
    for i := 0 to |ids|
      invariant ops + NodeCreations(s, ids[i..], now) == NodeCreations(s, ids, now)
    {
      if ids[i] in s.nodes {
        ops := ops + [CreateNode(s.nodes[ids[i]], [], now, None)];
      }
    }
  }

  method WriteEdges(edges: seq<Edge>, now: Time) returns (ops: seq<Operation>)
    ensures ops == EdgeCreations(edges, now)
  {
    ops := [];
    for j := 0 to |edges|
      invariant ops + EdgeCreations(edges[j..], now) == EdgeCreations(edges, now)
    {
      ops := ops + [CreateEdge(edges[j], [], now, None)];
    }
  }

  method WriteEdgeCreations(s: State, ids: seq<NodeId>, now: Time) returns (ops: seq<Operation>)
    ensures ops == EdgeCreations(OutEdges(s, ids), now)
  {
    ops := [];
    for i := 0 to |ids|
      invariant ops + EdgeCreations(OutEdges(s, ids[i..]), now) == EdgeCreations(OutEdges(s, ids), now)
    {
      var written := WriteEdges(GetEdgesFrom(s, ids[i]), now);
      EdgeCreationsAppend(GetEdgesFrom(s, ids[i]), OutEdges(s, ids[i + 1..]), now);
      hide GetEdgesFrom, EdgeCreations;
      assert ids[i..][1..] == ids[i + 1..];
      ops := ops + written;
    }
  }

  lemma {:induction false} EdgeCreationsAppend(a: seq<Edge>, b: seq<Edge>, now: Time)
    ensures EdgeCreations(a + b, now) == EdgeCreations(a, now) + EdgeCreations(b, now)
  {
    if a == [] {
      assert a + b == b;
    } else {
      EdgeCreationsAppend(a[1..], b, now);
      assert (a + b)[1..] == a[1..] + b;
    }
  }

  lemma ListedChildren(s: State, p: NodeId)
    requires NodesKeyed(s)
    ensures IdsOf(GetChildren(s, p)) == LiveIds(s.nodes, Kids(s, p))
    ensures GetChildren(s, p) == [] <==> LiveIds(s.nodes, Kids(s, p)) == []
  {
    IdsOfChildren(s.nodes, Kids(s, p));
    hide LiveIds, LiveChildren;
  }

  method WriteOrders(s: State, ids: seq<NodeId>, now: Time) returns (ops: seq<Operation>)
    requires NodesKeyed(s)
    ensures ops == Orders(s, ids, now)
  {
    hide Orders, LiveIds, GetChildren, Kids, IdsOf, NodesKeyed;
    ops := [];
    OrdersNone(s, now);
    for i := 0 to |ids|
      invariant ops + Orders(s, ids[i..], now) == Orders(s, ids, now)
    {
      var children := GetChildren(s, ids[i]);
      ListedChildren(s, ids[i]);
      OrdersRound(s, ids, i, now, ops);
      if children != [] {
        ops := ops + [ReorderChildren(ids[i], IdsOf(children), [], now, None)];
      }
    }
    assert ids[|ids|..] == [];
  }

  lemma OrdersNone(s: State, now: Time)
    ensures Orders(s, [], now) == []
  {
  }

  lemma OrdersRound(s: State, ids: seq<NodeId>, i: nat, now: Time, ops: seq<Operation>)
    requires i < |ids|
    ensures var order := LiveIds(s.nodes, Kids(s, ids[i]));
      ops + Orders(s, ids[i..], now) ==
        (if order != [] then ops + [ReorderChildren(ids[i], order, [], now, None)] else ops) +
          Orders(s, ids[i + 1..], now)
  {
    hide LiveIds, Kids;
    assert ids[i..][1..] == ids[i + 1..];
    var order := LiveIds(s.nodes, Kids(s, ids[i]));
    assert Orders(s, ids[i..], now) ==
      (if order != [] then [ReorderChildren(ids[i], order, [], now, None)] else []) + Orders(s, ids[i + 1..], now);
    hide Orders;
  }

  method BuildSnapshot(s: State, ids: seq<NodeId>, now: Time) returns (lines: seq<Json>)
    requires NodesKeyed(s)
    ensures lines == MapSeq(OperationToJson, SnapshotOps(s, ids, now))
  {
    var nodes := WriteNodeCreations(s, ids, now);
    var edges := WriteEdgeCreations(s, ids, now);
    var orders := WriteOrders(s, ids, now);
    lines := MapSeq(OperationToJson, nodes + edges + orders);
  }

  // ----- import -----

  datatype ImportError = Malformed | Rejected(error: LogError)

  datatype Imported = Imported(log: seq<Entry>, error: Option<ImportError>)

  /** The log after offering the lines in order: a duplicate is skipped, anything else that goes
      wrong ends the import. */
  function Import(log: seq<Entry>, lines: seq<Json>): Imported
    decreases |lines|
  {
    if lines == [] then Imported(log, None)
    else
      match OperationFromJson(lines[0])
      case None => Imported(log, Some(Malformed))
      case Some(op) =>
        match Rejection(log, op)
        case None => Import(log + [NewEntry(op)], lines[1..])
        case Some(DuplicateOperation) => Import(log, lines[1..])
        case Some(error) => Imported(log, Some(Rejected(error)))
  }

  method ImportJournal(db: GraphDB, lines: seq<Json>) returns (error: Option<ImportError>)
    requires db.Valid()
    modifies db.log, db.materializer, db.index, db.undo
    ensures db.Valid()
    ensures Imported(db.log.entries, error) == Import(old(db.log.entries), lines)
  {
    hide ComputeOperationId, OperationFromJson, Rejection, NewEntry;
    for i := 0 to |lines|
      invariant db.Valid()
      invariant Import(db.log.entries, lines[i..]) == Import(old(db.log.entries), lines)
    {
      assert lines[i..][1..] == lines[i + 1..];
      var op := OperationFromJson(lines[i]);
      if op.None? {
        return Some(Malformed);
      }
      var r := db.Apply(op.value, "");
      if r.Err? && r.error != DuplicateOperation {
        return Some(Rejected(r.error));
      }
    }
    error := None;
  }

  // ----- what the snapshot's operations build -----

  function Restrict<K, V>(m: map<K, V>, ids: seq<K>): map<K, V> {
    map k | k in m && k in ids :: m[k]
  }

  lemma RunFirst(s: State, op: Operation, rest: seq<Operation>)
    ensures Run(s, [op] + rest) == Run(Step(s, NewEntry(op)), rest)
  {
    hide Step, NewEntry;
    assert ([op] + rest)[1..] == rest;
  }

  lemma RestrictRound(m: map<NodeId, Node>, ids: seq<NodeId>, t: map<NodeId, Node>)
    requires ids != []
    ensures t + Restrict(m, ids) == (if ids[0] in m then t[ids[0] := m[ids[0]]] else t) + Restrict(m, ids[1..])
  {
    assert forall id :: id in ids <==> id == ids[0] || id in ids[1..];
  }

  lemma {:induction false} RunNodeCreations(t: State, s: State, ids: seq<NodeId>, now: Time)
    requires NodesKeyed(s)
    ensures var u := Run(t, NodeCreations(s, ids, now));
      u.nodes == t.nodes + Restrict(s.nodes, ids) && u.edges == t.edges && u.children == t.children
    decreases |ids|
  {
    hide Step, NewEntry, Run;
    if ids == [] {
      RunNone(t);
    } else {
      RestrictRound(s.nodes, ids, t.nodes);
      hide Restrict;
      if ids[0] in s.nodes {
        var op := CreateNode(s.nodes[ids[0]], [], now, None);
        RunFirst(t, op, NodeCreations(s, ids[1..], now));
        CreationStep(t, op);
        RunNodeCreations(Step(t, NewEntry(op)), s, ids[1..], now);
      } else {
        RunNodeCreations(t, s, ids[1..], now);
      }
    }
  }

  lemma CreationStep(t: State, op: Operation)
    requires op.CreateNode?
    ensures var u := Step(t, NewEntry(op));
      u.nodes == t.nodes[op.node.meta.id := op.node] && u.edges == t.edges && u.children == t.children
  {
    NewEntryOp(op);
    hide NewEntry;
  }

  function EdgeIds(edges: seq<Edge>): (r: seq<EdgeId>)
    ensures |r| == |edges| && forall i :: 0 <= i < |edges| ==> r[i] == edges[i].id
  {
    if edges == [] then [] else [edges[0].id] + EdgeIds(edges[1..])
  }

  /** The list of p after creating one edge. */
  function Attach(kids: seq<NodeId>, edge: Edge, p: NodeId): seq<NodeId> {
    if edge.edgeType.CONTAINS? && edge.source == p then AddChild(kids, edge.target) else kids
  }

  /** The list of p after creating the edges in order. */
  function Targets(kids: seq<NodeId>, edges: seq<Edge>, p: NodeId): seq<NodeId>
    decreases |edges|
  {
    if edges == [] then kids else Targets(Attach(kids, edges[0], p), edges[1..], p)
  }

  ghost predicate SubMap<K(!new), V>(a: map<K, V>, b: map<K, V>) {
    forall k :: k in a ==> k in b && a[k] == b[k]
  }

  lemma EdgeStep(t: State, op: Operation)
    requires op.CreateEdge?
    ensures var u := Step(t, NewEntry(op));
      && u.nodes == t.nodes && u.edges == t.edges.Put(op.edge.id, op.edge)
      && forall p :: Kids(u, p) == Attach(Kids(t, p), op.edge, p)
  {
    NewEntryOp(op);
    hide NewEntry, Dict.Put, Enlist, Kids, AddChild;
    var t1 := t.(edges := t.edges.Put(op.edge.id, op.edge));
    EnlistParts(t1, op.edge.source, op.edge.target);
    forall p ensures Kids(Step(t, NewEntry(op)), p) == Attach(Kids(t, p), op.edge, p) {
      EnlistKids(t1, op.edge.source, op.edge.target, p);
      SameChildren(t, t1, p);
    }
  }

  lemma SameChildren(t: State, u: State, p: NodeId)
    requires t.children == u.children
    ensures Kids(t, p) == Kids(u, p)
  {
  }

  /** The ids of the edges are new and distinct, and the edges come from m. */
  ghost predicate NewFrom(t: State, m: map<EdgeId, Edge>, edges: seq<Edge>) {
    && (forall i :: 0 <= i < |edges| ==> edges[i].id !in t.edges.vals && edges[i].id in m && m[edges[i].id] == edges[i])
    && (forall i, j :: 0 <= i < j < |edges| ==> edges[i].id != edges[j].id)
  }

  lemma NewFromRest(t: State, u: State, m: map<EdgeId, Edge>, edges: seq<Edge>)
    requires edges != [] && NewFrom(t, m, edges) && u.edges == t.edges.Put(edges[0].id, edges[0])
    ensures NewFrom(u, m, edges[1..]) && u.edges.keys == t.edges.keys + [edges[0].id]
    ensures SubMap(t.edges.vals, m) ==> SubMap(u.edges.vals, m)
  {
  }

  /** What creating the edges one after another makes of t. */
  ghost predicate EdgesAdded(t: State, m: map<EdgeId, Edge>, edges: seq<Edge>, u: State) {
    && u.nodes == t.nodes && u.edges.keys == t.edges.keys + EdgeIds(edges) && SubMap(u.edges.vals, m) && u.edges.Wf()
    && forall p :: Kids(u, p) == Targets(Kids(t, p), edges, p)
  }

  lemma EdgesAddedNone(t: State, m: map<EdgeId, Edge>)
    requires SubMap(t.edges.vals, m) && t.edges.Wf()
    ensures EdgesAdded(t, m, [], t)
  {
    assert t.edges.keys + [] == t.edges.keys;
  }

  lemma EdgesAddedRound(t: State, m: map<EdgeId, Edge>, edges: seq<Edge>, t1: State, u: State)
    requires edges != [] && EdgesAdded(t1, m, edges[1..], u)
    requires t1.nodes == t.nodes && t1.edges.keys == t.edges.keys + [edges[0].id]
    requires forall p :: Kids(t1, p) == Attach(Kids(t, p), edges[0], p)
    ensures EdgesAdded(t, m, edges, u)
  {
    hide Kids, Attach, SubMap, Dict.Wf;
    assert EdgeIds(edges) == [edges[0].id] + EdgeIds(edges[1..]);
  }

  lemma {:induction false} RunEdgeCreations(t: State, m: map<EdgeId, Edge>, edges: seq<Edge>, now: Time)
    requires NewFrom(t, m, edges) && SubMap(t.edges.vals, m) && t.edges.Wf()
    ensures EdgesAdded(t, m, edges, Run(t, EdgeCreations(edges, now)))
    decreases |edges|
  {
    hide Step, NewEntry, Run, NewFrom, SubMap, Kids, Dict.Put, Dict.Wf, EdgesAdded, Attach;
    if edges == [] {
      RunNone(t);
      EdgesAddedNone(t, m);
    } else {
      var op := CreateEdge(edges[0], [], now, None);
      RunFirst(t, op, EdgeCreations(edges[1..], now));
      var t1 := Step(t, NewEntry(op));
      EdgeStep(t, op);
      NewFromRest(t, t1, m, edges);
      t.edges.PutWf(edges[0].id, edges[0]);
      RunEdgeCreations(t1, m, edges[1..], now);
      EdgesAddedRound(t, m, edges, t1, Run(t1, EdgeCreations(edges[1..], now)));
    }
  }

  /** The list of p after the orders are applied. */
  function AfterOrders(s: State, ids: seq<NodeId>, p: NodeId, kids: seq<NodeId>): seq<NodeId> {
    if p in ids && LiveIds(s.nodes, Kids(s, p)) != [] then LiveIds(s.nodes, Kids(s, p)) else kids
  }

  lemma {:induction false} RunOrders(t: State, s: State, ids: seq<NodeId>, now: Time)
    ensures var u := Run(t, Orders(s, ids, now));
      u.nodes == t.nodes && u.edges == t.edges && forall p :: Kids(u, p) == AfterOrders(s, ids, p, Kids(t, p))
    decreases |ids|
  {
    hide Step, NewEntry, Run, Kids, LiveIds;
    if ids == [] {
      RunNone(t);
    } else {
      var order := LiveIds(s.nodes, Kids(s, ids[0]));
      var op := ReorderChildren(ids[0], order, [], now, None);
      var u := if order != [] then Step(t, NewEntry(op)) else t;
      RunFirst(t, op, Orders(s, ids[1..], now));
      OrderStep(t, op);
      RunOrders(u, s, ids[1..], now);
    }
  }

  lemma OrderStep(t: State, op: Operation)
    requires op.ReorderChildren?
    ensures var u := Step(t, NewEntry(op));
      && u.nodes == t.nodes && u.edges == t.edges
      && forall p :: Kids(u, p) == if p == op.parentId then op.newOrder else Kids(t, p)
  {
    NewEntryOp(op);
    hide NewEntry;
  }

  // ----- the order of outgoing edges -----

  lemma {:induction false} EdgesFromAppend(a: seq<EdgeId>, b: seq<EdgeId>, m: map<EdgeId, Edge>, p: NodeId)
    ensures EdgesFrom(a + b, m, p) == EdgesFrom(a, m, p) + EdgesFrom(b, m, p)
  {
    if a == [] {
      assert a + b == b;
    } else {
      EdgesFromAppend(a[1..], b, m, p);
      assert (a + b)[1..] == a[1..] + b;
    }
  }

  /** Filtering one source's edges again by source. */
  lemma {:induction false} EdgesFromAgain(keys: seq<EdgeId>, m: map<EdgeId, Edge>, q: NodeId, p: NodeId)
    requires forall e :: e in m ==> m[e].id == e
    ensures EdgesFrom(EdgeIds(EdgesFrom(keys, m, q)), m, p) == if p == q then EdgesFrom(keys, m, q) else []
  {
    if keys != [] {
      EdgesFromAgain(keys[1..], m, q, p);
      var rest := EdgesFrom(keys[1..], m, q);
      if keys[0] in m && m[keys[0]].source == q {
        assert EdgesFrom(keys, m, q)[1..] == rest;
        assert EdgeIds(EdgesFrom(keys, m, q)) == [keys[0]] + EdgeIds(rest);
        assert ([keys[0]] + EdgeIds(rest))[1..] == EdgeIds(rest);
      }
    }
  }

  lemma {:induction false} EdgeIdsAppend(a: seq<Edge>, b: seq<Edge>)
    ensures EdgeIds(a + b) == EdgeIds(a) + EdgeIds(b)
  {
  }

  /** Grouping the edges by source keeps, for each source, their order. */
  lemma {:induction false} GroupedOrder(s: State, ids: seq<NodeId>, p: NodeId)
    requires EdgesKeyed(s) && Distinct(ids)
    ensures EdgesFrom(EdgeIds(OutEdges(s, ids)), s.edges.vals, p) == if p in ids then GetEdgesFrom(s, p) else []
  {
    hide EdgesFrom;
    if ids == [] {
      assert EdgesFrom([], s.edges.vals, p) == [] by { NoEdges(s.edges.vals, p); }
    } else {
      var m := s.edges.vals;
      var first, rest := GetEdgesFrom(s, ids[0]), OutEdges(s, ids[1..]);
      EdgeIdsAppend(first, rest);
      EdgesFromAppend(EdgeIds(first), EdgeIds(rest), m, p);
      EdgesFromAgain(s.edges.keys, m, ids[0], p);
      GroupedOrder(s, ids[1..], p);
      assert ids[0] !in ids[1..];
      hide EdgeIds, GetEdgesFrom, OutEdges;
    }
  }

  lemma NoEdges(m: map<EdgeId, Edge>, p: NodeId)
    ensures EdgesFrom([], m, p) == []
  {
  }

  lemma {:induction false} EdgesFromAgree(keys: seq<EdgeId>, a: map<EdgeId, Edge>, b: map<EdgeId, Edge>, p: NodeId)
    requires SubMap(a, b) && forall k :: k in keys ==> k in a
    ensures EdgesFrom(keys, a, p) == EdgesFrom(keys, b, p)
  {
    if keys != [] {
      EdgesFromAgree(keys[1..], a, b, p);
      assert keys[0] in keys;
    }
  }

  lemma DistinctCons<T(!new)>(x: T, b: seq<T>)
    requires Distinct(b) && x !in b
    ensures Distinct([x] + b)
  {
  }

  /** The edges of the snapshot are stored edges, none of them twice. */
  lemma {:induction false} EdgesFromStored(keys: seq<EdgeId>, m: map<EdgeId, Edge>, p: NodeId)
    requires Distinct(keys) && forall e :: e in m ==> m[e].id == e
    ensures var r := EdgesFrom(keys, m, p);
      Distinct(r) && forall e :: e in r ==> e.id in keys && e.id in m && m[e.id] == e && e.source == p
  {
    if keys != [] {
      EdgesFromStored(keys[1..], m, p);
      assert keys[0] !in keys[1..] && Distinct(keys[1..]);
      if keys[0] in m && m[keys[0]].source == p {
        DistinctCons(m[keys[0]], EdgesFrom(keys[1..], m, p));
      }
      hide Distinct;
    }
  }

  lemma {:induction false} OutEdgesStored(s: State, ids: seq<NodeId>)
    requires EdgesKeyed(s) && s.edges.Wf() && Distinct(ids)
    ensures var r := OutEdges(s, ids);
      Distinct(r) && forall e :: e in r ==> e.id in s.edges.vals && s.edges.vals[e.id] == e && e.source in ids
  {
    if ids != [] {
      OutEdgesStored(s, ids[1..]);
      EdgesFromStored(s.edges.keys, s.edges.vals, ids[0]);
      hide EdgesFrom;
      assert ids[0] !in ids[1..];
      DistinctAppend(GetEdgesFrom(s, ids[0]), OutEdges(s, ids[1..]));
      hide Distinct;
    }
  }

  lemma StoredIsNew(s: State, t: State, edges: seq<Edge>)
    requires Distinct(edges) && forall e :: e in edges ==> e.id in s.edges.vals && s.edges.vals[e.id] == e
    requires t.edges == Dict([], map[])
    ensures NewFrom(t, s.edges.vals, edges)
  {
    forall i | 0 <= i < |edges| ensures edges[i].id in s.edges.vals && s.edges.vals[edges[i].id] == edges[i] {
      assert edges[i] in edges;
    }
  }

  lemma OutgoingInOrder(s: State, t: State, ids: seq<NodeId>, p: NodeId)
    requires EdgesKeyed(s) && Distinct(ids)
    requires t.edges.keys == EdgeIds(OutEdges(s, ids)) && SubMap(t.edges.vals, s.edges.vals) && t.edges.Wf()
    ensures GetEdgesFrom(t, p) == if p in ids then GetEdgesFrom(s, p) else []
  {
    GroupedOrder(s, ids, p);
    EdgesFromAgree(t.edges.keys, t.edges.vals, s.edges.vals, p);
    hide OutEdges, EdgesFrom, Distinct;
  }

  /** What stands before the orders are applied. */
  ghost predicate Assembled(s: State, ids: seq<NodeId>, t: State) {
    && t.nodes == Restrict(s.nodes, ids)
    && t.edges.keys == EdgeIds(OutEdges(s, ids)) && SubMap(t.edges.vals, s.edges.vals) && t.edges.Wf()
    && forall p :: Kids(t, p) == Targets([], OutEdges(s, ids), p)
  }

  lemma EdgesAssemble(s: State, ids: seq<NodeId>, t: State, now: Time)
    requires EdgesKeyed(s) && s.edges.Wf() && Distinct(ids)
    requires t.nodes == Restrict(s.nodes, ids) && t.edges == Dict([], map[]) && forall p :: Kids(t, p) == []
    ensures Assembled(s, ids, Run(t, EdgeCreations(OutEdges(s, ids), now)))
  {
    OutEdgesStored(s, ids);
    StoredIsNew(s, t, OutEdges(s, ids));
    assert SubMap(t.edges.vals, s.edges.vals) && t.edges.Wf();
    hide Run, Restrict, EdgeCreations, OutEdges, Distinct, Targets, EdgesKeyed, EdgeIds, Kids, SubMap, NewFrom,
      Dict.Wf;
    RunEdgeCreations(t, s.edges.vals, OutEdges(s, ids), now);
  }

  lemma SnapshotAssembles(s: State, ids: seq<NodeId>, now: Time)
    requires NodesKeyed(s) && EdgesKeyed(s) && s.edges.Wf() && Distinct(ids)
    ensures Assembled(s, ids, Run(Run(EMPTY_STATE, NodeCreations(s, ids, now)), EdgeCreations(OutEdges(s, ids), now)))
  {
    NothingYet();
    hide Run, Restrict, NodeCreations, EdgeCreations, OutEdges, Distinct, NodesKeyed, EdgesKeyed, Kids, Dict.Wf,
      Assembled;
    RunNodeCreations(EMPTY_STATE, s, ids, now);
    var t := Run(EMPTY_STATE, NodeCreations(s, ids, now));
    forall p ensures Kids(t, p) == [] { SameChildren(t, EMPTY_STATE, p); }
    EdgesAssemble(s, ids, t, now);
  }

  /** The graph the snapshot's operations build from nothing. */
  lemma SnapshotBuilds(s: State, ids: seq<NodeId>, now: Time)
    requires NodesKeyed(s) && EdgesKeyed(s) && s.edges.Wf() && Distinct(ids)
    ensures var t := Run(EMPTY_STATE, SnapshotOps(s, ids, now));
      && t.nodes == Restrict(s.nodes, ids)
      && (forall p :: GetEdgesFrom(t, p) == if p in ids then GetEdgesFrom(s, p) else [])
      && (forall p :: Kids(t, p) == AfterOrders(s, ids, p, Targets([], OutEdges(s, ids), p)))
  {
    hide Run, Step, Restrict, NodeCreations, EdgeCreations, Orders, OutEdges, EdgesFrom, Distinct, Targets, LiveIds,
      NodesKeyed, EdgesKeyed, EdgeIds, Kids, AfterOrders, SubMap, Dict.Wf, GetEdgesFrom;
    var a, b, c := NodeCreations(s, ids, now), EdgeCreations(OutEdges(s, ids), now), Orders(s, ids, now);
    SnapshotAssembles(s, ids, now);
    RunThree(EMPTY_STATE, a, b, c);
    var u := Run(Run(EMPTY_STATE, a), b);
    RunOrders(u, s, ids, now);
    var t := Run(u, c);
    forall p ensures GetEdgesFrom(t, p) == if p in ids then GetEdgesFrom(s, p) else [] {
      OutgoingInOrder(s, t, ids, p);
    }
  }

  lemma RunThree(s: State, a: seq<Operation>, b: seq<Operation>, c: seq<Operation>)
    ensures Run(s, a + b + c) == Run(Run(Run(s, a), b), c)
  {
    hide Run;
    RunAppend(s, a, b);
    RunAppend(s, a + b, c);
  }

  lemma NothingYet()
    ensures EMPTY_STATE.nodes == map[] && EMPTY_STATE.edges == Dict([], map[])
    ensures forall p :: Kids(EMPTY_STATE, p) == []
  {
  }

  lemma {:induction false} TargetsHolds(kids: seq<NodeId>, edges: seq<Edge>, p: NodeId, x: NodeId)
    ensures x in Targets(kids, edges, p) <==>
      x in kids || exists e :: e in edges && e.edgeType.CONTAINS? && e.source == p && e.target == x
    decreases |edges|
  {
    if edges != [] {
      var e := edges[0];
      assert forall f :: f in edges <==> f == e || f in edges[1..];
      TargetsHolds(Attach(kids, e, p), edges[1..], p, x);
    }
  }

  /** p contains, by an edge, a live node of the subtree. */
  ghost predicate ContainsLive(s: State, ids: seq<NodeId>, p: NodeId) {
    exists e :: e in s.edges.vals && s.edges.vals[e].edgeType.CONTAINS? && s.edges.vals[e].source == p
      && s.edges.vals[e].target in ids && s.edges.vals[e].target in s.nodes
  }

  lemma {:induction false} LiveChildrenWithin(n: map<NodeId, Node>, nodes: map<NodeId, Node>, kids: seq<NodeId>)
    requires forall k :: k in kids ==> Get(n, k) == Get(nodes, k)
    ensures LiveChildren(n, LiveIds(nodes, kids)) == LiveChildren(nodes, kids)
  {
    if kids != [] {
      var k, rest := kids[0], LiveIds(nodes, kids[1..]);
      assert k in kids;
      LiveChildrenWithin(n, nodes, kids[1..]);
      if k in nodes {
        assert LiveIds(nodes, kids) == [k] + rest;
        assert ([k] + rest)[1..] == rest;
      } else {
        assert LiveIds(nodes, kids) == rest;
      }
    }
  }

  lemma {:induction false} NoLiveChildren(nodes: map<NodeId, Node>, kids: seq<NodeId>)
    ensures LiveChildren(nodes, kids) == [] <==> forall k :: k in kids ==> k !in nodes
    ensures LiveChildren(nodes, kids) == [] <==> LiveIds(nodes, kids) == []
  {
    if kids != [] {
      NoLiveChildren(nodes, kids[1..]);
      assert forall k :: k in kids <==> k == kids[0] || k in kids[1..];
    }
  }

  lemma TargetsLive(s: State, ids: seq<NodeId>, p: NodeId)
    requires EdgesKeyed(s) && s.edges.Wf() && Distinct(ids) && p in ids
    ensures (exists x :: x in Targets([], OutEdges(s, ids), p) && x in Restrict(s.nodes, ids)) <==>
      ContainsLive(s, ids, p)
  {
    var edges, n := OutEdges(s, ids), Restrict(s.nodes, ids);
    OutEdgesStored(s, ids);
    hide Targets, OutEdges, Distinct, EdgesKeyed;
    if x :| x in Targets([], edges, p) && x in n {
      TargetsHolds([], edges, p, x);
    } else if ContainsLive(s, ids, p) {
      var e :| e in s.edges.vals && s.edges.vals[e].edgeType.CONTAINS? && s.edges.vals[e].source == p
        && s.edges.vals[e].target in ids && s.edges.vals[e].target in s.nodes;
      OutEdgesAll(s, ids, e);
      TargetsHolds([], edges, p, s.edges.vals[e].target);
    }
  }

  lemma {:induction false} EdgesFromAll(keys: seq<EdgeId>, m: map<EdgeId, Edge>, e: EdgeId)
    requires e in keys && e in m
    ensures m[e] in EdgesFrom(keys, m, m[e].source)
  {
    if keys[0] != e {
      EdgesFromAll(keys[1..], m, e);
    }
  }

  lemma {:induction false} OutEdgesAll(s: State, ids: seq<NodeId>, e: EdgeId)
    requires s.edges.Wf() && e in s.edges.vals && s.edges.vals[e].source in ids
    ensures s.edges.vals[e] in OutEdges(s, ids)
  {
    if ids[0] == s.edges.vals[e].source {
      EdgesFromAll(s.edges.keys, s.edges.vals, e);
      hide EdgesFrom;
    } else {
      OutEdgesAll(s, ids[1..], e);
    }
  }

  /** The rebuilt child list of a member is the original one exactly when the member still lists
      a live child, or no edge claims one for it. */
  lemma SnapshotChildren(s: State, ids: seq<NodeId>, t: State, p: NodeId)
    requires NodesKeyed(s) && EdgesKeyed(s) && s.edges.Wf() && Distinct(ids) && ClosedUnderKids(s, ids) && p in ids
    requires t.nodes == Restrict(s.nodes, ids)
    requires Kids(t, p) == AfterOrders(s, ids, p, Targets([], OutEdges(s, ids), p))
    ensures GetChildren(t, p) == GetChildren(s, p) <==> GetChildren(s, p) != [] || !ContainsLive(s, ids, p)
  {
    var kids := Kids(s, p);
    NoLiveChildren(s.nodes, kids);
    if LiveIds(s.nodes, kids) != [] {
      LiveChildrenWithin(t.nodes, s.nodes, kids);
    } else {
      TargetsLive(s, ids, p);
      NoLiveChildren(t.nodes, Kids(t, p));
    }
  }

  // ----- the journal text and its acceptance -----

  lemma {:induction false} NormalCreations(s: State, ids: seq<NodeId>, now: Time)
    ensures MapSeq(NormalOp, NodeCreations(s, ids, now)) == NodeCreations(NormalState(s), ids, now)
  {
    if ids != [] {
      NormalCreations(s, ids[1..], now);
      hide NormalNode;
    }
  }

  lemma {:induction false} NormalEdges(edges: seq<Edge>, now: Time)
    ensures MapSeq(NormalOp, EdgeCreations(edges, now)) == EdgeCreations(edges, now)
  {
    if edges != [] {
      NormalEdges(edges[1..], now);
    }
  }

  lemma {:induction false} NormalOrders(s: State, ids: seq<NodeId>, now: Time)
    ensures MapSeq(NormalOp, Orders(s, ids, now)) == Orders(NormalState(s), ids, now)
  {
    if ids != [] {
      NormalOrders(s, ids[1..], now);
      SameLiveIds(s.nodes, NormalState(s).nodes, Kids(s, ids[0]));
      hide LiveIds, NormalNode;
    }
  }

  lemma {:induction false} SameLiveIds(a: map<NodeId, Node>, b: map<NodeId, Node>, ids: seq<NodeId>)
    requires a.Keys == b.Keys
    ensures LiveIds(a, ids) == LiveIds(b, ids)
  {
    if ids != [] {
      SameLiveIds(a, b, ids[1..]);
      assert ids[0] in a.Keys <==> ids[0] in b.Keys;
    }
  }

  lemma {:induction false} SameOutEdges(s: State, t: State, ids: seq<NodeId>)
    requires s.edges == t.edges
    ensures OutEdges(s, ids) == OutEdges(t, ids)
  {
    if ids != [] {
      SameOutEdges(s, t, ids[1..]);
      hide GetEdgesFrom;
      assert GetEdgesFrom(s, ids[0]) == GetEdgesFrom(t, ids[0]) by { SameEdgesFrom(s, t, ids[0]); }
    }
  }

  lemma SameEdgesFrom(s: State, t: State, p: NodeId)
    requires s.edges == t.edges
    ensures GetEdgesFrom(s, p) == GetEdgesFrom(t, p)
  {
  }

  lemma MapThree<A(!new), B(!new)>(f: A -> B, a: seq<A>, b: seq<A>, c: seq<A>)
    ensures MapSeq(f, a + b + c) == MapSeq(f, a) + MapSeq(f, b) + MapSeq(f, c)
  {
  }

  /** Decoding the snapshot of a state gives the snapshot of the decoded state. */
  lemma NormalSnapshot(s: State, ids: seq<NodeId>, now: Time)
    ensures MapSeq(NormalOp, SnapshotOps(s, ids, now)) == SnapshotOps(NormalState(s), ids, now)
  {
    NormalCreations(s, ids, now);
    NormalEdges(OutEdges(s, ids), now);
    NormalOrders(s, ids, now);
    SameOutEdges(s, NormalState(s), ids);
    hide NodeCreations, EdgeCreations, Orders, OutEdges, NormalOp, NormalState, MapSeq;
    MapThree(NormalOp, NodeCreations(s, ids, now), EdgeCreations(OutEdges(s, ids), now), Orders(s, ids, now));
  }

  // ----- acceptance -----

  lemma {:induction false} CreationsDistinct(s: State, ids: seq<NodeId>, now: Time)
    requires NodesKeyed(s) && Distinct(ids)
    ensures var r := NodeCreations(s, ids, now);
      Distinct(r) && forall op :: op in r ==> op.CreateNode? && op.parentOps == [] && op.node.meta.id in ids
  {
    if ids != [] {
      CreationsDistinct(s, ids[1..], now);
      assert ids[0] !in ids[1..];
      if ids[0] in s.nodes {
        DistinctCons(CreateNode(s.nodes[ids[0]], [], now, None), NodeCreations(s, ids[1..], now));
      }
      hide Distinct;
    }
  }

  lemma {:induction false} EdgeCreationsDistinct(edges: seq<Edge>, now: Time)
    requires Distinct(edges)
    ensures var r := EdgeCreations(edges, now);
      Distinct(r) && forall op :: op in r ==> op.CreateEdge? && op.parentOps == [] && op.edge in edges
  {
    if edges != [] {
      EdgeCreationsDistinct(edges[1..], now);
      assert edges[0] !in edges[1..];
      DistinctCons(CreateEdge(edges[0], [], now, None), EdgeCreations(edges[1..], now));
      hide Distinct;
    }
  }

  lemma {:induction false} OrdersDistinct(s: State, ids: seq<NodeId>, now: Time)
    requires Distinct(ids)
    ensures var r := Orders(s, ids, now);
      Distinct(r) && forall op :: op in r ==> op.ReorderChildren? && op.parentOps == [] && op.parentId in ids
  {
    if ids != [] {
      OrdersDistinct(s, ids[1..], now);
      assert ids[0] !in ids[1..];
      DistinctCons(ReorderChildren(ids[0], LiveIds(s.nodes, Kids(s, ids[0])), [], now, None), Orders(s, ids[1..], now));
      hide Distinct, LiveIds;
    }
  }

  lemma SnapshotDistinct(s: State, ids: seq<NodeId>, now: Time)
    requires NodesKeyed(s) && EdgesKeyed(s) && s.edges.Wf() && Distinct(ids)
    ensures var r := SnapshotOps(s, ids, now);
      Distinct(r) && forall op :: op in r ==> op.parentOps == []
  {
    OutEdgesStored(s, ids);
    hide Distinct, NodesKeyed, EdgesKeyed, OutEdges, NodeCreations, EdgeCreations, Orders;
    CreationsDistinct(s, ids, now);
    EdgeCreationsDistinct(OutEdges(s, ids), now);
    OrdersDistinct(s, ids, now);
    var a, b, c := NodeCreations(s, ids, now), EdgeCreations(OutEdges(s, ids), now), Orders(s, ids, now);
    DistinctAppend(a, b);
    DistinctAppend(a + b, c);
  }

  lemma NormalOnce(op: Operation)
    ensures NormalOp(NormalOp(op)) == NormalOp(op)
  {
    OperationRoundTrip(op);
    DecodedOpNormal(OperationToJson(op));
    hide NormalOp, OperationToJson, OperationFromJson;
  }

  lemma NormalStateKeyed(s: State)
    requires NodesKeyed(s) && EdgesKeyed(s)
    ensures NodesKeyed(NormalState(s)) && EdgesKeyed(NormalState(s))
  {
    var n := NormalState(s);
    assert n.nodes.Keys == s.nodes.Keys;
    forall id | id in n.nodes ensures n.nodes[id].meta.id == id { NormalNodeKeepsMeta(s.nodes[id]); }
  }

  /** An empty log accepts every operation of a decoded snapshot. */
  lemma SnapshotIsFresh(s: State, ids: seq<NodeId>, now: Time)
    requires NodesKeyed(s) && EdgesKeyed(s) && s.edges.Wf() && Distinct(ids)
    ensures FreshBatch([], SnapshotOps(NormalState(s), ids, now))
  {
    var ops := SnapshotOps(NormalState(s), ids, now);
    NormalStateKeyed(s);
    SnapshotDistinct(NormalState(s), ids, now);
    NormalSnapshot(s, ids, now);
    hide ComputeOperationId, NormalOp, SnapshotOps, NodesKeyed, EdgesKeyed, Dict.Wf, NormalState;
    forall i | 0 <= i < |ops| ensures NormalOp(ops[i]) == ops[i] {
      NormalOnce(SnapshotOps(s, ids, now)[i]);
    }
    forall i | 0 <= i < |ops| ensures ops[i].parentOps == [] { assert ops[i] in ops; }
    forall i, j | 0 <= i < j < |ops| ensures ComputeOperationId(ops[i]) != ComputeOperationId(ops[j]) {
      DifferentIds(ops[i], ops[j]);
    }
  }

  /** The lines are readable, and hold these operations. */
  ghost predicate Holds(lines: seq<Json>, ops: seq<Operation>) {
    |lines| == |ops| && forall i :: 0 <= i < |lines| ==> OperationFromJson(lines[i]) == Some(ops[i])
  }

  lemma HoldsRest(lines: seq<Json>, ops: seq<Operation>)
    requires Holds(lines, ops) && lines != []
    ensures OperationFromJson(lines[0]) == Some(ops[0]) && Holds(lines[1..], ops[1..])
  {
    hide OperationFromJson;
  }

  lemma {:induction false} ImportFresh(log: seq<Entry>, lines: seq<Json>, ops: seq<Operation>)
    requires Holds(lines, ops) && FreshBatch(log, ops)
    ensures var r := Import(log, lines);
      r.error.None? && Replay(r.log) == Run(Replay(log), ops)
    decreases |lines|
  {
    hide Holds, FreshBatch, OperationFromJson, Rejection, Step, NewEntry, Replay;
    if lines == [] {
      assert ops == [] by { HoldsLength(lines, ops); }
    } else {
      HoldsLength(lines, ops);
      HoldsRest(lines, ops);
      FreshRest(Core(log, 0), ops);
      ReplayOneMore(log, NewEntry(ops[0]));
      ImportFresh(log + [NewEntry(ops[0])], lines[1..], ops[1..]);
    }
  }

  lemma HoldsLength(lines: seq<Json>, ops: seq<Operation>)
    requires Holds(lines, ops)
    ensures |lines| == |ops|
  {
  }

  lemma SnapshotLinesHold(s: State, ids: seq<NodeId>, now: Time)
    ensures Holds(MapSeq(OperationToJson, SnapshotOps(s, ids, now)), SnapshotOps(NormalState(s), ids, now))
  {
    NormalSnapshot(s, ids, now);
    hide OperationToJson, OperationFromJson, NormalOp, SnapshotOps, NormalState;
    var ops := SnapshotOps(s, ids, now);
    forall i | 0 <= i < |ops| ensures OperationFromJson(OperationToJson(ops[i])) == Some(NormalOp(ops[i])) {
      OperationRoundTrip(ops[i]);
    }
  }

  /** Importing a snapshot of part of a database into an empty one.  Nodes come back up to
      encoding, outgoing edges in their order; a child list comes back if and only if it still
      shows a live child or no containment edge leads from its owner to a live node exported. */
  lemma SnapshotRoundTrip(log: seq<Entry>, ids: seq<NodeId>, now: Time)
    requires Distinct(ids) && ClosedUnderKids(Replay(log), ids)
    ensures var s := Replay(log);
      var r := Import([], MapSeq(OperationToJson, SnapshotOps(s, ids, now)));
      var t := Replay(r.log);
      && r.error.None?
      && t.nodes == Restrict(NormalState(s).nodes, ids)
      && (forall p :: p in ids ==> GetEdgesFrom(t, p) == GetEdgesFrom(s, p))
      && (forall p :: p in ids ==>
        (GetChildren(t, p) == GetChildren(NormalState(s), p) <==> GetChildren(s, p) != [] || !ContainsLive(s, ids, p)))
  {
    var s := Replay(log);
    var n := NormalState(s);
    ReplayNodesKeyed(log);
    ReplayEdgesKeyed(log);
    ReplayWf(log);
    NormalStateKeyed(s);
    SnapshotLinesHold(s, ids, now);
    SnapshotIsFresh(s, ids, now);
    hide OperationToJson, SnapshotOps, Replay, Run, Import, Holds, FreshBatch, NodesKeyed, EdgesKeyed, Restrict,
      EdgesFrom, Distinct, GetChildren, GetEdgesFrom;
    ImportFresh([], MapSeq(OperationToJson, SnapshotOps(s, ids, now)), SnapshotOps(n, ids, now));
    ReplayNothing();
    SnapshotBuilds(n, ids, now);
    var t := Run(EMPTY_STATE, SnapshotOps(n, ids, now));
    forall p | p in ids
      ensures GetEdgesFrom(t, p) == GetEdgesFrom(s, p)
      ensures GetChildren(t, p) == GetChildren(n, p) <==> GetChildren(s, p) != [] || !ContainsLive(s, ids, p)
    {
      SameEdgesFrom(s, n, p);
      NormalChildren(s, ids, t, p);
    }
  }

  lemma ReplayNothing()
    ensures Replay([]) == EMPTY_STATE
  {
  }

  lemma NormalChildren(s: State, ids: seq<NodeId>, t: State, p: NodeId)
    requires NodesKeyed(NormalState(s)) && EdgesKeyed(NormalState(s)) && s.edges.Wf()
    requires Distinct(ids) && ClosedUnderKids(s, ids)
    requires p in ids && t.nodes == Restrict(NormalState(s).nodes, ids)
    requires Kids(t, p) == AfterOrders(NormalState(s), ids, p, Targets([], OutEdges(NormalState(s), ids), p))
    ensures GetChildren(t, p) == GetChildren(NormalState(s), p) <==> GetChildren(s, p) != [] || !ContainsLive(s, ids, p)
  {
    var n := NormalState(s);
    assert forall q :: Kids(n, q) == Kids(s, q);
    NoLiveChildren(s.nodes, Kids(s, p));
    NoLiveChildren(n.nodes, Kids(n, p));
    assert n.nodes.Keys == s.nodes.Keys;
    hide NodesKeyed, EdgesKeyed, Restrict, Distinct, LiveChildren, LiveIds, Targets, OutEdges, Kids, AfterOrders;
    SnapshotChildren(n, ids, t, p);
  }

  /** How the condition comes to fail: moving an only child away leaves its containment edge. */
  lemma MoveLeavesEdgeBehind(s: State, e: Entry, p: NodeId, ids: seq<NodeId>, edge: EdgeId)
    requires e.op.MoveNode? && e.op.newParentId != p && Kids(s, p) == [e.op.nodeId]
    requires e.op.nodeId in s.nodes && e.op.nodeId in ids
    requires edge in s.edges.vals && s.edges.vals[edge].edgeType.CONTAINS?
    requires s.edges.vals[edge].source == p && s.edges.vals[edge].target == e.op.nodeId
    ensures var t := Step(s, e); GetChildren(t, p) == [] && ContainsLive(t, ids, p)
  {
    StepParts(s, e);
    StepKids(s, e, p);
    hide Step;
    var t := Step(s, e);
    assert t.edges.vals[edge] == s.edges.vals[edge];
  }
}
