/** The materialised projection of the log: src/uaf/db/materializer.py. */
module Materializer {
  import opened Collections
  import opened JsonValues
  import opened Nodes
  import opened Operations
  import opened OperationLogs

  /** Value of a MaterializedState object. */
  datatype State = State(
    nodes: map<NodeId, Node>,
    edges: Dict<EdgeId, Edge>,
    children: Dict<NodeId, seq<NodeId>>,
    lastOp: map<NodeId, OperationId>)

  const EMPTY_STATE := State(map[], Dict([], map[]), Dict([], map[]), map[])

  /** The dictionaries list each of their keys once. */
  ghost predicate Wf(s: State) {
    s.edges.Wf() && s.children.Wf()
  }

  /** `children_order.get(p, [])` */
  function Kids(s: State, p: NodeId): seq<NodeId> {
    if p in s.children.vals then s.children.vals[p] else []
  }

  // ----- what each operation does, as functions on values -----

  function SetKids(s: State, p: NodeId, kids: seq<NodeId>): State {
    s.(children := s.children.Put(p, kids))
  }

  /** Every list loses its first occurrence of `id`. */
  function Unlist(children: Dict<NodeId, seq<NodeId>>, id: NodeId): Dict<NodeId, seq<NodeId>> {
    Dict(children.keys, map p | p in children.vals :: Remove(children.vals[p], id))
  }

  function PutNode(s: State, node: Node, id: OperationId): State {
    s.(nodes := s.nodes[node.meta.id := node], lastOp := s.lastOp[node.meta.id := id])
  }

  function DropNode(s: State, id: NodeId): State {
    s.(nodes := s.nodes - {id}, lastOp := s.lastOp - {id}, children := Unlist(s.children, id).Pop(id))
  }

  /** `setdefault(parent, [])`, then append unless already listed. */
  function Enlist(s: State, parent: NodeId, child: NodeId): State {
    SetKids(s, parent, if child in Kids(s, parent) then Kids(s, parent) else Kids(s, parent) + [child])
  }

  function PutEdge(s: State, edge: Edge): State {
    var s1 := s.(edges := s.edges.Put(edge.id, edge));
    if edge.edgeType.CONTAINS? then Enlist(s1, edge.source, edge.target) else s1
  }

  function DropEdge(s: State, id: EdgeId): State {
    if id !in s.edges.vals then s
    else
      var edge := s.edges.vals[id];
      var s1 := s.(edges := s.edges.Pop(id));
      if edge.edgeType.CONTAINS? && edge.source in s.children.vals
      then SetKids(s1, edge.source, Remove(Kids(s, edge.source), edge.target))
      else s1
  }

  function Relocate(s: State, id: NodeId, newParent: NodeId): State {
    Enlist(s.(children := Unlist(s.children, id)), newParent, id)
  }

  /** StateMaterializer.apply */
  function Step(s: State, e: Entry): State {
    match e.op
    case CreateNode(node, _, _, _) => PutNode(s, node, e.id)
    case UpdateNode(node, _, _, _) => PutNode(s, node, e.id)
    case DeleteNode(id, _, _, _) => DropNode(s, id)
    case CreateEdge(edge, _, _, _) => PutEdge(s, edge)
    case DeleteEdge(id, _, _, _) => DropEdge(s, id)
    case MoveNode(id, parent, _, _, _) => Relocate(s, id, parent)
    case ReorderChildren(parent, order, _, _, _) => SetKids(s, parent, order)
  }

  /** StateMaterializer.replay: a fold from the empty state. */
  function Replay(log: seq<Entry>): State {
    if log == [] then EMPTY_STATE else Step(Replay(Init(log)), Last(log))
  }

  lemma {:induction false} UnlistKeepsWf(d: Dict<NodeId, seq<NodeId>>, id: NodeId)
    requires d.Wf()
    ensures Unlist(d, id).Wf()
  {
  }

  lemma StepKeepsWf(s: State, e: Entry)
    requires Wf(s)
    ensures Wf(Step(s, e))
  {
    hide Dict.Wf, Dict.Put, Dict.Pop, Remove;
    match e.op
    case CreateNode(node, _, _, _) =>
    case UpdateNode(node, _, _, _) =>
    case DeleteNode(id, _, _, _) =>
      UnlistKeepsWf(s.children, id);
      Unlist(s.children, id).PopWf(id);
    case CreateEdge(edge, _, _, _) =>
      s.edges.PutWf(edge.id, edge);
      var kids := Kids(s, edge.source);
      s.children.PutWf(edge.source, if edge.target in kids then kids else kids + [edge.target]);
    case DeleteEdge(id, _, _, _) =>
      s.edges.PopWf(id);
      if id in s.edges.vals {
        var edge := s.edges.vals[id];
        s.children.PutWf(edge.source, Remove(Kids(s, edge.source), edge.target));
      }
    case MoveNode(id, parent, _, _, _) =>
      var u := s.(children := Unlist(s.children, id));
      UnlistKeepsWf(s.children, id);
      u.children.PutWf(parent, if id in Kids(u, parent) then Kids(u, parent) else Kids(u, parent) + [id]);
    case ReorderChildren(parent, order, _, _, _) =>
      s.children.PutWf(parent, order);
  }

  // ----- reading a missing child list as an empty one -----

  function AddChild(kids: seq<NodeId>, child: NodeId): seq<NodeId> {
    if child in kids then kids else kids + [child]
  }

  function NodesAfter(nodes: map<NodeId, Node>, op: Operation): map<NodeId, Node> {
    match op
    case CreateNode(node, _, _, _) => nodes[node.meta.id := node]
    case UpdateNode(node, _, _, _) => nodes[node.meta.id := node]
    case DeleteNode(id, _, _, _) => nodes - {id}
    case _ => nodes
  }

  function EdgesAfter(edges: map<EdgeId, Edge>, op: Operation): map<EdgeId, Edge> {
    match op
    case CreateEdge(edge, _, _, _) => edges[edge.id := edge]
    case DeleteEdge(id, _, _, _) => edges - {id}
    case _ => edges
  }

  /** The list of parent p after the operation, from its list before. */
  function KidsAfter(edges: map<EdgeId, Edge>, op: Operation, p: NodeId, kids: seq<NodeId>): seq<NodeId> {
    match op
    case DeleteNode(id, _, _, _) => if p == id then [] else Remove(kids, id)
    case CreateEdge(edge, _, _, _) =>
      if edge.edgeType.CONTAINS? && edge.source == p then AddChild(kids, edge.target) else kids
    case DeleteEdge(id, _, _, _) =>
      if id in edges && edges[id].edgeType.CONTAINS? && edges[id].source == p
      then Remove(kids, edges[id].target) else kids
    case MoveNode(id, parent, _, _, _) =>
      if p == parent then AddChild(Remove(kids, id), id) else Remove(kids, id)
    case ReorderChildren(parent, order, _, _, _) => if p == parent then order else kids
    case _ => kids
  }

  function LastOpAfter(lastOp: map<NodeId, OperationId>, e: Entry): map<NodeId, OperationId> {
    match e.op
    case CreateNode(node, _, _, _) => lastOp[node.meta.id := e.id]
    case UpdateNode(node, _, _, _) => lastOp[node.meta.id := e.id]
    case DeleteNode(id, _, _, _) => lastOp - {id}
    case _ => lastOp
  }

  lemma StepLastOp(s: State, e: Entry)
    ensures Step(s, e).lastOp == LastOpAfter(s.lastOp, e)
  {
    hide Unlist, Remove, Enlist, Dict.Put, Dict.Pop, Kids;
    match e.op
    case CreateEdge(edge, _, _, _) => EnlistLastOp(s.(edges := s.edges.Put(edge.id, edge)), edge.source, edge.target);
    case MoveNode(id, p, _, _, _) => EnlistLastOp(s.(children := Unlist(s.children, id)), p, id);
    case _ =>
  }

  lemma EnlistLastOp(s: State, parent: NodeId, child: NodeId)
    ensures Enlist(s, parent, child).lastOp == s.lastOp
  {
  }

  lemma {:induction false} StepParts(s: State, e: Entry)
    ensures Step(s, e).nodes == NodesAfter(s.nodes, e.op)
    ensures Step(s, e).edges.vals == EdgesAfter(s.edges.vals, e.op)
  {
    hide Unlist, Remove, AddChild;
    match e.op
    case CreateEdge(edge, _, _, _) => EnlistParts(s.(edges := s.edges.Put(edge.id, edge)), edge.source, edge.target);
    case MoveNode(id, p, _, _, _) => EnlistParts(s.(children := Unlist(s.children, id)), p, id);
    case _ =>
  }

  lemma EnlistParts(s: State, parent: NodeId, child: NodeId)
    ensures Enlist(s, parent, child).nodes == s.nodes && Enlist(s, parent, child).edges == s.edges
  {
  }

  lemma UnlistKids(s: State, id: NodeId, p: NodeId)
    ensures Kids(s.(children := Unlist(s.children, id)), p) == Remove(Kids(s, p), id)
  {
  }

  lemma EnlistKids(s: State, parent: NodeId, child: NodeId, p: NodeId)
    ensures Kids(Enlist(s, parent, child), p) == if p == parent then AddChild(Kids(s, p), child) else Kids(s, p)
  {
  }

  lemma DropNodeKids(s: State, id: NodeId, p: NodeId)
    ensures Kids(DropNode(s, id), p) == if p == id then [] else Remove(Kids(s, p), id)
  {
    UnlistKids(s, id, p);
  }

  lemma DropEdgeKids(s: State, id: EdgeId, p: NodeId)
    ensures Kids(DropEdge(s, id), p) ==
      if id in s.edges.vals && s.edges.vals[id].edgeType.CONTAINS? && s.edges.vals[id].source == p
      then Remove(Kids(s, p), s.edges.vals[id].target) else Kids(s, p)
  {
  }

  lemma StepKids(s: State, e: Entry, p: NodeId)
    ensures Kids(Step(s, e), p) == KidsAfter(s.edges.vals, e.op, p, Kids(s, p))
  {
    hide Remove, Unlist, Enlist, DropNode, DropEdge, AddChild;
    match e.op
    case CreateNode(node, _, _, _) =>
    case UpdateNode(node, _, _, _) =>
    case DeleteNode(id, _, _, _) => DropNodeKids(s, id, p);
    case CreateEdge(edge, _, _, _) =>
      EnlistKids(s.(edges := s.edges.Put(edge.id, edge)), edge.source, edge.target, p);
    case DeleteEdge(id, _, _, _) => DropEdgeKids(s, id, p);
    case MoveNode(id, parent, _, _, _) =>
      UnlistKids(s, id, p);
      EnlistKids(s.(children := Unlist(s.children, id)), parent, id, p);
    case ReorderChildren(parent, order, _, _, _) =>
  }

  // ----- the effects again, in terms of positions and keys -----

  /** r is the list without the first occurrence of x, if there is one. */
  ghost predicate FirstGone(xs: seq<NodeId>, x: NodeId, r: seq<NodeId>) {
    if x !in xs then r == xs
    else exists k :: 0 <= k < |xs| && xs[k] == x && x !in xs[..k] && r == xs[..k] + xs[k + 1..]
  }

  /** r is the list with x at the end, or the same list when it holds x. */
  ghost predicate AtEnd(xs: seq<NodeId>, x: NodeId, r: seq<NodeId>) {
    if x in xs then r == xs else |r| == |xs| + 1 && r[..|xs|] == xs && r[|xs|] == x
  }

  lemma RemoveIsFirstGone(xs: seq<NodeId>, x: NodeId)
    ensures FirstGone(xs, x, Remove(xs, x))
  {
    if x in xs {
      var k := RemovedAt(xs, x);
    }
  }

  lemma {:induction false} RemovedAt(xs: seq<NodeId>, x: NodeId) returns (k: nat)
    requires x in xs
    ensures k < |xs| && xs[k] == x && x !in xs[..k] && Remove(xs, x) == xs[..k] + xs[k + 1..]
  {
    if xs[0] == x {
      k := 0;
    } else {
      var rest := xs[1..];
      var j := RemovedAt(rest, x);
      k := j + 1;
      assert Remove(xs, x) == [xs[0]] + Remove(rest, x);
      hide Remove;
      assert xs[..k] == [xs[0]] + rest[..j] && xs[k + 1..] == rest[j + 1..];
    }
  }

  /** What becomes of the list of p. */
  ghost predicate ListEffect(s: State, op: Operation, p: NodeId, xs: seq<NodeId>, r: seq<NodeId>) {
    match op
    case DeleteNode(id, _, _, _) => if p == id then r == [] else FirstGone(xs, id, r)
    case CreateEdge(edge, _, _, _) =>
      if edge.edgeType.CONTAINS? && edge.source == p then AtEnd(xs, edge.target, r) else r == xs
    case DeleteEdge(id, _, _, _) =>
      if id in s.edges.vals && s.edges.vals[id].edgeType.CONTAINS? && s.edges.vals[id].source == p
      then FirstGone(xs, s.edges.vals[id].target, r) else r == xs
    case MoveNode(id, parent, _, _, _) =>
      if p == parent then exists mid :: FirstGone(xs, id, mid) && AtEnd(mid, id, r) else FirstGone(xs, id, r)
    case ReorderChildren(parent, order, _, _, _) => r == if p == parent then order else xs
    case _ => r == xs
  }

  /** What becomes of the node stored under x and of the edge stored under e. */
  ghost predicate KeyEffect(op: Operation, x: NodeId, n: Option<Node>, n': Option<Node>, e: EdgeId, d: Option<Edge>,
                            d': Option<Edge>) {
    && n' == (if (op.CreateNode? || op.UpdateNode?) && op.node.meta.id == x then Some(op.node)
              else if op.DeleteNode? && op.nodeId == x then None else n)
    && d' == (if op.CreateEdge? && op.edge.id == e then Some(op.edge)
              else if op.DeleteEdge? && op.edgeId == e then None else d)
  }

  /** One operation, key by key and list by list. */
  lemma StepEffects(s: State, e: Entry, x: NodeId, d: EdgeId, p: NodeId)
    ensures var t := Step(s, e);
      && KeyEffect(e.op, x, Get(s.nodes, x), Get(t.nodes, x), d, Get(s.edges.vals, d), Get(t.edges.vals, d))
      && ListEffect(s, e.op, p, Kids(s, p), Kids(t, p))
  {
    StepParts(s, e);
    StepKids(s, e, p);
    hide Step, Kids, Remove, FirstGone;
    match e.op
    case DeleteNode(id, _, _, _) => RemoveIsFirstGone(Kids(s, p), id);
    case DeleteEdge(id, _, _, _) =>
      if id in s.edges.vals { RemoveIsFirstGone(Kids(s, p), s.edges.vals[id].target); }
    case MoveNode(id, parent, _, _, _) => RemoveIsFirstGone(Kids(s, p), id);
    case _ =>
  }

  /** Same nodes, same edges, same child lists. */
  ghost predicate Equiv(a: State, b: State) {
    && a.nodes == b.nodes
    && a.edges.vals == b.edges.vals
    && forall p :: Kids(a, p) == Kids(b, p)
  }

  /** Every operation acts alike on equivalent states. */
  lemma StepCongruent(a: State, b: State, ea: Entry, eb: Entry)
    requires Equiv(a, b) && SameAction(ea.op, eb.op)
    ensures Equiv(Step(a, ea), Step(b, eb))
  {
    hide Step, Kids;
    StepParts(a, ea);
    StepParts(b, eb);
    forall p ensures Kids(Step(a, ea), p) == Kids(Step(b, eb), p) {
      StepKids(a, ea, p);
      StepKids(b, eb, p);
    }
  }

  // ----- runs of operations -----

  function Run(s: State, ops: seq<Operation>): State
    decreases |ops|
  {
    if ops == [] then s else Run(Step(s, NewEntry(ops[0])), ops[1..])
  }

  lemma {:induction false} RunAppend(s: State, a: seq<Operation>, b: seq<Operation>)
    ensures Run(s, a + b) == Run(Run(s, a), b)
    decreases |a|
  {
    hide Step, NewEntry;
    if a == [] {
      assert a + b == b;
    } else {
      assert (a + b)[1..] == a[1..] + b;
      RunAppend(Step(s, NewEntry(a[0])), a[1..], b);
    }
  }

  /** The object itself: four dictionaries changed in place. */
  class StateMaterializer {
    var nodes: map<NodeId, Node>
    var edges: Dict<EdgeId, Edge>
    var childrenOrder: Dict<NodeId, seq<NodeId>>
    var nodeLastOp: map<NodeId, OperationId>

    function View(): State
      reads this
    {
      State(nodes, edges, childrenOrder, nodeLastOp)
    }

    ghost predicate Valid()
      reads this
    {
      Wf(View())
    }

    constructor ()
      ensures Valid() && View() == EMPTY_STATE
    {
      nodes, edges, childrenOrder, nodeLastOp := map[], Dict([], map[]), Dict([], map[]), map[];
    }

    method Apply(e: Entry)
      requires Valid()
      modifies this
      ensures Valid()
      ensures View() == Step(old(View()), e)
    {
      StepKeepsWf(View(), e);
      match e.op
      case CreateNode(node, _, _, _) => HandlePutNode(node, e.id);
      case UpdateNode(node, _, _, _) => HandlePutNode(node, e.id);
      case DeleteNode(id, _, _, _) => HandleDeleteNode(id);
      case CreateEdge(edge, _, _, _) => HandleCreateEdge(edge);
      case DeleteEdge(id, _, _, _) => HandleDeleteEdge(id);
      case MoveNode(id, parent, _, _, _) => HandleMoveNode(id, parent);
      case ReorderChildren(parent, order, _, _, _) => childrenOrder := childrenOrder.Put(parent, order);
    }

    /** Creation and update do the same two assignments. */
    method HandlePutNode(node: Node, id: OperationId)
      modifies this
      ensures View() == PutNode(old(View()), node, id)
    {
      nodes := nodes[node.meta.id := node];
      nodeLastOp := nodeLastOp[node.meta.id := id];
    }

    /** The loop shared by deletion and move: `if id in children: children.remove(id)`. */
    method RemoveFromLists(id: NodeId)
      requires childrenOrder.Wf()
      modifies this`childrenOrder
      ensures childrenOrder == Unlist(old(childrenOrder), id)
    {
      var parents := childrenOrder.keys;
      for i := 0 to |parents|
        invariant childrenOrder.keys == parents && childrenOrder.vals.Keys == old(childrenOrder.vals.Keys)
        invariant forall j :: 0 <= j < i ==>
          childrenOrder.vals[parents[j]] == Remove(old(childrenOrder).vals[parents[j]], id)
        invariant forall j :: i <= j < |parents| ==>
          childrenOrder.vals[parents[j]] == old(childrenOrder).vals[parents[j]]
      {
        var children := childrenOrder.vals[parents[i]];
        if id in children {
          childrenOrder := childrenOrder.(vals := childrenOrder.vals[parents[i] := Remove(children, id)]);
        }
      }
    }

    method HandleDeleteNode(id: NodeId)
      requires Valid()
      modifies this
      ensures View() == DropNode(old(View()), id)
    {
      nodes := nodes - {id};
      nodeLastOp := nodeLastOp - {id};
      RemoveFromLists(id);
      childrenOrder := childrenOrder.Pop(id);
    }

    method HandleCreateEdge(edge: Edge)
      modifies this
      ensures View() == PutEdge(old(View()), edge)
    {
      edges := edges.Put(edge.id, edge);
      if edge.edgeType.CONTAINS? {
        Append(edge.source, edge.target);
      }
    }

    method Append(parent: NodeId, child: NodeId)
      modifies this`childrenOrder
      ensures View() == Enlist(old(View()), parent, child)
    {
      var children := if parent in childrenOrder.vals then childrenOrder.vals[parent] else [];
      if child !in children {
        children := children + [child];
      }
      childrenOrder := childrenOrder.Put(parent, children);
    }

    method HandleDeleteEdge(id: EdgeId)
      modifies this
      ensures View() == DropEdge(old(View()), id)
    {
      if id in edges.vals {
        var edge := edges.vals[id];
        edges := edges.Pop(id);
        if edge.edgeType.CONTAINS? && edge.source in childrenOrder.vals {
          childrenOrder := childrenOrder.Put(edge.source, Remove(childrenOrder.vals[edge.source], edge.target));
        }
      }
    }

    method HandleMoveNode(id: NodeId, newParent: NodeId)
      requires Valid()
      modifies this
      ensures View() == Relocate(old(View()), id, newParent)
    {
      RemoveFromLists(id);
      Append(newParent, id);
    }
  }
}
