/** Compensating operations: the backward searches and compute_inverse of src/uaf/db/undo.py,
    and exactly when applying an inverse restores the earlier graph. */
module Inverses {
  import opened Collections
  import opened JsonValues
  import opened Nodes
  import opened Operations
  import opened OperationLogs
  import opened Materializer

  // ----- searching a log prefix backwards -----

  /** Most recent version of a node written in the prefix. */
  function LastNode(prefix: seq<Entry>, id: NodeId): Option<Node> {
    if prefix == [] then None
    else
      var op := Last(prefix).op;
      if (op.CreateNode? || op.UpdateNode?) && op.node.meta.id == id then Some(op.node)
      else LastNode(Init(prefix), id)
  }

  function LastEdge(prefix: seq<Entry>, id: EdgeId): Option<Edge> {
    if prefix == [] then None
    else
      var op := Last(prefix).op;
      if op.CreateEdge? && op.edge.id == id then Some(op.edge) else LastEdge(Init(prefix), id)
  }

  /** Destination of the most recent move of a node. */
  function LastMove(prefix: seq<Entry>, id: NodeId): Option<NodeId> {
    if prefix == [] then None
    else
      var op := Last(prefix).op;
      if op.MoveNode? && op.nodeId == id then Some(op.newParentId) else LastMove(Init(prefix), id)
  }

  /** Most recently recorded order of a parent's children. */
  function LastOrder(prefix: seq<Entry>, parent: NodeId): Option<seq<NodeId>> {
    if prefix == [] then None
    else
      var op := Last(prefix).op;
      if op.ReorderChildren? && op.parentId == parent then Some(op.newOrder) else LastOrder(Init(prefix), parent)
  }

  /** The entries the searches look at: those before `before`, or the whole log. */
  function SearchSpace(log: seq<Entry>, before: Option<OperationId>): (r: seq<Entry>)
    ensures r <= log
  {
    if before.None? then log
    else if Position(log, before.value) < |log| then log[..Position(log, before.value)]
    else []
  }

  /** The search stops short of the entry it is given, and finds nothing for an unknown one. */
  lemma SearchSpaceAt(log: seq<Entry>, before: Option<OperationId>)
    requires ValidLog(log)
    ensures before.None? ==> SearchSpace(log, before) == log
    ensures forall k :: 0 <= k < |log| && before == Some(log[k].id) ==> SearchSpace(log, before) == log[..k]
    ensures before.Some? && before.value !in Ids(log) ==> SearchSpace(log, before) == []
  {
    hide ComputeOperationId;
    forall k | 0 <= k < |log| && before == Some(log[k].id) ensures SearchSpace(log, before) == log[..k] {
      PositionOfEntry(log, k);
    }
  }

  /** First parent in dictionary order whose list holds the node. */
  function FirstParent(keys: seq<NodeId>, lists: map<NodeId, seq<NodeId>>, id: NodeId): Option<NodeId> {
    if keys == [] then None
    else if keys[0] in lists && id in lists[keys[0]] then Some(keys[0])
    else FirstParent(keys[1..], lists, id)
  }

  ghost predicate ListsChild(lists: map<NodeId, seq<NodeId>>, p: NodeId, id: NodeId) {
    p in lists && id in lists[p]
  }

  /** Key i is the first whose list holds the node. */
  ghost predicate FirstListing(keys: seq<NodeId>, lists: map<NodeId, seq<NodeId>>, id: NodeId, i: int) {
    0 <= i < |keys| && ListsChild(lists, keys[i], id) && forall j :: 0 <= j < i ==> !ListsChild(lists, keys[j], id)
  }

  lemma {:induction false} FirstParentIsFirst(keys: seq<NodeId>, lists: map<NodeId, seq<NodeId>>, id: NodeId)
    ensures FirstParent(keys, lists, id).None? <==> forall p :: p in keys ==> !ListsChild(lists, p, id)
    ensures FirstParent(keys, lists, id).Some? ==> exists i :: FirstListing(keys, lists, id, i)
    ensures forall i :: FirstListing(keys, lists, id, i) ==> FirstParent(keys, lists, id) == Some(keys[i])
  {
    if keys != [] {
      var rest := keys[1..];
      FirstParentIsFirst(rest, lists, id);
      if ListsChild(lists, keys[0], id) {
        assert FirstListing(keys, lists, id, 0);
      } else {
        hide ListsChild;
        if i :| FirstListing(rest, lists, id, i) { assert FirstListing(keys, lists, id, i + 1); }
        forall i | FirstListing(keys, lists, id, i) ensures FirstListing(rest, lists, id, i - 1) {
          assert forall j :: 0 <= j < i - 1 ==> rest[j] == keys[j + 1];
        }
        assert forall p :: p in keys <==> p == keys[0] || p in rest;
      }
    }
  }

  // ----- which entry a search finds -----

  /** What an entry may be searched for. */
  datatype Kind = NodeWrite(node: NodeId) | EdgeWrite(edge: EdgeId) | NodeMove(moved: NodeId) | Reorder(parent: NodeId)

  predicate OfKind(op: Operation, kind: Kind) {
    match kind
    case NodeWrite(id) => (op.CreateNode? || op.UpdateNode?) && op.node.meta.id == id
    case EdgeWrite(id) => op.CreateEdge? && op.edge.id == id
    case NodeMove(id) => op.MoveNode? && op.nodeId == id
    case Reorder(parent) => op.ReorderChildren? && op.parentId == parent
  }

  /** Entry i is of the kind, and no later one is. */
  ghost predicate Latest(log: seq<Entry>, i: int, kind: Kind) {
    0 <= i < |log| && OfKind(log[i].op, kind) && forall j :: i < j < |log| ==> !OfKind(log[j].op, kind)
  }

  ghost predicate NoneOf(log: seq<Entry>, kind: Kind) {
    forall i :: 0 <= i < |log| ==> !OfKind(log[i].op, kind)
  }

  lemma LatestInit(log: seq<Entry>, kind: Kind)
    requires log != []
    ensures OfKind(Last(log).op, kind) ==> Latest(log, |log| - 1, kind)
    ensures !OfKind(Last(log).op, kind) ==> forall i :: Latest(Init(log), i, kind) <==> Latest(log, i, kind)
    ensures NoneOf(log, kind) <==> NoneOf(Init(log), kind) && !OfKind(Last(log).op, kind)
  {
    hide OfKind;
    assert forall i :: 0 <= i < |log| - 1 ==> Init(log)[i] == log[i];
  }

  /** The search finds the version of the node written by the latest entry that writes it, and nothing
      exactly when no entry does. */
  lemma {:induction false} LastNodeIsLatest(prefix: seq<Entry>, id: NodeId)
    ensures LastNode(prefix, id).None? <==> NoneOf(prefix, NodeWrite(id))
    ensures LastNode(prefix, id).Some? ==> exists i :: Latest(prefix, i, NodeWrite(id))
    ensures forall i :: Latest(prefix, i, NodeWrite(id)) ==> LastNode(prefix, id) == Some(prefix[i].op.node)
  {
    if prefix != [] {
      LastNodeIsLatest(Init(prefix), id);
      LatestInit(prefix, NodeWrite(id));
      forall i | Latest(prefix, i, NodeWrite(id)) ensures LastNode(prefix, id) == Some(prefix[i].op.node) {
        if i < |prefix| - 1 { assert Latest(Init(prefix), i, NodeWrite(id)); }
      }
    }
  }

  /** The same for an edge. */
  lemma {:induction false} LastEdgeIsLatest(prefix: seq<Entry>, id: EdgeId)
    ensures LastEdge(prefix, id).None? <==> NoneOf(prefix, EdgeWrite(id))
    ensures LastEdge(prefix, id).Some? ==> exists i :: Latest(prefix, i, EdgeWrite(id))
    ensures forall i :: Latest(prefix, i, EdgeWrite(id)) ==> LastEdge(prefix, id) == Some(prefix[i].op.edge)
  {
    if prefix != [] {
      LastEdgeIsLatest(Init(prefix), id);
      LatestInit(prefix, EdgeWrite(id));
      forall i | Latest(prefix, i, EdgeWrite(id)) ensures LastEdge(prefix, id) == Some(prefix[i].op.edge) {
        if i < |prefix| - 1 { assert Latest(Init(prefix), i, EdgeWrite(id)); }
      }
    }
  }

  /** The same for the destination of the latest move of a node. */
  lemma {:induction false} LastMoveIsLatest(prefix: seq<Entry>, id: NodeId)
    ensures LastMove(prefix, id).None? <==> NoneOf(prefix, NodeMove(id))
    ensures LastMove(prefix, id).Some? ==> exists i :: Latest(prefix, i, NodeMove(id))
    ensures forall i :: Latest(prefix, i, NodeMove(id)) ==> LastMove(prefix, id) == Some(prefix[i].op.newParentId)
  {
    if prefix != [] {
      LastMoveIsLatest(Init(prefix), id);
      LatestInit(prefix, NodeMove(id));
      forall i | Latest(prefix, i, NodeMove(id)) ensures LastMove(prefix, id) == Some(prefix[i].op.newParentId) {
        if i < |prefix| - 1 { assert Latest(Init(prefix), i, NodeMove(id)); }
      }
    }
  }

  /** And for the latest recorded order of a parent's children. */
  lemma {:induction false} LastOrderIsLatest(prefix: seq<Entry>, parent: NodeId)
    ensures LastOrder(prefix, parent).None? <==> NoneOf(prefix, Reorder(parent))
    ensures LastOrder(prefix, parent).Some? ==> exists i :: Latest(prefix, i, Reorder(parent))
    ensures forall i :: Latest(prefix, i, Reorder(parent)) ==> LastOrder(prefix, parent) == Some(prefix[i].op.newOrder)
  {
    if prefix != [] {
      LastOrderIsLatest(Init(prefix), parent);
      LatestInit(prefix, Reorder(parent));
      forall i | Latest(prefix, i, Reorder(parent)) ensures LastOrder(prefix, parent) == Some(prefix[i].op.newOrder) {
        if i < |prefix| - 1 { assert Latest(Init(prefix), i, Reorder(parent)); }
      }
    }
  }

  // ----- compute_inverse -----

  /** Ids of the edges from or to a node, in dictionary order. */
  function EdgesTouching(keys: seq<EdgeId>, edges: map<EdgeId, Edge>, id: NodeId): (r: seq<EdgeId>)
    ensures forall e :: e in r <==> e in keys && e in edges && (edges[e].source == id || edges[e].target == id)
  {
    if keys == [] then []
    else
      var rest := EdgesTouching(keys[1..], edges, id);
      if keys[0] in edges && (edges[keys[0]].source == id || edges[keys[0]].target == id)
      then [keys[0]] + rest else rest
  }

  function DeleteEdges(ids: seq<EdgeId>, now: Time, principal: Option<string>): (r: seq<Operation>)
    ensures |r| == |ids|
    ensures forall i :: 0 <= i < |ids| ==> r[i] == DeleteEdge(ids[i], [], now, principal)
  {
    seq(|ids|, i requires 0 <= i < |ids| => DeleteEdge(ids[i], [], now, principal))
  }

  /** The inverse of `op`, whose entry follows `prefix` in the log, computed in state `s`. */
  function Inverse(prefix: seq<Entry>, op: Operation, s: State, now: Time): seq<Operation> {
    match op
    case CreateNode(node, _, _, who) =>
      var id := node.meta.id;
      DeleteEdges(EdgesTouching(s.edges.keys, s.edges.vals, id), now, who) + [DeleteNode(id, [], now, who)]
    case DeleteNode(id, _, _, who) =>
      var prev := LastNode(prefix, id);
      if prev.Some? then [CreateNode(prev.value, [], now, who)] else []
    case UpdateNode(node, _, _, who) =>
      var prev := LastNode(prefix, node.meta.id);
      if prev.Some? then [UpdateNode(prev.value, [], now, who)] else []
    case CreateEdge(edge, _, _, who) => [DeleteEdge(edge.id, [], now, who)]
    case DeleteEdge(id, _, _, who) =>
      var prev := LastEdge(prefix, id);
      if prev.Some? then [CreateEdge(prev.value, [], now, who)] else []
    case MoveNode(id, _, _, _, who) =>
      var last := LastMove(prefix, id);
      var parent := if last.Some? then last else FirstParent(s.children.keys, s.children.vals, id);
      if parent.Some? then [MoveNode(id, parent.value, [], now, who)] else []
    case ReorderChildren(parent, _, _, _, who) =>
      var prev := LastOrder(prefix, parent);
      if prev.Some? then [ReorderChildren(parent, prev.value, [], now, who)] else []
  }

  // ----- backward search is the forward fold -----

  lemma {:induction false} BackwardSearchNode(log: seq<Entry>, id: NodeId)
    ensures id in Replay(log).nodes ==> LastNode(log, id) == Some(Replay(log).nodes[id])
    ensures LastNode(log, id).Some? ==> LastNode(log, id).value.meta.id == id
  {
    if log != [] {
      hide Step;
      BackwardSearchNode(Init(log), id);
      StepParts(Replay(Init(log)), Last(log));
    }
  }

  lemma {:induction false} BackwardSearchEdge(log: seq<Entry>, id: EdgeId)
    ensures id in Replay(log).edges.vals ==> LastEdge(log, id) == Some(Replay(log).edges.vals[id])
    ensures LastEdge(log, id).Some? ==> LastEdge(log, id).value.id == id
  {
    if log != [] {
      hide Step;
      BackwardSearchEdge(Init(log), id);
      StepParts(Replay(Init(log)), Last(log));
    }
  }

  // ----- when an inverse restores the earlier graph -----

  /** Some child list holds the node, or it has children of its own. */
  ghost predicate Listed(s: State, id: NodeId) {
    Kids(s, id) != [] || exists p :: id in Kids(s, p)
  }

  ghost predicate Touched(s: State, id: NodeId) {
    exists e :: e in s.edges.vals && (s.edges.vals[e].source == id || s.edges.vals[e].target == id)
  }

  /** x occurs once, at the end. */
  predicate OnlyLast(kids: seq<NodeId>, x: NodeId) {
    kids != [] && Last(kids) == x && x !in Init(kids)
  }

  /** The condition, readable off the log and the graph before `op`, under which undoing `op`
      brings back every node, edge and child list. */
  ghost predicate UndoExact(prefix: seq<Entry>, op: Operation, s: State) {
    match op
    case CreateNode(node, _, _, _) =>
      node.meta.id !in s.nodes && !Touched(s, node.meta.id) && !Listed(s, node.meta.id)
    case UpdateNode(node, _, _, _) => node.meta.id in s.nodes
    case DeleteNode(id, _, _, _) => !Listed(s, id) && (id in s.nodes || LastNode(prefix, id).None?)
    case CreateEdge(edge, _, _, _) =>
      edge.id !in s.edges.vals && (edge.edgeType.CONTAINS? ==> edge.target !in Kids(s, edge.source))
    case DeleteEdge(id, _, _, _) =>
      if id in s.edges.vals then
        var edge := s.edges.vals[id];
        edge.edgeType.CONTAINS? ==> OnlyLast(Kids(s, edge.source), edge.target)
      else LastEdge(prefix, id).None?
    case MoveNode(id, parent, _, _, _) =>
      var last := LastMove(prefix, id);
      var t := if last.Some? then last.value else parent;
      OnlyLast(Kids(s, t), id) && forall p :: p != t ==> id !in Kids(s, p)
    case ReorderChildren(parent, order, _, _, _) =>
      var last := LastOrder(prefix, parent);
      (if last.Some? then last.value else order) == Kids(s, parent)
  }

  /** s1 is (equivalent to) what `op` made of s. */
  ghost predicate AfterOp(s: State, op: Operation, s1: State) {
    && s1.nodes == NodesAfter(s.nodes, op)
    && s1.edges.vals == EdgesAfter(s.edges.vals, op)
    && (forall p :: Kids(s1, p) == KidsAfter(s.edges.vals, op, p, Kids(s, p)))
  }

  lemma AfterStep(s: State, e: Entry, s1: State)
    requires Equiv(s1, Step(s, e))
    ensures AfterOp(s, e.op, s1)
  {
    hide Step, Kids;
    StepParts(s, e);
    forall p ensures Kids(s1, p) == KidsAfter(s.edges.vals, e.op, p, Kids(s, p)) { StepKids(s, e, p); }
  }

  /** Running one compensating operation. */
  lemma RunOne(s: State, op: Operation)
    ensures AfterOp(s, op, Run(s, [op]))
  {
    hide Step, NewEntry, AfterOp;
    var e := NewEntry(op);
    assert Run(s, [op]) == Step(s, e) by { assert [op][1..] == []; }
    assert e.op == op by { NewEntryOp(op); }
    AfterStep(s, e, Step(s, e));
  }

  /** Some operation deletes the edge. */
  ghost predicate Erases(ops: seq<Operation>, e: EdgeId) {
    exists op :: op in ops && op.DeleteEdge? && op.edgeId == e
  }

  lemma ErasesFirst(ops: seq<Operation>, e: EdgeId)
    requires ops != []
    ensures Erases(ops, e) <==> (ops[0].DeleteEdge? && ops[0].edgeId == e) || Erases(ops[1..], e)
  {
    assert forall op :: op in ops <==> op == ops[0] || op in ops[1..];
  }

  /** Operations that create no edge leave those that none of them deletes. */
  lemma {:induction false} RunEdges(t: State, ops: seq<Operation>)
    requires forall op :: op in ops ==> !op.CreateEdge?
    ensures Run(t, ops).edges.vals == map e | e in t.edges.vals && !Erases(ops, e) :: t.edges.vals[e]
    decreases |ops|
  {
    hide Step, NewEntry;
    if ops != [] {
      var u := Step(t, NewEntry(ops[0]));
      NewEntryOp(ops[0]);
      StepParts(t, NewEntry(ops[0]));
      RunEdges(u, ops[1..]);
      forall e ensures Erases(ops, e) <==> (ops[0].DeleteEdge? && ops[0].edgeId == e) || Erases(ops[1..], e) {
        ErasesFirst(ops, e);
      }
      assert ops[0] in ops;
      hide Erases, Run;
      assert Run(t, ops) == Run(u, ops[1..]) by { RunStep(t, ops); }
    }
  }

  lemma RunStep(t: State, ops: seq<Operation>)
    requires ops != []
    ensures Run(t, ops) == Run(Step(t, NewEntry(ops[0])), ops[1..])
  {
    hide Step, NewEntry;
  }

  lemma NewEntryOp(op: Operation)
    ensures NewEntry(op).op == op
  {
  }

  lemma UndoUpdateNode(prefix: seq<Entry>, s: State, s1: State, op: Operation, now: Time)
    requires op.UpdateNode? && s == Replay(prefix) && AfterOp(s, op, s1)
    ensures Equiv(Run(s1, Inverse(prefix, op, s1, now)), s) <==> UndoExact(prefix, op, s)
  {
    hide Run, Replay, Kids;
    var id := op.node.meta.id;
    BackwardSearchNode(prefix, id);
    var prev := LastNode(prefix, id);
    if prev.Some? {
      RunOne(s1, UpdateNode(prev.value, [], now, op.principal));
    } else {
      assert Run(s1, []) == s1 by { RunNone(s1); }
    }
  }

  lemma RunNone(s: State)
    ensures Run(s, []) == s
  {
  }

  // ----- list facts -----

  lemma RemoveTwice(kids: seq<NodeId>, x: NodeId)
    ensures x in kids ==> |Remove(kids, x)| < |kids| && |Remove(Remove(kids, x), x)| < |kids|
    ensures x !in kids ==> Remove(kids, x) == kids
  {
  }

  /** Removing and appending again changes nothing exactly when x was once, at the end. */
  lemma AppendAgain(kids: seq<NodeId>, x: NodeId)
    ensures AddChild(Remove(kids, x), x) == kids <==> OnlyLast(kids, x)
  {
    var r := Remove(kids, x);
    if x in kids && x !in r {
      assert Init(r + [x]) == r;
    }
    if OnlyLast(kids, x) {
      assert kids == Init(kids) + [x];
      RemoveAppended(Init(kids), x);
    }
  }

  /** Appended by one operation and removed by the next. */
  lemma AppendThenRemove(kids: seq<NodeId>, x: NodeId)
    ensures Remove(AddChild(kids, x), x) == kids <==> x !in kids
  {
    if x !in kids {
      RemoveAppended(kids, x);
    }
  }

  // ----- one lemma per operation -----

  lemma UndoCreateEdge(prefix: seq<Entry>, s: State, s1: State, op: Operation, now: Time)
    requires op.CreateEdge? && AfterOp(s, op, s1)
    ensures Equiv(Run(s1, Inverse(prefix, op, s1, now)), s) <==> UndoExact(prefix, op, s)
  {
    hide Run, Kids, Remove, AddChild;
    var edge := op.edge;
    var del := DeleteEdge(edge.id, [], now, op.principal);
    RunOne(s1, del);
    var s2 := Run(s1, [del]);
    var p := edge.source;
    AppendThenRemove(Kids(s, p), edge.target);
    assert Kids(s2, p) == KidsAfter(s1.edges.vals, del, p, Kids(s1, p));
    assert s2.edges.vals == s.edges.vals <==> edge.id !in s.edges.vals;
    forall q | q != p ensures Kids(s2, q) == Kids(s, q) {}
  }

  lemma UndoDeleteEdge(prefix: seq<Entry>, s: State, s1: State, op: Operation, now: Time)
    requires op.DeleteEdge? && s == Replay(prefix) && AfterOp(s, op, s1)
    ensures Equiv(Run(s1, Inverse(prefix, op, s1, now)), s) <==> UndoExact(prefix, op, s)
  {
    hide Run, Kids, Remove, AddChild, Replay, OnlyLast;
    var id := op.edgeId;
    BackwardSearchEdge(prefix, id);
    var prev := LastEdge(prefix, id);
    if prev.None? {
      RunNone(s1);
    } else {
      var edge := prev.value;
      var put := CreateEdge(edge, [], now, op.principal);
      RunOne(s1, put);
      var s2 := Run(s1, [put]);
      if id in s.edges.vals {
        var p := edge.source;
        AppendAgain(Kids(s, p), edge.target);
        assert Kids(s2, p) == KidsAfter(s1.edges.vals, put, p, Kids(s1, p));
        assert s2.edges.vals == s.edges.vals;
        forall q | q != p ensures Kids(s2, q) == Kids(s, q) {}
      }
    }
  }

  lemma UndoReorder(prefix: seq<Entry>, s: State, s1: State, op: Operation, now: Time)
    requires op.ReorderChildren? && AfterOp(s, op, s1)
    ensures Equiv(Run(s1, Inverse(prefix, op, s1, now)), s) <==> UndoExact(prefix, op, s)
  {
    hide Run, Kids, Remove, AddChild;
    var p := op.parentId;
    var prev := LastOrder(prefix, p);
    if prev.None? {
      RunNone(s1);
      assert Kids(s1, p) == op.newOrder;
    } else {
      var back := ReorderChildren(p, prev.value, [], now, op.principal);
      RunOne(s1, back);
      assert Kids(Run(s1, [back]), p) == prev.value;
    }
  }

  lemma UndoDeleteNode(prefix: seq<Entry>, s: State, s1: State, op: Operation, now: Time)
    requires op.DeleteNode? && s == Replay(prefix) && AfterOp(s, op, s1)
    ensures Equiv(Run(s1, Inverse(prefix, op, s1, now)), s) <==> UndoExact(prefix, op, s)
  {
    hide Run, Kids, Remove, AddChild, Replay;
    var id := op.nodeId;
    BackwardSearchNode(prefix, id);
    var prev := LastNode(prefix, id);
    var back := Inverse(prefix, op, s1, now);
    var s2 := Run(s1, back);
    if prev.None? {
      RunNone(s1);
    } else {
      RunOne(s1, CreateNode(prev.value, [], now, op.principal));
    }
    assert forall p :: Kids(s2, p) == Kids(s1, p);
    assert Kids(s1, id) == [];
    if Listed(s, id) {
      if Kids(s, id) == [] {
        var p :| id in Kids(s, p);
        RemoveTwice(Kids(s, p), id);
        assert Kids(s2, p) != Kids(s, p);
      }
    } else {
      forall p ensures Kids(s2, p) == Kids(s, p) { RemoveTwice(Kids(s, p), id); }
    }
  }

  lemma {:induction false} RunDeleteEdges(s: State, ids: seq<EdgeId>, now: Time, who: Option<string>)
    ensures var s2 := Run(s, DeleteEdges(ids, now, who));
      s2.nodes == s.nodes && forall e :: e in s2.edges.vals <==> e in s.edges.vals && e !in ids
    decreases |ids|
  {
    hide Step, NewEntry, DeleteEdges;
    var ops := DeleteEdges(ids, now, who);
    if ids != [] {
      var s1 := Step(s, NewEntry(ops[0]));
      NewEntryOp(ops[0]);
      StepParts(s, NewEntry(ops[0]));
      assert ops[1..] == DeleteEdges(ids[1..], now, who);
      RunDeleteEdges(s1, ids[1..], now, who);
    }
  }

  /** The state after undoing a creation: the edges at the node are gone, then the node. */
  lemma AfterUndoCreateNode(s1: State, id: NodeId, now: Time, who: Option<string>)
    requires Wf(s1)
    ensures var touching := EdgesTouching(s1.edges.keys, s1.edges.vals, id);
      var s2 := Run(s1, DeleteEdges(touching, now, who) + [DeleteNode(id, [], now, who)]);
      && s2.nodes == s1.nodes - {id}
      && (forall e :: e in s2.edges.vals ==>
        e in s1.edges.vals && s1.edges.vals[e].source != id && s1.edges.vals[e].target != id)
      && (touching == [] ==> AfterOp(s1, DeleteNode(id, [], now, who), s2))
  {
    var touching := EdgesTouching(s1.edges.keys, s1.edges.vals, id);
    var drops, del := DeleteEdges(touching, now, who), DeleteNode(id, [], now, who);
    EdgeKeys(s1);
    hide Run, Kids, Remove, DeleteEdges, EdgesTouching, Wf;
    RunDeleteEdges(s1, touching, now, who);
    RunAppend(s1, drops, [del]);
    RunOne(Run(s1, drops), del);
    if touching == [] {
      NoDrops(now, who);
      RunNone(s1);
    }
  }

  lemma UndoCreateNode(prefix: seq<Entry>, s: State, s1: State, op: Operation, now: Time)
    requires op.CreateNode? && AfterOp(s, op, s1) && Wf(s1)
    ensures Equiv(Run(s1, Inverse(prefix, op, s1, now)), s) <==> UndoExact(prefix, op, s)
  {
    var id := op.node.meta.id;
    var touching := EdgesTouching(s1.edges.keys, s1.edges.vals, id);
    EdgeKeys(s1);
    AfterUndoCreateNode(s1, id, now, op.principal);
    hide Run, Kids, Remove, DeleteEdges, EdgesTouching, Wf, Listed;
    var s2 := Run(s1, Inverse(prefix, op, s1, now));
    if touching != [] {
      assert touching[0] in touching && touching[0] !in s2.edges.vals;
    } else {
      UndoCreateNodeLists(s, s1, s2, id);
    }
  }

  lemma EdgeKeys(s: State)
    requires Wf(s)
    ensures forall e :: e in s.edges.keys <==> e in s.edges.vals
  {
  }

  lemma NoDrops(now: Time, who: Option<string>)
    ensures DeleteEdges([], now, who) == []
  {
  }

  lemma UndoCreateNodeLists(s: State, s1: State, s2: State, id: NodeId)
    requires forall p :: Kids(s1, p) == Kids(s, p)
    requires forall p :: Kids(s2, p) == if p == id then [] else Remove(Kids(s1, p), id)
    ensures (forall p :: Kids(s2, p) == Kids(s, p)) <==> !Listed(s, id)
  {
    hide Kids, Remove;
    if Listed(s, id) {
      if Kids(s, id) == [] {
        var p :| id in Kids(s, p);
        RemoveTwice(Kids(s, p), id);
        assert Kids(s2, p) != Kids(s, p);
      }
    } else {
      forall p ensures Kids(s2, p) == Kids(s, p) { RemoveTwice(Kids(s, p), id); }
    }
  }

  lemma {:induction false} FirstParentFound(keys: seq<NodeId>, lists: map<NodeId, seq<NodeId>>, id: NodeId)
    ensures var r := FirstParent(keys, lists, id);
      if r.Some? then r.value in lists && id in lists[r.value]
      else forall k :: k in keys && k in lists ==> id !in lists[k]
  {
    if keys != [] {
      FirstParentFound(keys[1..], lists, id);
    }
  }

  /** The list of p after moving to q and then to t. */
  function MovedBack(kids: seq<NodeId>, id: NodeId, p: NodeId, q: NodeId, t: NodeId): seq<NodeId> {
    var r := Remove(kids, id);
    var r1 := if p == q then AddChild(r, id) else r;
    if p == t then AddChild(Remove(r1, id), id) else Remove(r1, id)
  }

  lemma MovedBackSame(kids: seq<NodeId>, id: NodeId, p: NodeId, q: NodeId, t: NodeId)
    ensures MovedBack(kids, id, p, q, t) == kids <==> if p == t then OnlyLast(kids, id) else id !in kids
  {
    var r := Remove(kids, id);
    RemoveTwice(kids, id);
    if id !in r {
      RemoveAppended(r, id);
      AppendAgain(kids, id);
    } else {
      RemoveTwice(r, id);
      assert OnlyLast(kids, id) ==> id !in r by { AppendAgain(kids, id); }
    }
  }

  lemma StillThere(kids: seq<NodeId>, id: NodeId)
    requires id in Remove(kids, id)
    ensures id in kids && !OnlyLast(kids, id)
  {
    if OnlyLast(kids, id) { AppendAgain(kids, id); }
  }

  /** The parent an undone move goes back to. */
  function OldParent(prefix: seq<Entry>, s1: State, id: NodeId): Option<NodeId> {
    var last := LastMove(prefix, id);
    if last.Some? then last else FirstParent(s1.children.keys, s1.children.vals, id)
  }

  lemma UndoMoveTo(s: State, s1: State, op: Operation, t: NodeId, now: Time)
    requires op.MoveNode? && AfterOp(s, op, s1)
    ensures Equiv(Run(s1, [MoveNode(op.nodeId, t, [], now, op.principal)]), s) <==>
      OnlyLast(Kids(s, t), op.nodeId) && forall p :: p != t ==> op.nodeId !in Kids(s, p)
  {
    hide Run, Kids, Remove, AddChild, OnlyLast;
    var id, q := op.nodeId, op.newParentId;
    var back := MoveNode(id, t, [], now, op.principal);
    RunOne(s1, back);
    var s2 := Run(s1, [back]);
    forall p
      ensures Kids(s2, p) == MovedBack(Kids(s, p), id, p, q, t)
      ensures Kids(s2, p) == Kids(s, p) <==> if p == t then OnlyLast(Kids(s, p), id) else id !in Kids(s, p)
    {
      MovedBackSame(Kids(s, p), id, p, q, t);
    }
    assert Kids(s2, t) == Kids(s, t) <==> OnlyLast(Kids(s, t), id);
  }

  lemma UndoMoveNode(prefix: seq<Entry>, s: State, s1: State, op: Operation, now: Time)
    requires op.MoveNode? && AfterOp(s, op, s1) && Wf(s1)
    ensures Equiv(Run(s1, Inverse(prefix, op, s1, now)), s) <==> UndoExact(prefix, op, s)
  {
    hide Run, Remove, OnlyLast, Replay;
    var id, q := op.nodeId, op.newParentId;
    assert id in Kids(s1, q);
    FirstParentFound(s1.children.keys, s1.children.vals, id);
    assert q in s1.children.keys;
    var t := OldParent(prefix, s1, id).value;
    UndoMoveTo(s, s1, op, t, now);
    if LastMove(prefix, id).None? && t != q {
      StillThere(Kids(s, t), id);
    }
  }

  /** Undoing any operation restores every node, edge and child list if and only if UndoExact
      held before it.  The state s1 need only be equivalent to the one `op` produced, so the
      result also covers a group undone after being redone. */
  lemma UndoIsExactIff(prefix: seq<Entry>, op: Operation, s1: State, now: Time)
    requires Wf(s1) && Equiv(s1, Step(Replay(prefix), NewEntry(op)))
    ensures Equiv(Run(s1, Inverse(prefix, op, s1, now)), Replay(prefix)) <==> UndoExact(prefix, op, Replay(prefix))
  {
    var s := Replay(prefix);
    NewEntryOp(op);
    AfterStep(s, NewEntry(op), s1);
    hide *;
    match op
    case CreateNode(_, _, _, _) => UndoCreateNode(prefix, s, s1, op, now);
    case UpdateNode(_, _, _, _) => UndoUpdateNode(prefix, s, s1, op, now);
    case DeleteNode(_, _, _, _) => UndoDeleteNode(prefix, s, s1, op, now);
    case CreateEdge(_, _, _, _) => UndoCreateEdge(prefix, s, s1, op, now);
    case DeleteEdge(_, _, _, _) => UndoDeleteEdge(prefix, s, s1, op, now);
    case MoveNode(_, _, _, _, _) => UndoMoveNode(prefix, s, s1, op, now);
    case ReorderChildren(_, _, _, _, _) => UndoReorder(prefix, s, s1, op, now);
  }

  // ----- the loops themselves -----

  lemma NodeFound(log: seq<Entry>, before: Option<OperationId>, id: NodeId)
    ensures var space := SearchSpace(log, before);
      && (LastNode(space, id).None? <==> NoneOf(space, NodeWrite(id)))
      && forall i :: Latest(space, i, NodeWrite(id)) ==> LastNode(space, id) == Some(log[i].op.node)
  {
    LastNodeIsLatest(SearchSpace(log, before), id);
    hide SearchSpace, LastNode;
  }

  /** `_find_previous_node`: entries are skipped, newest first, until `before` has been passed. */
  method FindPreviousNode(id: NodeId, log: seq<Entry>, before: Option<OperationId>) returns (r: Option<Node>)
    requires ValidLog(log)
    ensures r == LastNode(SearchSpace(log, before), id)
    ensures r.None? <==> NoneOf(SearchSpace(log, before), NodeWrite(id))
    ensures forall i :: Latest(SearchSpace(log, before), i, NodeWrite(id)) ==> r == Some(log[i].op.node)
  {
    NodeFound(log, before, id);
    hide ComputeOperationId, ValidLog, OfKind, Latest, NoneOf;
    var found := false;
    var i := |log|;
    assert log[..i] == log;
    while i > 0
      invariant 0 <= i <= |log|
      invariant found ==> before.Some? && i <= Position(log, before.value) < |log|
      invariant before.Some? && !found ==> Position(log, before.value) < i || Position(log, before.value) == |log|
      invariant before.None? || found ==> LastNode(SearchSpace(log, before), id) == LastNode(log[..i], id)
    {
      i := i - 1;
      var entry := log[i];
      assert log[..i + 1] == log[..i] + [entry];
      if before.Some? && !found {
        if entry.id == before.value {
          PositionOfEntry(log, i);
          found := true;
        }
      } else if (entry.op.CreateNode? || entry.op.UpdateNode?) && entry.op.node.meta.id == id {
        return Some(entry.op.node);
      }
    }
    r := None;
  }

  lemma EdgeFound(log: seq<Entry>, before: Option<OperationId>, id: EdgeId)
    ensures var space := SearchSpace(log, before);
      && (LastEdge(space, id).None? <==> NoneOf(space, EdgeWrite(id)))
      && forall i :: Latest(space, i, EdgeWrite(id)) ==> LastEdge(space, id) == Some(log[i].op.edge)
  {
    LastEdgeIsLatest(SearchSpace(log, before), id);
    hide SearchSpace, LastEdge;
  }

  method FindPreviousEdge(id: EdgeId, log: seq<Entry>, before: Option<OperationId>) returns (r: Option<Edge>)
    requires ValidLog(log)
    ensures r == LastEdge(SearchSpace(log, before), id)
    ensures r.None? <==> NoneOf(SearchSpace(log, before), EdgeWrite(id))
    ensures forall i :: Latest(SearchSpace(log, before), i, EdgeWrite(id)) ==> r == Some(log[i].op.edge)
  {
    EdgeFound(log, before, id);
    hide ComputeOperationId, ValidLog, OfKind, Latest, NoneOf;
    var found := false;
    var i := |log|;
    assert log[..i] == log;
    while i > 0
      invariant 0 <= i <= |log|
      invariant found ==> before.Some? && i <= Position(log, before.value) < |log|
      invariant before.Some? && !found ==> Position(log, before.value) < i || Position(log, before.value) == |log|
      invariant before.None? || found ==> LastEdge(SearchSpace(log, before), id) == LastEdge(log[..i], id)
    {
      i := i - 1;
      var entry := log[i];
      assert log[..i + 1] == log[..i] + [entry];
      if before.Some? && !found {
        if entry.id == before.value {
          PositionOfEntry(log, i);
          found := true;
        }
      } else if entry.op.CreateEdge? && entry.op.edge.id == id {
        return Some(entry.op.edge);
      }
    }
    r := None;
  }

  lemma MoveFound(log: seq<Entry>, before: Option<OperationId>, id: NodeId)
    ensures var space := SearchSpace(log, before);
      && (LastMove(space, id).None? <==> NoneOf(space, NodeMove(id)))
      && forall i :: Latest(space, i, NodeMove(id)) ==> LastMove(space, id) == Some(log[i].op.newParentId)
  {
    LastMoveIsLatest(SearchSpace(log, before), id);
    hide SearchSpace, LastMove;
  }

  /** The log part of `_find_previous_parent`. */
  method FindPreviousMove(id: NodeId, log: seq<Entry>, before: Option<OperationId>) returns (r: Option<NodeId>)
    requires ValidLog(log)
    ensures r == LastMove(SearchSpace(log, before), id)
    ensures r.None? <==> NoneOf(SearchSpace(log, before), NodeMove(id))
    ensures forall i :: Latest(SearchSpace(log, before), i, NodeMove(id)) ==> r == Some(log[i].op.newParentId)
  {
    MoveFound(log, before, id);
    hide ComputeOperationId, ValidLog, OfKind, Latest, NoneOf;
    var found := false;
    var i := |log|;
    assert log[..i] == log;
    while i > 0
      invariant 0 <= i <= |log|
      invariant found ==> before.Some? && i <= Position(log, before.value) < |log|
      invariant before.Some? && !found ==> Position(log, before.value) < i || Position(log, before.value) == |log|
      invariant before.None? || found ==> LastMove(SearchSpace(log, before), id) == LastMove(log[..i], id)
    {
      i := i - 1;
      var entry := log[i];
      assert log[..i + 1] == log[..i] + [entry];
      if before.Some? && !found {
        if entry.id == before.value {
          PositionOfEntry(log, i);
          found := true;
        }
      } else if entry.op.MoveNode? && entry.op.nodeId == id {
        return Some(entry.op.newParentId);
      }
    }
    r := None;
  }

  lemma OrderFound(log: seq<Entry>, before: Option<OperationId>, id: NodeId)
    ensures var space := SearchSpace(log, before);
      && (LastOrder(space, id).None? <==> NoneOf(space, Reorder(id)))
      && forall i :: Latest(space, i, Reorder(id)) ==> LastOrder(space, id) == Some(log[i].op.newOrder)
  {
    LastOrderIsLatest(SearchSpace(log, before), id);
    hide SearchSpace, LastOrder;
  }

  method FindPreviousOrder(id: NodeId, log: seq<Entry>, before: Option<OperationId>) returns (r: Option<seq<NodeId>>)
    requires ValidLog(log)
    ensures r == LastOrder(SearchSpace(log, before), id)
    ensures r.None? <==> NoneOf(SearchSpace(log, before), Reorder(id))
    ensures forall i :: Latest(SearchSpace(log, before), i, Reorder(id)) ==> r == Some(log[i].op.newOrder)
  {
    OrderFound(log, before, id);
    hide ComputeOperationId, ValidLog, OfKind, Latest, NoneOf;
    var found := false;
    var i := |log|;
    assert log[..i] == log;
    while i > 0
      invariant 0 <= i <= |log|
      invariant found ==> before.Some? && i <= Position(log, before.value) < |log|
      invariant before.Some? && !found ==> Position(log, before.value) < i || Position(log, before.value) == |log|
      invariant before.None? || found ==> LastOrder(SearchSpace(log, before), id) == LastOrder(log[..i], id)
    {
      i := i - 1;
      var entry := log[i];
      assert log[..i + 1] == log[..i] + [entry];
      if before.Some? && !found {
        if entry.id == before.value {
          PositionOfEntry(log, i);
          found := true;
        }
      } else if entry.op.ReorderChildren? && entry.op.parentId == id {
        return Some(entry.op.newOrder);
      }
    }
    r := None;
  }

  /** The state part: the first parent whose list holds the node. */
  method FindListingParent(s: State, id: NodeId) returns (r: Option<NodeId>)
    ensures r == FirstParent(s.children.keys, s.children.vals, id)
    ensures r.None? <==> forall p :: p in s.children.keys ==> !ListsChild(s.children.vals, p, id)
    ensures forall i :: FirstListing(s.children.keys, s.children.vals, id, i) ==> r == Some(s.children.keys[i])
  {
    FirstParentIsFirst(s.children.keys, s.children.vals, id);
    hide FirstListing, ListsChild;
    var keys := s.children.keys;
    for i := 0 to |keys|
      invariant FirstParent(keys, s.children.vals, id) == FirstParent(keys[i..], s.children.vals, id)
    {
      if keys[i] in s.children.vals && id in s.children.vals[keys[i]] {
        return Some(keys[i]);
      }
    }
    r := None;
  }

  /** `[eid for eid, edge in edges.items() if edge.source == id or edge.target == id]` */
  method CollectTouching(s: State, id: NodeId) returns (r: seq<EdgeId>)
    ensures r == EdgesTouching(s.edges.keys, s.edges.vals, id)
  {
    var keys := s.edges.keys;
    r := [];
    for i := 0 to |keys|
      invariant EdgesTouching(keys, s.edges.vals, id) == r + EdgesTouching(keys[i..], s.edges.vals, id)
    {
      if keys[i] in s.edges.vals && (s.edges.vals[keys[i]].source == id || s.edges.vals[keys[i]].target == id) {
        r := r + [keys[i]];
      }
    }
  }

  /** compute_inverse on an entry of the log. */
  method ComputeInverse(log: seq<Entry>, entry: Entry, s: State, now: Time) returns (r: seq<Operation>)
    requires ValidLog(log) && entry in log
    ensures r == Inverse(log[..Position(log, entry.id)], entry.op, s, now)
  {
    ghost var at: nat :| at < |log| && log[at] == entry;
    PositionOfEntry(log, at);
    hide ComputeOperationId, ValidLog, LastNode, LastEdge, LastMove, LastOrder, FirstParent, EdgesTouching;
    var before, who := Some(entry.id), entry.op.principal;
    match entry.op
    case CreateNode(node, _, _, _) =>
      var touching := CollectTouching(s, node.meta.id);
      r := DeleteEdges(touching, now, who) + [DeleteNode(node.meta.id, [], now, who)];
    case DeleteNode(id, _, _, _) =>
      var prev := FindPreviousNode(id, log, before);
      r := if prev.Some? then [CreateNode(prev.value, [], now, who)] else [];
    case UpdateNode(node, _, _, _) =>
      var prev := FindPreviousNode(node.meta.id, log, before);
      r := if prev.Some? then [UpdateNode(prev.value, [], now, who)] else [];
    case CreateEdge(edge, _, _, _) =>
      r := [DeleteEdge(edge.id, [], now, who)];
    case DeleteEdge(id, _, _, _) =>
      var prev := FindPreviousEdge(id, log, before);
      r := if prev.Some? then [CreateEdge(prev.value, [], now, who)] else [];
    case MoveNode(id, _, _, _, _) =>
      var parent := FindPreviousMove(id, log, before);
      if parent.None? {
        parent := FindListingParent(s, id);
      }
      r := if parent.Some? then [MoveNode(id, parent.value, [], now, who)] else [];
    case ReorderChildren(parent, _, _, _, _) =>
      var prev := FindPreviousOrder(parent, log, before);
      r := if prev.Some? then [ReorderChildren(parent, prev.value, [], now, who)] else [];
  }
}
