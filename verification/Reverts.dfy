/** Revert to a point in time: compute_revert_ops of src/uaf/db/undo.py. */
module Reverts {
  import opened Collections
  import opened JsonValues
  import opened Nodes
  import opened Serialization
  import opened Operations
  import opened OperationLogs
  import opened Materializer
  import opened Inverses
  import opened Indexing
  import opened GraphDbs
  import opened JournaledGraphDbs
  import opened Bundles

  // ----- the target -----

  /** The entries stamped no later than t. */
  function UpTo(log: seq<Entry>, t: Time): (r: seq<Entry>)
    ensures forall e :: e in r <==> e in log && e.op.timestamp <= t
  {
    if log == [] then []
    else
      var rest := UpTo(Init(log), t);
      if Last(log).op.timestamp <= t then rest + [Last(log)] else rest
  }

  /** Nothing stamped later than t comes before something that is not. */
  ghost predicate NoneLaterBefore(log: seq<Entry>, t: Time) {
    forall i, j :: 0 <= i < j < |log| && log[j].op.timestamp <= t ==> log[i].op.timestamp <= t
  }

  lemma NoneLaterInit(log: seq<Entry>, t: Time)
    requires log != [] && NoneLaterBefore(log, t)
    ensures NoneLaterBefore(Init(log), t)
    ensures Last(log).op.timestamp <= t ==> forall i :: 0 <= i < |log| ==> log[i].op.timestamp <= t
  {
  }

  lemma {:induction false} UpToIsPrefix(log: seq<Entry>, t: Time) returns (k: nat)
    requires NoneLaterBefore(log, t)
    ensures k <= |log| && UpTo(log, t) == log[..k]
  {
    if log == [] {
      k := 0;
    } else {
      NoneLaterInit(log, t);
      hide NoneLaterBefore;
      if Last(log).op.timestamp <= t {
        AllUpTo(log, t);
        k := |log|;
      } else {
        k := UpToIsPrefix(Init(log), t);
        assert Init(log)[..k] == log[..k];
      }
    }
  }

  lemma {:induction false} AllUpTo(log: seq<Entry>, t: Time)
    requires forall i :: 0 <= i < |log| ==> log[i].op.timestamp <= t
    ensures UpTo(log, t) == log
  {
    if log != [] {
      AllUpTo(Init(log), t);
      assert Init(log) + [Last(log)] == log;
    }
  }

  /** The target is a state the database was in if and only if no entry stamped later than t
      precedes one stamped earlier; time stamps that never decrease ensure it. */
  lemma TargetIsPastState(log: seq<Entry>, t: Time)
    requires ValidLog(log)
    ensures (exists k: nat :: k <= |log| && UpTo(log, t) == log[..k]) <==> NoneLaterBefore(log, t)
    ensures (forall i, j :: 0 <= i < j < |log| ==> log[i].op.timestamp <= log[j].op.timestamp) ==>
      NoneLaterBefore(log, t)
  {
    hide ComputeOperationId;
    if NoneLaterBefore(log, t) {
      var k := UpToIsPrefix(log, t);
    }
    if k: nat :| k <= |log| && UpTo(log, t) == log[..k] {
      PrefixHasNoneLater(log, t, k);
    }
  }

  lemma PrefixHasNoneLater(log: seq<Entry>, t: Time, k: nat)
    requires ValidLog(log) && k <= |log| && UpTo(log, t) == log[..k]
    ensures NoneLaterBefore(log, t)
  {
    hide ComputeOperationId, UpTo;
    forall i, j | 0 <= i < j < |log| && log[j].op.timestamp <= t ensures log[i].op.timestamp <= t {
      assert log[j] in UpTo(log, t);
      var m :| 0 <= m < k && log[..k][m] == log[j];
      assert m == j;
      assert log[..k][i] in UpTo(log, t);
    }
  }

  method TargetState(log: seq<Entry>, t: Time) returns (target: State)
    ensures target == Replay(UpTo(log, t))
  {
    hide Step;
    var m := new StateMaterializer();
    assert log[..0] == [];
    for i := 0 to |log|
      invariant m.Valid() && fresh(m) && m.View() == Replay(UpTo(log[..i], t))
    {
      assert Init(log[..i + 1]) == log[..i];
      if log[i].op.timestamp <= t {
        assert Init(UpTo(log[..i + 1], t)) == UpTo(log[..i], t);
        m.Apply(log[i]);
      }
    }
    assert log[..|log|] == log;
    target := m.View();
  }

  // ----- the operations -----

  /** The node is to be deleted. */
  predicate Doomed(cur: State, target: State, id: NodeId) {
    id in cur.nodes && id !in target.nodes
  }

  predicate TouchesDoomed(cur: State, target: State, edge: Edge) {
    Doomed(cur, target, edge.source) || Doomed(cur, target, edge.target)
  }

  /** What a revert does, operation by operation. */
  predicate RevertAction(cur: State, target: State, op: Operation) {
    match op
    case DeleteNode(id, _, _, _) => Doomed(cur, target, id)
    case CreateNode(n, _, _, _) => n.meta.id !in cur.nodes && n.meta.id in target.nodes && target.nodes[n.meta.id] == n
    case UpdateNode(n, _, _, _) =>
      n.meta.id in cur.nodes && n.meta.id in target.nodes && target.nodes[n.meta.id] == n && cur.nodes[n.meta.id] != n
    case DeleteEdge(e, _, _, _) =>
      e in cur.edges.vals && (e !in target.edges.vals || TouchesDoomed(cur, target, cur.edges.vals[e]))
    case CreateEdge(e, _, _, _) => e.id !in cur.edges.vals && e.id in target.edges.vals && target.edges.vals[e.id] == e
    case _ => false
  }

  predicate Stamped(op: Operation, now: Time, who: string) {
    op.parentOps == [] && op.timestamp == now && op.principal == Some(who)
  }

  predicate RevertOp(cur: State, target: State, now: Time, who: string, op: Operation) {
    RevertAction(cur, target, op) && Stamped(op, now, who)
  }

  /** The edge leaves or enters one of the nodes. */
  predicate Touches(edge: Edge, ids: set<NodeId>) {
    edge.source in ids || edge.target in ids
  }

  predicate DropsAny(cur: State, ids: set<NodeId>, op: Operation) {
    || (op.DeleteNode? && op.nodeId in ids)
    || (op.DeleteEdge? && op.edgeId in cur.edges.vals && Touches(cur.edges.vals[op.edgeId], ids))
  }

  predicate CreatesOne(target: State, ids: set<NodeId>, op: Operation) {
    op.CreateNode? && op.node.meta.id in ids && Get(target.nodes, op.node.meta.id) == Some(op.node)
  }

  predicate UpdatesOne(cur: State, target: State, ids: set<NodeId>, op: Operation) {
    && op.UpdateNode? && op.node.meta.id in ids && Get(target.nodes, op.node.meta.id) == Some(op.node)
    && Get(cur.nodes, op.node.meta.id) != Some(op.node)
  }

  predicate CreatesEdge(target: State, ids: set<EdgeId>, op: Operation) {
    op.CreateEdge? && op.edge.id in ids && Get(target.edges.vals, op.edge.id) == Some(op.edge)
  }

  /** Exactly the stamped operations satisfying p, some perhaps more than once. */
  ghost predicate Lists(r: seq<Operation>, now: Time, who: string, p: Operation -> bool) {
    forall op :: op in r <==> Stamped(op, now, who) && p(op)
  }

  // Steps 2 to 6 of compute_revert_ops; each set is iterated in any order.

  method DeleteNodes(cur: State, ids: set<NodeId>, now: Time, who: string) returns (r: seq<Operation>)
    requires Wf(cur)
    ensures Lists(r, now, who, op => DropsAny(cur, ids, op))
  {
    r := [];
    ghost var done := {};
    var todo := ids;
    while todo != {}
      invariant done + todo == ids
      invariant Lists(r, now, who, op => DropsAny(cur, done, op))
    {
      var id :| id in todo;
      var touching := CollectTouching(cur, id);
      var drops := DeleteEdges(touching, now, Some(who));
      DropOne(cur, id, now, who);
      r := r + (drops + [DeleteNode(id, [], now, Some(who))]);
      hide DeleteEdges, EdgesTouching, Wf;
      todo, done := todo - {id}, done + {id};
    }
    assert done == ids;
  }

  lemma DropOne(cur: State, id: NodeId, now: Time, who: string)
    requires Wf(cur)
    ensures var drops := DeleteEdges(EdgesTouching(cur.edges.keys, cur.edges.vals, id), now, Some(who));
      Lists(drops + [DeleteNode(id, [], now, Some(who))], now, who, op => DropsAny(cur, {id}, op))
  {
    EdgeKeys(cur);
    var touching := EdgesTouching(cur.edges.keys, cur.edges.vals, id);
    var drops := DeleteEdges(touching, now, Some(who));
    hide EdgesTouching, Wf;
    forall op: Operation | op.DeleteEdge? && Stamped(op, now, who) && op.edgeId in touching ensures op in drops {
      var i :| 0 <= i < |touching| && touching[i] == op.edgeId;
      assert drops[i] == op;
    }
  }

  method CreateNodes(target: State, ids: set<NodeId>, now: Time, who: string) returns (r: seq<Operation>)
    requires NodesKeyed(target) && ids <= target.nodes.Keys
    ensures Lists(r, now, who, op => CreatesOne(target, ids, op))
  {
    r := [];
    ghost var done := {};
    var todo := ids;
    while todo != {}
      invariant done + todo == ids
      invariant Lists(r, now, who, op => CreatesOne(target, done, op))
    {
      var id :| id in todo;
      r := r + [CreateNode(target.nodes[id], [], now, Some(who))];
      todo, done := todo - {id}, done + {id};
    }
    assert done == ids;
  }

  method UpdateNodes(cur: State, target: State, ids: set<NodeId>, now: Time, who: string) returns (r: seq<Operation>)
    requires NodesKeyed(target) && ids <= target.nodes.Keys && ids <= cur.nodes.Keys
    ensures Lists(r, now, who, op => UpdatesOne(cur, target, ids, op))
  {
    r := [];
    ghost var done := {};
    var todo := ids;
    while todo != {}
      invariant done + todo == ids
      invariant Lists(r, now, who, op => UpdatesOne(cur, target, done, op))
    {
      var id :| id in todo;
      if cur.nodes[id] != target.nodes[id] {
        r := r + [UpdateNode(target.nodes[id], [], now, Some(who))];
      }
      todo, done := todo - {id}, done + {id};
    }
    assert done == ids;
  }

  /** Extra edges, unless a deletion of the edge is already in `result`. */
  method DeleteExtraEdges(result: seq<Operation>, ids: set<EdgeId>, now: Time, who: string) returns (r: seq<Operation>)
    ensures forall op :: op in r <==> Stamped(op, now, who) && op.DeleteEdge? && op.edgeId in ids &&
                                      forall d :: d in result && d.DeleteEdge? ==> d.edgeId != op.edgeId
  {
    r := [];
    ghost var done := {};
    var todo := ids;
    while todo != {}
      invariant done + todo == ids
      invariant forall op :: op in r <==> Stamped(op, now, who) && op.DeleteEdge? && op.edgeId in done &&
                                          forall d :: d in result && d.DeleteEdge? ==> d.edgeId != op.edgeId
    {
      var id :| id in todo;
      if !exists d :: d in result && d.DeleteEdge? && d.edgeId == id {
        r := r + [DeleteEdge(id, [], now, Some(who))];
      }
      todo, done := todo - {id}, done + {id};
    }
    assert done == ids;
  }

  method CreateEdges(target: State, ids: set<EdgeId>, now: Time, who: string) returns (r: seq<Operation>)
    requires EdgesKeyed(target) && ids <= target.edges.vals.Keys
    ensures Lists(r, now, who, op => CreatesEdge(target, ids, op))
  {
    r := [];
    ghost var done := {};
    var todo := ids;
    while todo != {}
      invariant done + todo == ids
      invariant Lists(r, now, who, op => CreatesEdge(target, done, op))
    {
      var id :| id in todo;
      r := r + [CreateEdge(target.edges.vals[id], [], now, Some(who))];
      todo, done := todo - {id}, done + {id};
    }
    assert done == ids;
  }

  /** compute_revert_ops */
  method ComputeRevertOps(t: Time, log: seq<Entry>, cur: State, now: Time, who: string) returns (result: seq<Operation>)
    requires Wf(cur)
    ensures forall op :: op in result <==> RevertOp(cur, Replay(UpTo(log, t)), now, who, op)
    ensures EdgesLast(result)
  {
    var target := TargetState(log, t);
    ReplayNodesKeyed(UpTo(log, t));
    ReplayEdgesKeyed(UpTo(log, t));
    hide UpTo, Replay, NodesKeyed, EdgesKeyed, Wf;
    var dels := DeleteNodes(cur, cur.nodes.Keys - target.nodes.Keys, now, who);
    var news := CreateNodes(target, target.nodes.Keys - cur.nodes.Keys, now, who);
    var ups := UpdateNodes(cur, target, cur.nodes.Keys * target.nodes.Keys, now, who);
    var soFar := dels + news + ups;
    var drops := DeleteExtraEdges(soFar, cur.edges.vals.Keys - target.edges.vals.Keys, now, who);
    var links := CreateEdges(target, target.edges.vals.Keys - cur.edges.vals.Keys, now, who);
    result := soFar + drops + links;
    RevertParts(cur, target, now, who, dels, news, ups, drops, links);
    LinksLast(soFar + drops, links);
  }

  /** No operation other than the creation of an edge comes after one. */
  ghost predicate EdgesLast(ops: seq<Operation>) {
    forall i, j :: 0 <= i < j < |ops| && ops[i].CreateEdge? ==> ops[j].CreateEdge?
  }

  lemma LinksLast(a: seq<Operation>, links: seq<Operation>)
    requires (forall op :: op in a ==> !op.CreateEdge?) && forall op :: op in links ==> op.CreateEdge?
    ensures EdgesLast(a + links)
  {
    var ops := a + links;
    forall k | 0 <= k < |ops| ensures ops[k].CreateEdge? <==> |a| <= k {
      assert if k < |a| then ops[k] in a else ops[k] in links;
    }
  }

  lemma RevertParts(cur: State, target: State, now: Time, who: string, dels: seq<Operation>, news: seq<Operation>,
                    ups: seq<Operation>, drops: seq<Operation>, links: seq<Operation>)
    requires Lists(dels, now, who, op => DropsAny(cur, cur.nodes.Keys - target.nodes.Keys, op))
    requires Lists(news, now, who, op => CreatesOne(target, target.nodes.Keys - cur.nodes.Keys, op))
    requires Lists(ups, now, who, op => UpdatesOne(cur, target, cur.nodes.Keys * target.nodes.Keys, op))
    requires forall op :: op in drops <==> Stamped(op, now, who) && op.DeleteEdge? &&
                                           op.edgeId in cur.edges.vals.Keys - target.edges.vals.Keys &&
                                           forall d :: d in dels + news + ups && d.DeleteEdge? ==> d.edgeId != op.edgeId
    requires Lists(links, now, who, op => CreatesEdge(target, target.edges.vals.Keys - cur.edges.vals.Keys, op))
    ensures forall op :: op in dels + news + ups + drops + links <==> RevertOp(cur, target, now, who, op)
  {
    forall op ensures op in dels + news + ups + drops + links <==> RevertOp(cur, target, now, who, op) {
      assert op in dels + news + ups + drops + links <==>
        op in dels || op in news || op in ups || op in drops || op in links;
      if op.DeleteEdge? && RevertOp(cur, target, now, who, op) && op !in drops && op.edgeId !in target.edges.vals {
        var d :| d in dels + news + ups && d.DeleteEdge? && d.edgeId == op.edgeId;
        assert d in dels || d in news || d in ups;
        assert d == op;
      }
    }
  }

  // ----- applying them -----

  /** Applying in order, skipping what the log rejects (here: an operation offered twice). */
  function Offer(log: seq<Entry>, ops: seq<Operation>): seq<Entry> {
    if ops == [] then log
    else
      var log' := Offer(log, Init(ops));
      if Rejection(log', Last(ops)).None? then log' + [NewEntry(Last(ops))] else log'
  }

  function NamedNode(op: Operation): Option<NodeId> {
    match op
    case CreateNode(n, _, _, _) => Some(n.meta.id)
    case UpdateNode(n, _, _, _) => Some(n.meta.id)
    case DeleteNode(id, _, _, _) => Some(id)
    case _ => None
  }

  function NamedEdge(op: Operation): Option<EdgeId> {
    match op
    case CreateEdge(e, _, _, _) => Some(e.id)
    case DeleteEdge(id, _, _, _) => Some(id)
    case _ => None
  }

  ghost predicate Names(ops: seq<Operation>, id: NodeId) {
    exists op :: op in ops && NamedNode(op) == Some(id)
  }

  ghost predicate NamesEdge(ops: seq<Operation>, id: EdgeId) {
    exists op :: op in ops && NamedEdge(op) == Some(id)
  }

  /** The nodes and edges of ops are as the revert leaves them, all others as before. */
  ghost predicate Halfway(cur: State, target: State, ops: seq<Operation>, s: State) {
    && (forall id :: Get(s.nodes, id) == if Names(ops, id) then Get(target.nodes, id) else Get(cur.nodes, id))
    && forall e ::
         Get(s.edges.vals, e) == if NamesEdge(ops, e) then EdgeGoal(cur, target, e) else Get(cur.edges.vals, e)
  }

  function EdgeGoal(cur: State, target: State, id: EdgeId): Option<Edge> {
    if id in cur.edges.vals then None else Get(target.edges.vals, id)
  }

  lemma HalfwayStart(cur: State, target: State)
    ensures Halfway(cur, target, [], cur)
  {
  }

  lemma NodesHalfway(cur: State, target: State, op: Operation, nodes: map<NodeId, Node>, id: NodeId)
    requires RevertAction(cur, target, op)
    ensures Get(NodesAfter(nodes, op), id) ==
      if NamedNode(op) == Some(id) then Get(target.nodes, id) else Get(nodes, id)
  {
  }

  lemma EdgesHalfway(cur: State, target: State, op: Operation, edges: map<EdgeId, Edge>, id: EdgeId)
    requires RevertAction(cur, target, op)
    ensures Get(EdgesAfter(edges, op), id) ==
      if NamedEdge(op) == Some(id) then EdgeGoal(cur, target, id) else Get(edges, id)
  {
  }

  lemma HalfwayStep(cur: State, target: State, ops: seq<Operation>, op: Operation, s: State)
    requires Halfway(cur, target, ops, s) && RevertAction(cur, target, op)
    ensures Halfway(cur, target, ops + [op], Step(s, NewEntry(op)))
  {
    var e := NewEntry(op);
    NewEntryOp(op);
    StepParts(s, e);
    hide Step, NewEntry, RevertAction, NodesAfter, EdgesAfter, NamedNode, NamedEdge, EdgeGoal;
    var ops' := ops + [op];
    assert forall o :: o in ops' <==> o in ops || o == op;
    forall id
      ensures Get(Step(s, e).nodes, id) == if Names(ops', id) then Get(target.nodes, id) else Get(cur.nodes, id)
    {
      NodesHalfway(cur, target, op, s.nodes, id);
    }
    forall id
      ensures Get(Step(s, e).edges.vals, id) ==
        if NamesEdge(ops', id) then EdgeGoal(cur, target, id) else Get(cur.edges.vals, id)
    {
      EdgesHalfway(cur, target, op, s.edges.vals, id);
    }
  }

  /** A skipped operation equals, up to encoding, one already applied. */
  lemma HalfwaySkip(cur: State, target: State, ops: seq<Operation>, op: Operation, twin: Operation, s: State)
    requires Halfway(cur, target, ops, s) && twin in ops && NormalOp(twin) == NormalOp(op)
    ensures Halfway(cur, target, ops + [op], s)
  {
    SameTouched(op, twin);
    hide NamedNode, NamedEdge, EdgeGoal, NormalOp;
    assert forall o :: o in ops + [op] <==> o in ops || o == op;
  }

  lemma SameTouched(op: Operation, twin: Operation)
    requires NormalOp(twin) == NormalOp(op)
    ensures NamedNode(op) == NamedNode(twin) && NamedEdge(op) == NamedEdge(twin)
  {
    if op.CreateNode? || op.UpdateNode? {
      NormalNodeKeepsMeta(op.node);
      NormalNodeKeepsMeta(twin.node);
    }
    hide NormalNode;
  }

  /** Every id of the extended log was there before or belongs to an operation offered. */
  lemma {:induction false} OfferedIds(log: seq<Entry>, ops: seq<Operation>, id: OperationId)
    requires id in Ids(Offer(log, ops))
    ensures id in Ids(log) || exists op :: op in ops && ComputeOperationId(op) == id
  {
    hide ComputeOperationId, Ids, Rejection, NewEntry;
    if ops != [] {
      assert forall op :: op in Init(ops) ==> op in ops;
      assert Last(ops) in ops;
      NewIds(Offer(log, Init(ops)), Last(ops));
      if id != ComputeOperationId(Last(ops)) {
        OfferedIds(log, Init(ops), id);
      }
    }
  }

  lemma {:induction false} OfferRevert(c: Core, cur: State, target: State, ops: seq<Operation>, now: Time, who: string)
    requires CoreValid(c) && c.clock < now && cur == StateOf(c)
    requires forall op :: op in ops ==> RevertOp(cur, target, now, who, op)
    ensures Halfway(cur, target, ops, Replay(Offer(c.log, ops)))
  {
    hide ComputeOperationId, Halfway, CoreValid, RevertAction, Step, NewEntry, Ids;
    if ops == [] {
      HalfwayStart(cur, target);
    } else {
      var prev, op := Init(ops), Last(ops);
      assert ops == prev + [op] && op in ops;
      OfferRevert(c, cur, target, prev, now, who);
      var log := Offer(c.log, prev);
      if Rejection(log, op).None? {
        ReplayOneMore(log, NewEntry(op));
        HalfwayStep(cur, target, prev, op, Replay(log));
      } else {
        assert ComputeOperationId(op) in Ids(log);
        LaterIsNew(c, op);
        OfferedIds(c.log, prev, ComputeOperationId(op));
        var twin :| twin in prev && ComputeOperationId(twin) == ComputeOperationId(op);
        IdDeterminesOp(twin, op);
        HalfwaySkip(cur, target, prev, op, twin, Replay(log));
      }
    }
  }

  /** Edges the two states share carry equal values, and none touches a node to be deleted. */
  ghost predicate SharedEdgesSettled(cur: State, target: State) {
    forall e :: e in cur.edges.vals && e in target.edges.vals ==>
      cur.edges.vals[e] == target.edges.vals[e] && !TouchesDoomed(cur, target, cur.edges.vals[e])
  }

  lemma NodesReached(cur: State, target: State, ops: seq<Operation>, s: State, now: Time, who: string)
    requires NodesKeyed(target)
    requires Halfway(cur, target, ops, s) && forall op :: op in ops <==> RevertOp(cur, target, now, who, op)
    ensures s.nodes == target.nodes
  {
    forall id ensures Get(s.nodes, id) == Get(target.nodes, id) {
      if Get(cur.nodes, id) != Get(target.nodes, id) {
        var op := if id !in target.nodes then DeleteNode(id, [], now, Some(who))
                  else if id in cur.nodes then UpdateNode(target.nodes[id], [], now, Some(who))
                  else CreateNode(target.nodes[id], [], now, Some(who));
        assert op in ops && NamedNode(op) == Some(id);
      }
    }
    SameMaps(s.nodes, target.nodes);
  }

  lemma SameMaps<K, V>(a: map<K, V>, b: map<K, V>)
    requires forall k :: Get(a, k) == Get(b, k)
    ensures a == b
  {
    forall k ensures k in a <==> k in b { assert Get(a, k) == Get(b, k); }
    forall k | k in a ensures a[k] == b[k] { assert Get(a, k) == Get(b, k); }
  }

  lemma EdgeReached(cur: State, target: State, ops: seq<Operation>, s: State, now: Time, who: string, e: EdgeId)
    requires EdgesKeyed(target)
    requires Halfway(cur, target, ops, s) && forall op :: op in ops <==> RevertOp(cur, target, now, who, op)
    ensures Get(s.edges.vals, e) ==
      if e !in target.edges.vals then None
      else if e !in cur.edges.vals then Some(target.edges.vals[e])
      else if TouchesDoomed(cur, target, cur.edges.vals[e]) then None
      else Some(cur.edges.vals[e])
  {
    hide Names, NamedNode, TouchesDoomed, Halfway;
    EdgeHalf(cur, target, ops, s, e);
    if e in cur.edges.vals {
      var op := DeleteEdge(e, [], now, Some(who));
      NamedBy(ops, op, e);
    } else if e in target.edges.vals {
      var op := CreateEdge(target.edges.vals[e], [], now, Some(who));
      NamedBy(ops, op, e);
    }
  }

  lemma EdgeHalf(cur: State, target: State, ops: seq<Operation>, s: State, e: EdgeId)
    requires Halfway(cur, target, ops, s)
    ensures Get(s.edges.vals, e) == if NamesEdge(ops, e) then EdgeGoal(cur, target, e) else Get(cur.edges.vals, e)
  {
  }

  lemma NamedBy(ops: seq<Operation>, op: Operation, e: EdgeId)
    ensures op in ops && NamedEdge(op) == Some(e) ==> NamesEdge(ops, e)
  {
  }

  lemma EdgesReached(cur: State, target: State, ops: seq<Operation>, s: State, now: Time, who: string)
    requires EdgesKeyed(target)
    requires Halfway(cur, target, ops, s) && forall op :: op in ops <==> RevertOp(cur, target, now, who, op)
    ensures s.edges.vals == target.edges.vals <==> SharedEdgesSettled(cur, target)
  {
    hide Halfway, EdgesKeyed, TouchesDoomed;
    forall e
      ensures Get(s.edges.vals, e) == Get(target.edges.vals, e) <==>
        (e in cur.edges.vals && e in target.edges.vals ==>
          cur.edges.vals[e] == target.edges.vals[e] && !TouchesDoomed(cur, target, cur.edges.vals[e]))
    {
      EdgeReached(cur, target, ops, s, now, who, e);
    }
    if SharedEdgesSettled(cur, target) {
      SameMaps(s.edges.vals, target.edges.vals);
    }
  }

  /** The revert, applied, brings back every node of the target; it brings back the edges if and
      only if the edges both states share are equal and none of them touches a deleted node. */
  lemma RevertReachesTarget(c: Core, t: Time, ops: seq<Operation>, now: Time, who: string)
    requires CoreValid(c) && c.clock < now
    requires forall op :: op in ops <==> RevertOp(StateOf(c), Replay(UpTo(c.log, t)), now, who, op)
    ensures var target := Replay(UpTo(c.log, t));
      var s := Replay(Offer(c.log, ops));
      && s.nodes == target.nodes
      && (s.edges.vals == target.edges.vals <==> SharedEdgesSettled(StateOf(c), target))
  {
    var target := Replay(UpTo(c.log, t));
    ReplayNodesKeyed(UpTo(c.log, t));
    ReplayEdgesKeyed(UpTo(c.log, t));
    hide CoreValid, RevertOp, Replay, Halfway, UpTo, Offer, NodesKeyed, EdgesKeyed, SharedEdgesSettled;
    OfferRevert(c, StateOf(c), target, ops, now, who);
    NodesReached(StateOf(c), target, ops, Replay(Offer(c.log, ops)), now, who);
    EdgesReached(StateOf(c), target, ops, Replay(Offer(c.log, ops)), now, who);
  }

  // ----- the child lists -----

  /** Scanning from the left, each id loses as many occurrences as m holds. */
  function Strike(kids: seq<NodeId>, m: multiset<NodeId>): seq<NodeId> {
    if kids == [] then []
    else if kids[0] in m then Strike(kids[1..], m - multiset{kids[0]})
    else [kids[0]] + Strike(kids[1..], m)
  }

  lemma {:induction false} StrikeOneMore(kids: seq<NodeId>, m: multiset<NodeId>, x: NodeId)
    ensures Remove(Strike(kids, m), x) == Strike(kids, m + multiset{x})
    decreases |kids|
  {
    if kids != [] {
      var k, rest := kids[0], kids[1..];
      if k in m {
        StrikeOneMore(rest, m - multiset{k}, x);
        assert m - multiset{k} + multiset{x} == m + multiset{x} - multiset{k};
      } else {
        StrikeOneMore(rest, m, x);
        assert ([k] + Strike(rest, m))[1..] == Strike(rest, m);
        assert m + multiset{x} - multiset{x} == m;
      }
    }
  }

  /** So what is left is counted by subtraction. */
  lemma {:induction false} StrikeCounts(kids: seq<NodeId>, m: multiset<NodeId>)
    ensures multiset(Strike(kids, m)) == multiset(kids) - m
    decreases |kids|
  {
    if kids != [] {
      var k, rest := kids[0], kids[1..];
      assert kids == [k] + rest;
      if k in m { StrikeCounts(rest, m - multiset{k}); } else { StrikeCounts(rest, m); }
    }
  }

  /** The targets that p loses with the edges that go. */
  function Lost(keys: seq<EdgeId>, edges: map<EdgeId, Edge>, gone: set<EdgeId>, p: NodeId): multiset<NodeId> {
    if keys == [] then multiset{}
    else (if keys[0] in gone then Target(edges, keys[0], p) else multiset{}) + Lost(keys[1..], edges, gone, p)
  }

  /** What the edge contributes to the list of p. */
  function Target(edges: map<EdgeId, Edge>, e: EdgeId, p: NodeId): multiset<NodeId> {
    if e in edges && edges[e].edgeType.CONTAINS? && edges[e].source == p then multiset{edges[e].target} else multiset{}
  }

  lemma {:induction false} LostOneMore(keys: seq<EdgeId>, edges: map<EdgeId, Edge>, gone: set<EdgeId>, p: NodeId,
                                       e: EdgeId)
    requires Distinct(keys) && e !in gone
    ensures Lost(keys, edges, gone + {e}, p) ==
            Lost(keys, edges, gone, p) + if e in keys then Target(edges, e, p) else multiset{}
  {
    hide Target;
    if keys != [] {
      assert keys[0] !in keys[1..] && Distinct(keys[1..]);
      LostOneMore(keys[1..], edges, gone, p, e);
      hide Distinct;
    }
  }

  /** The list of p without the given nodes and edges, as their deletion leaves it. */
  function KidsWithout(cur: State, nodes: set<NodeId>, edges: set<EdgeId>, p: NodeId): seq<NodeId> {
    if p in nodes then [] else Strike(Kids(cur, p), multiset(nodes) + Lost(cur.edges.keys, cur.edges.vals, edges, p))
  }

  function DeletedNodes(ops: seq<Operation>): set<NodeId> {
    set op | op in ops && op.DeleteNode? :: op.nodeId
  }

  function DeletedEdges(ops: seq<Operation>): set<EdgeId> {
    set op | op in ops && op.DeleteEdge? :: op.edgeId
  }

  /** The edges created, in order. */
  function CreatedEdges(ops: seq<Operation>): seq<Edge> {
    if ops == [] then []
    else CreatedEdges(Init(ops)) + if Last(ops).CreateEdge? then [Last(ops).edge] else []
  }

  lemma {:induction false} CreatedIn(ops: seq<Operation>, op: Operation)
    requires op in ops && op.CreateEdge?
    ensures op.edge in CreatedEdges(ops)
  {
    if op != Last(ops) {
      CreatedIn(Init(ops), op);
    }
  }

  lemma {:induction false} NoneCreated(ops: seq<Operation>)
    requires forall op :: op in ops ==> !op.CreateEdge?
    ensures CreatedEdges(ops) == []
  {
    if ops != [] {
      assert Last(ops) in ops;
      NoneCreated(Init(ops));
    }
  }

  /** Each list has lost what the operations delete and gained what they create. */
  ghost predicate ListsHalfway(cur: State, ops: seq<Operation>, s: State) {
    forall p :: Kids(s, p) == Targets(KidsWithout(cur, DeletedNodes(ops), DeletedEdges(ops), p), CreatedEdges(ops), p)
  }

  lemma ListsHalfwayStart(cur: State)
    ensures ListsHalfway(cur, [], cur)
  {
    assert DeletedNodes([]) == {} && DeletedEdges([]) == {};
    forall p ensures KidsWithout(cur, {}, {}, p) == Kids(cur, p) { NothingWithout(cur, p); }
    hide Kids, KidsWithout;
  }

  lemma NothingWithout(cur: State, p: NodeId)
    ensures KidsWithout(cur, {}, {}, p) == Kids(cur, p)
  {
    LostNone(cur.edges.keys, cur.edges.vals, p);
    StrikeNone(Kids(cur, p));
    var none: set<NodeId> := {};
    assert multiset(none) + multiset{} == multiset{};
  }

  lemma {:induction false} StrikeNone(kids: seq<NodeId>)
    ensures Strike(kids, multiset{}) == kids
  {
    if kids != [] { StrikeNone(kids[1..]); }
  }

  lemma {:induction false} LostNone(keys: seq<EdgeId>, edges: map<EdgeId, Edge>, p: NodeId)
    ensures Lost(keys, edges, {}, p) == multiset{}
  {
    if keys != [] { LostNone(keys[1..], edges, p); }
  }

  lemma {:induction false} TargetsAppend(kids: seq<NodeId>, edges: seq<Edge>, e: Edge, p: NodeId)
    ensures Targets(kids, edges + [e], p) == Attach(Targets(kids, edges, p), e, p)
    decreases |edges|
  {
    hide Attach, Targets;
    if edges == [] {
      TargetsRest(kids, [e], p);
      assert edges + [e] == [e] && [e][1..] == [];
      TargetsNone(Attach(kids, e, p), p);
      TargetsNone(kids, p);
    } else {
      TargetsRest(kids, edges, p);
      TargetsRest(kids, edges + [e], p);
      assert (edges + [e])[1..] == edges[1..] + [e];
      TargetsAppend(Attach(kids, edges[0], p), edges[1..], e, p);
    }
  }

  lemma TargetsNone(kids: seq<NodeId>, p: NodeId)
    ensures Targets(kids, [], p) == kids
  {
  }

  lemma TargetsRest(kids: seq<NodeId>, edges: seq<Edge>, p: NodeId)
    requires edges != []
    ensures Targets(kids, edges, p) == Targets(Attach(kids, edges[0], p), edges[1..], p)
  {
    hide Attach;
  }

  lemma OneMoreDeleted(prev: seq<Operation>, op: Operation)
    ensures DeletedNodes(prev + [op]) == DeletedNodes(prev) + if op.DeleteNode? then {op.nodeId} else {}
    ensures DeletedEdges(prev + [op]) == DeletedEdges(prev) + if op.DeleteEdge? then {op.edgeId} else {}
    ensures CreatedEdges(prev + [op]) == CreatedEdges(prev) + if op.CreateEdge? then [op.edge] else []
  {
    var ops := prev + [op];
    assert forall o :: o in ops <==> o in prev || o == op;
    assert Init(ops) == prev;
    forall id | id in DeletedNodes(prev) ensures id in DeletedNodes(ops) {
      var o :| o in prev && o.DeleteNode? && o.nodeId == id;
      assert o in ops;
    }
    forall id | id in DeletedEdges(prev) ensures id in DeletedEdges(ops) {
      var o :| o in prev && o.DeleteEdge? && o.edgeId == id;
      assert o in ops;
    }
  }

  /** A node deleted once more. */
  lemma WithoutNode(cur: State, nodes: set<NodeId>, edges: set<EdgeId>, id: NodeId, p: NodeId)
    requires id !in nodes
    ensures KidsWithout(cur, nodes + {id}, edges, p) ==
      if p == id then [] else Remove(KidsWithout(cur, nodes, edges, p), id)
  {
    hide Strike, Lost, Remove, Kids;
    RemoveNothing(id);
    var lost := Lost(cur.edges.keys, cur.edges.vals, edges, p);
    StrikeOneMore(Kids(cur, p), multiset(nodes) + lost, id);
    assert multiset(nodes) + lost + multiset{id} == multiset(nodes + {id}) + lost;
  }

  lemma RemoveNothing(x: NodeId)
    ensures Remove([], x) == []
  {
  }

  /** An edge deleted once more. */
  lemma WithoutEdge(cur: State, nodes: set<NodeId>, edges: set<EdgeId>, e: EdgeId, p: NodeId)
    requires e !in edges && e in cur.edges.vals && cur.edges.Wf()
    ensures var edge, kids := cur.edges.vals[e], KidsWithout(cur, nodes, edges, p);
      KidsWithout(cur, nodes, edges + {e}, p) ==
      if edge.edgeType.CONTAINS? && edge.source == p then Remove(kids, edge.target) else kids
  {
    hide Strike, Lost, Remove, Kids;
    var edge := cur.edges.vals[e];
    RemoveNothing(edge.target);
    LostOneMore(cur.edges.keys, cur.edges.vals, edges, p, e);
    var m := multiset(nodes) + Lost(cur.edges.keys, cur.edges.vals, edges, p);
    StrikeOneMore(Kids(cur, p), m, edge.target);
    assert multiset(nodes) + Lost(cur.edges.keys, cur.edges.vals, edges + {e}, p) ==
           if edge.edgeType.CONTAINS? && edge.source == p then m + multiset{edge.target} else m;
  }

  /** The operation is the first to delete what it deletes. */
  lemma FirstDeletion(cur: State, target: State, prev: seq<Operation>, op: Operation, s: State, now: Time, who: string)
    requires forall o :: o in prev ==> RevertOp(cur, target, now, who, o)
    requires RevertOp(cur, target, now, who, op) && op !in prev && Halfway(cur, target, prev, s)
    ensures op.DeleteNode? ==> op.nodeId !in DeletedNodes(prev)
    ensures op.DeleteEdge? ==>
      op.edgeId !in DeletedEdges(prev) && Get(s.edges.vals, op.edgeId) == Get(cur.edges.vals, op.edgeId)
  {
    assert op.DeleteEdge? ==> op == DeleteEdge(op.edgeId, [], now, Some(who));
    forall o | o in prev && o.DeleteEdge? ensures o == DeleteEdge(o.edgeId, [], now, Some(who)) {
      assert RevertOp(cur, target, now, who, o);
    }
    forall o | o in prev && o.CreateEdge? ensures o.edge.id !in cur.edges.vals {
      assert RevertOp(cur, target, now, who, o);
    }
  }

  /** One operation the log accepts, in the list of p. */
  lemma ListStep(cur: State, nodes: set<NodeId>, edges: set<EdgeId>, made: seq<Edge>, op: Operation,
                 m: map<EdgeId, Edge>, p: NodeId)
    requires cur.edges.Wf() && !op.MoveNode? && !op.ReorderChildren?
    requires op.DeleteNode? ==> op.nodeId !in nodes && made == []
    requires op.DeleteEdge? ==> op.edgeId !in edges && op.edgeId in cur.edges.vals && made == []
    requires op.DeleteEdge? ==> Get(m, op.edgeId) == Get(cur.edges.vals, op.edgeId)
    ensures KidsAfter(m, op, p, Targets(KidsWithout(cur, nodes, edges, p), made, p)) ==
      var nodes' := nodes + if op.DeleteNode? then {op.nodeId} else {};
      var edges' := edges + if op.DeleteEdge? then {op.edgeId} else {};
      Targets(KidsWithout(cur, nodes', edges', p), made + if op.CreateEdge? then [op.edge] else [], p)
  {
    hide KidsWithout, Targets, Remove, AddChild;
    var kids := KidsWithout(cur, nodes, edges, p);
    assert nodes + {} == nodes && edges + {} == edges && made + [] == made;
    TargetsNone(kids, p);
    if op.DeleteNode? {
      WithoutNode(cur, nodes, edges, op.nodeId, p);
      TargetsNone(KidsWithout(cur, nodes + {op.nodeId}, edges, p), p);
    } else if op.DeleteEdge? {
      WithoutEdge(cur, nodes, edges, op.edgeId, p);
      TargetsNone(KidsWithout(cur, nodes, edges + {op.edgeId}, p), p);
    } else if op.CreateEdge? {
      TargetsAppend(kids, made, op.edge, p);
    }
  }

  lemma ListsStep(cur: State, target: State, prev: seq<Operation>, op: Operation, s: State, now: Time, who: string)
    requires forall o :: o in prev ==> RevertOp(cur, target, now, who, o)
    requires RevertOp(cur, target, now, who, op) && op !in prev && Halfway(cur, target, prev, s) && cur.edges.Wf()
    requires EdgesLast(prev + [op]) && ListsHalfway(cur, prev, s)
    ensures ListsHalfway(cur, prev + [op], Step(s, NewEntry(op)))
  {
    FirstDeletion(cur, target, prev, op, s, now, who);
    OneMoreDeleted(prev, op);
    if !op.CreateEdge? { NoEdgesYet(prev, op); }
    NewEntryOp(op);
    assert RevertAction(cur, target, op);
    hide Step, NewEntry, Kids, KidsWithout, Targets, DeletedNodes, DeletedEdges, CreatedEdges, KidsAfter, Halfway,
      EdgesLast, TouchesDoomed, Dict.Wf, Stamped;
    forall p
      ensures var kids := KidsWithout(cur, DeletedNodes(prev + [op]), DeletedEdges(prev + [op]), p);
        Kids(Step(s, NewEntry(op)), p) == Targets(kids, CreatedEdges(prev + [op]), p)
    {
      StepKids(s, NewEntry(op), p);
      ListStep(cur, DeletedNodes(prev), DeletedEdges(prev), CreatedEdges(prev), op, s.edges.vals, p);
    }
  }

  lemma NoEdgesYet(prev: seq<Operation>, op: Operation)
    requires EdgesLast(prev + [op]) && !op.CreateEdge?
    ensures CreatedEdges(prev) == []
  {
    forall o | o in prev ensures !o.CreateEdge? {
      var i :| 0 <= i < |prev| && prev[i] == o;
      assert (prev + [op])[i] == o && (prev + [op])[|prev|] == op;
    }
    NoneCreated(prev);
  }

  /** Skipping a repeated operation changes nothing: what it would do is done. */
  lemma ListsSkip(cur: State, prev: seq<Operation>, op: Operation, twin: Operation, s: State)
    requires twin in prev && NormalOp(twin) == NormalOp(op) && ListsHalfway(cur, prev, s)
    ensures ListsHalfway(cur, prev + [op], s)
  {
    OneMoreDeleted(prev, op);
    SameDeletion(op, twin);
    if op.CreateEdge? {
      CreatedIn(prev, twin);
      var edges, e := CreatedEdges(prev), op.edge;
      assert DeletedNodes(prev + [op]) == DeletedNodes(prev) && DeletedEdges(prev + [op]) == DeletedEdges(prev);
      hide NormalOp, Kids, KidsWithout, Targets, CreatedEdges, DeletedNodes, DeletedEdges;
      forall p
        ensures Targets(KidsWithout(cur, DeletedNodes(prev), DeletedEdges(prev), p), edges + [e], p) == Kids(s, p)
      {
        var kids := KidsWithout(cur, DeletedNodes(prev), DeletedEdges(prev), p);
        TargetsAppend(kids, edges, e, p);
        TargetsHolds(kids, edges, p, e.target);
      }
    } else {
      assert DeletedNodes(prev + [op]) == DeletedNodes(prev) && DeletedEdges(prev + [op]) == DeletedEdges(prev);
      assert CreatedEdges(prev + [op]) == CreatedEdges(prev);
      hide NormalOp, Kids, KidsWithout, Targets, CreatedEdges, DeletedNodes, DeletedEdges;
    }
  }

  lemma SameDeletion(op: Operation, twin: Operation)
    requires NormalOp(twin) == NormalOp(op)
    ensures op.CreateEdge? || op.DeleteEdge? || op.DeleteNode? ==> twin == op
    ensures twin.CreateEdge? <==> op.CreateEdge?
  {
    hide NormalNode;
  }

  /** What has been offered is logged, so an operation that the log accepts had not been. */
  lemma {:induction false} OfferedIsLogged(log: seq<Entry>, ops: seq<Operation>, op: Operation)
    requires op in ops && forall o :: o in ops ==> o.parentOps == []
    ensures ComputeOperationId(op) in Ids(Offer(log, ops))
  {
    hide ComputeOperationId, Ids, NewEntry;
    var prev, last := Init(ops), Last(ops);
    assert last in ops && forall o :: o in prev ==> o in ops;
    NewIds(Offer(log, prev), last);
    if op != last {
      OfferedIsLogged(log, prev, op);
    }
  }

  lemma {:induction false} OfferLists(c: Core, cur: State, target: State, ops: seq<Operation>, now: Time, who: string)
    requires CoreValid(c) && c.clock < now && cur == StateOf(c) && EdgesLast(ops)
    requires forall op :: op in ops ==> RevertOp(cur, target, now, who, op)
    ensures ListsHalfway(cur, ops, Replay(Offer(c.log, ops)))
  {
    hide ComputeOperationId, Halfway, CoreValid, RevertAction, Step, NewEntry, Ids, ListsHalfway, Wf, NormalOp;
    if ops == [] {
      ListsHalfwayStart(cur);
    } else {
      var prev, op := Init(ops), Last(ops);
      assert ops == prev + [op] && op in ops;
      FewerEdgesLast(prev, op);
      hide EdgesLast;
      OfferLists(c, cur, target, prev, now, who);
      OfferRevert(c, cur, target, prev, now, who);
      var log := Offer(c.log, prev);
      if Rejection(log, op).None? {
        ReplayOneMore(log, NewEntry(op));
        ReplayWf(c.log);
        WfEdges(cur);
        if op in prev { OfferedIsLogged(c.log, prev, op); }
        ListsStep(cur, target, prev, op, Replay(log), now, who);
      } else {
        var twin := TwinOf(c, cur, target, prev, op, now, who);
        ListsSkip(cur, prev, op, twin, Replay(log));
      }
    }
  }

  lemma WfEdges(s: State)
    requires Wf(s)
    ensures s.edges.Wf()
  {
  }

  lemma FewerEdgesLast(prev: seq<Operation>, op: Operation)
    requires EdgesLast(prev + [op])
    ensures EdgesLast(prev)
  {
    var ops := prev + [op];
    forall i, j | 0 <= i < j < |prev| && prev[i].CreateEdge? ensures prev[j].CreateEdge? {
      assert ops[i] == prev[i] && ops[j] == prev[j];
    }
  }

  lemma TwinOf(c: Core, cur: State, target: State, prev: seq<Operation>, op: Operation, now: Time, who: string)
    returns (twin: Operation)
    requires CoreValid(c) && c.clock < now && RevertOp(cur, target, now, who, op)
    requires Rejection(Offer(c.log, prev), op).Some?
    ensures twin in prev && NormalOp(twin) == NormalOp(op)
  {
    hide ComputeOperationId, CoreValid, RevertAction, NewEntry, Ids, NormalOp;
    assert ComputeOperationId(op) in Ids(Offer(c.log, prev));
    LaterIsNew(c, op);
    OfferedIds(c.log, prev, ComputeOperationId(op));
    twin :| twin in prev && ComputeOperationId(twin) == ComputeOperationId(op);
    IdDeterminesOp(twin, op);
  }

  function DoomedNodes(cur: State, target: State): set<NodeId> {
    cur.nodes.Keys - target.nodes.Keys
  }

  function DoomedEdges(cur: State, target: State): set<EdgeId> {
    set e | e in cur.edges.vals && (e !in target.edges.vals || TouchesDoomed(cur, target, cur.edges.vals[e]))
  }

  /** The list of p as the revert leaves it: the current list without the nodes to be deleted and
      without the targets of p's containment edges to be deleted (nothing, if p itself is), followed
      by the targets not yet listed of the containment edges created, in their order. */
  function RevertedKids(cur: State, target: State, ops: seq<Operation>, p: NodeId): seq<NodeId> {
    Targets(KidsWithout(cur, DoomedNodes(cur, target), DoomedEdges(cur, target), p), CreatedEdges(ops), p)
  }

  lemma AllDeleted(cur: State, target: State, ops: seq<Operation>, now: Time, who: string)
    requires forall op :: op in ops <==> RevertOp(cur, target, now, who, op)
    ensures DeletedNodes(ops) == DoomedNodes(cur, target) && DeletedEdges(ops) == DoomedEdges(cur, target)
  {
    forall id ensures id in DeletedNodes(ops) <==> id in DoomedNodes(cur, target) {
      var op := DeleteNode(id, [], now, Some(who));
      assert op in ops <==> id in DoomedNodes(cur, target);
      if o :| o in ops && o.DeleteNode? && o.nodeId == id { assert RevertOp(cur, target, now, who, o); }
    }
    forall e ensures e in DeletedEdges(ops) <==> e in DoomedEdges(cur, target) {
      var op := DeleteEdge(e, [], now, Some(who));
      assert op in ops <==> e in DoomedEdges(cur, target);
      if o :| o in ops && o.DeleteEdge? && o.edgeId == e { assert RevertOp(cur, target, now, who, o); }
    }
  }

  /** What the revert makes of every child list, and so exactly when it brings one back. */
  lemma RevertedLists(c: Core, t: Time, ops: seq<Operation>, now: Time, who: string)
    requires CoreValid(c) && c.clock < now && EdgesLast(ops)
    requires forall op :: op in ops <==> RevertOp(StateOf(c), Replay(UpTo(c.log, t)), now, who, op)
    ensures var cur, target, s := StateOf(c), Replay(UpTo(c.log, t)), Replay(Offer(c.log, ops));
      forall p :: Kids(s, p) == RevertedKids(cur, target, ops, p) &&
        (Kids(s, p) == Kids(target, p) <==> RevertedKids(cur, target, ops, p) == Kids(target, p))
  {
    var target := Replay(UpTo(c.log, t));
    hide CoreValid, RevertOp, Replay, UpTo, Offer, EdgesLast, KidsWithout, Targets, CreatedEdges, DeletedNodes,
      DeletedEdges, DoomedNodes, DoomedEdges, Kids;
    OfferLists(c, StateOf(c), target, ops, now, who);
    AllDeleted(StateOf(c), target, ops, now, who);
  }

  /** The whole graph comes back if and only if shared edges are settled and every list, cut down
      and refilled, is the target's. */
  lemma RevertIsCompleteIff(c: Core, t: Time, ops: seq<Operation>, now: Time, who: string)
    requires CoreValid(c) && c.clock < now && EdgesLast(ops)
    requires forall op :: op in ops <==> RevertOp(StateOf(c), Replay(UpTo(c.log, t)), now, who, op)
    ensures var cur, target, s := StateOf(c), Replay(UpTo(c.log, t)), Replay(Offer(c.log, ops));
      Equiv(s, target) <==>
        SharedEdgesSettled(cur, target) && forall p :: RevertedKids(cur, target, ops, p) == Kids(target, p)
  {
    hide CoreValid, RevertOp, Replay, UpTo, Offer, EdgesLast, RevertedKids, SharedEdgesSettled, Kids;
    RevertReachesTarget(c, t, ops, now, who);
    RevertedLists(c, t, ops, now, who);
  }

  /** In particular, when nothing is created or deleted the lists stay as they are: the graph comes
      back if and only if edges and lists were already those of the target. */
  lemma OrderIsNotReverted(c: Core, t: Time, ops: seq<Operation>, now: Time, who: string)
    requires CoreValid(c) && c.clock < now && EdgesLast(ops)
    requires forall op :: op in ops <==> RevertOp(StateOf(c), Replay(UpTo(c.log, t)), now, who, op)
    requires StateOf(c).nodes.Keys == Replay(UpTo(c.log, t)).nodes.Keys
    requires StateOf(c).edges.vals.Keys == Replay(UpTo(c.log, t)).edges.vals.Keys
    ensures var cur, target, s := StateOf(c), Replay(UpTo(c.log, t)), Replay(Offer(c.log, ops));
      && (forall p :: Kids(s, p) == Kids(cur, p))
      && (Equiv(s, target) <==> cur.edges.vals == target.edges.vals && forall p :: Kids(cur, p) == Kids(target, p))
  {
    var cur, target := StateOf(c), Replay(UpTo(c.log, t));
    RevertedLists(c, t, ops, now, who);
    RevertReachesTarget(c, t, ops, now, who);
    NothingDoomed(cur, target, ops, now, who);
    hide CoreValid, Replay, UpTo, Offer, EdgesLast, Kids, StateOf, RevertOp, DoomedNodes, DoomedEdges, CreatedEdges,
      KidsWithout, Targets;
    hide SharedEdgesSettled;
    forall p ensures RevertedKids(cur, target, ops, p) == Kids(cur, p) {
      NothingWithout(cur, p);
      TargetsNone(Kids(cur, p), p);
    }
  }

  lemma NothingDoomed(cur: State, target: State, ops: seq<Operation>, now: Time, who: string)
    requires forall op :: op in ops <==> RevertOp(cur, target, now, who, op)
    requires cur.nodes.Keys == target.nodes.Keys && cur.edges.vals.Keys == target.edges.vals.Keys
    ensures DoomedNodes(cur, target) == {} && DoomedEdges(cur, target) == {} && CreatedEdges(ops) == []
    ensures SharedEdgesSettled(cur, target) <==> cur.edges.vals == target.edges.vals
  {
    assert forall id :: id in cur.nodes <==> id in target.nodes by {
      assert forall id :: id in cur.nodes.Keys <==> id in target.nodes.Keys;
    }
    assert forall e :: e in cur.edges.vals <==> e in target.edges.vals by {
      assert forall e :: e in cur.edges.vals.Keys <==> e in target.edges.vals.Keys;
    }
    NoneCreated(ops);
    hide CreatedEdges;
  }

  /** So with any history: a reordering logged last, after t, is not even noticed. */
  lemma ReorderIsNotReverted(log: seq<Entry>, e: Entry, t: Time, now: Time, who: string)
    requires e.op.ReorderChildren? && e.op.newOrder != Kids(Replay(log), e.op.parentId)
    requires e.op.timestamp > t && forall i :: 0 <= i < |log| ==> log[i].op.timestamp <= t
    ensures var target, cur := Replay(UpTo(log + [e], t)), Replay(log + [e]);
      && (forall op :: !RevertOp(cur, target, now, who, op))
      && Kids(cur, e.op.parentId) != Kids(target, e.op.parentId)
  {
    hide Replay, Step, Kids;
    AllUpTo(log, t);
    assert Init(log + [e]) == log;
    assert UpTo(log + [e], t) == log;
    hide UpTo;
    ReplayOneMore(log, e);
    StepParts(Replay(log), e);
    StepKids(Replay(log), e, e.op.parentId);
    NothingToRevert(Replay(log), Step(Replay(log), e), now, who);
  }

  lemma NothingToRevert(target: State, cur: State, now: Time, who: string)
    requires cur.nodes == target.nodes && cur.edges.vals == target.edges.vals
    ensures forall op :: !RevertOp(cur, target, now, who, op)
  {
  }
}
