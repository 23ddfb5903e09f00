/** The two compound edits of the document lens, src/uaf/app/lenses/doc_lens.py, and what undo
    makes of them as groups. */
module DocEdits {
  import opened Collections
  import opened JsonValues
  import opened Nodes
  import opened Operations
  import opened OperationLogs
  import opened Materializer
  import opened Inverses
  import opened Indexing
  import opened UndoManagers
  import opened GraphDbs
  import opened UndoHistory
  import opened Queries
  import opened Bundles

  // ----- undoing a group, one entry at a time -----

  /** The core is where undo of the group may start: the log contains it. */
  ghost predicate Undoing(c: Core, log: seq<Entry>, ids: seq<OperationId>, start: nat) {
    CoreValid(c) && Prefixes(log, c.log) && Logged(log, ids, start)
  }

  lemma ValidCoreLog(c: Core)
    requires CoreValid(c)
    ensures ValidLog(c.log) && Wf(StateOf(c))
  {
    ReplayWf(c.log);
    hide ComputeOperationId, ValidLog, Replay, Wf;
  }

  /** One round of undo: the last entry's inverse is run, the rest of the group remains. */
  lemma UndoneLast(c: Core, log: seq<Entry>, ids: seq<OperationId>, start: nat) returns (c1: Core)
    requires Undoing(c, log, ids, start) && ids != []
    ensures Undoing(c1, log, Init(ids), start) && UndoIds(c, ids) == UndoIds(c1, Init(ids))
    ensures var i := start + |ids| - 1;
      StateOf(c1) == Run(StateOf(c), Inverse(log[..i], log[i].op, StateOf(c), c.clock + 1))
  {
    hide ComputeOperationId, Replay, CoreValid, ApplyAll, UndoIds, Inverse, Run, Tick;
    var i := start + |ids| - 1;
    assert log[start + (|ids| - 1)].id == ids[|ids| - 1];
    assert Logged(log, Init(ids), start);
    hide Logged;
    ValidCoreLog(c);
    PositionInExtension(log, c.log, i);
    InExtension(log, c, i);
    UndoRound(c, i);
    UndoIdsRound(c, ids, i);
    c1 := ApplyAll(Tick(c), InverseAt(c, i, c.clock + 1)).core;
    PrefixesTransitive(log, c, c1);
    hide Prefixes, StateOf;
  }

  lemma UndoneAll(c: Core)
    ensures UndoIds(c, []).core == c
  {
  }

  // ----- _insert_text -----

  /** `list.insert(i, x)`: a negative index counts from the end, and indices are clamped. */
  function InsertAt<T>(xs: seq<T>, i: int, x: T): seq<T> {
    var at := if i < 0 then (if |xs| + i < 0 then 0 else |xs| + i) else if i > |xs| then |xs| else i;
    xs[..at] + [x] + xs[at..]
  }

  lemma {:induction false} RemoveInserted(xs: seq<NodeId>, at: nat, x: NodeId)
    requires x !in xs && at <= |xs|
    ensures Remove(xs[..at] + [x] + xs[at..], x) == xs
  {
    if at > 0 {
      var ys := xs[..at] + [x] + xs[at..];
      assert ys[1..] == xs[1..][..at - 1] + [x] + xs[1..][at - 1..];
      RemoveInserted(xs[1..], at - 1, x);
    }
  }

  /** The order recorded for the parent once the new node is listed. */
  function InsertOrder(s: State, parent: NodeId, id: NodeId, position: int): seq<NodeId> {
    var others := Remove(LiveIds(s.nodes, Kids(s, parent)), id);
    InsertAt(others, if position < |others| then position else |others|, id)
  }

  /** Node and edge ids that nothing in the log's graph or in the parent's last order uses. */
  ghost predicate UnusedIds(prefix: seq<Entry>, parent: NodeId, id: NodeId, edge: EdgeId) {
    && UnusedIn(Replay(prefix), id, edge) && id != parent
    && (LastOrder(prefix, parent).Some? ==> id !in LastOrder(prefix, parent).value)
  }

  ghost predicate UnusedIn(s: State, id: NodeId, edge: EdgeId) {
    id !in s.nodes && !Touched(s, id) && !Listed(s, id) && edge !in s.edges.vals
  }

  /** Three entries from `start` on: create the node, contain it in the parent, order the parent. */
  ghost predicate InsertGroup(log: seq<Entry>, start: nat, parent: NodeId, node: Node, edge: Edge, position: int) {
    && start + 3 <= |log|
    && log[start].op.CreateNode? && log[start].op.node == node
    && log[start + 1].op.CreateEdge? && log[start + 1].op.edge == edge
    && edge.source == parent && edge.target == node.meta.id && edge.edgeType.CONTAINS?
    && log[start + 2].op.ReorderChildren? && log[start + 2].op.parentId == parent
    && log[start + 2].op.newOrder == InsertOrder(Replay(log[..start + 2]), parent, node.meta.id, position)
  }

  /** What one logged entry made of the state before it. */
  lemma EntryStep(log: seq<Entry>, i: nat)
    requires i < |log|
    ensures AfterOp(Replay(log[..i]), log[i].op, Replay(log[..i + 1]))
  {
    assert log[..i + 1] == log[..i] + [log[i]];
    ReplayOneMore(log[..i], log[i]);
    hide Replay, AfterOp, Step;
    AfterStep(Replay(log[..i]), log[i], Step(Replay(log[..i]), log[i]));
  }

  /** The children with the new one at the position asked for, which is clamped to the end and
      counts from the end when negative. */
  ghost predicate PlacedAt(live: seq<NodeId>, id: NodeId, position: int, order: seq<NodeId>) {
    && (0 <= position <= |live| ==> order == live[..position] + [id] + live[position..])
    && (position > |live| ==> order == live + [id])
    && (-|live| <= position < 0 ==> order == live[..|live| + position] + [id] + live[|live| + position..])
    && (position < -|live| ==> order == [id] + live)
  }

  /** The order that the lens records: the live children, the new node at its place among them. */
  lemma InsertOrderMeaning(s0: State, s2: State, parent: NodeId, id: NodeId, node: Node, position: int)
    requires id !in s0.nodes && id !in Kids(s0, parent)
    requires s2.nodes == s0.nodes[id := node] && Kids(s2, parent) == Kids(s0, parent) + [id]
    ensures var live := LiveIds(s0.nodes, Kids(s0, parent));
      && PlacedAt(live, id, position, InsertOrder(s2, parent, id, position))
      && Remove(InsertOrder(s2, parent, id, position), id) == live
  {
    var live := LiveIds(s0.nodes, Kids(s0, parent));
    LiveIdsAppend(s0.nodes, s2.nodes, Kids(s0, parent), id);
    RemoveAppended(live, id);
    InsertPlaced(live, id, position);
    hide LiveIds, Remove, Kids, PlacedAt;
  }

  lemma InsertPlaced(live: seq<NodeId>, id: NodeId, position: int)
    requires id !in live
    ensures var order := InsertAt(live, if position < |live| then position else |live|, id);
      PlacedAt(live, id, position, order) && Remove(order, id) == live
  {
    hide Remove;
    var n := |live|;
    RemoveInserted(live, if position > n then n else if position >= 0 then position
      else if n + position >= 0 then n + position else 0, id);
  }

  /** The recorded order in terms of the state before the insertion. */
  lemma RecordedPlace(log: seq<Entry>, start: nat, parent: NodeId, node: Node, edge: Edge, position: int)
    requires InsertGroup(log, start, parent, node, edge, position)
    ensures var s := Replay(log[..start]);
      node.meta.id !in s.nodes && node.meta.id !in Kids(s, parent) ==>
        PlacedAt(LiveIds(s.nodes, Kids(s, parent)), node.meta.id, position, log[start + 2].op.newOrder)
  {
    EntryStep(log, start);
    EntryStep(log, start + 1);
    hide Replay, Kids, LiveIds, InsertOrder, Remove, PlacedAt;
    var s := Replay(log[..start]);
    if node.meta.id !in s.nodes && node.meta.id !in Kids(s, parent) {
      InsertOrderMeaning(s, Replay(log[..start + 2]), parent, node.meta.id, node, position);
    }
  }

  lemma {:induction false} LiveIdsAppend(n0: map<NodeId, Node>, n2: map<NodeId, Node>, kids: seq<NodeId>, id: NodeId)
    requires n2.Keys == n0.Keys + {id} && id !in kids
    ensures LiveIds(n2, kids + [id]) == LiveIds(n0, kids) + [id]
  {
    if kids != [] {
      LiveIdsAppend(n0, n2, kids[1..], id);
      assert (kids + [id])[1..] == kids[1..] + [id];
      assert kids[0] in n2.Keys <==> kids[0] in n0.Keys;
    } else {
      assert id in n2.Keys;
    }
  }

  lemma {:induction false} AllLive(nodes: map<NodeId, Node>, kids: seq<NodeId>)
    ensures LiveIds(nodes, kids) == kids <==> forall k :: k in kids ==> k in nodes
    ensures |LiveIds(nodes, kids)| <= |kids|
  {
    if kids != [] {
      AllLive(nodes, kids[1..]);
      assert forall k :: k in kids <==> k == kids[0] || k in kids[1..];
    }
  }

  /** The state the insertion leaves. */
  lemma Inserted(log: seq<Entry>, start: nat, parent: NodeId, node: Node, edge: Edge, position: int)
    requires InsertGroup(log, start, parent, node, edge, position)
    requires UnusedIds(log[..start], parent, node.meta.id, edge.id)
    ensures var s0, s3, order := Replay(log[..start]), Replay(log[..start + 3]), log[start + 2].op.newOrder;
      && s3.nodes == s0.nodes[node.meta.id := node] && s3.edges.vals == s0.edges.vals[edge.id := edge]
      && (forall p :: Kids(s3, p) == if p == parent then order else Kids(s0, p))
      && Remove(order, node.meta.id) == LiveIds(s0.nodes, Kids(s0, parent))
  {
    var id := node.meta.id;
    var s0, s1, s2 := Replay(log[..start]), Replay(log[..start + 1]), Replay(log[..start + 2]);
    EntryStep(log, start);
    EntryStep(log, start + 1);
    EntryStep(log, start + 2);
    hide Replay, Kids, LiveIds, InsertOrder, Touched, LastOrder, Remove;
    assert id !in Kids(s0, parent);
    InsertOrderMeaning(s0, s2, parent, id, node, position);
  }

  lemma OrderBefore(log: seq<Entry>, start: nat, parent: NodeId)
    requires start + 2 <= |log| && !log[start].op.ReorderChildren? && !log[start + 1].op.ReorderChildren?
    ensures LastOrder(log[..start + 2], parent) == LastOrder(log[..start], parent)
  {
    assert Init(log[..start + 2]) == log[..start + 1] && Init(log[..start + 1]) == log[..start];
  }

  /** The order last recorded for the parent, or else the given list. */
  function RecordedOrder(prefix: seq<Entry>, parent: NodeId, kids: seq<NodeId>): seq<NodeId> {
    if LastOrder(prefix, parent).Some? then LastOrder(prefix, parent).value else kids
  }

  /** Undoing the reordering: the last order recorded before it, if there is one. */
  lemma OrderUndone(prefix: seq<Entry>, op: Operation, t: State, now: Time)
    requires op.ReorderChildren?
    ensures var u := Run(t, Inverse(prefix, op, t, now));
      && u.nodes == t.nodes && u.edges.vals == t.edges.vals
      && forall p :: Kids(u, p) == if p == op.parentId then RecordedOrder(prefix, p, Kids(t, p)) else Kids(t, p)
  {
    hide Run, Kids, LastOrder;
    var prev := LastOrder(prefix, op.parentId);
    if prev.Some? {
      RunOne(t, ReorderChildren(op.parentId, prev.value, [], now, op.principal));
    } else {
      RunNone(t);
    }
  }

  /** Undoing the containment. */
  lemma EdgeUndone(prefix: seq<Entry>, op: Operation, t: State, now: Time)
    requires op.CreateEdge? && op.edge.edgeType.CONTAINS? && Get(t.edges.vals, op.edge.id) == Some(op.edge)
    ensures var u := Run(t, Inverse(prefix, op, t, now));
      && u.nodes == t.nodes && u.edges.vals == t.edges.vals - {op.edge.id}
      && forall p :: Kids(u, p) == if p == op.edge.source then Remove(Kids(t, p), op.edge.target) else Kids(t, p)
  {
    hide Run, Kids, Remove;
    RunOne(t, DeleteEdge(op.edge.id, [], now, op.principal));
  }

  /** Undoing the creation of a node that no edge touches. */
  lemma NodeUndone(prefix: seq<Entry>, op: Operation, t: State, now: Time)
    requires op.CreateNode? && Wf(t) && !Touched(t, op.node.meta.id)
    ensures var u := Run(t, Inverse(prefix, op, t, now));
      && u.nodes == t.nodes - {op.node.meta.id} && u.edges.vals == t.edges.vals
      && forall p :: Kids(u, p) == if p == op.node.meta.id then [] else Remove(Kids(t, p), op.node.meta.id)
  {
    var id := op.node.meta.id;
    EdgeKeys(t);
    AfterUndoCreateNode(t, id, now, op.principal);
    hide Run, Kids, Remove, DeleteEdges, EdgesTouching, Wf;
    var touching := EdgesTouching(t.edges.keys, t.edges.vals, id);
  }

  /** Undoing the insertion restores the graph if and only if the parent's list was the last order
      recorded for it or, when none was, held only live nodes. */
  ghost predicate InsertUndoable(prefix: seq<Entry>, parent: NodeId) {
    var s, last := Replay(prefix), LastOrder(prefix, parent);
    if last.Some? then Kids(s, parent) == last.value else forall k :: k in Kids(s, parent) ==> k in s.nodes
  }

  /** Four states: after the insertion, and after each of the three undo steps. */
  ghost predicate InsertSteps(prefix: seq<Entry>, parent: NodeId, id: NodeId, edge: EdgeId, t3: State, t2: State,
                              t1: State, t0: State) {
    && t2.nodes == t3.nodes && t2.edges.vals == t3.edges.vals
    && t1.nodes == t2.nodes && t1.edges.vals == t2.edges.vals - {edge}
    && t0.nodes == t1.nodes - {id} && t0.edges.vals == t1.edges.vals
    && (forall p :: Kids(t2, p) == if p == parent then RecordedOrder(prefix, p, Kids(t3, p)) else Kids(t3, p))
    && (forall p :: Kids(t1, p) == if p == parent then Remove(Kids(t2, p), id) else Kids(t2, p))
    && (forall p :: Kids(t0, p) == if p == id then [] else Remove(Kids(t1, p), id))
  }

  lemma OtherListsBack(s: State, id: NodeId, edge: EdgeId, p: NodeId)
    requires UnusedIn(s, id, edge)
    ensures id !in Kids(s, p) && (p == id ==> Kids(s, p) == []) && Remove(Kids(s, p), id) == Kids(s, p)
  {
    hide Touched, Kids;
    RemoveTwice(Kids(s, p), id);
  }

  lemma InsertStepsBack(prefix: seq<Entry>, s: State, parent: NodeId, node: Node, edge: Edge,
                        order: seq<NodeId>, t3: State, t2: State, t1: State, t0: State)
    requires s == Replay(prefix) && UnusedIds(prefix, parent, node.meta.id, edge.id)
    requires InsertSteps(prefix, parent, node.meta.id, edge.id, t3, t2, t1, t0)
    requires t3.nodes == s.nodes[node.meta.id := node] && t3.edges.vals == s.edges.vals[edge.id := edge]
    requires forall p :: Kids(t3, p) == if p == parent then order else Kids(s, p)
    requires Remove(order, node.meta.id) == LiveIds(s.nodes, Kids(s, parent))
    ensures Equiv(t0, s) <==> InsertUndoable(prefix, parent)
  {
    var id := node.meta.id;
    hide Replay, Kids, Remove, LiveIds, Touched, Listed, LastOrder, InsertUndoable, RecordedOrder;
    OtherListsBack(s, id, edge.id, parent);
    ParentListBack(prefix, parent, id, order);
    forall p | p != parent ensures Kids(t0, p) == Kids(s, p) { OtherListsBack(s, id, edge.id, p); }
    hide UnusedIn, UnusedIds;
    assert Kids(t0, parent) == Remove(Remove(RecordedOrder(prefix, parent, order), id), id);
  }

  lemma ParentListBack(prefix: seq<Entry>, parent: NodeId, id: NodeId, order: seq<NodeId>)
    requires id !in Kids(Replay(prefix), parent)
    requires LastOrder(prefix, parent).Some? ==> id !in LastOrder(prefix, parent).value
    requires Remove(order, id) == LiveIds(Replay(prefix).nodes, Kids(Replay(prefix), parent))
    ensures Remove(Remove(RecordedOrder(prefix, parent, order), id), id) == Kids(Replay(prefix), parent) <==>
      InsertUndoable(prefix, parent)
  {
    var s, recorded := Replay(prefix), RecordedOrder(prefix, parent, order);
    AllLive(s.nodes, Kids(s, parent));
    RemoveTwice(recorded, id);
    RemoveTwice(Remove(recorded, id), id);
    hide Replay, Kids, Remove, LiveIds, LastOrder;
  }

  lemma EdgeGone(s: State, t: State, edge: Edge, id: NodeId)
    requires UnusedIn(s, id, edge.id) && t.edges.vals == s.edges.vals[edge.id := edge] - {edge.id}
    ensures !Touched(t, id)
  {
  }

  lemma UndoInsertSteps(c: Core, log: seq<Entry>, ids: seq<OperationId>, start: nat, parent: NodeId, node: Node,
                        edge: Edge, position: int) returns (t2: State, t1: State, c0: Core)
    requires Undoing(c, log, ids, start) && |ids| == 3
    requires InsertGroup(log, start, parent, node, edge, position)
    requires UnusedIn(Replay(log[..start]), node.meta.id, edge.id)
    requires StateOf(c).edges.vals == Replay(log[..start]).edges.vals[edge.id := edge]
    ensures UndoIds(c, ids).core == c0
    ensures InsertSteps(log[..start], parent, node.meta.id, edge.id, StateOf(c), t2, t1, StateOf(c0))
  {
    hide Replay, StateOf, UndoIds, Undoing, Inverse, Run, Kids, Remove, LastOrder, InsertOrder, UnusedIn, Touched, Wf;
    OrderBefore(log, start, parent);
    var c2 := UndoneLast(c, log, ids, start);
    OrderUndone(log[..start + 2], log[start + 2].op, StateOf(c), c.clock + 1);
    var c1 := UndoneLast(c2, log, Init(ids), start);
    EdgeUndone(log[..start + 1], log[start + 1].op, StateOf(c2), c2.clock + 1);
    c0 := UndoneLast(c1, log, Init(Init(ids)), start);
    EdgeGone(Replay(log[..start]), StateOf(c1), edge, node.meta.id);
    UndoingWf(c1, log, Init(Init(ids)), start);
    NodeUndone(log[..start], log[start].op, StateOf(c1), c1.clock + 1);
    assert Init(Init(Init(ids))) == [];
    UndoneAll(c0);
    t2, t1 := StateOf(c2), StateOf(c1);
  }

  /** The insertion, undone in the state it left: everything is as before exactly when the parent's
      list was its last recorded order or, if it never had one, was all live. */
  lemma InsertUndoneIff(c: Core, log: seq<Entry>, ids: seq<OperationId>, start: nat, parent: NodeId, node: Node,
                        edge: Edge, position: int)
    requires Undoing(c, log, ids, start) && |ids| == 3
    requires InsertGroup(log, start, parent, node, edge, position)
    requires UnusedIds(log[..start], parent, node.meta.id, edge.id)
    requires Equiv(StateOf(c), Replay(log[..start + 3]))
    ensures Equiv(StateOf(UndoIds(c, ids).core), Replay(log[..start])) <==> InsertUndoable(log[..start], parent)
  {
    Inserted(log, start, parent, node, edge, position);
    hide Replay, StateOf, UndoIds, Undoing, Kids, Remove, LiveIds, InsertOrder, UnusedIn, InsertUndoable, InsertSteps;
    var t2, t1, c0 := UndoInsertSteps(c, log, ids, start, parent, node, edge, position);
    InsertStepsBack(log[..start], Replay(log[..start]), parent, node, edge, log[start + 2].op.newOrder, StateOf(c),
      t2, t1, StateOf(c0));
  }

  lemma UndoingWf(c: Core, log: seq<Entry>, ids: seq<OperationId>, start: nat)
    requires Undoing(c, log, ids, start)
    ensures Wf(StateOf(c))
  {
    hide ComputeOperationId, CoreValid;
    ValidCoreLog(c);
  }

  // ----- _delete_text -----

  ghost predicate Contains(s: State, e: EdgeId, p: NodeId, id: NodeId) {
    && e in s.edges.vals && s.edges.vals[e].edgeType.CONTAINS?
    && s.edges.vals[e].source == p && s.edges.vals[e].target == id
  }

  /** Some containment edge leads from p to the node. */
  ghost predicate ContainedBy(s: State, p: NodeId, id: NodeId) {
    exists e :: Contains(s, e, p, id)
  }

  ghost predicate Drops(log: seq<Entry>, i: nat, e: EdgeId) {
    i < |log| && log[i].op.DeleteEdge? && log[i].op.edgeId == e
  }

  /** Entries from `start` on: delete the given edges one by one, then the node. */
  ghost predicate DeleteGroup(log: seq<Entry>, start: nat, drop: seq<EdgeId>, id: NodeId) {
    && start + |drop| + 1 <= |log|
    && (forall j :: 0 <= j < |drop| ==> Drops(log, start + j, drop[j]))
    && log[start + |drop|].op.DeleteNode? && log[start + |drop|].op.nodeId == id
  }

  /** A live leaf that each list holds at most once, and exactly its containment edges. */
  ghost predicate Leaf(s: State, drop: seq<EdgeId>, id: NodeId) {
    && id in s.nodes && Kids(s, id) == [] && Distinct(drop)
    && (forall p :: id !in Remove(Kids(s, p), id))
    && (forall e :: e in drop <==>
      e in s.edges.vals && s.edges.vals[e].edgeType.CONTAINS? && s.edges.vals[e].target == id)
  }

  /** One of the first n edges leads from p. */
  ghost predicate FromFirst(s: State, drop: seq<EdgeId>, n: nat, p: NodeId)
    requires n <= |drop|
  {
    exists j :: 0 <= j < n && drop[j] in s.edges.vals && s.edges.vals[drop[j]].source == p
  }

  /** After deleting the first n edges. */
  ghost predicate Dropped(s: State, drop: seq<EdgeId>, id: NodeId, n: nat, t: State) {
    && n <= |drop| && t.nodes == s.nodes
    && t.edges.vals == s.edges.vals - Elements(drop[..n])
    && forall p :: Kids(t, p) == if FromFirst(s, drop, n, p) then Remove(Kids(s, p), id) else Kids(s, p)
  }

  lemma DropStart(s: State, drop: seq<EdgeId>, id: NodeId)
    ensures Dropped(s, drop, id, 0, s)
  {
    assert s.edges.vals - {} == s.edges.vals;
  }

  lemma FromNext(s: State, drop: seq<EdgeId>, n: nat, p: NodeId)
    requires n < |drop| && drop[n] in s.edges.vals
    ensures FromFirst(s, drop, n + 1, p) <==> FromFirst(s, drop, n, p) || s.edges.vals[drop[n]].source == p
  {
    assert s.edges.vals[drop[n]].source == p ==> FromFirst(s, drop, n + 1, p);
  }

  lemma EdgesDroppedNext(m: map<EdgeId, Edge>, drop: seq<EdgeId>, n: nat)
    requires n < |drop|
    ensures (m - Elements(drop[..n])) - {drop[n]} == m - Elements(drop[..n + 1])
  {
    assert drop[..n + 1] == drop[..n] + [drop[n]];
  }

  lemma StillStored(m: map<EdgeId, Edge>, drop: seq<EdgeId>, n: nat)
    requires n < |drop| && Distinct(drop) && drop[n] in m
    ensures drop[n] in m - Elements(drop[..n])
  {
  }

  lemma DropNext(s: State, drop: seq<EdgeId>, id: NodeId, n: nat, t: State, op: Operation, u: State)
    requires Leaf(s, drop, id) && Dropped(s, drop, id, n, t) && n < |drop|
    requires op.DeleteEdge? && op.edgeId == drop[n] && AfterOp(t, op, u)
    ensures Dropped(s, drop, id, n + 1, u)
  {
    var e := drop[n];
    assert e in drop;
    StillStored(s.edges.vals, drop, n);
    EdgesDroppedNext(s.edges.vals, drop, n);
    var q := s.edges.vals[e].source;
    hide Kids, Remove, FromFirst, Distinct;
    forall p ensures Kids(u, p) == if FromFirst(s, drop, n + 1, p) then Remove(Kids(s, p), id) else Kids(s, p) {
      FromNext(s, drop, n, p);
      RemoveTwice(Remove(Kids(s, p), id), id);
    }
  }

  lemma {:induction false} DropAll(log: seq<Entry>, start: nat, drop: seq<EdgeId>, id: NodeId, n: nat)
    requires DeleteGroup(log, start, drop, id) && Leaf(Replay(log[..start]), drop, id) && n <= |drop|
    ensures Dropped(Replay(log[..start]), drop, id, n, Replay(log[..start + n]))
  {
    hide Leaf, Dropped, Replay, AfterOp;
    if n == 0 {
      DropStart(Replay(log[..start]), drop, id);
    } else {
      DropAll(log, start, drop, id, n - 1);
      EntryStep(log, start + n - 1);
      assert Drops(log, start + (n - 1), drop[n - 1]);
      DropNext(Replay(log[..start]), drop, id, n - 1, Replay(log[..start + n - 1]), log[start + n - 1].op,
        Replay(log[..start + n]));
    }
  }

  lemma DeletedLists(s: State, u: State, t: State, drop: seq<EdgeId>, id: NodeId, op: Operation)
    requires Leaf(s, drop, id) && Dropped(s, drop, id, |drop|, u)
    requires op.DeleteNode? && op.nodeId == id && AfterOp(u, op, t)
    ensures t.nodes == s.nodes - {id} && t.edges.vals == s.edges.vals - Elements(drop)
    ensures forall p :: Kids(t, p) == Remove(Kids(s, p), id)
  {
    assert drop[..|drop|] == drop;
    hide Kids, Remove, FromFirst, Distinct;
    forall p ensures Kids(t, p) == Remove(Kids(s, p), id) {
      RemoveTwice(Remove(Kids(s, p), id), id);
      RemoveTwice(Kids(s, p), id);
    }
  }

  /** After the deletion no list holds the node, and nothing else has changed in the lists. */
  lemma Deleted(log: seq<Entry>, start: nat, drop: seq<EdgeId>, id: NodeId)
    requires DeleteGroup(log, start, drop, id) && Leaf(Replay(log[..start]), drop, id)
    ensures var s, t := Replay(log[..start]), Replay(log[..start + |drop| + 1]);
      && t.nodes == s.nodes - {id} && t.edges.vals == s.edges.vals - Elements(drop)
      && forall p :: Kids(t, p) == Remove(Kids(s, p), id)
  {
    hide Replay, Kids, Remove, Leaf, Dropped, AfterOp;
    DropAll(log, start, drop, id, |drop|);
    EntryStep(log, start + |drop|);
    DeletedLists(Replay(log[..start]), Replay(log[..start + |drop|]), Replay(log[..start + |drop| + 1]), drop, id,
      log[start + |drop|].op);
  }

  /** One of the edges from position n on leads from p. */
  ghost predicate FromRest(s: State, drop: seq<EdgeId>, n: nat, p: NodeId) {
    exists j :: n <= j < |drop| && drop[j] in s.edges.vals && s.edges.vals[drop[j]].source == p
  }

  function PutLast(kids: seq<NodeId>, id: NodeId, listed: bool): seq<NodeId> {
    Remove(kids, id) + if listed then [id] else []
  }

  /** The node and the edges from position n on are back. */
  ghost predicate Restored(s: State, drop: seq<EdgeId>, id: NodeId, n: nat, t: State) {
    && n <= |drop| && t.nodes == s.nodes
    && t.edges.vals == s.edges.vals - Elements(drop[..n])
    && forall p :: Kids(t, p) == PutLast(Kids(s, p), id, FromRest(s, drop, n, p))
  }

  lemma {:induction false} NodeRestored(prefix: seq<Entry>, s: State, drop: seq<EdgeId>, id: NodeId, op: Operation,
                                        t: State, now: Time)
    requires op.DeleteNode? && op.nodeId == id && Get(Replay(prefix).nodes, id) == Get(s.nodes, id)
    requires id in s.nodes && t.nodes == s.nodes - {id} && t.edges.vals == s.edges.vals - Elements(drop)
    requires forall p :: Kids(t, p) == Remove(Kids(s, p), id)
    ensures Restored(s, drop, id, |drop|, Run(t, Inverse(prefix, op, t, now)))
  {
    hide Run, Kids, Remove, Replay, LastNode;
    BackwardSearchNode(prefix, id);
    assert drop[..|drop|] == drop;
    RunOne(t, CreateNode(s.nodes[id], [], now, op.principal));
    forall p ensures !FromRest(s, drop, |drop|, p) {}
  }

  lemma {:induction false} EdgeRestored(prefix: seq<Entry>, s: State, drop: seq<EdgeId>, id: NodeId, n: nat,
                                        op: Operation, t: State, now: Time)
    requires Leaf(s, drop, id) && n < |drop| && Restored(s, drop, id, n + 1, t)
    requires op.DeleteEdge? && op.edgeId == drop[n]
    requires Get(Replay(prefix).edges.vals, drop[n]) == Get(s.edges.vals, drop[n])
    requires drop[n] in s.edges.vals && s.edges.vals[drop[n]].id == drop[n]
    ensures Restored(s, drop, id, n, Run(t, Inverse(prefix, op, t, now)))
  {
    hide Run, Kids, Remove, Replay, Distinct, FromRest, LastEdge, PutLast;
    var e, edge := drop[n], s.edges.vals[drop[n]];
    assert e in drop;
    BackwardSearchEdge(prefix, e);
    EdgesRestored(s.edges.vals, drop, n);
    var put := CreateEdge(edge, [], now, op.principal);
    RunOne(t, put);
    var u := Run(t, [put]);
    forall p ensures Kids(u, p) == PutLast(Kids(s, p), id, FromRest(s, drop, n, p)) {
      FromRestNext(s, drop, n, p);
      PutLastAgain(Kids(s, p), id, FromRest(s, drop, n + 1, p));
    }
  }

  lemma PutLastAgain(kids: seq<NodeId>, id: NodeId, listed: bool)
    requires id !in Remove(kids, id)
    ensures AddChild(PutLast(kids, id, listed), id) == PutLast(kids, id, true)
  {
    hide Remove;
  }

  lemma EdgesRestored(m: map<EdgeId, Edge>, drop: seq<EdgeId>, n: nat)
    requires n < |drop| && Distinct(drop) && drop[n] in m
    ensures (m - Elements(drop[..n + 1]))[drop[n] := m[drop[n]]] == m - Elements(drop[..n])
  {
    assert drop[..n + 1] == drop[..n] + [drop[n]];
    assert drop[n] !in drop[..n];
  }

  lemma FromRestNext(s: State, drop: seq<EdgeId>, n: nat, p: NodeId)
    requires n < |drop| && drop[n] in s.edges.vals
    ensures FromRest(s, drop, n, p) <==> FromRest(s, drop, n + 1, p) || s.edges.vals[drop[n]].source == p
  {
    assert s.edges.vals[drop[n]].source == p ==> FromRest(s, drop, n, p);
  }

  /** Entry n of the group, and the edge it deleted. */
  lemma DroppedEntry(log: seq<Entry>, start: nat, drop: seq<EdgeId>, id: NodeId, n: nat)
    requires DeleteGroup(log, start, drop, id) && Leaf(Replay(log[..start]), drop, id) && n < |drop|
    ensures start + n < |log|
    ensures var s, u, op := Replay(log[..start]), Replay(log[..start + n]), log[start + n].op;
      && op.DeleteEdge? && op.edgeId == drop[n] && drop[n] in s.edges.vals
      && Get(u.edges.vals, drop[n]) == Get(s.edges.vals, drop[n])
  {
    DropAll(log, start, drop, id, n);
    assert drop[n] in drop && Drops(log, start + n, drop[n]);
    hide Replay, Kids, Remove, FromFirst;
    StillStored(Replay(log[..start]).edges.vals, drop, n);
  }

  lemma KeyedEdge(s: State, e: EdgeId)
    requires EdgesKeyed(s)
    ensures e in s.edges.vals ==> s.edges.vals[e].id == e
  {
  }

  lemma EdgeBack(c: Core, log: seq<Entry>, ids: seq<OperationId>, start: nat, drop: seq<EdgeId>, id: NodeId, s: State)
    returns (c1: Core)
    requires Undoing(c, log, ids, start) && DeleteGroup(log, start, drop, id) && s == Replay(log[..start]) && ids != []
    requires Leaf(s, drop, id) && EdgesKeyed(s) && |ids| <= |drop| && Restored(s, drop, id, |ids|, StateOf(c))
    ensures Undoing(c1, log, Init(ids), start) && UndoIds(c, ids) == UndoIds(c1, Init(ids))
    ensures Restored(s, drop, id, |ids| - 1, StateOf(c1))
  {
    hide Replay, StateOf, UndoIds, Undoing, DeleteGroup, Leaf, Restored, Inverse, Run, EdgesKeyed;
    var n := |ids| - 1;
    DroppedEntry(log, start, drop, id, n);
    c1 := UndoneLast(c, log, ids, start);
    KeyedEdge(s, drop[n]);
    EdgeRestored(log[..start + n], s, drop, id, n, log[start + n].op, StateOf(c), c.clock + 1);
  }

  lemma {:induction false} EdgesBack(c: Core, log: seq<Entry>, ids: seq<OperationId>, start: nat, drop: seq<EdgeId>,
                                     id: NodeId, s: State)
    requires Undoing(c, log, ids, start) && DeleteGroup(log, start, drop, id) && s == Replay(log[..start])
    requires Leaf(s, drop, id) && EdgesKeyed(s) && |ids| <= |drop| && Restored(s, drop, id, |ids|, StateOf(c))
    ensures Restored(s, drop, id, 0, StateOf(UndoIds(c, ids).core))
    decreases |ids|
  {
    hide Replay, StateOf, UndoIds, Undoing, DeleteGroup, Leaf, Restored, EdgesKeyed;
    if ids == [] {
      UndoneAll(c);
    } else {
      var c1 := EdgeBack(c, log, ids, start, drop, id, s);
      EdgesBack(c1, log, Init(ids), start, drop, id, s);
    }
  }

  lemma NodeStillThere(s: State, drop: seq<EdgeId>, id: NodeId, t: State)
    requires Leaf(s, drop, id) && Dropped(s, drop, id, |drop|, t)
    ensures id in s.nodes && Get(t.nodes, id) == Get(s.nodes, id)
  {
    hide Kids, Remove, FromFirst;
  }

  lemma NodeBack(c: Core, log: seq<Entry>, ids: seq<OperationId>, start: nat, drop: seq<EdgeId>, id: NodeId, s: State)
    returns (c1: Core)
    requires Undoing(c, log, ids, start) && DeleteGroup(log, start, drop, id) && s == Replay(log[..start])
    requires Leaf(s, drop, id) && |ids| == |drop| + 1 && Equiv(StateOf(c), Replay(log[..start + |drop| + 1]))
    ensures Undoing(c1, log, Init(ids), start) && UndoIds(c, ids) == UndoIds(c1, Init(ids))
    ensures Restored(s, drop, id, |drop|, StateOf(c1))
  {
    hide Replay, StateOf, UndoIds, Undoing, Inverse, Run, Kids, Remove, Restored, Leaf, Dropped;
    Deleted(log, start, drop, id);
    DropAll(log, start, drop, id, |drop|);
    NodeStillThere(s, drop, id, Replay(log[..start + |drop|]));
    c1 := UndoneLast(c, log, ids, start);
    NodeRestored(log[..start + |drop|], s, drop, id, log[start + |drop|].op, StateOf(c), c.clock + 1);
  }

  /** The deletion, undone in the state it left: every node and edge is back, and in each list the
      node is back exactly where a containment edge claims it, at the end. */
  lemma DeleteUndone(c: Core, log: seq<Entry>, ids: seq<OperationId>, start: nat, drop: seq<EdgeId>, id: NodeId)
    requires Undoing(c, log, ids, start) && |ids| == |drop| + 1 && DeleteGroup(log, start, drop, id)
    requires Leaf(Replay(log[..start]), drop, id) && Equiv(StateOf(c), Replay(log[..start + |drop| + 1]))
    ensures var s, t := Replay(log[..start]), StateOf(UndoIds(c, ids).core);
      && t.nodes == s.nodes && t.edges.vals == s.edges.vals
      && forall p :: Kids(t, p) == PutLast(Kids(s, p), id, ContainedBy(s, p, id))
  {
    var s := Replay(log[..start]);
    ReplayEdgesKeyed(log[..start]);
    hide Replay, StateOf, UndoIds, Undoing, Kids, Remove, Restored, DeleteGroup, Leaf, Equiv, EdgesKeyed;
    var c1 := NodeBack(c, log, ids, start, drop, id, s);
    EdgesBack(c1, log, Init(ids), start, drop, id, s);
    AllRestored(s, drop, id, StateOf(UndoIds(c, ids).core));
  }

  lemma AllRestored(s: State, drop: seq<EdgeId>, id: NodeId, t: State)
    requires Leaf(s, drop, id) && Restored(s, drop, id, 0, t)
    ensures t.nodes == s.nodes && t.edges.vals == s.edges.vals
    ensures forall p :: Kids(t, p) == PutLast(Kids(s, p), id, ContainedBy(s, p, id))
  {
    hide Kids, Remove, Distinct;
    assert drop[..0] == [];
    forall p ensures FromRest(s, drop, 0, p) <==> ContainedBy(s, p, id) {
      if FromRest(s, drop, 0, p) {
        var j :| 0 <= j < |drop| && drop[j] in s.edges.vals && s.edges.vals[drop[j]].source == p;
        assert drop[j] in drop;
        assert Contains(s, drop[j], p, id);
      }
      if e :| Contains(s, e, p, id) {
        var j :| 0 <= j < |drop| && drop[j] == e;
      }
    }
  }

  /** In every list the node stood last where an edge contains it and nowhere else. */
  ghost predicate DeleteUndoable(s: State, id: NodeId) {
    forall p :: if ContainedBy(s, p, id) then OnlyLast(Kids(s, p), id) else id !in Kids(s, p)
  }

  /** So undo restores the whole graph if and only if, in every list, the node stood last where an
      edge contains it and nowhere else. */
  lemma DeleteUndoneIff(c: Core, log: seq<Entry>, ids: seq<OperationId>, start: nat, drop: seq<EdgeId>, id: NodeId)
    requires Undoing(c, log, ids, start) && |ids| == |drop| + 1 && DeleteGroup(log, start, drop, id)
    requires Leaf(Replay(log[..start]), drop, id) && Equiv(StateOf(c), Replay(log[..start + |drop| + 1]))
    ensures var s := Replay(log[..start]);
      Equiv(StateOf(UndoIds(c, ids).core), s) <==> DeleteUndoable(s, id)
  {
    hide Replay, StateOf, UndoIds, Undoing, Leaf, Drops, ContainedBy, Kids, PutLast, OnlyLast;
    DeleteUndone(c, log, ids, start, drop, id);
    var s := Replay(log[..start]);
    forall p ensures PutLast(Kids(s, p), id, ContainedBy(s, p, id)) == Kids(s, p) <==>
        (if ContainedBy(s, p, id) then OnlyLast(Kids(s, p), id) else id !in Kids(s, p)) {
      LeafOnce(s, drop, id, p);
      PutLastSame(Kids(s, p), id, ContainedBy(s, p, id));
    }
  }

  lemma PutLastSame(kids: seq<NodeId>, id: NodeId, listed: bool)
    requires id !in Remove(kids, id)
    ensures PutLast(kids, id, listed) == kids <==> if listed then OnlyLast(kids, id) else id !in kids
  {
    AppendAgain(kids, id);
    RemoveTwice(kids, id);
    hide Remove, OnlyLast;
    assert PutLast(kids, id, false) == Remove(kids, id);
  }

  lemma LeafOnce(s: State, drop: seq<EdgeId>, id: NodeId, p: NodeId)
    requires Leaf(s, drop, id)
    ensures id !in Remove(Kids(s, p), id)
  {
  }

  // ----- in whole runs -----

  /** Under that condition an insertion is a reversible group, so runs of such edits, undos and
      redos follow one history of states. */
  lemma InsertIsReversible(log: seq<Entry>, ids: seq<OperationId>, start: nat, parent: NodeId, node: Node, edge: Edge,
                           position: int)
    requires Logged(log, ids, start) && |ids| == 3 && InsertGroup(log, start, parent, node, edge, position)
    requires UnusedIds(log[..start], parent, node.meta.id, edge.id) && InsertUndoable(log[..start], parent)
    ensures Reversible(log, ids, start)
  {
    hide CoreValid, StateOf, Replay, Equiv, InsertGroup, UnusedIds, InsertUndoable, UndoIds, Prefixes;
    forall c: Core | CoreValid(c) && Prefixes(log, c.log) && Equiv(StateOf(c), Replay(log[..start + |ids|]))
      ensures Equiv(StateOf(UndoIds(c, ids).core), Replay(log[..start]))
    {
      InsertUndoneIff(c, log, ids, start, parent, node, edge, position);
    }
  }

  lemma DeleteIsReversible(log: seq<Entry>, ids: seq<OperationId>, start: nat, drop: seq<EdgeId>, id: NodeId)
    requires Logged(log, ids, start) && |ids| == |drop| + 1 && DeleteGroup(log, start, drop, id)
    requires Leaf(Replay(log[..start]), drop, id) && DeleteUndoable(Replay(log[..start]), id)
    ensures Reversible(log, ids, start)
  {
    hide CoreValid, StateOf, Replay, Equiv, DeleteGroup, Leaf, UndoIds, Prefixes, DeleteUndoable;
    forall c: Core | CoreValid(c) && Prefixes(log, c.log) && Equiv(StateOf(c), Replay(log[..start + |ids|]))
      ensures Equiv(StateOf(UndoIds(c, ids).core), Replay(log[..start]))
    {
      DeleteUndoneIff(c, log, ids, start, drop, id);
    }
  }

  // ----- the two edits, on the database -----

  lemma IssueAccepted(c: Core, op: Operation)
    requires CoreValid(c) && op.timestamp == c.clock + 1 && op.parentOps == []
    ensures Rejection(c.log, op).None? && CoreValid(Core(c.log + [NewEntry(op)], c.clock + 1))
  {
    DoOne(c, op);
    hide ComputeOperationId, CoreValid, NewEntry, Ids;
    LaterIsNew(c, op);
  }

  // Inside the bracket of one edit.

  /** The group is open and holds these ids; the redo stack goes with the first of them. */
  ghost predicate Gathering(u0: Undo, key: StackKey, groupId: string, ids: seq<OperationId>, u: Undo) {
    && u.open == Some(OpenGroup(groupId, ids, key.0, key.1, 1)) && u.undo == u0.undo
    && StackAt(u.redo, key) == if ids == [] then StackAt(u0.redo, key) else []
  }

  /** Exactly one group has been pushed, on the stack of its key. */
  ghost predicate Pushed(u0: Undo, g: UndoGroup, u: Undo) {
    && u.open.None? && StackAt(u.redo, g.Key()) == []
    && forall k :: StackAt(u.undo, k) == StackAt(u0.undo, k) + if k == g.Key() then [g] else []
  }

  lemma GatherNext(u0: Undo, key: StackKey, groupId: string, ids: seq<OperationId>, u: Undo, id: OperationId,
                   artifact: Option<string>)
    requires Gathering(u0, key, groupId, ids, u)
    ensures Gathering(u0, key, groupId, ids + [id], RecordOp(u, id, key.0, artifact, ""))
  {
  }

  lemma GatherEnd(u0: Undo, key: StackKey, groupId: string, ids: seq<OperationId>, u: Undo)
    requires Gathering(u0, key, groupId, ids, u) && ids != []
    ensures Pushed(u0, UndoGroup(groupId, ids, key.0, key.1), EndGroup(u))
  {
    OutermostEnd(u, OpenGroup(groupId, ids, key.0, key.1, 1));
    hide CreatedGroups;
  }

  /** What the bracket has appended to the log is what the open group holds. */
  ghost predicate Bracketed(before: seq<Entry>, u0: Undo, key: StackKey, groupId: string, log: seq<Entry>, u: Undo) {
    |before| <= |log| && Gathering(u0, key, groupId, IdsFrom(log, |before|), u)
  }

  lemma BracketStart(log: seq<Entry>, u0: Undo, key: StackKey, groupId: string)
    requires u0.open.None?
    ensures Bracketed(log, u0, key, groupId, log, BeginGroup(u0, key.0, key.1, groupId))
  {
  }

  lemma BracketNext(before: seq<Entry>, u0: Undo, key: StackKey, groupId: string, log: seq<Entry>, u: Undo,
                    log': seq<Entry>, artifact: Option<string>)
    requires Bracketed(before, u0, key, groupId, log, u) && |log'| == |log| + 1 && Init(log') == log
    ensures Bracketed(before, u0, key, groupId, log', RecordOp(u, Last(log').id, key.0, artifact, ""))
  {
    hide Gathering, RecordOp;
    GatherNext(u0, key, groupId, IdsFrom(log, |before|), u, Last(log').id, artifact);
    assert IdsFrom(log', |before|) == IdsFrom(log, |before|) + [Last(log').id];
  }

  lemma BracketEnd(before: seq<Entry>, u0: Undo, key: StackKey, groupId: string, log: seq<Entry>, u: Undo)
    requires Bracketed(before, u0, key, groupId, log, u) && |before| < |log|
    ensures Pushed(u0, UndoGroup(groupId, IdsFrom(log, |before|), key.0, key.1), EndGroup(u))
  {
    hide Gathering, Pushed, EndGroup;
    GatherEnd(u0, key, groupId, IdsFrom(log, |before|), u);
  }

  ghost predicate By(who: string, op: Operation) {
    op.principal == Some(who) && op.parentOps == []
  }

  ghost predicate AllBy(who: string, log: seq<Entry>, start: nat) {
    forall j :: start <= j < |log| ==> By(who, log[j].op)
  }

  lemma AllByNext(who: string, log: seq<Entry>, log': seq<Entry>, start: nat)
    requires AllBy(who, log, start) && |log'| == |log| + 1 && Init(log') == log && By(who, Last(log').op)
    ensures AllBy(who, log', start)
  {
    hide By;
  }

  lemma NoneByYet(who: string, log: seq<Entry>)
    ensures AllBy(who, log, |log|)
  {
  }

  /** One operation as the lens issues it: stamped with the current time, by the principal, and
      recorded for undo. */
  method Issue(db: GraphDB, op: Operation, who: string)
    requires db.Valid() && CoreValid(db.View())
    modifies db`clock, db.log, db.materializer, db.index, db.undo
    ensures db.Valid() && CoreValid(db.View())
    ensures |db.log.entries| == |old(db.log.entries)| + 1 && Init(db.log.entries) == old(db.log.entries)
    ensures SameAction(op, Last(db.log.entries).op) && By(who, Last(db.log.entries).op)
    ensures db.undo.View() == if db.applyingUndo then old(db.undo.View())
      else RecordOp(old(db.undo.View()), Last(db.log.entries).id, who, db.currentArtifactId, "")
  {
    hide ComputeOperationId, Rejection, CoreValid, ApplyAll, SameAction, ValidLog, Replay, IndexReplay, Wf, RecordOp;
    ghost var c := db.View();
    var now := db.UtcNow();
    var stamped := Stamp(op, now, who);
    IssueAccepted(c, stamped);
    NewEntryOp(stamped);
    var r := db.Apply(stamped, "");
    assert db.log.entries == c.log + [NewEntry(stamped)];
  }

  /** The ids of the children, the new node moved to its position. */
  method PlaceChild(db: GraphDB, parent: NodeId, id: NodeId, position: int) returns (order: seq<NodeId>)
    requires db.Valid()
    ensures order == InsertOrder(Replay(db.log.entries), parent, id, position)
  {
    hide LiveIds, Kids, Remove, LiveChildren, Replay, NodesKeyed, ComputeOperationId, ValidLog, IndexReplay, Wf;
    ReplayNodesKeyed(db.log.entries);
    var s := db.materializer.View();
    var childIds := IdsOf(GetChildren(s, parent));
    ListedChildren(s, parent);
    if id in childIds {
      childIds := Remove(childIds, id);
    }
    order := InsertAt(childIds, if position < |childIds| then position else |childIds|, id);
  }

  /** _insert_text, for the node made from style and text.  The edge id is drawn at random, and so
      is the id of the undo group.  Outside any other group the three operations make one. */
  method InsertText(db: GraphDB, parent: NodeId, node: Node, edgeId: EdgeId, position: int, who: string,
                    artifact: string, groupId: string) returns (edge: Edge)
    requires db.Valid() && CoreValid(db.View())
    modifies db`clock, db`currentArtifactId, db.log, db.materializer, db.index, db.undo
    ensures db.Valid() && CoreValid(db.View())
    ensures edge == Edge(edgeId, parent, node.meta.id, CONTAINS, edge.createdAt, [])
    ensures |db.log.entries| == |old(db.log.entries)| + 3
    ensures db.log.entries[..|old(db.log.entries)|] == old(db.log.entries)
    ensures InsertGroup(db.log.entries, |old(db.log.entries)|, parent, node, edge, position)
    ensures AllBy(who, db.log.entries, |old(db.log.entries)|)
    ensures var s := Replay(old(db.log.entries));
      node.meta.id !in s.nodes && node.meta.id !in Kids(s, parent) ==>
        PlacedAt(LiveIds(s.nodes, Kids(s, parent)), node.meta.id, position, Last(db.log.entries).op.newOrder)
    ensures !db.applyingUndo && old(db.undo.View().open.None?) ==>
      Pushed(old(db.undo.View()), UndoGroup(groupId, IdsFrom(db.log.entries, |old(db.log.entries)|), who, artifact),
        db.undo.View())
  {
    hide GraphDB.Valid, CoreValid, SameAction, Replay, BeginGroup, EndGroup, InsertOrder, InsertGroup, Bracketed,
      RecordOp, Pushed, PlacedAt, LiveIds, Kids, IndexReplay, Wf, ValidLog, By, AllBy;
    ghost var before, u0, key := db.log.entries, db.undo.View(), (who, artifact);
    ghost var free := !db.applyingUndo && u0.open.None?;
    var previous := db.EnterGroup(who, artifact, groupId);
    if free { BracketStart(before, u0, key, groupId); }
    ghost var u := db.undo.View();
    Issue(db, CreateNode(node, [], 0, None), who);
    ghost var one := db.log.entries;
    if free { BracketNext(before, u0, key, groupId, before, u, one, db.currentArtifactId); }
    TickValid(db.View());
    var now := db.UtcNow();
    edge := Edge(edgeId, parent, node.meta.id, CONTAINS, now, []);
    u := db.undo.View();
    Issue(db, CreateEdge(edge, [], 0, None), who);
    ghost var two := db.log.entries;
    if free { BracketNext(before, u0, key, groupId, one, u, two, db.currentArtifactId); }
    var order := PlaceChild(db, parent, node.meta.id, position);
    u := db.undo.View();
    Issue(db, ReorderChildren(parent, order, [], 0, None), who);
    if free { BracketNext(before, u0, key, groupId, two, u, db.log.entries, db.currentArtifactId); }
    InsertGroupMade(before, one, two, db.log.entries, parent, node, edge, position);
    NoneByYet(who, before);
    AllByNext(who, before, one, |before|);
    AllByNext(who, one, two, |before|);
    AllByNext(who, two, db.log.entries, |before|);
    RecordedPlace(db.log.entries, |before|, parent, node, edge, position);
    if free { BracketEnd(before, u0, key, groupId, db.log.entries, db.undo.View()); }
    db.LeaveGroup(previous);
  }

  lemma TickValid(c: Core)
    requires CoreValid(c)
    ensures CoreValid(Tick(c))
  {
    hide ValidLog;
  }

  lemma InsertGroupMade(before: seq<Entry>, one: seq<Entry>, two: seq<Entry>, log: seq<Entry>, parent: NodeId,
                        node: Node, edge: Edge, position: int)
    requires |one| == |before| + 1 && Init(one) == before && |two| == |one| + 1 && Init(two) == one
    requires |log| == |two| + 1 && Init(log) == two
    requires edge.source == parent && edge.target == node.meta.id && edge.edgeType.CONTAINS?
    requires SameAction(CreateNode(node, [], 0, None), Last(one).op)
    requires SameAction(CreateEdge(edge, [], 0, None), Last(two).op)
    requires var order := InsertOrder(Replay(two), parent, node.meta.id, position);
      SameAction(ReorderChildren(parent, order, [], 0, None), Last(log).op)
    ensures InsertGroup(log, |before|, parent, node, edge, position) && log[..|before|] == before
  {
    hide Replay, InsertOrder;
    assert log[..|before| + 2] == two;
    assert log[|before|] == Last(one) && log[|before| + 1] == Last(two);
  }

  /** `[eid for eid, edge in edges.items() if edge.target == id and edge is CONTAINS]` */
  function Containments(keys: seq<EdgeId>, edges: map<EdgeId, Edge>, id: NodeId): (r: seq<EdgeId>)
    ensures forall e :: e in r <==> e in keys && e in edges && edges[e].edgeType.CONTAINS? && edges[e].target == id
  {
    if keys == [] then []
    else
      var rest := Containments(keys[1..], edges, id);
      if keys[0] in edges && edges[keys[0]].edgeType.CONTAINS? && edges[keys[0]].target == id
      then [keys[0]] + rest else rest
  }

  lemma {:induction false} ContainmentsDistinct(keys: seq<EdgeId>, edges: map<EdgeId, Edge>, id: NodeId)
    requires Distinct(keys)
    ensures Distinct(Containments(keys, edges, id))
  {
    if keys != [] {
      ContainmentsDistinct(keys[1..], edges, id);
      assert keys[0] !in keys[1..] && Distinct(keys[1..]);
      DistinctCons(keys[0], Containments(keys[1..], edges, id));
      hide Distinct;
    }
  }

  /** A live node without children that no list holds twice. */
  ghost predicate IsLeaf(s: State, id: NodeId) {
    id in s.nodes && Kids(s, id) == [] && forall p :: id !in Remove(Kids(s, p), id)
  }

  /** The edges the lens collects are the ones a leaf is deleted with. */
  lemma CollectedIsLeaf(s: State, id: NodeId)
    requires Wf(s) && IsLeaf(s, id)
    ensures Leaf(s, Containments(s.edges.keys, s.edges.vals, id), id)
  {
    ContainmentsDistinct(s.edges.keys, s.edges.vals, id);
    EdgeKeys(s);
    hide Distinct, Containments, Remove, Kids;
  }

  /** _delete_text: the containment edges found at the start, then the node; one group. */
  method DeleteText(db: GraphDB, id: NodeId, who: string, artifact: string, groupId: string)
    requires db.Valid() && CoreValid(db.View())
    modifies db`clock, db`currentArtifactId, db.log, db.materializer, db.index, db.undo
    ensures db.Valid() && CoreValid(db.View())
    ensures var s, start := Replay(old(db.log.entries)), |old(db.log.entries)|;
      var drop := Containments(s.edges.keys, s.edges.vals, id);
      && |db.log.entries| == start + |drop| + 1 && db.log.entries[..start] == old(db.log.entries)
      && DeleteGroup(db.log.entries, start, drop, id)
    ensures AllBy(who, db.log.entries, |old(db.log.entries)|)
    ensures !db.applyingUndo && old(db.undo.View().open.None?) ==>
      Pushed(old(db.undo.View()), UndoGroup(groupId, IdsFrom(db.log.entries, |old(db.log.entries)|), who, artifact),
        db.undo.View())
  {
    hide CoreValid, SameAction, Replay, BeginGroup, EndGroup, Containments, ComputeOperationId, ValidLog, IndexReplay,
      Wf, Bracketed, RecordOp, Pushed, By, AllBy;
    ghost var before, u0, key := db.log.entries, db.undo.View(), (who, artifact);
    ghost var free := !db.applyingUndo && u0.open.None?;
    var previous := db.EnterGroup(who, artifact, groupId);
    if free { BracketStart(before, u0, key, groupId); }
    var drop := CollectContainments(db.materializer.edges, id);
    NoneByYet(who, before);
    hide GraphDB.Valid;
    for j := 0 to |drop|
      invariant db.Valid() && CoreValid(db.View())
      invariant Deleting(before, db.log.entries, drop, j) && AllBy(who, db.log.entries, |before|)
      invariant free ==> Bracketed(before, u0, key, groupId, db.log.entries, db.undo.View())
    {
      ghost var log, u := db.log.entries, db.undo.View();
      Issue(db, DeleteEdge(drop[j], [], 0, None), who);
      DeletingNext(before, log, db.log.entries, drop, j);
      AllByNext(who, log, db.log.entries, |before|);
      if free { BracketNext(before, u0, key, groupId, log, u, db.log.entries, db.currentArtifactId); }
    }
    ghost var log, u := db.log.entries, db.undo.View();
    Issue(db, DeleteNode(id, [], 0, None), who);
    DeletingEnd(before, log, db.log.entries, drop, id);
    AllByNext(who, log, db.log.entries, |before|);
    if free {
      BracketNext(before, u0, key, groupId, log, u, db.log.entries, db.currentArtifactId);
      BracketEnd(before, u0, key, groupId, db.log.entries, db.undo.View());
    }
    db.LeaveGroup(previous);
  }

  method CollectContainments(edges: Dict<EdgeId, Edge>, id: NodeId) returns (r: seq<EdgeId>)
    ensures r == Containments(edges.keys, edges.vals, id)
  {
    var keys := edges.keys;
    r := [];
    for i := 0 to |keys|
      invariant Containments(keys, edges.vals, id) == r + Containments(keys[i..], edges.vals, id)
    {
      if keys[i] in edges.vals && edges.vals[keys[i]].edgeType.CONTAINS? && edges.vals[keys[i]].target == id {
        r := r + [keys[i]];
      }
    }
  }

  /** The first n deletions have been logged. */
  ghost predicate Deleting(before: seq<Entry>, log: seq<Entry>, drop: seq<EdgeId>, n: nat) {
    && n <= |drop| && |log| == |before| + n && log[..|before|] == before
    && forall j :: 0 <= j < n ==> Drops(log, |before| + j, drop[j])
  }

  lemma DeletingNext(before: seq<Entry>, log: seq<Entry>, log': seq<Entry>, drop: seq<EdgeId>, n: nat)
    requires Deleting(before, log, drop, n) && n < |drop| && |log'| == |log| + 1 && Init(log') == log
    requires SameAction(DeleteEdge(drop[n], [], 0, None), Last(log').op)
    ensures Deleting(before, log', drop, n + 1)
  {
    assert log'[..|before|] == log[..|before|];
    forall j | 0 <= j < n + 1 ensures Drops(log', |before| + j, drop[j]) {
      assert j < n ==> Drops(log, |before| + j, drop[j]) && log'[|before| + j] == log[|before| + j];
    }
  }

  lemma DeletingEnd(before: seq<Entry>, log: seq<Entry>, log': seq<Entry>, drop: seq<EdgeId>, id: NodeId)
    requires Deleting(before, log, drop, |drop|) && |log'| == |log| + 1 && Init(log') == log
    requires SameAction(DeleteNode(id, [], 0, None), Last(log').op)
    ensures DeleteGroup(log', |before|, drop, id) && log'[..|before|] == before
  {
    assert log'[..|before|] == log[..|before|];
    forall j | 0 <= j < |drop| ensures Drops(log', |before| + j, drop[j]) {
      assert Drops(log, |before| + j, drop[j]) && log'[|before| + j] == log[|before| + j];
    }
  }

  // ----- an edit and its undo -----

  /** The group just pushed is the one undo takes, and undo may start where the edit ended. */
  lemma PushedIsPopped(c: Core, before: seq<Entry>, u0: Undo, g: UndoGroup, u: Undo)
    requires CoreValid(c) && |before| <= |c.log| && g.opIds == IdsFrom(c.log, |before|) && Pushed(u0, g, u)
    ensures PopUndo(u, g.Key()).1 == Some(g) && Undoing(c, c.log, g.opIds, |before|)
    ensures StateOf(c) == Replay(c.log[..|c.log|]) && Equiv(StateOf(c), StateOf(c))
  {
    hide CoreValid, Replay;
    assert StackAt(u.undo, g.Key()) == StackAt(u0.undo, g.Key()) + [g];
    assert c.log[..|c.log|] == c.log;
    EquivReflexive(StateOf(c));
  }

  /** Inserting and then pressing undo: the graph is as before if and only if the parent's list was
      its last recorded order or, if it never had one, was all live. */
  method InsertThenUndo(db: GraphDB, parent: NodeId, node: Node, edgeId: EdgeId, position: int, who: string,
                        artifact: string, groupId: string) returns (error: Option<LogError>)
    requires db.Valid() && CoreValid(db.View()) && !db.applyingUndo && db.undo.View().open.None?
    requires UnusedIds(db.log.entries, parent, node.meta.id, edgeId)
    modifies db, db.log, db.materializer, db.index, db.undo
    ensures db.Valid() && error.None?
    ensures Equiv(Replay(db.log.entries), Replay(old(db.log.entries))) <==> InsertUndoable(old(db.log.entries), parent)
  {
    hide GraphDB.Valid, CoreValid, Replay, InsertGroup, UnusedIds, InsertUndoable, Pushed, PopUndo, UndoIds, Equiv,
      Undoing;
    ghost var before, u0 := db.log.entries, db.undo.View();
    var edge := InsertText(db, parent, node, edgeId, position, who, artifact, groupId);
    ghost var c := db.View();
    ghost var g := UndoGroup(groupId, IdsFrom(c.log, |before|), who, artifact);
    PushedIsPopped(c, before, u0, g, db.undo.View());
    InsertUndoneIff(c, c.log, g.opIds, |before|, parent, node, edge, position);
    UndoAccepted(c, g.opIds);
    var applied;
    applied, error := db.UndoLast(who, artifact, null);
  }

  lemma PushedDeletionUndone(c: Core, before: seq<Entry>, u0: Undo, g: UndoGroup, u: Undo, id: NodeId)
    requires CoreValid(c) && |before| <= |c.log| && g.opIds == IdsFrom(c.log, |before|) && Pushed(u0, g, u)
    requires var s := Replay(before);
      var drop := Containments(s.edges.keys, s.edges.vals, id);
      && IsLeaf(s, id) && |c.log| == |before| + |drop| + 1 && c.log[..|before|] == before
      && DeleteGroup(c.log, |before|, drop, id)
    ensures PopUndo(u, g.Key()).1 == Some(g) && UndoIds(c, g.opIds).error.None?
    ensures Equiv(StateOf(UndoIds(c, g.opIds).core), Replay(before)) <==> DeleteUndoable(Replay(before), id)
  {
    var s := Replay(before);
    var drop := Containments(s.edges.keys, s.edges.vals, id);
    ReplayWf(before);
    hide CoreValid, Replay, Pushed, PopUndo, UndoIds, Equiv, Undoing, DeleteGroup, Leaf, Containments, IsLeaf,
      DeleteUndoable, Wf;
    CollectedIsLeaf(s, id);
    PushedIsPopped(c, before, u0, g, u);
    DeleteUndoneIff(c, c.log, g.opIds, |before|, drop, id);
    UndoAccepted(c, g.opIds);
  }

  /** Deleting a leaf and then pressing undo: the graph is as before if and only if the node stood
      last in every list where an edge contains it and in no other. */
  method DeleteThenUndo(db: GraphDB, id: NodeId, who: string, artifact: string, groupId: string)
    returns (error: Option<LogError>)
    requires db.Valid() && CoreValid(db.View()) && !db.applyingUndo && db.undo.View().open.None?
    requires IsLeaf(Replay(db.log.entries), id)
    modifies db, db.log, db.materializer, db.index, db.undo
    ensures db.Valid() && error.None?
    ensures var s := Replay(old(db.log.entries));
      Equiv(Replay(db.log.entries), s) <==> DeleteUndoable(s, id)
  {
    hide GraphDB.Valid, CoreValid, Replay, DeleteGroup, Containments, Pushed, PopUndo, UndoIds, Equiv, DeleteUndoable,
      IsLeaf, IdsFrom;
    ghost var before, u0 := db.log.entries, db.undo.View();
    DeleteText(db, id, who, artifact, groupId);
    ghost var c := db.View();
    ghost var g := UndoGroup(groupId, IdsFrom(c.log, |before|), who, artifact);
    PushedDeletionUndone(c, before, u0, g, db.undo.View(), id);
    var applied;
    applied, error := db.UndoLast(who, artifact, null);
  }
}
