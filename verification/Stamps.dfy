/** When and by whom the operations of the edits, the undo and the bundles are issued, and that none
    of them names parents. */
module Stamps {
  import opened Collections
  import opened JsonValues
  import opened Nodes
  import opened Operations
  import opened OperationLogs
  import opened Materializer
  import opened Inverses
  import opened Bundles
  import opened FullBundles
  import opened FlowLens
  import opened Queries
  import opened Grids
  import opened GridLens
  import opened Recalculation
  import DocEdits

  ghost predicate Issued(op: Operation, now: Time, who: Option<string>) {
    op.timestamp == now && op.principal == who && op.parentOps == []
  }

  ghost predicate AllIssued(ops: seq<Operation>, now: Time, who: Option<string>) {
    forall op :: op in ops ==> Issued(op, now, who)
  }

  lemma IssuedAppend(a: seq<Operation>, b: seq<Operation>, now: Time, who: Option<string>)
    ensures AllIssued(a + b, now, who) <==> AllIssued(a, now, who) && AllIssued(b, now, who)
  {
    hide Issued;
    assert forall op :: op in a + b <==> op in a || op in b;
  }

  lemma DropsIssued(ids: seq<EdgeId>, now: Time, who: Option<string>)
    ensures AllIssued(DeleteEdges(ids, now, who), now, who)
  {
  }

  /** Compensating operations are stamped now, for the principal of the operation they undo. */
  lemma InverseIssued(prefix: seq<Entry>, op: Operation, s: State, now: Time)
    ensures AllIssued(Inverse(prefix, op, s, now), now, op.principal)
  {
    hide LastNode, LastEdge, LastMove, LastOrder, FirstParent, EdgesTouching, DeleteEdges;
    if op.CreateNode? {
      var touching := EdgesTouching(s.edges.keys, s.edges.vals, op.node.meta.id);
      DropsIssued(touching, now, op.principal);
      IssuedAppend(DeleteEdges(touching, now, op.principal), [DeleteNode(op.node.meta.id, [], now, op.principal)],
        now, op.principal);
    }
  }

  // ----- bundles -----

  lemma {:induction false} CreationsIssued(s: State, ids: seq<NodeId>, now: Time)
    ensures AllIssued(NodeCreations(s, ids, now), now, None) && AllIssued(Orders(s, ids, now), now, None)
  {
    hide LiveIds, Kids;
    if ids != [] {
      CreationsIssued(s, ids[1..], now);
    }
  }

  lemma {:induction false} EdgesIssued(edges: seq<Edge>, now: Time)
    ensures AllIssued(EdgeCreations(edges, now), now, None)
  {
    if edges != [] {
      EdgesIssued(edges[1..], now);
    }
  }

  /** A snapshot is written as of now and by nobody. */
  lemma SnapshotIssued(s: State, ids: seq<NodeId>, now: Time)
    ensures AllIssued(SnapshotOps(s, ids, now), now, None)
  {
    CreationsIssued(s, ids, now);
    EdgesIssued(OutEdges(s, ids), now);
    hide NodeCreations, EdgeCreations, Orders, OutEdges, AllIssued;
    IssuedAppend(NodeCreations(s, ids, now), EdgeCreations(OutEdges(s, ids), now), now, None);
    IssuedAppend(NodeCreations(s, ids, now) + EdgeCreations(OutEdges(s, ids), now), Orders(s, ids, now), now, None);
  }

  /** The operation does what some logged one did, when and by whom it was done. */
  ghost predicate Repeats(log: seq<Entry>, op: Operation) {
    exists i :: 0 <= i < |log| && SameAction(op, log[i].op) && Issued(op, log[i].op.timestamp, log[i].op.principal)
  }

  /** Each operation of a full bundle does what some logged one did, when and by whom it was done. */
  lemma {:induction false} FullKeepsStamps(log: seq<Entry>, ids: set<NodeId>, edgeIds: set<EdgeId>)
    ensures forall op :: op in FullOps(log, ids, edgeIds) ==> Repeats(log, op)
  {
    hide InSubtree;
    if log != [] {
      var most := FullOps(Init(log), ids, edgeIds);
      FullKeepsStamps(Init(log), ids, edgeIds);
      assert log[|log| - 1] == Last(log) && SameAction(Orphaned(Last(log).op), Last(log).op);
      forall op | op in most ensures Repeats(log, op) {
        var i :| 0 <= i < |Init(log)|
          && SameAction(op, Init(log)[i].op) && Issued(op, Init(log)[i].op.timestamp, Init(log)[i].op.principal);
        assert log[i] == Init(log)[i];
      }
    }
  }

  // ----- lenses -----

  lemma {:induction false} DependenciesIssued(edges: seq<Edge>, q: Request)
    ensures AllIssued(DropDependencies(edges, q), q.now, Some(q.who))
  {
    if edges != [] {
      DependenciesIssued(edges[1..], q);
    }
  }

  /** Task actions are stamped with the request; only a reordering bears no principal. */
  lemma PlanIssued(s: State, a: FlowAction, q: Request)
    requires Plan(s, a, q).Ok?
    ensures AllIssued(Plan(s, a, q).value, q.now, if a.ReorderNodes? then None else Some(q.who))
  {
    hide Edited, Deps, GetEdgesFrom, FirstDependency, STATUSES;
    if a.DeleteTask? {
      var drops := DropDependencies(GetEdgesFrom(s, a.id), q);
      DependenciesIssued(GetEdgesFrom(s, a.id), q);
      IssuedAppend(drops, [DeleteNode(a.id, [], q.now, Some(q.who))], q.now, Some(q.who));
    }
  }

  lemma {:induction false} ShiftIssued(axis: Axis, at: int, cells: seq<Node>, q: EditRequest)
    ensures AllIssued(ShiftOps(axis, at, cells, q), q.now, Some(q.who))
  {
    hide Opened;
    if cells != [] {
      ShiftIssued(axis, at, cells[1..], q);
    }
  }

  lemma {:induction false} AddIssued(sheet: NodeId, cells: seq<Node>, edges: seq<EdgeId>, q: EditRequest)
    requires |cells| == |edges|
    ensures AllIssued(AddOps(sheet, cells, edges, q), q.now, Some(q.who))
  {
    if cells != [] {
      AddIssued(sheet, cells[1..], edges[1..], q);
    }
  }

  lemma {:induction false} CloseIssued(s: State, axis: Axis, at: int, cells: seq<Node>, q: EditRequest)
    ensures AllIssued(CloseOps(s, axis, at, cells, q), q.now, Some(q.who))
    decreases |cells|
  {
    hide Placed, DeleteEdges, DocEdits.Containments;
    if cells != [] {
      CloseIssued(s, axis, at, cells[1..], q);
      DropsIssued(DocEdits.Containments(s.edges.keys, s.edges.vals, cells[0].meta.id), q.now, Some(q.who));
      IssuedAppend(CellOps(s, axis, at, cells[0], q), CloseOps(s, axis, at, cells[1..], q), q.now, Some(q.who));
    }
  }

  /** Grid edits and recalculation are stamped with the request. */
  lemma GridIssued(s: State, sheet: NodeId, axis: Axis, at: int, supply: FreshIds, q: EditRequest)
    ensures AllIssued(InsertPlan(s, sheet, axis, at, supply, q), q.now, Some(q.who))
    ensures AllIssued(DeletePlan(s, sheet, axis, at, q), q.now, Some(q.who))
  {
    var cells := GetChildren(s, sheet);
    var line := NewLine(axis, at, Metas(supply, q));
    hide GetChildren, NewLine, Metas, EdgesOf, ShiftOps, AddOps, CloseOps, Resized, Shrunk;
    ShiftIssued(axis, at, cells, q);
    AddIssued(sheet, line, EdgesOf(supply), q);
    CloseIssued(s, axis, at, cells, q);
    IssuedAppend(ShiftOps(axis, at, cells, q), AddOps(sheet, line, EdgesOf(supply), q), q.now, Some(q.who));
    hide AllIssued;
    if sheet in s.nodes && s.nodes[sheet].Sheet? {
      LastIssued(ShiftOps(axis, at, cells, q) + AddOps(sheet, line, EdgesOf(supply), q),
        Resized(axis, s.nodes[sheet], 1), q);
      LastIssued(CloseOps(s, axis, at, cells, q), Shrunk(axis, s.nodes[sheet]), q);
    } else {
      assert AllIssued([], q.now, Some(q.who)) by { NothingIssued(q); }
    }
  }

  lemma NothingIssued(q: EditRequest)
    ensures AllIssued([], q.now, Some(q.who))
  {
  }

  lemma LastIssued(ops: seq<Operation>, n: Node, q: EditRequest)
    requires AllIssued(ops, q.now, Some(q.who))
    ensures AllIssued(ops + [Update(n, q)], q.now, Some(q.who))
  {
  }

  lemma {:induction false} RefreshIssued(e: Engine, vals: Values, cells: seq<Node>, q: EditRequest)
    ensures AllIssued(RefreshOps(e, vals, cells, q), q.now, Some(q.who))
    decreases |cells|
  {
    hide Stale, Refresh, NextValues;
    if cells != [] {
      RefreshIssued(e, NextValues(e, vals, cells[0]), cells[1..], q);
    }
  }
}
