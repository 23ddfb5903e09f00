/** Row and column edits of src/uaf/app/lenses/grid_lens.py told apart: what each of the four does
    to the rows and columns of a stored sheet. */
module SheetEdits {
  import opened Collections
  import opened JsonValues
  import opened Nodes
  import opened Operations
  import opened Materializer
  import opened Inverses
  import opened Queries
  import opened DocEdits
  import opened Grids
  import opened GridLens

  /** The same cell at a row and column of its own. */
  ghost predicate SameCellAt(n: Node, m: Node, row: int, col: int) {
    && m.meta == n.meta
    && ((n.Cell? && m == Cell(n.meta, n.value, row, col))
      || (n.FormulaCell? && m == FormulaCell(n.meta, n.formula, n.cachedValue, row, col)))
  }

  /** Cells from the given row on stand d rows further down, all other children are as they were. */
  ghost predicate RowShifted(n: Node, m: Node, from: int, d: int) {
    if (n.Cell? || n.FormulaCell?) && n.row >= from then SameCellAt(n, m, n.row + d, n.col) else m == n
  }

  ghost predicate ColumnShifted(n: Node, m: Node, from: int, d: int) {
    if (n.Cell? || n.FormulaCell?) && n.col >= from then SameCellAt(n, m, n.row, n.col + d) else m == n
  }

  lemma OpenedShifts(at: int, n: Node)
    ensures RowShifted(n, Opened(Rows, at, n), at, 1) && ColumnShifted(n, Opened(Columns, at, n), at, 1)
  {
  }

  lemma ClosedShifts(at: int, n: Node)
    ensures var m := Closed(Rows, at, n);
      if (n.Cell? || n.FormulaCell?) && n.row == at then m.None? else m.Some? && RowShifted(n, m.value, at, -1)
    ensures var m := Closed(Columns, at, n);
      if (n.Cell? || n.FormulaCell?) && n.col == at then m.None? else m.Some? && ColumnShifted(n, m.value, at, -1)
  {
  }

  /** The size of the sheet before and after. */
  ghost predicate Resizes(n: Node, m: Node, rows: int, cols: int)
    requires n.Sheet?
  {
    m == Sheet(n.meta, n.title, rows, cols)
  }

  /** Inserting a row moves the cells from that row on one row down and appends one empty cell for
      each column of the sheet. */
  lemma RowInserted(s: State, sheet: NodeId, at: int, supply: FreshIds, q: EditRequest)
    requires GridOk(s, sheet) && Unused(s, sheet, supply) && |supply| == LineLength(Rows, s.nodes[sheet])
    ensures var t := Run(s, InsertPlan(s, sheet, Rows, at, supply, q));
      var cells, after := GetChildren(s, sheet), GetChildren(t, sheet);
      var cols := if s.nodes[sheet].cols < 0 then 0 else s.nodes[sheet].cols;
      && |supply| == cols && |after| == |cells| + cols
      && (forall i :: 0 <= i < |cells| ==> RowShifted(cells[i], after[i], at, 1))
      && (forall k :: 0 <= k < cols ==> EmptyCell(after[|cells| + k], supply[k].0, at, k))
      && sheet in t.nodes && Resizes(s.nodes[sheet], t.nodes[sheet], s.nodes[sheet].rows + 1, s.nodes[sheet].cols)
  {
    InsertedChildren(s, sheet, Rows, at, supply, q);
    LineIsEmpty(Rows, at, supply, q);
    hide GetChildren, InsertPlan, Run, Kids, NodesOf, Unused, Opened, RowShifted, NewLine, EmptyCell, OpenLine;
    forall n ensures RowShifted(n, Opened(Rows, at, n), at, 1) { OpenedShifts(at, n); }
  }

  lemma ColumnInserted(s: State, sheet: NodeId, at: int, supply: FreshIds, q: EditRequest)
    requires GridOk(s, sheet) && Unused(s, sheet, supply) && |supply| == LineLength(Columns, s.nodes[sheet])
    ensures var t := Run(s, InsertPlan(s, sheet, Columns, at, supply, q));
      var cells, after := GetChildren(s, sheet), GetChildren(t, sheet);
      var rows := if s.nodes[sheet].rows < 0 then 0 else s.nodes[sheet].rows;
      && |supply| == rows && |after| == |cells| + rows
      && (forall i :: 0 <= i < |cells| ==> ColumnShifted(cells[i], after[i], at, 1))
      && (forall k :: 0 <= k < rows ==> EmptyCell(after[|cells| + k], supply[k].0, k, at))
      && sheet in t.nodes && Resizes(s.nodes[sheet], t.nodes[sheet], s.nodes[sheet].rows, s.nodes[sheet].cols + 1)
  {
    InsertedChildren(s, sheet, Columns, at, supply, q);
    LineIsEmpty(Columns, at, supply, q);
    hide GetChildren, InsertPlan, Run, Kids, NodesOf, Unused, Opened, ColumnShifted, NewLine, EmptyCell, OpenLine;
    forall n ensures ColumnShifted(n, Opened(Columns, at, n), at, 1) { OpenedShifts(at, n); }
  }

  ghost predicate EmptyCell(n: Node, id: NodeId, row: int, col: int) {
    n.Cell? && n.meta.id == id && n.meta.nodeType.CELL? && n.value.VNone? && n.row == row && n.col == col
  }

  lemma LineIsEmpty(axis: Axis, at: int, supply: FreshIds, q: EditRequest)
    ensures forall k :: 0 <= k < |supply| ==>
      EmptyCell(NewLine(axis, at, Metas(supply, q))[k], supply[k].0,
                if axis == Rows then at else k, if axis == Rows then k else at)
  {
  }

  /** Ascending positions in a list. */
  ghost predicate Picks(kept: seq<nat>, n: nat) {
    && (forall i :: 0 <= i < |kept| ==> kept[i] < n)
    && (forall i, j :: 0 <= i < j < |kept| ==> kept[i] < kept[j])
  }

  /** The children kept and what became of them. */
  ghost predicate KeptAs(axis: Axis, at: int, cells: seq<Node>, kept: seq<nat>, after: seq<Node>) {
    && Picks(kept, |cells|) && |kept| == |after|
    && (forall i :: 0 <= i < |after| ==> Closed(axis, at, cells[kept[i]]) == Some(after[i]))
    && (forall k :: 0 <= k < |cells| && Closed(axis, at, cells[k]).Some? ==> k in kept)
  }

  /** A deletion keeps the children that are not on the line, in their order. */
  lemma {:induction false} DeletePicks(axis: Axis, at: int, cells: seq<Node>) returns (kept: seq<nat>)
    ensures KeptAs(axis, at, cells, kept, DeleteLine(axis, at, cells))
  {
    hide Closed, KeptAs, DeleteLine;
    if cells == [] {
      kept := [];
      NothingPicked(axis, at);
    } else {
      var most, n := Init(cells), Last(cells);
      var some := DeletePicks(axis, at, most);
      kept := if Closed(axis, at, n).Some? then some + [|cells| - 1] else some;
      PickLast(axis, at, cells, some, DeleteLine(axis, at, most));
      assert cells == most + [n];
      DeleteAppend(axis, at, most, [n]);
      DeleteCons(axis, at, n, []);
      DeleteNothing(axis, at);
      var last := Closed(axis, at, n);
      assert [n] + [] == [n] && [] + DeleteLine(axis, at, []) == [];
      assert DeleteLine(axis, at, [n]) == if last.Some? then [last.value] else [];
      assert last.None? ==> DeleteLine(axis, at, cells) == DeleteLine(axis, at, most);
    }
  }

  lemma PickLast(axis: Axis, at: int, cells: seq<Node>, some: seq<nat>, before: seq<Node>)
    requires cells != [] && KeptAs(axis, at, Init(cells), some, before)
    ensures var last := Closed(axis, at, Last(cells));
      if last.Some? then KeptAs(axis, at, cells, some + [|cells| - 1], before + [last.value])
      else KeptAs(axis, at, cells, some, before)
  {
    hide Closed;
    assert forall k :: 0 <= k < |cells| - 1 ==> Init(cells)[k] == cells[k];
    var kept := some + [|cells| - 1];
    assert kept[|some|] == |cells| - 1;
    assert forall i :: 0 <= i < |some| ==> kept[i] == some[i];
  }

  lemma NothingPicked(axis: Axis, at: int)
    ensures KeptAs(axis, at, [], [], DeleteLine(axis, at, []))
  {
  }

  lemma RowPicks(cells: seq<Node>, at: int) returns (kept: seq<nat>)
    ensures var after := DeleteLine(Rows, at, cells);
      && Picks(kept, |cells|) && |kept| == |after|
      && (forall k :: 0 <= k < |cells| ==> (k in kept <==> !(IsCell(cells[k]) && cells[k].row == at)))
      && (forall i :: 0 <= i < |after| ==> RowShifted(cells[kept[i]], after[i], at, -1))
  {
    hide Closed, RowShifted, DeleteLine;
    kept := DeletePicks(Rows, at, cells);
    forall n ensures var m := Closed(Rows, at, n);
        if IsCell(n) && n.row == at then m.None? else m.Some? && RowShifted(n, m.value, at, -1) {
      ClosedShifts(at, n);
    }
  }

  /** Deleting a row takes its cells out and moves those below one row up; the other children stay,
      and all keep their order. */
  lemma RowDeleted(s: State, sheet: NodeId, at: int, q: EditRequest) returns (kept: seq<nat>)
    requires GridOk(s, sheet)
    ensures var t := Run(s, DeletePlan(s, sheet, Rows, at, q));
      var cells, after, n := GetChildren(s, sheet), GetChildren(t, sheet), s.nodes[sheet];
      && Picks(kept, |cells|) && |kept| == |after|
      && (forall k :: 0 <= k < |cells| ==> (k in kept <==> !(IsCell(cells[k]) && cells[k].row == at)))
      && (forall i :: 0 <= i < |after| ==> RowShifted(cells[kept[i]], after[i], at, -1))
      && sheet in t.nodes && Resizes(n, t.nodes[sheet], if n.rows < 1 then 0 else n.rows - 1, n.cols)
  {
    hide GetChildren, DeletePlan, Run, Kids, Struck, RowShifted, DeleteLine, Picks, IsCell;
    DeletedChildren(s, sheet, Rows, at, q);
    kept := RowPicks(GetChildren(s, sheet), at);
  }

  lemma ColumnPicks(cells: seq<Node>, at: int) returns (kept: seq<nat>)
    ensures var after := DeleteLine(Columns, at, cells);
      && Picks(kept, |cells|) && |kept| == |after|
      && (forall k :: 0 <= k < |cells| ==> (k in kept <==> !(IsCell(cells[k]) && cells[k].col == at)))
      && (forall i :: 0 <= i < |after| ==> ColumnShifted(cells[kept[i]], after[i], at, -1))
  {
    hide Closed, ColumnShifted, DeleteLine;
    kept := DeletePicks(Columns, at, cells);
    forall n ensures var m := Closed(Columns, at, n);
        if IsCell(n) && n.col == at then m.None? else m.Some? && ColumnShifted(n, m.value, at, -1) {
      ClosedShifts(at, n);
    }
  }

  /** Deleting a column takes its cells out and moves those to the right one column left. */
  lemma ColumnDeleted(s: State, sheet: NodeId, at: int, q: EditRequest) returns (kept: seq<nat>)
    requires GridOk(s, sheet)
    ensures var t := Run(s, DeletePlan(s, sheet, Columns, at, q));
      var cells, after, n := GetChildren(s, sheet), GetChildren(t, sheet), s.nodes[sheet];
      && Picks(kept, |cells|) && |kept| == |after|
      && (forall k :: 0 <= k < |cells| ==> (k in kept <==> !(IsCell(cells[k]) && cells[k].col == at)))
      && (forall i :: 0 <= i < |after| ==> ColumnShifted(cells[kept[i]], after[i], at, -1))
      && sheet in t.nodes && Resizes(n, t.nodes[sheet], n.rows, if n.cols < 1 then 0 else n.cols - 1)
  {
    hide GetChildren, DeletePlan, Run, Kids, Struck, ColumnShifted, DeleteLine, Picks, IsCell;
    DeletedChildren(s, sheet, Columns, at, q);
    kept := ColumnPicks(GetChildren(s, sheet), at);
  }

  // ----- the edges a deletion drops -----

  ghost predicate OnLine(n: Node, axis: Axis, at: int) {
    (n.Cell? || n.FormulaCell?) && (if axis.Rows? then n.row else n.col) == at
  }

  /** The edge contains a cell of the line. */
  ghost predicate HoldsCell(s: State, cells: seq<Node>, axis: Axis, at: int, e: EdgeId) {
    && e in s.edges.vals && s.edges.vals[e].edgeType.CONTAINS?
    && exists i :: 0 <= i < |cells| && OnLine(cells[i], axis, at) && cells[i].meta.id == s.edges.vals[e].target
  }

  ghost predicate OnlyRemoves(ops: seq<Operation>) {
    forall op :: op in ops ==> op.DeleteEdge? || op.DeleteNode? || op.UpdateNode?
  }

  lemma {:induction false} DropEdgesAre(ids: seq<EdgeId>, now: Time, who: Option<string>)
    ensures forall e :: Erases(DeleteEdges(ids, now, who), e) <==> e in ids
  {
    if ids != [] {
      DropEdgesAre(ids[1..], now, who);
      forall e ensures Erases(DeleteEdges(ids, now, who), e) <==> e in ids {
        ErasesFirst(DeleteEdges(ids, now, who), e);
        assert DeleteEdges(ids, now, who)[1..] == DeleteEdges(ids[1..], now, who);
      }
      hide Erases;
    }
  }

  lemma ErasesAppend(a: seq<Operation>, b: seq<Operation>, e: EdgeId)
    ensures Erases(a + b, e) <==> Erases(a, e) || Erases(b, e)
  {
    assert forall op :: op in a + b <==> op in a || op in b;
  }

  lemma CellDrops(s: State, axis: Axis, at: int, n: Node, q: EditRequest, e: EdgeId)
    requires Wf(s)
    ensures Erases(CellOps(s, axis, at, n, q), e) <==> HoldsCell(s, [n], axis, at, e)
  {
    EdgeKeys(s);
    var drop := Containments(s.edges.keys, s.edges.vals, n.meta.id);
    var edges, del := DeleteEdges(drop, q.now, Some(q.who)), DeleteNode(n.meta.id, [], q.now, Some(q.who));
    DropEdgesAre(drop, q.now, Some(q.who));
    ErasesAppend(edges, [del], e);
    hide Wf, Containments, DeleteEdges;
    assert [n][0] == n;
  }

  lemma HoldsFirst(s: State, cells: seq<Node>, axis: Axis, at: int, e: EdgeId)
    requires cells != []
    ensures HoldsCell(s, cells, axis, at, e) <==>
      HoldsCell(s, [cells[0]], axis, at, e) || HoldsCell(s, cells[1..], axis, at, e)
  {
    assert [cells[0]][0] == cells[0];
    if HoldsCell(s, cells[1..], axis, at, e) {
      var i :| 0 <= i < |cells[1..]| && OnLine(cells[1..][i], axis, at)
        && cells[1..][i].meta.id == s.edges.vals[e].target;
      assert cells[i + 1] == cells[1..][i];
    }
    if HoldsCell(s, cells, axis, at, e) {
      var i :| 0 <= i < |cells| && OnLine(cells[i], axis, at) && cells[i].meta.id == s.edges.vals[e].target;
      assert i > 0 ==> cells[1..][i - 1] == cells[i];
    }
  }

  lemma {:induction false} LineDrops(s: State, axis: Axis, at: int, cells: seq<Node>, q: EditRequest, e: EdgeId)
    requires Wf(s)
    ensures Erases(CloseOps(s, axis, at, cells, q), e) <==> HoldsCell(s, cells, axis, at, e)
    decreases |cells|
  {
    hide Wf, CellOps;
    if cells != [] {
      LineDrops(s, axis, at, cells[1..], q, e);
      CellDrops(s, axis, at, cells[0], q, e);
      ErasesAppend(CellOps(s, axis, at, cells[0], q), CloseOps(s, axis, at, cells[1..], q), e);
      HoldsFirst(s, cells, axis, at, e);
      hide HoldsCell, Erases;
    }
  }

  lemma {:induction false} LineRemoves(s: State, axis: Axis, at: int, cells: seq<Node>, q: EditRequest)
    ensures OnlyRemoves(CloseOps(s, axis, at, cells, q))
    decreases |cells|
  {
    hide DeleteEdges;
    if cells != [] {
      LineRemoves(s, axis, at, cells[1..], q);
      var drop := Containments(s.edges.keys, s.edges.vals, cells[0].meta.id);
      forall op | op in DeleteEdges(drop, q.now, Some(q.who)) ensures op.DeleteEdge? {
        var i :| 0 <= i < |drop| && DeleteEdges(drop, q.now, Some(q.who))[i] == op;
      }
    }
  }

  /** A deletion drops every edge that holds a cell of its line, and no other edge. */
  lemma EdgesDropped(s: State, sheet: NodeId, axis: Axis, at: int, q: EditRequest)
    requires Wf(s) && GridOk(s, sheet)
    ensures var t := Run(s, DeletePlan(s, sheet, axis, at, q));
      t.edges.vals ==
        map e | e in s.edges.vals && !HoldsCell(s, GetChildren(s, sheet), axis, at, e) :: s.edges.vals[e]
  {
    var cells, last := GetChildren(s, sheet), Update(Shrunk(axis, s.nodes[sheet]), q);
    var ops := CloseOps(s, axis, at, cells, q);
    assert DeletePlan(s, sheet, axis, at, q) == ops + [last];
    hide Wf, GridOk, CloseOps, GetChildren, Run, HoldsCell, DeletePlan, Shrunk;
    forall e ensures Erases(ops + [last], e) <==> HoldsCell(s, cells, axis, at, e) {
      LineDrops(s, axis, at, cells, q, e);
      ErasesAppend(ops, [last], e);
    }
    LineRemoves(s, axis, at, cells, q);
    hide Erases;
    RunEdges(s, ops + [last]);
  }
}
