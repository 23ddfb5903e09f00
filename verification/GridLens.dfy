/** Row and column edits of src/uaf/app/lenses/grid_lens.py on the database: the operations they
    issue and the children the sheet has afterwards. */
module GridLens {
  import opened Collections
  import opened JsonValues
  import opened Nodes
  import opened Operations
  import opened OperationLogs
  import opened Materializer
  import opened Inverses
  import opened Indexing
  import opened Queries
  import opened Bundles
  import opened DocEdits
  import opened Grids

  /** Time and author of an edit. */
  datatype EditRequest = EditRequest(now: Time, who: string)

  function Update(n: Node, q: EditRequest): Operation {
    UpdateNode(n, [], q.now, Some(q.who))
  }

  /** The sheet with its extent along the axis changed. */
  function Resized(axis: Axis, sheet: Node, d: int): (r: Node)
    requires sheet.Sheet?
    ensures r.Sheet? && r.meta == sheet.meta
  {
    if axis.Rows? then Sheet(sheet.meta, sheet.title, sheet.rows + d, sheet.cols)
    else Sheet(sheet.meta, sheet.title, sheet.rows, sheet.cols + d)
  }

  function Extent(axis: Axis, sheet: Node): int
    requires sheet.Sheet?
  {
    if axis.Rows? then sheet.rows else sheet.cols
  }

  /** How many cells one line has: `range(sheet.cols)` for a row. */
  function LineLength(axis: Axis, sheet: Node): nat
    requires sheet.Sheet?
  {
    var m := if axis.Rows? then sheet.cols else sheet.rows;
    if m < 0 then 0 else m
  }

  // ----- _insert_row, _insert_column -----

  function ShiftOps(axis: Axis, at: int, cells: seq<Node>, q: EditRequest): seq<Operation> {
    if cells == [] then []
    else
      var rest := ShiftOps(axis, at, cells[1..], q);
      if IsCell(cells[0]) && Along(axis, cells[0]) >= at then [Update(Opened(axis, at, cells[0]), q)] + rest else rest
  }

  function CellMeta(id: NodeId, q: EditRequest): Meta {
    Meta(id, CELL, q.now, q.now, None, None)
  }

  /** Ids that the generator hands out for one new cell and its containment edge. */
  type FreshIds = seq<(NodeId, EdgeId)>

  function Metas(supply: FreshIds, q: EditRequest): (r: seq<Meta>)
    ensures |r| == |supply| && forall k :: 0 <= k < |supply| ==> r[k] == CellMeta(supply[k].0, q)
  {
    seq(|supply|, k requires 0 <= k < |supply| => CellMeta(supply[k].0, q))
  }

  function AddOps(sheet: NodeId, cells: seq<Node>, edges: seq<EdgeId>, q: EditRequest): seq<Operation>
    requires |cells| == |edges|
  {
    if cells == [] then []
    else
      [CreateNode(cells[0], [], q.now, Some(q.who)),
       CreateEdge(Edge(edges[0], sheet, cells[0].meta.id, CONTAINS, q.now, []), [], q.now, Some(q.who))]
      + AddOps(sheet, cells[1..], edges[1..], q)
  }

  function EdgesOf(supply: FreshIds): (r: seq<EdgeId>)
    ensures |r| == |supply|
  {
    seq(|supply|, k requires 0 <= k < |supply| => supply[k].1)
  }

  function InsertPlan(s: State, sheet: NodeId, axis: Axis, at: int, supply: FreshIds, q: EditRequest): seq<Operation> {
    if sheet !in s.nodes || !s.nodes[sheet].Sheet? then []
    else
      ShiftOps(axis, at, GetChildren(s, sheet), q)
      + AddOps(sheet, NewLine(axis, at, Metas(supply, q)), EdgesOf(supply), q)
      + [Update(Resized(axis, s.nodes[sheet], 1), q)]
  }

  method PlanInsert(s: State, sheet: NodeId, axis: Axis, at: int, supply: FreshIds, q: EditRequest)
    returns (ops: seq<Operation>)
    requires sheet in s.nodes && s.nodes[sheet].Sheet? ==> |supply| == LineLength(axis, s.nodes[sheet])
    ensures ops == InsertPlan(s, sheet, axis, at, supply, q)
  {
    if sheet !in s.nodes || !s.nodes[sheet].Sheet? {
      return [];
    }
    var cells := GetChildren(s, sheet);
    ops := PlanShift(axis, at, cells, q);
    var added := PlanLine(sheet, axis, at, supply, LineLength(axis, s.nodes[sheet]), q);
    ops := ops + added + [Update(Resized(axis, s.nodes[sheet], 1), q)];
  }

  method PlanShift(axis: Axis, at: int, cells: seq<Node>, q: EditRequest) returns (ops: seq<Operation>)
    ensures ops == ShiftOps(axis, at, cells, q)
  {
    hide ShiftOps, Update, Placed, Opened;
    ops := [];
    ShiftNone(axis, at, q);
    for i := 0 to |cells|
      invariant ops + ShiftOps(axis, at, cells[i..], q) == ShiftOps(axis, at, cells, q)
    {
      var cell := cells[i];
      ShiftRound(axis, at, cells, i, q, ops);
      if cell.Cell? && Along(axis, cell) >= at {
        ops := ops + [Update(Placed(axis, cell, Along(axis, cell) + 1), q)];
      } else if cell.FormulaCell? && Along(axis, cell) >= at {
        ops := ops + [Update(Placed(axis, cell, Along(axis, cell) + 1), q)];
      }
    }
    assert cells[|cells|..] == [];
  }

  lemma ShiftNone(axis: Axis, at: int, q: EditRequest)
    ensures ShiftOps(axis, at, [], q) == []
  {
  }

  lemma ShiftRound(axis: Axis, at: int, cells: seq<Node>, i: nat, q: EditRequest, ops: seq<Operation>)
    requires i < |cells|
    ensures ops + ShiftOps(axis, at, cells[i..], q) ==
      (if IsCell(cells[i]) && Along(axis, cells[i]) >= at
       then ops + [Update(Placed(axis, cells[i], Along(axis, cells[i]) + 1), q)] else ops)
      + ShiftOps(axis, at, cells[i + 1..], q)
  {
    hide Update, Placed;
    assert cells[i..][1..] == cells[i + 1..];
    assert ShiftOps(axis, at, cells[i..], q) ==
      (if IsCell(cells[i]) && Along(axis, cells[i]) >= at
       then [Update(Placed(axis, cells[i], Along(axis, cells[i]) + 1), q)] else [])
      + ShiftOps(axis, at, cells[i + 1..], q);
    hide ShiftOps;
  }

  method PlanLine(sheet: NodeId, axis: Axis, at: int, supply: FreshIds, m: nat, q: EditRequest)
    returns (ops: seq<Operation>)
    requires |supply| == m
    ensures ops == AddOps(sheet, NewLine(axis, at, Metas(supply, q)), EdgesOf(supply), q)
  {
    ghost var line, edges := NewLine(axis, at, Metas(supply, q)), EdgesOf(supply);
    hide AddOps, NewLine, Metas, EdgesOf;
    ops := [];
    AddNone(sheet, q);
    for k := 0 to m
      invariant ops + AddOps(sheet, line[k..], edges[k..], q) == AddOps(sheet, line, edges, q)
    {
      var cell := Cell(CellMeta(supply[k].0, q), VNone, if axis.Rows? then at else k, if axis.Rows? then k else at);
      var edge := Edge(supply[k].1, sheet, cell.meta.id, CONTAINS, q.now, []);
      LineAt(axis, at, supply, k, q);
      AddRound(sheet, line, edges, k, q, ops);
      ops := ops + [CreateNode(cell, [], q.now, Some(q.who)), CreateEdge(edge, [], q.now, Some(q.who))];
    }
    assert line[m..] == [] && edges[m..] == [];
  }

  lemma AddNone(sheet: NodeId, q: EditRequest)
    ensures AddOps(sheet, [], [], q) == []
  {
  }

  lemma LineAt(axis: Axis, at: int, supply: FreshIds, k: nat, q: EditRequest)
    requires k < |supply|
    ensures NewLine(axis, at, Metas(supply, q))[k] ==
      Cell(CellMeta(supply[k].0, q), VNone, if axis.Rows? then at else k, if axis.Rows? then k else at)
    ensures EdgesOf(supply)[k] == supply[k].1
  {
  }

  lemma AddRound(sheet: NodeId, line: seq<Node>, edges: seq<EdgeId>, k: nat, q: EditRequest, ops: seq<Operation>)
    requires k < |line| == |edges|
    ensures ops + AddOps(sheet, line[k..], edges[k..], q) ==
      (ops + [CreateNode(line[k], [], q.now, Some(q.who)),
              CreateEdge(Edge(edges[k], sheet, line[k].meta.id, CONTAINS, q.now, []), [], q.now, Some(q.who))])
      + AddOps(sheet, line[k + 1..], edges[k + 1..], q)
  {
    assert line[k..][1..] == line[k + 1..] && edges[k..][1..] == edges[k + 1..];
    assert line[k..][0] == line[k] && edges[k..][0] == edges[k];
  }

  // ----- what the operations do -----

  /** Replacing the nodes with these ids through f. */
  function Mapped(nodes: map<NodeId, Node>, ids: set<NodeId>, axis: Axis, at: int): map<NodeId, Node> {
    map id | id in nodes :: if id in ids then Opened(axis, at, nodes[id]) else nodes[id]
  }

  function IdSet(cells: seq<Node>): set<NodeId> {
    set n | n in cells :: n.meta.id
  }

  /** The nodes are stored under their ids, which are all different. */
  ghost predicate StoredOnce(nodes: map<NodeId, Node>, cells: seq<Node>) {
    && (forall i :: 0 <= i < |cells| ==> Get(nodes, cells[i].meta.id) == Some(cells[i]))
    && (forall i, j :: 0 <= i < j < |cells| ==> cells[i].meta.id != cells[j].meta.id)
  }

  lemma UpdateStep(t: State, n: Node, q: EditRequest)
    ensures var u := Step(t, NewEntry(Update(n, q)));
      u.nodes == t.nodes[n.meta.id := n] && u.edges == t.edges && u.children == t.children
  {
    NewEntryOp(Update(n, q));
    hide NewEntry;
  }

  lemma OpenedKeepsId(axis: Axis, at: int, n: Node)
    ensures Opened(axis, at, n).meta == n.meta
  {
  }

  lemma MappedNext(nodes: map<NodeId, Node>, cells: seq<Node>, axis: Axis, at: int)
    requires cells != [] && StoredOnce(nodes, cells)
    ensures var n := Opened(axis, at, cells[0]);
      var nodes1 := nodes[cells[0].meta.id := n];
      StoredOnce(nodes1, cells[1..]) &&
        Mapped(nodes1, IdSet(cells[1..]), axis, at) == Mapped(nodes, IdSet(cells), axis, at)
  {
    hide Opened;
    var id, rest := cells[0].meta.id, cells[1..];
    assert Get(nodes, id) == Some(cells[0]);
    assert id !in IdSet(rest);
    assert IdSet(cells) == IdSet(rest) + {id} by {
      assert forall n :: n in cells <==> n == cells[0] || n in rest;
    }
  }

  lemma {:induction false} RunShift(t: State, axis: Axis, at: int, cells: seq<Node>, q: EditRequest)
    requires StoredOnce(t.nodes, cells)
    ensures var u := Run(t, ShiftOps(axis, at, cells, q));
      u.nodes == Mapped(t.nodes, IdSet(cells), axis, at) && u.edges == t.edges && u.children == t.children
    decreases |cells|
  {
    hide Step, NewEntry, Run, StoredOnce, Update, Placed;
    if cells == [] {
      RunNone(t);
    } else {
      MappedNext(t.nodes, cells, axis, at);
      hide Mapped, IdSet;
      var n := Opened(axis, at, cells[0]);
      OpenedKeepsId(axis, at, cells[0]);
      if IsCell(cells[0]) && Along(axis, cells[0]) >= at {
        RunFirst(t, Update(n, q), ShiftOps(axis, at, cells[1..], q));
        UpdateStep(t, n, q);
        RunShift(Step(t, NewEntry(Update(n, q))), axis, at, cells[1..], q);
      } else {
        StoredFirst(t.nodes, cells);
        RunShift(t, axis, at, cells[1..], q);
      }
    }
  }

  lemma StoredFirst(nodes: map<NodeId, Node>, cells: seq<Node>)
    requires cells != [] && StoredOnce(nodes, cells)
    ensures nodes[cells[0].meta.id := cells[0]] == nodes
  {
    assert Get(nodes, cells[0].meta.id) == Some(cells[0]);
  }

  // ----- new children -----

  lemma AddStep(t: State, sheet: NodeId, cell: Node, edge: EdgeId, q: EditRequest)
    requires cell.meta.id !in Kids(t, sheet)
    ensures var u := Run(t, [CreateNode(cell, [], q.now, Some(q.who)),
                             CreateEdge(Edge(edge, sheet, cell.meta.id, CONTAINS, q.now, []), [], q.now, Some(q.who))]);
      u.nodes == t.nodes[cell.meta.id := cell] && Kids(u, sheet) == Kids(t, sheet) + [cell.meta.id]
  {
    var a := CreateNode(cell, [], q.now, Some(q.who));
    var b := CreateEdge(Edge(edge, sheet, cell.meta.id, CONTAINS, q.now, []), [], q.now, Some(q.who));
    hide Run, Kids, Remove;
    assert [a] + [b] == [a, b];
    RunAppend(t, [a], [b]);
    RunOne(t, a);
    RunOne(Run(t, [a]), b);
  }

  function Overlay(nodes: map<NodeId, Node>, cells: seq<Node>): map<NodeId, Node>
    decreases |cells|
  {
    if cells == [] then nodes else Overlay(nodes[cells[0].meta.id := cells[0]], cells[1..])
  }

  lemma {:induction false} RunAdd(t: State, sheet: NodeId, cells: seq<Node>, edges: seq<EdgeId>, q: EditRequest)
    requires |cells| == |edges| && Distinct(Kids(t, sheet) + IdsOf(cells))
    ensures var u := Run(t, AddOps(sheet, cells, edges, q));
      u.nodes == Overlay(t.nodes, cells) && Kids(u, sheet) == Kids(t, sheet) + IdsOf(cells)
    decreases |cells|
  {
    hide Run, Kids, Distinct;
    if cells == [] {
      RunNone(t);
    } else {
      var kids, id := Kids(t, sheet), cells[0].meta.id;
      var pair := [CreateNode(cells[0], [], q.now, Some(q.who)),
        CreateEdge(Edge(edges[0], sheet, id, CONTAINS, q.now, []), [], q.now, Some(q.who))];
      NewIsUnlisted(kids, id, IdsOf(cells[1..]));
      AddStep(t, sheet, cells[0], edges[0], q);
      RunAppend(t, pair, AddOps(sheet, cells[1..], edges[1..], q));
      assert (kids + [id]) + IdsOf(cells[1..]) == kids + IdsOf(cells);
      RunAdd(Run(t, pair), sheet, cells[1..], edges[1..], q);
    }
  }

  lemma NewIsUnlisted(kids: seq<NodeId>, id: NodeId, rest: seq<NodeId>)
    requires Distinct(kids + ([id] + rest))
    ensures id !in kids && id !in rest
  {
    var all := kids + ([id] + rest);
    assert all[|kids|] == id;
    forall i | 0 <= i < |kids| ensures kids[i] != id { assert all[i] == kids[i]; }
    forall i | 0 <= i < |rest| ensures rest[i] != id { assert all[|kids| + 1 + i] == rest[i]; }
  }

  // ----- the children afterwards -----

  /** A sheet whose list names each child once, and not the sheet itself. */
  ghost predicate GridOk(s: State, sheet: NodeId) {
    NodesKeyed(s) && sheet in s.nodes && s.nodes[sheet].Sheet? && Distinct(Kids(s, sheet)) && sheet !in Kids(s, sheet)
  }

  function NodesOf(supply: FreshIds): (r: seq<NodeId>)
    ensures |r| == |supply| && forall k :: 0 <= k < |supply| ==> r[k] == supply[k].0
  {
    seq(|supply|, k requires 0 <= k < |supply| => supply[k].0)
  }

  /** The supplied ids differ from each other and are unknown to the sheet and the graph. */
  ghost predicate Unused(s: State, sheet: NodeId, supply: FreshIds) {
    Distinct(Kids(s, sheet) + NodesOf(supply)) && forall id :: id in NodesOf(supply) ==> id !in s.nodes && id != sheet
  }

  lemma {:induction false} IdsOfLine(axis: Axis, at: int, cells: seq<Node>, ids: seq<NodeId>)
    requires |cells| == |ids| && forall k :: 0 <= k < |ids| ==> cells[k].meta.id == ids[k]
    ensures IdsOf(cells) == ids
  {
    if ids != [] {
      IdsOfLine(axis, at, cells[1..], ids[1..]);
    }
  }

  lemma {:induction false} LiveStored(nodes: map<NodeId, Node>, kids: seq<NodeId>)
    requires Distinct(kids) && forall id :: id in nodes ==> nodes[id].meta.id == id
    ensures StoredOnce(nodes, LiveChildren(nodes, kids))
    ensures forall id :: id in IdSet(LiveChildren(nodes, kids)) <==> id in kids && id in nodes
  {
    if kids != [] {
      LiveStored(nodes, kids[1..]);
      assert kids[0] !in kids[1..] && Distinct(kids[1..]);
      hide Distinct;
      if kids[0] in nodes {
        StoredCons(nodes, nodes[kids[0]], LiveChildren(nodes, kids[1..]));
      } else {
        assert LiveChildren(nodes, kids) == LiveChildren(nodes, kids[1..]);
      }
      hide LiveChildren;
    }
  }

  lemma StoredCons(nodes: map<NodeId, Node>, n: Node, rest: seq<Node>)
    requires StoredOnce(nodes, rest) && Get(nodes, n.meta.id) == Some(n) && n.meta.id !in IdSet(rest)
    ensures StoredOnce(nodes, [n] + rest) && IdSet([n] + rest) == IdSet(rest) + {n.meta.id}
  {
    var all := [n] + rest;
    assert forall m :: m in all <==> m == n || m in rest;
    forall j | 0 <= j < |rest| ensures rest[j].meta.id != n.meta.id { assert rest[j] in rest; }
  }

  lemma {:induction false} LiveMapped(nodes: map<NodeId, Node>, nodes': map<NodeId, Node>, kids: seq<NodeId>,
                                      axis: Axis, at: int)
    requires forall k :: k in kids ==>
      (k in nodes' <==> k in nodes) && (k in nodes ==> nodes'[k] == Opened(axis, at, nodes[k]))
    ensures LiveChildren(nodes', kids) == OpenLine(axis, at, LiveChildren(nodes, kids))
  {
    hide Opened;
    if kids != [] {
      assert kids[0] in kids;
      LiveMapped(nodes, nodes', kids[1..], axis, at);
      if kids[0] in nodes {
        assert LiveChildren(nodes, kids)[1..] == LiveChildren(nodes, kids[1..]);
      } else {
        assert LiveChildren(nodes, kids) == LiveChildren(nodes, kids[1..]);
      }
    }
  }

  lemma {:induction false} LiveAppend(nodes: map<NodeId, Node>, a: seq<NodeId>, b: seq<NodeId>)
    ensures LiveChildren(nodes, a + b) == LiveChildren(nodes, a) + LiveChildren(nodes, b)
  {
    if a == [] {
      assert a + b == b;
    } else {
      LiveAppend(nodes, a[1..], b);
      assert (a + b)[1..] == a[1..] + b;
    }
  }

  lemma {:induction false} LiveOfIds(nodes: map<NodeId, Node>, cells: seq<Node>)
    requires forall i :: 0 <= i < |cells| ==> Get(nodes, cells[i].meta.id) == Some(cells[i])
    ensures LiveChildren(nodes, IdsOf(cells)) == cells
  {
    if cells != [] {
      assert Get(nodes, cells[0].meta.id) == Some(cells[0]);
      LiveOfIds(nodes, cells[1..]);
      assert IdsOf(cells)[1..] == IdsOf(cells[1..]);
    }
  }

  lemma {:induction false} OverlayHolds(nodes: map<NodeId, Node>, cells: seq<Node>)
    requires Distinct(IdsOf(cells))
    ensures forall id :: id !in IdsOf(cells) ==> Get(Overlay(nodes, cells), id) == Get(nodes, id)
    ensures forall i :: 0 <= i < |cells| ==> Get(Overlay(nodes, cells), cells[i].meta.id) == Some(cells[i])
    decreases |cells|
  {
    if cells != [] {
      var rest := cells[1..];
      assert IdsOf(cells)[1..] == IdsOf(rest);
      assert cells[0].meta.id !in IdsOf(rest) by { NewIsUnlisted([], cells[0].meta.id, IdsOf(rest)); }
      OverlayHolds(nodes[cells[0].meta.id := cells[0]], rest);
      hide Overlay, Distinct;
      forall i | 0 <= i < |cells| ensures Get(Overlay(nodes, cells), cells[i].meta.id) == Some(cells[i]) {
        assert i > 0 ==> cells[i] == rest[i - 1];
      }
    }
  }

  /** The three parts of an insertion: shifted, extended, resized. */
  lemma InsertParts(s: State, sheet: NodeId, axis: Axis, at: int, supply: FreshIds, q: EditRequest)
    returns (t1: State, t2: State)
    requires GridOk(s, sheet) && Unused(s, sheet, supply)
    ensures var line := NewLine(axis, at, Metas(supply, q));
      var t := Run(s, InsertPlan(s, sheet, axis, at, supply, q));
      && t1.nodes == Mapped(s.nodes, IdSet(GetChildren(s, sheet)), axis, at) && Kids(t1, sheet) == Kids(s, sheet)
      && t2.nodes == Overlay(t1.nodes, line) && Kids(t2, sheet) == Kids(s, sheet) + IdsOf(line)
      && t.nodes == t2.nodes[sheet := Resized(axis, s.nodes[sheet], 1)] && Kids(t, sheet) == Kids(t2, sheet)
  {
    var cells, line := GetChildren(s, sheet), NewLine(axis, at, Metas(supply, q));
    var a, b, c := ShiftOps(axis, at, cells, q), AddOps(sheet, line, EdgesOf(supply), q),
      Update(Resized(axis, s.nodes[sheet], 1), q);
    LiveStored(s.nodes, Kids(s, sheet));
    IdsOfLine(axis, at, line, NodesOf(supply));
    t1 := Run(s, a);
    t2 := Run(t1, b);
    InsertRun(s, sheet, axis, at, supply, q);
    hide Run, Kids, Distinct, LiveChildren, StoredOnce, Mapped, IdSet, Overlay, ShiftOps, AddOps, NewLine, NodesKeyed,
      IdsOf, Resized, InsertPlan, NodesOf;
    RunShift(s, axis, at, cells, q);
    SameChildren(t1, s, sheet);
    RunAdd(t1, sheet, line, EdgesOf(supply), q);
    RunOne(t2, c);
  }

  lemma InsertRun(s: State, sheet: NodeId, axis: Axis, at: int, supply: FreshIds, q: EditRequest)
    requires GridOk(s, sheet)
    ensures Run(s, InsertPlan(s, sheet, axis, at, supply, q)) ==
      Run(Run(Run(s, ShiftOps(axis, at, GetChildren(s, sheet), q)),
        AddOps(sheet, NewLine(axis, at, Metas(supply, q)), EdgesOf(supply), q)),
          [Update(Resized(axis, s.nodes[sheet], 1), q)])
  {
    hide Run, Kids, Distinct, LiveChildren, NodesKeyed, ShiftOps, AddOps, NewLine, Resized;
    RunThree(s, ShiftOps(axis, at, GetChildren(s, sheet), q),
      AddOps(sheet, NewLine(axis, at, Metas(supply, q)), EdgesOf(supply), q),
             [Update(Resized(axis, s.nodes[sheet], 1), q)]);
  }

  lemma DistinctParts<T(!new)>(a: seq<T>, b: seq<T>)
    requires Distinct(a + b)
    ensures Distinct(a) && Distinct(b) && forall x :: x in a ==> x !in b
  {
    var c := a + b;
    assert forall i :: 0 <= i < |a| ==> c[i] == a[i];
    forall i, j | 0 <= i < j < |b| ensures b[i] != b[j] { assert c[|a| + i] != c[|a| + j]; }
    forall i, j | 0 <= i < |a| && 0 <= j < |b| ensures a[i] != b[j] { assert c[i] != c[|a| + j]; }
  }

  /** The nodes after an insertion, one by one. */
  lemma InsertedNodes(s: State, sheet: NodeId, axis: Axis, at: int, supply: FreshIds, q: EditRequest)
    requires GridOk(s, sheet) && Unused(s, sheet, supply)
    ensures var line := NewLine(axis, at, Metas(supply, q));
      var t := Run(s, InsertPlan(s, sheet, axis, at, supply, q));
      && IdsOf(line) == NodesOf(supply) && Kids(t, sheet) == Kids(s, sheet) + NodesOf(supply)
      && Get(t.nodes, sheet) == Some(Resized(axis, s.nodes[sheet], 1))
      && (forall i :: 0 <= i < |line| ==> Get(t.nodes, line[i].meta.id) == Some(line[i]))
      && forall id :: id != sheet && id !in NodesOf(supply) ==>
        Get(t.nodes, id) == Get(Mapped(s.nodes, IdSet(GetChildren(s, sheet)), axis, at), id)
  {
    hide Run, Kids, Distinct, GetChildren, Mapped, IdSet, Overlay, NewLine, GridOk, IdsOf, Resized, InsertPlan,
      NodesOf, Metas, Unused;
    var line, ids := NewLine(axis, at, Metas(supply, q)), NodesOf(supply);
    var t1, t2 := InsertParts(s, sheet, axis, at, supply, q);
    LineIds(axis, at, supply, q);
    SupplyApart(s, sheet, supply);
    OverlayHolds(t1.nodes, line);
    forall i | 0 <= i < |line| ensures line[i].meta.id != sheet { assert ids[i] in ids; }
  }

  lemma LineIds(axis: Axis, at: int, supply: FreshIds, q: EditRequest)
    ensures var line := NewLine(axis, at, Metas(supply, q));
      && IdsOf(line) == NodesOf(supply) && |line| == |supply|
      && forall k :: 0 <= k < |line| ==> line[k].meta.id == NodesOf(supply)[k]
  {
    IdsOfLine(axis, at, NewLine(axis, at, Metas(supply, q)), NodesOf(supply));
  }

  lemma SupplyApart(s: State, sheet: NodeId, supply: FreshIds)
    requires Unused(s, sheet, supply)
    ensures Distinct(NodesOf(supply))
    ensures forall id :: id in NodesOf(supply) ==> id !in s.nodes && id != sheet && id !in Kids(s, sheet)
  {
    DistinctParts(Kids(s, sheet), NodesOf(supply));
    hide Distinct, NodesOf, Kids;
  }

  /** Inserting a line: the sheet's children are the shifted cells followed by the new ones, and
      the sheet is one line longer. */
  lemma InsertedChildren(s: State, sheet: NodeId, axis: Axis, at: int, supply: FreshIds, q: EditRequest)
    requires GridOk(s, sheet) && Unused(s, sheet, supply)
    ensures var t := Run(s, InsertPlan(s, sheet, axis, at, supply, q));
      && GetChildren(t, sheet) == InsertLine(axis, at, GetChildren(s, sheet), Metas(supply, q))
      && Kids(t, sheet) == Kids(s, sheet) + NodesOf(supply)
      && Get(t.nodes, sheet) == Some(Resized(axis, s.nodes[sheet], 1))
  {
    var t, kids, ids := Run(s, InsertPlan(s, sheet, axis, at, supply, q)), Kids(s, sheet), NodesOf(supply);
    var line := NewLine(axis, at, Metas(supply, q));
    InsertedNodes(s, sheet, axis, at, supply, q);
    SupplyApart(s, sheet, supply);
    LiveStored(s.nodes, kids);
    hide Run, Kids, Distinct, LiveChildren, IdSet, NewLine, NodesKeyed, IdsOf, Resized, InsertPlan, NodesOf, Metas,
      Opened, StoredOnce, OpenLine;
    LiveAppend(t.nodes, kids, ids);
    LiveOfIds(t.nodes, line);
    forall k | k in kids
      ensures (k in t.nodes <==> k in s.nodes) && (k in s.nodes ==> t.nodes[k] == Opened(axis, at, s.nodes[k]))
    {
      assert Get(t.nodes, k) == Get(Mapped(s.nodes, IdSet(GetChildren(s, sheet)), axis, at), k);
    }
    LiveMapped(s.nodes, t.nodes, kids, axis, at);
  }

  // ----- _delete_row, _delete_column -----

  /** `max(sheet.rows - 1, 0)` */
  function Shrunk(axis: Axis, sheet: Node): (r: Node)
    requires sheet.Sheet?
    ensures r.Sheet? && r.meta == sheet.meta
  {
    var n := Extent(axis, sheet);
    Resized(axis, sheet, (if n - 1 > 0 then n - 1 else 0) - n)
  }

  /** What one child contributes: deleted with its containment edges, moved back, or left. */
  function CellOps(s: State, axis: Axis, at: int, n: Node, q: EditRequest): seq<Operation> {
    if !IsCell(n) || Along(axis, n) < at then []
    else if Along(axis, n) == at then
      DeleteEdges(Containments(s.edges.keys, s.edges.vals, n.meta.id), q.now, Some(q.who)) +
        [DeleteNode(n.meta.id, [], q.now, Some(q.who))]
    else [Update(Placed(axis, n, Along(axis, n) - 1), q)]
  }

  function CloseOps(s: State, axis: Axis, at: int, cells: seq<Node>, q: EditRequest): seq<Operation> {
    if cells == [] then [] else CellOps(s, axis, at, cells[0], q) + CloseOps(s, axis, at, cells[1..], q)
  }

  function DeletePlan(s: State, sheet: NodeId, axis: Axis, at: int, q: EditRequest): seq<Operation> {
    if sheet !in s.nodes || !s.nodes[sheet].Sheet? then []
    else CloseOps(s, axis, at, GetChildren(s, sheet), q) + [Update(Shrunk(axis, s.nodes[sheet]), q)]
  }

  method PlanCell(s: State, axis: Axis, at: int, cell: Node, q: EditRequest) returns (ops: seq<Operation>)
    ensures ops == CellOps(s, axis, at, cell, q)
  {
    ops := [];
    if IsCell(cell) {
      if Along(axis, cell) == at {
        var drop := CollectContainments(s.edges, cell.meta.id);
        ops := DeleteEdges(drop, q.now, Some(q.who)) + [DeleteNode(cell.meta.id, [], q.now, Some(q.who))];
      } else if Along(axis, cell) > at {
        ops := [Update(Placed(axis, cell, Along(axis, cell) - 1), q)];
      }
    }
  }

  method PlanClose(s: State, axis: Axis, at: int, cells: seq<Node>, q: EditRequest) returns (ops: seq<Operation>)
    ensures ops == CloseOps(s, axis, at, cells, q)
  {
    hide CellOps;
    ops := [];
    for i := 0 to |cells|
      invariant ops + CloseOps(s, axis, at, cells[i..], q) == CloseOps(s, axis, at, cells, q)
    {
      assert cells[i..][1..] == cells[i + 1..];
      var some := PlanCell(s, axis, at, cells[i], q);
      ops := ops + some;
    }
  }

  method PlanDelete(s: State, sheet: NodeId, axis: Axis, at: int, q: EditRequest) returns (ops: seq<Operation>)
    ensures ops == DeletePlan(s, sheet, axis, at, q)
  {
    if sheet !in s.nodes || !s.nodes[sheet].Sheet? {
      return [];
    }
    ops := PlanClose(s, axis, at, GetChildren(s, sheet), q);
    ops := ops + [Update(Shrunk(axis, s.nodes[sheet]), q)];
  }

  /** Removing once or not at all, and then for certain, removes once. */
  lemma RemovedOnce(kids: seq<NodeId>, id: NodeId, some: seq<NodeId>)
    requires Distinct(kids) && (some == kids || some == Remove(kids, id))
    ensures Remove(some, id) == Remove(kids, id)
  {
    RemoveFromDistinct(kids, id);
    RemoveTwice(Remove(kids, id), id);
  }

  lemma DropStep(t: State, e: EdgeId, m: map<EdgeId, Edge>, sheet: NodeId, id: NodeId, q: EditRequest)
    requires SubMap(t.edges.vals, m) && e in m && m[e].target == id
    ensures var u := Step(t, NewEntry(DeleteEdge(e, [], q.now, Some(q.who))));
      && u.nodes == t.nodes && SubMap(u.edges.vals, m)
      && (Kids(u, sheet) == Kids(t, sheet) || Kids(u, sheet) == Remove(Kids(t, sheet), id))
  {
    var op := DeleteEdge(e, [], q.now, Some(q.who));
    NewEntryOp(op);
    StepParts(t, NewEntry(op));
    StepKids(t, NewEntry(op), sheet);
    hide Step, NewEntry, Kids, Remove;
  }

  /** Deleting the containment edges of a child unlists it at most once. */
  lemma {:induction false} RunDrops(t: State, drop: seq<EdgeId>, m: map<EdgeId, Edge>, sheet: NodeId, id: NodeId,
                                    q: EditRequest)
    requires SubMap(t.edges.vals, m) && Distinct(Kids(t, sheet))
    requires forall i :: 0 <= i < |drop| ==> drop[i] in m && m[drop[i]].target == id
    ensures var u := Run(t, DeleteEdges(drop, q.now, Some(q.who)));
      && u.nodes == t.nodes && SubMap(u.edges.vals, m)
      && (Kids(u, sheet) == Kids(t, sheet) || Kids(u, sheet) == Remove(Kids(t, sheet), id))
    decreases |drop|
  {
    hide Step, NewEntry, Run, SubMap, Kids, Distinct, Remove;
    if drop == [] {
      NoDrops(q.now, Some(q.who));
      RunNone(t);
    } else {
      var op, ops := DeleteEdge(drop[0], [], q.now, Some(q.who)), DeleteEdges(drop[1..], q.now, Some(q.who));
      assert DeleteEdges(drop, q.now, Some(q.who)) == [op] + ops;
      hide DeleteEdges;
      RunFirst(t, op, ops);
      DropStep(t, drop[0], m, sheet, id, q);
      var u := Step(t, NewEntry(op));
      RemoveFromDistinct(Kids(t, sheet), id);
      RemovedOnce(Kids(t, sheet), id, Kids(u, sheet));
      RunDrops(u, drop[1..], m, sheet, id, q);
    }
  }

  /** Deleting one child. */
  lemma RunDeleteCell(t: State, s: State, sheet: NodeId, id: NodeId, q: EditRequest)
    requires SubMap(t.edges.vals, s.edges.vals) && Distinct(Kids(t, sheet)) && id != sheet
    ensures var drop := Containments(s.edges.keys, s.edges.vals, id);
      var u := Run(t, DeleteEdges(drop, q.now, Some(q.who)) + [DeleteNode(id, [], q.now, Some(q.who))]);
      u.nodes == t.nodes - {id} && SubMap(u.edges.vals, s.edges.vals) && Kids(u, sheet) == Remove(Kids(t, sheet), id)
  {
    var drop := Containments(s.edges.keys, s.edges.vals, id);
    forall i | 0 <= i < |drop| ensures drop[i] in s.edges.vals && s.edges.vals[drop[i]].target == id {
      assert drop[i] in drop;
    }
    hide Run, Kids, Distinct, Remove, DeleteEdges, Containments;
    RunDrops(t, drop, s.edges.vals, sheet, id, q);
    RunAppend(t, DeleteEdges(drop, q.now, Some(q.who)), [DeleteNode(id, [], q.now, Some(q.who))]);
    var t1 := Run(t, DeleteEdges(drop, q.now, Some(q.who)));
    RunOne(t1, DeleteNode(id, [], q.now, Some(q.who)));
    RemovedOnce(Kids(t, sheet), id, Kids(t1, sheet));
  }

  /** The nodes once the given children have been treated. */
  function ClosedNodes(nodes: map<NodeId, Node>, ids: set<NodeId>, axis: Axis, at: int): map<NodeId, Node> {
    map id | id in nodes && (id in ids ==> Closed(axis, at, nodes[id]).Some?) ::
      if id in ids then Closed(axis, at, nodes[id]).value else nodes[id]
  }

  /** The list once the given children have been treated. */
  function Struck(kids: seq<NodeId>, cells: seq<Node>, axis: Axis, at: int): seq<NodeId>
    decreases |cells|
  {
    if cells == [] then kids
    else Struck(if Closed(axis, at, cells[0]).None? then Remove(kids, cells[0].meta.id) else kids, cells[1..], axis, at)
  }

  lemma RunMoveBack(t: State, sheet: NodeId, n: Node, q: EditRequest)
    ensures var u := Run(t, [Update(n, q)]);
      u.nodes == t.nodes[n.meta.id := n] && u.edges.vals == t.edges.vals && Kids(u, sheet) == Kids(t, sheet)
  {
    hide Run, Kids;
    RunOne(t, Update(n, q));
  }

  /** Treating one child. */
  lemma RunCell(t: State, s: State, sheet: NodeId, axis: Axis, at: int, n: Node, q: EditRequest)
    requires SubMap(t.edges.vals, s.edges.vals) && Distinct(Kids(t, sheet)) && n.meta.id != sheet
    requires Get(t.nodes, n.meta.id) == Some(n)
    ensures var u, id, after := Run(t, CellOps(s, axis, at, n, q)), n.meta.id, Closed(axis, at, n);
      && u.nodes == (if after.None? then t.nodes - {id} else t.nodes[id := after.value])
      && SubMap(u.edges.vals, s.edges.vals)
      && Kids(u, sheet) == if after.None? then Remove(Kids(t, sheet), id) else Kids(t, sheet)
  {
    hide Run, Kids, Distinct, Remove, DeleteEdges, Containments, SubMap, Update, Placed;
    if !IsCell(n) || Along(axis, n) < at {
      RunNone(t);
      assert t.nodes[n.meta.id := n] == t.nodes;
    } else if Along(axis, n) == at {
      RunDeleteCell(t, s, sheet, n.meta.id, q);
    } else {
      RunMoveBack(t, sheet, Placed(axis, n, Along(axis, n) - 1), q);
    }
  }

  lemma ClosedNext(nodes: map<NodeId, Node>, cells: seq<Node>, axis: Axis, at: int)
    requires cells != [] && StoredOnce(nodes, cells)
    ensures var id, after := cells[0].meta.id, Closed(axis, at, cells[0]);
      var nodes1 := if after.None? then nodes - {id} else nodes[id := after.value];
      StoredOnce(nodes1, cells[1..]) &&
        ClosedNodes(nodes1, IdSet(cells[1..]), axis, at) == ClosedNodes(nodes, IdSet(cells), axis, at)
  {
    hide Closed;
    var id, rest := cells[0].meta.id, cells[1..];
    assert Get(nodes, id) == Some(cells[0]);
    assert id !in IdSet(rest);
    assert IdSet(cells) == IdSet(rest) + {id} by {
      assert forall n :: n in cells <==> n == cells[0] || n in rest;
    }
  }

  lemma {:induction false} RunClose(t: State, s: State, sheet: NodeId, axis: Axis, at: int, cells: seq<Node>,
                                    q: EditRequest)
    requires StoredOnce(t.nodes, cells) && SubMap(t.edges.vals, s.edges.vals) && Distinct(Kids(t, sheet))
    requires forall i :: 0 <= i < |cells| ==> cells[i].meta.id != sheet
    ensures var u := Run(t, CloseOps(s, axis, at, cells, q));
      u.nodes == ClosedNodes(t.nodes, IdSet(cells), axis, at) &&
        Kids(u, sheet) == Struck(Kids(t, sheet), cells, axis, at)
    decreases |cells|
  {
    hide Run, StoredOnce, SubMap, Distinct, Kids, Closed, CellOps, ClosedNodes, IdSet, Remove;
    if cells == [] {
      RunNone(t);
      NothingClosed(t.nodes, axis, at);
    } else {
      StoredHead(t.nodes, cells);
      ClosedNext(t.nodes, cells, axis, at);
      RunCell(t, s, sheet, axis, at, cells[0], q);
      RemoveFromDistinct(Kids(t, sheet), cells[0].meta.id);
      RunAppend(t, CellOps(s, axis, at, cells[0], q), CloseOps(s, axis, at, cells[1..], q));
      RunClose(Run(t, CellOps(s, axis, at, cells[0], q)), s, sheet, axis, at, cells[1..], q);
    }
  }

  lemma NothingClosed(nodes: map<NodeId, Node>, axis: Axis, at: int)
    ensures ClosedNodes(nodes, IdSet([]), axis, at) == nodes
  {
  }

  lemma StoredHead(nodes: map<NodeId, Node>, cells: seq<Node>)
    requires cells != [] && StoredOnce(nodes, cells)
    ensures Get(nodes, cells[0].meta.id) == Some(cells[0])
  {
  }

  lemma {:induction false} LiveClosed(nodes: map<NodeId, Node>, nodes': map<NodeId, Node>, kids: seq<NodeId>,
                                      axis: Axis, at: int)
    requires forall k :: k in kids ==> Get(nodes', k) == if k in nodes then Closed(axis, at, nodes[k]) else None
    ensures LiveChildren(nodes', kids) == DeleteLine(axis, at, LiveChildren(nodes, kids))
  {
    hide Closed;
    if kids != [] {
      assert kids[0] in kids;
      LiveClosed(nodes, nodes', kids[1..], axis, at);
      if kids[0] in nodes {
        DeleteCons(axis, at, nodes[kids[0]], LiveChildren(nodes, kids[1..]));
      } else {
        assert LiveChildren(nodes, kids) == LiveChildren(nodes, kids[1..]);
      }
    }
  }

  lemma {:induction false} LiveRemoved(nodes: map<NodeId, Node>, kids: seq<NodeId>, id: NodeId)
    requires id !in nodes
    ensures LiveChildren(nodes, Remove(kids, id)) == LiveChildren(nodes, kids)
  {
    if kids != [] && kids[0] != id {
      LiveRemoved(nodes, kids[1..], id);
      assert Remove(kids, id)[1..] == Remove(kids[1..], id);
    }
  }

  lemma {:induction false} LiveStruck(nodes: map<NodeId, Node>, kids: seq<NodeId>, cells: seq<Node>, axis: Axis,
                                      at: int)
    requires forall i :: 0 <= i < |cells| && Closed(axis, at, cells[i]).None? ==> cells[i].meta.id !in nodes
    ensures LiveChildren(nodes, Struck(kids, cells, axis, at)) == LiveChildren(nodes, kids)
    decreases |cells|
  {
    hide Closed, Remove, LiveChildren;
    if cells != [] {
      var id := cells[0].meta.id;
      if Closed(axis, at, cells[0]).None? {
        LiveRemoved(nodes, kids, id);
        LiveStruck(nodes, Remove(kids, id), cells[1..], axis, at);
      } else {
        LiveStruck(nodes, kids, cells[1..], axis, at);
      }
    }
  }

  lemma DeleteRun(s: State, sheet: NodeId, axis: Axis, at: int, q: EditRequest) returns (t1: State)
    requires GridOk(s, sheet)
    ensures var cells := GetChildren(s, sheet);
      var t := Run(s, DeletePlan(s, sheet, axis, at, q));
      && t1.nodes == ClosedNodes(s.nodes, IdSet(cells), axis, at) &&
        Kids(t1, sheet) == Struck(Kids(s, sheet), cells, axis, at)
      && t.nodes == t1.nodes[sheet := Shrunk(axis, s.nodes[sheet])] && Kids(t, sheet) == Kids(t1, sheet)
  {
    var cells := GetChildren(s, sheet);
    LiveStored(s.nodes, Kids(s, sheet));
    assert SubMap(s.edges.vals, s.edges.vals);
    forall i | 0 <= i < |cells| ensures cells[i].meta.id != sheet { assert cells[i].meta.id in IdSet(cells); }
    hide Run, Kids, Distinct, LiveChildren, StoredOnce, IdSet, CloseOps, SubMap, ClosedNodes, NodesKeyed, Struck,
      Shrunk;
    RunClose(s, s, sheet, axis, at, cells, q);
    t1 := Run(s, CloseOps(s, axis, at, cells, q));
    RunAppend(s, CloseOps(s, axis, at, cells, q), [Update(Shrunk(axis, s.nodes[sheet]), q)]);
    RunOne(t1, Update(Shrunk(axis, s.nodes[sheet]), q));
  }

  /** Deleting a line: the sheet's children are the remaining cells, moved back, in their order,
      and the sheet is one line shorter. */
  lemma DeletedChildren(s: State, sheet: NodeId, axis: Axis, at: int, q: EditRequest)
    requires GridOk(s, sheet)
    ensures var t := Run(s, DeletePlan(s, sheet, axis, at, q));
      && GetChildren(t, sheet) == DeleteLine(axis, at, GetChildren(s, sheet))
      && Kids(t, sheet) == Struck(Kids(s, sheet), GetChildren(s, sheet), axis, at)
      && Get(t.nodes, sheet) == Some(Shrunk(axis, s.nodes[sheet]))
  {
    var t, kids, cells := Run(s, DeletePlan(s, sheet, axis, at, q)), Kids(s, sheet), GetChildren(s, sheet);
    var t1 := DeleteRun(s, sheet, axis, at, q);
    LiveStored(s.nodes, kids);
    hide Run, Kids, Distinct, LiveChildren, NodesKeyed, Struck, Shrunk, DeletePlan, Closed, DeleteLine;
    forall k | k in kids ensures Get(t.nodes, k) == if k in s.nodes then Closed(axis, at, s.nodes[k]) else None {
      assert k in IdSet(cells) <==> k in s.nodes;
      hide IdSet;
      assert Get(t.nodes, k) == Get(t1.nodes, k);
    }
    LiveClosed(s.nodes, t.nodes, kids, axis, at);
    forall i | 0 <= i < |cells| && Closed(axis, at, cells[i]).None? ensures cells[i].meta.id !in t.nodes {
      assert Get(s.nodes, cells[i].meta.id) == Some(cells[i]);
      assert cells[i].meta.id in IdSet(cells);
    }
    LiveStruck(t.nodes, kids, cells, axis, at);
  }

  // ----- deleting the line just inserted -----

  lemma {:induction false} StruckAppend(kids: seq<NodeId>, a: seq<Node>, b: seq<Node>, axis: Axis, at: int)
    ensures Struck(kids, a + b, axis, at) == Struck(Struck(kids, a, axis, at), b, axis, at)
    decreases |a|
  {
    hide Closed, Remove;
    if a == [] {
      assert a + b == b;
    } else {
      assert (a + b)[1..] == a[1..] + b;
      StruckAppend(if Closed(axis, at, a[0]).None? then Remove(kids, a[0].meta.id) else kids, a[1..], b, axis, at);
    }
  }

  lemma {:induction false} StruckOpened(kids: seq<NodeId>, cells: seq<Node>, axis: Axis, at: int)
    ensures Struck(kids, OpenLine(axis, at, cells), axis, at) == kids
    decreases |cells|
  {
    hide Closed, Opened, Remove;
    if cells != [] {
      ReopenOne(axis, at, cells[0]);
      StruckOpened(kids, cells[1..], axis, at);
      assert OpenLine(axis, at, cells)[1..] == OpenLine(axis, at, cells[1..]);
    }
  }

  lemma {:induction false} RemoveMiddle(a: seq<NodeId>, x: NodeId, b: seq<NodeId>)
    requires x !in a
    ensures Remove(a + ([x] + b), x) == a + b
  {
    if a == [] {
      assert a + ([x] + b) == [x] + b && a + b == b;
    } else {
      RemoveMiddle(a[1..], x, b);
      assert (a + ([x] + b))[1..] == a[1..] + ([x] + b);
    }
  }

  lemma {:induction false} StruckLine(kids: seq<NodeId>, line: seq<Node>, axis: Axis, at: int)
    requires (forall k :: 0 <= k < |line| ==> IsCell(line[k]) && Along(axis, line[k]) == at) &&
      Distinct(kids + IdsOf(line))
    ensures Struck(kids + IdsOf(line), line, axis, at) == kids
    decreases |line|
  {
    hide Remove, Distinct;
    if line == [] {
      assert kids + [] == kids;
    } else {
      var id, rest := line[0].meta.id, IdsOf(line[1..]);
      NewIsUnlisted(kids, id, rest);
      RemoveMiddle(kids, id, rest);
      DistinctWithout(kids, id, rest);
      StruckLine(kids, line[1..], axis, at);
    }
  }

  lemma DistinctWithout(a: seq<NodeId>, x: NodeId, b: seq<NodeId>)
    requires Distinct(a + ([x] + b))
    ensures Distinct(a + b)
  {
    DistinctParts(a, [x] + b);
    DistinctParts([x], b);
    DistinctAppend(a, b);
  }

  lemma {:induction false} RunKeepsKeyed(s: State, ops: seq<Operation>)
    requires NodesKeyed(s)
    ensures NodesKeyed(Run(s, ops))
    decreases |ops|
  {
    hide Step, NewEntry, NodesKeyed;
    if ops != [] {
      StepNodesKeyed(s, NewEntry(ops[0]));
      RunKeepsKeyed(Step(s, NewEntry(ops[0])), ops[1..]);
    }
  }

  lemma InsertKeepsGridOk(s: State, sheet: NodeId, axis: Axis, at: int, supply: FreshIds, q: EditRequest)
    requires GridOk(s, sheet) && Unused(s, sheet, supply)
    ensures GridOk(Run(s, InsertPlan(s, sheet, axis, at, supply, q)), sheet)
  {
    InsertedChildren(s, sheet, axis, at, supply, q);
    SupplyApart(s, sheet, supply);
    hide Run, Kids, Distinct, LiveChildren, InsertPlan, NodesOf, Resized, InsertLine, NodesKeyed, Metas;
    RunKeepsKeyed(s, InsertPlan(s, sheet, axis, at, supply, q));
  }

  /** Deleting the line just inserted restores the sheet's child list, every child and the
      dimensions, at any position. */
  lemma DeleteUndoesInsert(s: State, sheet: NodeId, axis: Axis, at: int, supply: FreshIds, q: EditRequest,
                           r: EditRequest)
    requires GridOk(s, sheet) && Unused(s, sheet, supply) && Extent(axis, s.nodes[sheet]) >= 0
    ensures var t := Run(s, InsertPlan(s, sheet, axis, at, supply, q));
      var u := Run(t, DeletePlan(t, sheet, axis, at, r));
      GetChildren(u, sheet) == GetChildren(s, sheet) && Kids(u, sheet) == Kids(s, sheet) &&
        Get(u.nodes, sheet) == Some(s.nodes[sheet])
  {
    hide Run, Kids, GetChildren, InsertPlan, DeletePlan, NodesOf, NodesKeyed, Metas, Struck, InsertLine, DeleteLine,
      Distinct, Resized, Unused;
    var t := Run(s, InsertPlan(s, sheet, axis, at, supply, q));
    InsertedChildren(s, sheet, axis, at, supply, q);
    InsertKeepsGridOk(s, sheet, axis, at, supply, q);
    DeletedChildren(t, sheet, axis, at, r);
    DeleteAfterInsert(axis, at, GetChildren(s, sheet), Metas(supply, q));
    StruckInserted(s, sheet, axis, at, supply, q);
    ShrinkGrown(axis, s.nodes[sheet]);
  }

  lemma ShrinkGrown(axis: Axis, sheet: Node)
    requires sheet.Sheet? && Extent(axis, sheet) >= 0
    ensures Shrunk(axis, Resized(axis, sheet, 1)) == sheet
  {
  }

  lemma StruckInserted(s: State, sheet: NodeId, axis: Axis, at: int, supply: FreshIds, q: EditRequest)
    requires Unused(s, sheet, supply)
    ensures var cells := InsertLine(axis, at, GetChildren(s, sheet), Metas(supply, q));
      Struck(Kids(s, sheet) + NodesOf(supply), cells, axis, at) == Kids(s, sheet)
  {
    hide Kids, GetChildren, NodesOf, Metas, Struck, OpenLine, Distinct;
    var kids, cells := Kids(s, sheet) + NodesOf(supply), GetChildren(s, sheet);
    var line := NewLine(axis, at, Metas(supply, q));
    LineIds(axis, at, supply, q);
    StruckAppend(kids, OpenLine(axis, at, cells), line, axis, at);
    StruckOpened(kids, cells, axis, at);
    StruckLine(Kids(s, sheet), line, axis, at);
  }

  // ----- density -----

  /** The children are one cell for each place of the sheet's grid. */
  ghost predicate SheetDense(s: State, sheet: NodeId, axis: Axis)
    requires sheet in s.nodes && s.nodes[sheet].Sheet?
  {
    Extent(axis, s.nodes[sheet]) >= 0 &&
      Dense(axis, GetChildren(s, sheet), Extent(axis, s.nodes[sheet]), LineLength(axis, s.nodes[sheet]))
  }

  lemma SameLength(axis: Axis, sheet: Node, d: int)
    requires sheet.Sheet?
    ensures LineLength(axis, Resized(axis, sheet, d)) == LineLength(axis, sheet)
    ensures Extent(axis, Resized(axis, sheet, d)) == Extent(axis, sheet) + d
  {
  }

  lemma SupplyMetas(supply: FreshIds, q: EditRequest)
    ensures |Metas(supply, q)| == |supply|
  {
  }

  /** A dense sheet stays dense if and only if the line goes in at one of its lines or right after
      the last (or its lines are empty). */
  lemma InsertStaysDenseIff(s: State, sheet: NodeId, axis: Axis, at: int, supply: FreshIds, q: EditRequest)
    requires GridOk(s, sheet) && Unused(s, sheet, supply) && SheetDense(s, sheet, axis)
    requires |supply| == LineLength(axis, s.nodes[sheet])
    ensures var t := Run(s, InsertPlan(s, sheet, axis, at, supply, q));
      && sheet in t.nodes && t.nodes[sheet].Sheet?
      && (SheetDense(t, sheet, axis) <==> 0 <= at <= Extent(axis, s.nodes[sheet]) || |supply| == 0)
  {
    hide Run, Kids, GetChildren, InsertPlan, Unused, NodesOf, NodesKeyed, InsertLine, Dense, Distinct, Resized,
      Extent, LineLength, Metas;
    InsertedChildren(s, sheet, axis, at, supply, q);
    SameLength(axis, s.nodes[sheet], 1);
    SupplyMetas(supply, q);
    InsertKeepsDenseIff(axis, at, GetChildren(s, sheet), Metas(supply, q), Extent(axis, s.nodes[sheet]));
  }

  lemma DeleteStaysDenseIff(s: State, sheet: NodeId, axis: Axis, at: int, q: EditRequest)
    requires GridOk(s, sheet) && SheetDense(s, sheet, axis)
    ensures var t, n := Run(s, DeletePlan(s, sheet, axis, at, q)), Extent(axis, s.nodes[sheet]);
      && sheet in t.nodes && t.nodes[sheet].Sheet?
      && (SheetDense(t, sheet, axis) <==> 0 <= at < n || n == 0 || LineLength(axis, s.nodes[sheet]) == 0)
  {
    hide Run, Kids, GetChildren, DeletePlan, Struck, NodesKeyed, DeleteLine, Dense, Distinct, Resized, Extent,
      LineLength;
    var n := Extent(axis, s.nodes[sheet]);
    DeletedChildren(s, sheet, axis, at, q);
    SameLength(axis, s.nodes[sheet], (if n - 1 > 0 then n - 1 else 0) - n);
    DeleteKeepsDenseIff(axis, at, GetChildren(s, sheet), n, LineLength(axis, s.nodes[sheet]));
  }

  /** Density does not depend on the axis it is read along, so row and column edits combine. */
  lemma SheetDenseEitherAxis(s: State, sheet: NodeId)
    requires sheet in s.nodes && s.nodes[sheet].Sheet? && s.nodes[sheet].rows >= 0 && s.nodes[sheet].cols >= 0
    ensures SheetDense(s, sheet, Rows) <==> SheetDense(s, sheet, Columns)
  {
    hide Dense, GetChildren;
    DenseSwaps(GetChildren(s, sheet), s.nodes[sheet].rows, s.nodes[sheet].cols);
  }
}
