/** One-pass recalculation of a sheet: recalculate_sheet of src/uaf/app/lenses/grid_lens.py, with
    the formula language left abstract. */
module Recalculation {
  import opened Collections
  import opened Nodes
  import opened Operations
  import opened OperationLogs
  import opened Materializer
  import opened Inverses
  import opened Indexing
  import opened Queries
  import opened Bundles
  import opened Grids
  import opened GridLens

  type Place = (int, int)

  type Values = map<Place, CellValue>

  /** The formula engine: a value for a formula over a sheet, the places a formula refers to, and
      the equality by which the lens decides whether a cached value has changed. */
  datatype Engine = Engine(eval: (string, Values) -> CellValue, refs: string -> set<Place>,
                           same: (CellValue, CellValue) -> bool)

  /** `_vals.get((row, col))` */
  function Look(vals: Values, p: Place): CellValue {
    if p in vals then vals[p] else VNone
  }

  /** A value depends on the cells referred to only, and equals itself. */
  ghost predicate Sound(e: Engine) {
    && (forall f, v, w :: (forall p :: p in e.refs(f) ==> Look(v, p) == Look(w, p)) ==> e.eval(f, v) == e.eval(f, w))
    && (forall x :: e.same(x, x))
  }

  function PlaceOf(n: Node): Place
    requires IsCell(n)
  {
    (n.row, n.col)
  }

  function ValueOf(n: Node): CellValue
    requires IsCell(n)
  {
    if n.Cell? then n.value else n.cachedValue
  }

  /** `cell_values`: later cells override earlier ones. */
  function ValuesOf(cells: seq<Node>): Values {
    if cells == [] then map[]
    else
      var vals := ValuesOf(Init(cells));
      if IsCell(Last(cells)) then vals[PlaceOf(Last(cells)) := ValueOf(Last(cells))] else vals
  }

  function Recached(n: Node, v: CellValue): Node
    requires n.FormulaCell?
  {
    FormulaCell(n.meta, n.formula, v, n.row, n.col)
  }

  /** The cell has a formula whose value is not the cached one. */
  predicate Stale(e: Engine, vals: Values, n: Node) {
    n.FormulaCell? && !e.same(e.eval(n.formula, vals), n.cachedValue)
  }

  function Refresh(e: Engine, vals: Values, n: Node): Node {
    if Stale(e, vals, n) then Recached(n, e.eval(n.formula, vals)) else n
  }

  function NextValues(e: Engine, vals: Values, n: Node): Values {
    if Stale(e, vals, n) then vals[PlaceOf(n) := e.eval(n.formula, vals)] else vals
  }

  /** The children after the pass, the values it ends with, and the updates it issues. */
  function Refreshed(e: Engine, vals: Values, cells: seq<Node>): (r: seq<Node>)
    ensures |r| == |cells|
    decreases |cells|
  {
    if cells == [] then [] else [Refresh(e, vals, cells[0])] + Refreshed(e, NextValues(e, vals, cells[0]), cells[1..])
  }

  function Settled(e: Engine, vals: Values, cells: seq<Node>): Values
    decreases |cells|
  {
    if cells == [] then vals else Settled(e, NextValues(e, vals, cells[0]), cells[1..])
  }

  function RefreshOps(e: Engine, vals: Values, cells: seq<Node>, q: EditRequest): seq<Operation>
    decreases |cells|
  {
    if cells == [] then []
    else
      var rest := RefreshOps(e, NextValues(e, vals, cells[0]), cells[1..], q);
      if Stale(e, vals, cells[0]) then [Update(Refresh(e, vals, cells[0]), q)] + rest else rest
  }

  // ----- the loops -----

  function Formulas(cells: seq<Node>): (r: seq<Node>)
    ensures forall n :: n in r ==> n.FormulaCell?
  {
    if cells == [] then []
    else Formulas(Init(cells)) + if Last(cells).FormulaCell? then [Last(cells)] else []
  }

  method Gather(cells: seq<Node>) returns (vals: Values, formulas: seq<Node>)
    ensures vals == ValuesOf(cells) && formulas == Formulas(cells)
  {
    vals, formulas := map[], [];
    assert cells[..0] == [];
    for i := 0 to |cells|
      invariant vals == ValuesOf(cells[..i]) && formulas == Formulas(cells[..i])
    {
      assert Init(cells[..i + 1]) == cells[..i];
      var cell := cells[i];
      if cell.Cell? {
        vals := vals[PlaceOf(cell) := cell.value];
      } else if cell.FormulaCell? {
        formulas := formulas + [cell];
        vals := vals[PlaceOf(cell) := cell.cachedValue];
      }
    }
    assert cells[..|cells|] == cells;
  }

  /** The updates recalculate_sheet issues, one per formula whose value changes. */
  method Recalculate(s: State, sheet: NodeId, e: Engine, q: EditRequest) returns (ops: seq<Operation>)
    ensures ops == RefreshOps(e, ValuesOf(GetChildren(s, sheet)), GetChildren(s, sheet), q)
  {
    var cells := GetChildren(s, sheet);
    var vals, formulas := Gather(cells);
    ghost var v0 := vals;
    ops := [];
    for i := 0 to |formulas|
      invariant ops + RefreshOps(e, vals, formulas[i..], q) == RefreshOps(e, v0, formulas, q)
    {
      hide Update;
      assert formulas[i..][1..] == formulas[i + 1..];
      var fc := formulas[i];
      assert fc in formulas;
      var value := e.eval(fc.formula, vals);
      if !e.same(value, fc.cachedValue) {
        ops := ops + [Update(Recached(fc, value), q)];
        vals := vals[PlaceOf(fc) := value];
      }
    }
    OnlyFormulas(e, v0, cells, q);
  }

  lemma {:induction false} OnlyFormulas(e: Engine, vals: Values, cells: seq<Node>, q: EditRequest)
    ensures RefreshOps(e, vals, Formulas(cells), q) == RefreshOps(e, vals, cells, q)
    decreases |cells|
  {
    hide Update;
    if cells != [] {
      FormulasCons(cells);
      OnlyFormulas(e, NextValues(e, vals, cells[0]), cells[1..], q);
      if cells[0].FormulaCell? {
        assert Formulas(cells)[1..] == Formulas(cells[1..]);
      } else {
        assert Formulas(cells) == Formulas(cells[1..]);
      }
    }
  }

  lemma {:induction false} FormulasCons(cells: seq<Node>)
    requires cells != []
    ensures Formulas(cells) == (if cells[0].FormulaCell? then [cells[0]] else []) + Formulas(cells[1..])
  {
    if |cells| == 1 {
      assert Init(cells) == [] && cells[1..] == [];
    } else {
      FormulasCons(Init(cells));
      assert Init(cells)[1..] == Init(cells[1..]) && Last(cells) == Last(cells[1..]);
    }
  }

  // ----- the fixpoint -----

  /** No two cells share both row and column. */
  ghost predicate PlacesDiffer(cells: seq<Node>) {
    forall i, j :: 0 <= i < j < |cells| && IsCell(cells[i]) && IsCell(cells[j]) ==>
      cells[i].row != cells[j].row || cells[i].col != cells[j].col
  }

  /** No two cells at one place, and each formula refers to no formula at its own place or later. */
  ghost predicate ReadsEarlier(e: Engine, cells: seq<Node>) {
    && PlacesDiffer(cells)
    && (forall i, j :: 0 <= i <= j < |cells| && cells[i].FormulaCell? && cells[j].FormulaCell? ==>
      (cells[j].row, cells[j].col) !in e.refs(cells[i].formula))
  }

  lemma ReadsEarlierRest(e: Engine, cells: seq<Node>)
    requires cells != [] && ReadsEarlier(e, cells)
    ensures ReadsEarlier(e, cells[1..])
    ensures forall j :: 0 <= j < |cells[1..]| && IsCell(cells[0]) && IsCell(cells[1..][j]) ==>
      PlaceOf(cells[1..][j]) != PlaceOf(cells[0])
    ensures cells[0].FormulaCell? ==>
      PlaceOf(cells[0]) !in e.refs(cells[0].formula) &&
      forall j :: 0 <= j < |cells[1..]| && cells[1..][j].FormulaCell? ==>
        PlaceOf(cells[1..][j]) !in e.refs(cells[0].formula)
  {
    var rest := cells[1..];
    forall i, j | 0 <= i < j < |rest| && IsCell(rest[i]) && IsCell(rest[j])
      ensures PlaceOf(rest[i]) != PlaceOf(rest[j])
    {
      assert rest[i] == cells[i + 1] && rest[j] == cells[j + 1];
    }
    forall i, j | 0 <= i <= j < |rest| && rest[i].FormulaCell? && rest[j].FormulaCell?
      ensures PlaceOf(rest[j]) !in e.refs(rest[i].formula)
    {
      assert rest[i] == cells[i + 1] && rest[j] == cells[j + 1];
    }
  }

  /** The pass changes values at places of the remaining formulas only. */
  lemma {:induction false} SettledElsewhere(e: Engine, vals: Values, cells: seq<Node>, p: Place)
    requires forall j :: 0 <= j < |cells| && cells[j].FormulaCell? ==> PlaceOf(cells[j]) != p
    ensures Get(Settled(e, vals, cells), p) == Get(vals, p)
    decreases |cells|
  {
    if cells != [] {
      SettledElsewhere(e, NextValues(e, vals, cells[0]), cells[1..], p);
    }
  }

  /** In the final values nothing is stale any more. */
  ghost predicate Fresh(e: Engine, vals: Values, cells: seq<Node>) {
    forall i :: 0 <= i < |cells| ==> !Stale(e, vals, cells[i])
  }

  /** A formula refreshed in its turn agrees with the values the pass ends with. */
  lemma HeadStaysFresh(e: Engine, vals: Values, cells: seq<Node>)
    requires Sound(e) && cells != [] && ReadsEarlier(e, cells)
    ensures !Stale(e, Settled(e, vals, cells), Refresh(e, vals, cells[0]))
  {
    var n := cells[0];
    if n.FormulaCell? {
      ReadsEarlierRest(e, cells);
      var next := NextValues(e, vals, n);
      var final := Settled(e, next, cells[1..]);
      hide ReadsEarlier, Settled;
      forall p | p in e.refs(n.formula) ensures Look(final, p) == Look(vals, p) {
        SettledElsewhere(e, next, cells[1..], p);
        assert Get(final, p) == Get(next, p) == Get(vals, p);
      }
      assert e.eval(n.formula, final) == e.eval(n.formula, vals);
      assert Settled(e, vals, cells) == final by { SettledFirst(e, vals, cells); }
    }
  }

  lemma SettledFirst(e: Engine, vals: Values, cells: seq<Node>)
    requires cells != []
    ensures Settled(e, vals, cells) == Settled(e, NextValues(e, vals, cells[0]), cells[1..])
  {
  }

  lemma {:induction false} PassFreshens(e: Engine, vals: Values, cells: seq<Node>)
    requires Sound(e) && ReadsEarlier(e, cells)
    ensures Fresh(e, Settled(e, vals, cells), Refreshed(e, vals, cells))
    decreases |cells|
  {
    if cells != [] {
      HeadStaysFresh(e, vals, cells);
      ReadsEarlierRest(e, cells);
      PassFreshens(e, NextValues(e, vals, cells[0]), cells[1..]);
      hide ReadsEarlier, Sound, Stale, Refresh, NextValues;
    }
  }

  // ----- the values the pass ends with are those of the final sheet -----

  /** What a cell shows. */
  ghost predicate ShowsValue(n: Node, v: CellValue) {
    (n.Cell? && n.value == v) || (n.FormulaCell? && n.cachedValue == v)
  }

  /** By row and column, the values of the cells and nothing else. */
  ghost predicate Tabulates(vals: Values, cells: seq<Node>) {
    && (forall i :: 0 <= i < |cells| && IsCell(cells[i]) ==>
          (cells[i].row, cells[i].col) in vals && ShowsValue(cells[i], vals[(cells[i].row, cells[i].col)]))
    && (forall p :: p in vals ==> Occupied(cells, p))
  }

  ghost predicate Occupied(cells: seq<Node>, p: Place) {
    exists i :: 0 <= i < |cells| && IsCell(cells[i]) && cells[i].row == p.0 && cells[i].col == p.1
  }

  lemma {:induction false} ValuesTabulate(cells: seq<Node>)
    requires PlacesDiffer(cells)
    ensures Tabulates(ValuesOf(cells), cells)
  {
    if cells != [] {
      ValuesTabulate(Init(cells));
      hide ValuesOf;
      var n, vals, all := Last(cells), ValuesOf(Init(cells)), ValuesOf(cells);
      ValuesLast(cells);
      forall p | p in all ensures Occupied(cells, p) {
        if p in vals {
          var i :| 0 <= i < |Init(cells)| && IsCell(Init(cells)[i]) && PlaceOf(Init(cells)[i]) == p;
          assert cells[i] == Init(cells)[i];
        }
      }
      forall i | 0 <= i < |cells| && IsCell(cells[i]) ensures Get(all, PlaceOf(cells[i])) == Some(ValueOf(cells[i])) {
        if i < |cells| - 1 {
          assert cells[i] == Init(cells)[i];
          assert Get(vals, PlaceOf(Init(cells)[i])) == Some(ValueOf(cells[i]));
        }
      }
    }
  }

  lemma ValuesLast(cells: seq<Node>)
    requires cells != []
    ensures ValuesOf(cells) ==
      var most, last := ValuesOf(Init(cells)), Last(cells);
      if IsCell(last) then most[PlaceOf(last) := ValueOf(last)] else most
  {
  }

  lemma TabulatesOnce(v: Values, w: Values, cells: seq<Node>)
    requires Tabulates(v, cells) && Tabulates(w, cells)
    ensures v == w
  {
    forall p | p in v ensures p in w && v[p] == w[p] {
      var i :| 0 <= i < |cells| && IsCell(cells[i]) && PlaceOf(cells[i]) == p;
    }
    forall p | p in w ensures p in v {
      var i :| 0 <= i < |cells| && IsCell(cells[i]) && PlaceOf(cells[i]) == p;
    }
  }

  /** A cell as the pass leaves it: same place, and the value the final table has for it. */
  lemma {:induction false} PassTabulates(e: Engine, vals: Values, cells: seq<Node>, i: nat)
    requires PlacesDiffer(cells) && i < |cells|
    requires forall j :: 0 <= j < |cells| && IsCell(cells[j]) ==>
      Get(vals, PlaceOf(cells[j])) == Some(ValueOf(cells[j]))
    ensures var n := Refreshed(e, vals, cells)[i];
      && IsCell(n) == IsCell(cells[i]) && n.meta == cells[i].meta
      && (IsCell(n) ==> PlaceOf(n) == PlaceOf(cells[i]) && Get(Settled(e, vals, cells), PlaceOf(n)) == Some(ValueOf(n)))
    decreases |cells|
  {
    var rest, next := cells[1..], NextValues(e, vals, cells[0]);
    if i == 0 {
      if IsCell(cells[0]) {
        forall j | 0 <= j < |rest| && rest[j].FormulaCell? ensures PlaceOf(rest[j]) != PlaceOf(cells[0]) {
          assert rest[j] == cells[j + 1];
        }
        SettledElsewhere(e, next, rest, PlaceOf(cells[0]));
      }
    } else {
      TailDiffers(e, vals, cells);
      PassTabulates(e, next, rest, i - 1);
      assert rest[i - 1] == cells[i];
    }
  }

  lemma TailDiffers(e: Engine, vals: Values, cells: seq<Node>)
    requires PlacesDiffer(cells) && cells != []
    requires forall j :: 0 <= j < |cells| && IsCell(cells[j]) ==>
      Get(vals, PlaceOf(cells[j])) == Some(ValueOf(cells[j]))
    ensures PlacesDiffer(cells[1..])
    ensures forall j :: 0 <= j < |cells[1..]| && IsCell(cells[1..][j]) ==>
      Get(NextValues(e, vals, cells[0]), PlaceOf(cells[1..][j])) == Some(ValueOf(cells[1..][j]))
  {
    var rest := cells[1..];
    forall j | 0 <= j < |rest| && IsCell(rest[j])
      ensures Get(NextValues(e, vals, cells[0]), PlaceOf(rest[j])) == Some(ValueOf(rest[j]))
    {
      assert rest[j] == cells[j + 1];
    }
    forall i, j | 0 <= i < j < |rest| && IsCell(rest[i]) && IsCell(rest[j])
      ensures PlaceOf(rest[i]) != PlaceOf(rest[j])
    {
      assert rest[i] == cells[i + 1] && rest[j] == cells[j + 1];
    }
  }

  lemma {:induction false} SettledKeys(e: Engine, vals: Values, cells: seq<Node>, p: Place)
    requires p in Settled(e, vals, cells)
    ensures p in vals || Occupied(cells, p)
    decreases |cells|
  {
    if cells != [] {
      SettledKeys(e, NextValues(e, vals, cells[0]), cells[1..], p);
      if Occupied(cells[1..], p) {
        var i :| 0 <= i < |cells[1..]| && IsCell(cells[1..][i]) && PlaceOf(cells[1..][i]) == p;
        assert cells[i + 1] == cells[1..][i];
      }
      if cells[0].FormulaCell? && PlaceOf(cells[0]) == p {
        assert Occupied(cells, p);
      }
    }
  }

  lemma FinalTable(e: Engine, cells: seq<Node>)
    requires PlacesDiffer(cells)
    ensures var after := Refreshed(e, ValuesOf(cells), cells);
      ValuesOf(after) == Settled(e, ValuesOf(cells), cells) && Tabulates(ValuesOf(after), after)
  {
    var vals, after := ValuesOf(cells), Refreshed(e, ValuesOf(cells), cells);
    var final := Settled(e, vals, cells);
    ValuesTabulate(cells);
    hide ValuesOf, Settled, Refreshed;
    forall i | 0 <= i < |after|
      ensures IsCell(after[i]) == IsCell(cells[i])
      ensures IsCell(after[i]) ==>
        PlaceOf(after[i]) == PlaceOf(cells[i]) && Get(final, PlaceOf(after[i])) == Some(ValueOf(after[i]))
    {
      PassTabulates(e, vals, cells, i);
    }
    forall p | p in final ensures Occupied(after, p) {
      SettledKeys(e, vals, cells, p);
      var i :| 0 <= i < |cells| && IsCell(cells[i]) && PlaceOf(cells[i]) == p;
      assert PlaceOf(after[i]) == p;
    }
    ValuesTabulate(after);
    TabulatesOnce(ValuesOf(after), final, after);
  }

  // ----- main results -----

  /** A pass issues no update if and only if every cached value already agrees with its formula. */
  lemma {:induction false} IdleIffFresh(e: Engine, vals: Values, cells: seq<Node>, q: EditRequest)
    ensures RefreshOps(e, vals, cells, q) == [] <==> Fresh(e, vals, cells)
    ensures Fresh(e, vals, cells) ==> Refreshed(e, vals, cells) == cells
    decreases |cells|
  {
    hide Update;
    if cells != [] {
      IdleIffFresh(e, vals, cells[1..], q);
      FreshCons(e, vals, cells);
    }
  }

  lemma FreshCons(e: Engine, vals: Values, cells: seq<Node>)
    requires cells != []
    ensures Fresh(e, vals, cells) <==> !Stale(e, vals, cells[0]) && Fresh(e, vals, cells[1..])
  {
    var rest := cells[1..];
    assert forall i :: 0 <= i < |rest| ==> rest[i] == cells[i + 1];
    if Fresh(e, vals, cells) {
      forall i | 0 <= i < |rest| ensures !Stale(e, vals, rest[i]) { assert rest[i] == cells[i + 1]; }
    }
    if !Stale(e, vals, cells[0]) && Fresh(e, vals, rest) {
      forall i | 0 <= i < |cells| ensures !Stale(e, vals, cells[i]) { assert i > 0 ==> cells[i] == rest[i - 1]; }
    }
  }

  /** A cell after the pass is the cell before it, but for the cached value of a formula. */
  ghost predicate SameButCache(n: Node, m: Node) {
    m == n || (n.FormulaCell? && m.FormulaCell? && m.meta == n.meta && m.formula == n.formula
      && m.row == n.row && m.col == n.col)
  }

  /** The formula evaluates to something else than is cached. */
  ghost predicate Changes(e: Engine, n: Node, vals: Values) {
    n.FormulaCell? && !e.same(e.eval(n.formula, vals), n.cachedValue)
  }

  /** One cell's turn, and the values before and after it: a formula that evaluates to something else
      is cached anew and overrides its place for those that follow. */
  ghost predicate Turn(e: Engine, n: Node, m: Node, vals: Values, next: Values) {
    if Changes(e, n, vals) then
      var v := e.eval(n.formula, vals);
      SameButCache(n, m) && m.FormulaCell? && m.cachedValue == v && next == vals[(n.row, n.col) := v]
    else m == n && next == vals
  }

  ghost predicate Turns(e: Engine, cells: seq<Node>, after: seq<Node>, tables: seq<Values>) {
    && |after| == |cells| && |tables| == |cells| + 1
    && (forall i :: 0 <= i < |cells| ==> Turn(e, cells[i], after[i], tables[i], tables[i + 1]))
  }

  /** Whatever the formulas refer to, each is evaluated once, in its turn. */
  lemma {:induction false} PassTurns(e: Engine, vals: Values, cells: seq<Node>) returns (tables: seq<Values>)
    ensures Turns(e, cells, Refreshed(e, vals, cells), tables)
    ensures tables[0] == vals && Last(tables) == Settled(e, vals, cells)
    decreases |cells|
  {
    if cells == [] {
      tables := [vals];
    } else {
      var rest := PassTurns(e, NextValues(e, vals, cells[0]), cells[1..]);
      tables := [vals] + rest;
      RefreshedFirst(e, vals, cells);
      TurnsFirst(e, vals, cells, Refreshed(e, vals, cells), rest);
    }
  }

  lemma TurnsFirst(e: Engine, vals: Values, cells: seq<Node>, after: seq<Node>, rest: seq<Values>)
    requires cells != [] && after != [] && Turns(e, cells[1..], after[1..], rest)
    requires rest[0] == NextValues(e, vals, cells[0]) && after[0] == Refresh(e, vals, cells[0])
    ensures Turns(e, cells, after, [vals] + rest)
  {
    FirstTurn(e, vals, cells[0]);
    hide Turn, NextValues, Refresh;
    var tables := [vals] + rest;
    forall i | 0 <= i < |cells| ensures Turn(e, cells[i], after[i], tables[i], tables[i + 1]) {
      if i > 0 { assert Turn(e, cells[1..][i - 1], after[1..][i - 1], rest[i - 1], rest[i]); }
    }
  }

  lemma FirstTurn(e: Engine, vals: Values, n: Node)
    ensures Turn(e, n, Refresh(e, vals, n), vals, NextValues(e, vals, n))
  {
  }

  /** The value of a place is that of the last cell there. */
  lemma {:induction false} LaterOverrides(cells: seq<Node>, i: nat)
    requires i < |cells| && IsCell(cells[i])
    requires forall j :: i < j < |cells| && IsCell(cells[j]) ==>
      cells[j].row != cells[i].row || cells[j].col != cells[i].col
    ensures (cells[i].row, cells[i].col) in ValuesOf(cells)
    ensures ShowsValue(cells[i], ValuesOf(cells)[(cells[i].row, cells[i].col)])
  {
    if i < |cells| - 1 {
      assert Init(cells)[i] == cells[i];
      LaterOverrides(Init(cells), i);
    }
  }

  /** The pass rewrites cell i by the operation. */
  ghost predicate Rewrites(e: Engine, cells: seq<Node>, after: seq<Node>, tables: seq<Values>, op: Operation, i: nat)
    requires i < |cells| && i < |after| && i < |tables|
  {
    Changes(e, cells[i], tables[i]) && op.UpdateNode? && op.node == after[i]
  }

  /** The operations rewrite exactly the formulas evaluated to something else. */
  ghost predicate RewritesChanged(e: Engine, cells: seq<Node>, after: seq<Node>, tables: seq<Values>,
                                  ops: seq<Operation>)
    requires |after| == |cells| && |tables| == |cells| + 1
  {
    && (forall op :: op in ops ==> exists i :: 0 <= i < |cells| && Rewrites(e, cells, after, tables, op, i))
    && (forall i :: 0 <= i < |cells| && Changes(e, cells[i], tables[i]) ==>
          exists op :: op in ops && Rewrites(e, cells, after, tables, op, i))
  }

  /** The pass issues an update for exactly the formulas evaluated to something else. */
  lemma {:induction false} UpdatesAre(e: Engine, vals: Values, cells: seq<Node>, tables: seq<Values>, q: EditRequest)
    requires Turns(e, cells, Refreshed(e, vals, cells), tables) && tables[0] == vals
    ensures RewritesChanged(e, cells, Refreshed(e, vals, cells), tables, RefreshOps(e, vals, cells, q))
    decreases |cells|
  {
    hide RewritesChanged;
    if cells != [] {
      var after, next := Refreshed(e, vals, cells), NextValues(e, vals, cells[0]);
      RefreshedFirst(e, vals, cells);
      FirstTurn(e, vals, cells[0]);
      UpdatesFirst(e, vals, cells, q);
      assert next == tables[1];
      hide Turn, Changes, Refreshed, RefreshOps, NextValues, Refresh;
      forall i | 0 <= i < |cells[1..]|
        ensures Turn(e, cells[1..][i], after[1..][i], tables[1..][i], tables[1..][i + 1])
      {
        assert Turn(e, cells[i + 1], after[i + 1], tables[i + 1], tables[i + 2]);
      }
      UpdatesAre(e, next, cells[1..], tables[1..], q);
      UpdatesNext(e, cells, after, tables, RefreshOps(e, next, cells[1..], q), q);
    } else {
      assert RewritesChanged(e, cells, Refreshed(e, vals, cells), tables, RefreshOps(e, vals, cells, q)) by {
        NoneRewritten(e, vals, tables, q);
      }
    }
  }

  lemma NoneRewritten(e: Engine, vals: Values, tables: seq<Values>, q: EditRequest)
    requires |tables| == 1
    ensures RewritesChanged(e, [], Refreshed(e, vals, []), tables, RefreshOps(e, vals, [], q))
  {
  }

  lemma UpdatesNext(e: Engine, cells: seq<Node>, after: seq<Node>, tables: seq<Values>, rest: seq<Operation>,
                    q: EditRequest)
    requires cells != [] && |after| == |cells| && |tables| == |cells| + 1
    requires RewritesChanged(e, cells[1..], after[1..], tables[1..], rest)
    ensures var first := UpdateNode(after[0], [], q.now, Some(q.who));
      RewritesChanged(e, cells, after, tables, (if Changes(e, cells[0], tables[0]) then [first] else []) + rest)
  {
    hide Changes;
    var first := UpdateNode(after[0], [], q.now, Some(q.who));
    var ops := (if Changes(e, cells[0], tables[0]) then [first] else []) + rest;
    forall i | 0 <= i < |cells| && Changes(e, cells[i], tables[i])
      ensures exists op :: op in ops && Rewrites(e, cells, after, tables, op, i)
    {
      AlsoRewritten(e, cells, after, tables, rest, q, i);
    }
    forall op | op in ops ensures exists i :: 0 <= i < |cells| && Rewrites(e, cells, after, tables, op, i) {
      if op in rest {
        RewrittenLater(e, cells, after, tables, rest, op);
      } else {
        assert Rewrites(e, cells, after, tables, op, 0);
      }
    }
  }

  lemma RewrittenLater(e: Engine, cells: seq<Node>, after: seq<Node>, tables: seq<Values>, rest: seq<Operation>,
                       op: Operation)
    requires cells != [] && |after| == |cells| && |tables| == |cells| + 1
    requires RewritesChanged(e, cells[1..], after[1..], tables[1..], rest) && op in rest
    ensures exists i :: 0 <= i < |cells| && Rewrites(e, cells, after, tables, op, i)
  {
    hide Changes;
    var i :| 0 <= i < |cells[1..]| && Rewrites(e, cells[1..], after[1..], tables[1..], op, i);
    assert Rewrites(e, cells, after, tables, op, i + 1);
  }

  lemma AlsoRewritten(e: Engine, cells: seq<Node>, after: seq<Node>, tables: seq<Values>, rest: seq<Operation>,
                      q: EditRequest, i: nat)
    requires cells != [] && |after| == |cells| && |tables| == |cells| + 1
    requires RewritesChanged(e, cells[1..], after[1..], tables[1..], rest)
    requires i < |cells| && Changes(e, cells[i], tables[i])
    ensures var first := UpdateNode(after[0], [], q.now, Some(q.who));
      var ops := (if Changes(e, cells[0], tables[0]) then [first] else []) + rest;
      exists op :: op in ops && Rewrites(e, cells, after, tables, op, i)
  {
    hide Changes;
    if i > 0 {
      assert Changes(e, cells[1..][i - 1], tables[1..][i - 1]);
      var op :| op in rest && Rewrites(e, cells[1..], after[1..], tables[1..], op, i - 1);
      assert Rewrites(e, cells, after, tables, op, i);
    } else {
      assert Rewrites(e, cells, after, tables, UpdateNode(after[0], [], q.now, Some(q.who)), 0);
    }
  }

  lemma UpdatesFirst(e: Engine, vals: Values, cells: seq<Node>, q: EditRequest)
    requires cells != []
    ensures RefreshOps(e, vals, cells, q) ==
      (if Changes(e, cells[0], vals) then [UpdateNode(Refresh(e, vals, cells[0]), [], q.now, Some(q.who))] else []) +
        RefreshOps(e, NextValues(e, vals, cells[0]), cells[1..], q)
  {
    hide Refresh, NextValues;
  }

  /** One pass reaches a fixpoint when formulas refer to earlier ones only: each cell keeps its place
      and its formula, over the table of the final sheet every cached value is its formula's value,
      and a second pass writes nothing. */
  lemma OnePassSettles(e: Engine, cells: seq<Node>, q: EditRequest)
    requires Sound(e) && ReadsEarlier(e, cells)
    ensures var after := Refreshed(e, ValuesOf(cells), cells);
      && |after| == |cells| && (forall i :: 0 <= i < |cells| ==> SameButCache(cells[i], after[i]))
      && Tabulates(ValuesOf(after), after)
      && (forall i :: 0 <= i < |after| && after[i].FormulaCell? ==>
            e.same(e.eval(after[i].formula, ValuesOf(after)), after[i].cachedValue))
      && RefreshOps(e, ValuesOf(after), after, q) == []
  {
    var after := Refreshed(e, ValuesOf(cells), cells);
    PassFreshens(e, ValuesOf(cells), cells);
    FinalTable(e, cells);
    hide Sound, Refreshed, Settled, RefreshOps, ValuesOf, Tabulates, SameButCache, ReadsEarlier;
    var tables := PassTurns(e, ValuesOf(cells), cells);
    IdleIffFresh(e, ValuesOf(after), after, q);
    forall i | 0 <= i < |cells| ensures SameButCache(cells[i], after[i]) {
      TurnKeeps(e, cells[i], after[i], tables[i], tables[i + 1]);
    }
    hide Turns;
  }

  lemma TurnKeeps(e: Engine, n: Node, m: Node, vals: Values, next: Values)
    requires Turn(e, n, m, vals, next)
    ensures SameButCache(n, m)
  {
  }

  lemma RefreshKeepsId(e: Engine, vals: Values, n: Node)
    ensures Refresh(e, vals, n).meta == n.meta
  {
  }

  lemma StoredAfter(nodes: map<NodeId, Node>, cells: seq<Node>, n: Node)
    requires cells != [] && StoredOnce(nodes, cells) && n.meta.id == cells[0].meta.id
    ensures StoredOnce(nodes[n.meta.id := n], cells[1..])
  {
    var rest := cells[1..];
    forall i | 0 <= i < |rest| ensures Get(nodes[n.meta.id := n], rest[i].meta.id) == Some(rest[i]) {
      assert rest[i] == cells[i + 1];
    }
  }

  lemma {:induction false} RunRefresh(t: State, e: Engine, vals: Values, cells: seq<Node>, q: EditRequest)
    requires StoredOnce(t.nodes, cells)
    ensures var u := Run(t, RefreshOps(e, vals, cells, q));
      u.nodes == Overlay(t.nodes, Refreshed(e, vals, cells)) && u.edges == t.edges && u.children == t.children
    decreases |cells|
  {
    hide Step, NewEntry, Run, StoredOnce, Update, NextValues, Stale, Refresh;
    if cells == [] {
      RunNone(t);
    } else {
      var n, next := Refresh(e, vals, cells[0]), NextValues(e, vals, cells[0]);
      RefreshKeepsId(e, vals, cells[0]);
      StoredAfter(t.nodes, cells, n);
      RefreshedFirst(e, vals, cells);
      hide Refreshed;
      if Stale(e, vals, cells[0]) {
        RunFirst(t, Update(n, q), RefreshOps(e, next, cells[1..], q));
        UpdateStep(t, n, q);
        RunRefresh(Step(t, NewEntry(Update(n, q))), e, next, cells[1..], q);
      } else {
        StoredFirst(t.nodes, cells);
        NotStale(e, vals, cells[0]);
        RunRefresh(t, e, next, cells[1..], q);
      }
    }
  }

  lemma NotStale(e: Engine, vals: Values, n: Node)
    requires !Stale(e, vals, n)
    ensures Refresh(e, vals, n) == n
  {
  }

  lemma RefreshedFirst(e: Engine, vals: Values, cells: seq<Node>)
    requires cells != []
    ensures var r, rest := Refreshed(e, vals, cells), Refreshed(e, NextValues(e, vals, cells[0]), cells[1..]);
      r != [] && r[0] == Refresh(e, vals, cells[0]) && r[1..] == rest
  {
    hide NextValues, Refresh;
  }

  lemma {:induction false} RefreshedIds(e: Engine, vals: Values, cells: seq<Node>)
    ensures IdsOf(Refreshed(e, vals, cells)) == IdsOf(cells)
    decreases |cells|
  {
    hide NextValues, Refresh;
    if cells != [] {
      RefreshKeepsId(e, vals, cells[0]);
      RefreshedFirst(e, vals, cells);
      RefreshedIds(e, NextValues(e, vals, cells[0]), cells[1..]);
    }
  }

  lemma {:induction false} OverlayKeys(nodes: map<NodeId, Node>, cells: seq<Node>)
    requires forall i :: 0 <= i < |cells| ==> cells[i].meta.id in nodes
    ensures Overlay(nodes, cells).Keys == nodes.Keys
    decreases |cells|
  {
    if cells != [] {
      assert cells[0].meta.id in nodes;
      assert nodes[cells[0].meta.id := cells[0]].Keys == nodes.Keys;
      forall i | 0 <= i < |cells[1..]| ensures cells[1..][i].meta.id in nodes { assert cells[1..][i] == cells[i + 1]; }
      OverlayKeys(nodes[cells[0].meta.id := cells[0]], cells[1..]);
    }
  }

  /** Applied to the database, the updates give exactly the refreshed children, in place. */
  lemma RecalculatedChildren(s: State, sheet: NodeId, e: Engine, q: EditRequest)
    requires GridOk(s, sheet)
    ensures var cells := GetChildren(s, sheet);
      GetChildren(Run(s, RefreshOps(e, ValuesOf(cells), cells, q)), sheet) == Refreshed(e, ValuesOf(cells), cells)
  {
    var kids, cells := Kids(s, sheet), GetChildren(s, sheet);
    var after := Refreshed(e, ValuesOf(cells), cells);
    LiveStored(s.nodes, kids);
    IdsOfChildren(s.nodes, kids);
    hide Run, Kids, LiveChildren, NodesKeyed, Refreshed, RefreshOps, ValuesOf, LiveIds;
    RunRefresh(s, e, ValuesOf(cells), cells, q);
    var t := Run(s, RefreshOps(e, ValuesOf(cells), cells, q));
    SameChildren(s, t, sheet);
    RefreshedIds(e, ValuesOf(cells), cells);
    StoredIds(s.nodes, cells);
    OverlayHolds(s.nodes, after);
    AfterStored(s.nodes, cells, after);
    OverlayKeys(s.nodes, after);
    SameLiveIds(s.nodes, t.nodes, kids);
    LiveChildrenWithin(t.nodes, t.nodes, kids);
    LiveOfIds(t.nodes, after);
  }

  lemma {:induction false} IdsOfAt(cells: seq<Node>)
    ensures |IdsOf(cells)| == |cells| && forall i :: 0 <= i < |cells| ==> IdsOf(cells)[i] == cells[i].meta.id
  {
    if cells != [] {
      IdsOfAt(cells[1..]);
    }
  }

  lemma StoredIds(nodes: map<NodeId, Node>, cells: seq<Node>)
    requires StoredOnce(nodes, cells)
    ensures Distinct(IdsOf(cells))
  {
    IdsOfAt(cells);
  }

  lemma AfterStored(nodes: map<NodeId, Node>, cells: seq<Node>, after: seq<Node>)
    requires StoredOnce(nodes, cells) && IdsOf(after) == IdsOf(cells)
    ensures forall i :: 0 <= i < |after| ==> after[i].meta.id in nodes
  {
    IdsOfAt(cells);
    IdsOfAt(after);
    forall i | 0 <= i < |after| ensures after[i].meta.id in nodes {
      assert IdsOf(after)[i] == after[i].meta.id && Get(nodes, cells[i].meta.id) == Some(cells[i]);
    }
  }
}
