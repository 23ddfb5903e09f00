/** A sheet's cells as a list, and what inserting and deleting a row or column does to it:
    the per-cell rules of src/uaf/app/lenses/grid_lens.py. */
module Grids {
  import opened Collections
  import opened Nodes

  /** Rows and columns are treated alike: each edit works along one axis. */
  datatype Axis = Rows | Columns

  predicate IsCell(n: Node) {
    n.Cell? || n.FormulaCell?
  }

  function Along(axis: Axis, n: Node): int
    requires IsCell(n)
  {
    if axis.Rows? then n.row else n.col
  }

  function Across(axis: Axis, n: Node): int
    requires IsCell(n)
  {
    if axis.Rows? then n.col else n.row
  }

  /** The cell at another place along the axis; value, formula and metadata stay. */
  function Placed(axis: Axis, n: Node, at: int): (m: Node)
    requires IsCell(n)
    ensures IsCell(m) && m.meta == n.meta && Along(axis, m) == at && Across(axis, m) == Across(axis, n)
  {
    var row, col := if axis.Rows? then at else n.row, if axis.Rows? then n.col else at;
    match n
    case Cell(meta, value, _, _) => Cell(meta, value, row, col)
    case FormulaCell(meta, formula, cached, _, _) => FormulaCell(meta, formula, cached, row, col)
  }

  /** A child of the sheet after a line is inserted before position `at`. */
  function Opened(axis: Axis, at: int, n: Node): Node {
    if IsCell(n) && Along(axis, n) >= at then Placed(axis, n, Along(axis, n) + 1) else n
  }

  function OpenLine(axis: Axis, at: int, cells: seq<Node>): (r: seq<Node>)
    ensures |r| == |cells| && forall i :: 0 <= i < |cells| ==> r[i] == Opened(axis, at, cells[i])
  {
    if cells == [] then [] else [Opened(axis, at, cells[0])] + OpenLine(axis, at, cells[1..])
  }

  /** The new empty cells of the line, one per id. */
  function NewLine(axis: Axis, at: int, metas: seq<Meta>): (r: seq<Node>)
    ensures |r| == |metas|
    ensures forall k :: 0 <= k < |r| ==>
      r[k] == Cell(metas[k], VNone, if axis.Rows? then at else k, if axis.Rows? then k else at)
  {
    seq(|metas|, k requires 0 <= k < |metas| =>
      Cell(metas[k], VNone, if axis.Rows? then at else k, if axis.Rows? then k else at))
  }

  /** The children after an insertion. */
  function InsertLine(axis: Axis, at: int, cells: seq<Node>, metas: seq<Meta>): seq<Node> {
    OpenLine(axis, at, cells) + NewLine(axis, at, metas)
  }

  /** A child after the line at `at` is deleted; nothing when it was on that line. */
  function Closed(axis: Axis, at: int, n: Node): Option<Node> {
    if !IsCell(n) || Along(axis, n) < at then Some(n)
    else if Along(axis, n) == at then None
    else Some(Placed(axis, n, Along(axis, n) - 1))
  }

  function DeleteLine(axis: Axis, at: int, cells: seq<Node>): seq<Node> {
    if cells == [] then []
    else
      var rest := DeleteLine(axis, at, cells[1..]);
      if Closed(axis, at, cells[0]).Some? then [Closed(axis, at, cells[0]).value] + rest else rest
  }

  // ----- deleting what was inserted -----

  lemma {:induction false} DeleteAppend(axis: Axis, at: int, a: seq<Node>, b: seq<Node>)
    ensures DeleteLine(axis, at, a + b) == DeleteLine(axis, at, a) + DeleteLine(axis, at, b)
  {
    hide Closed;
    if a == [] {
      assert a + b == b;
    } else {
      DeleteAppend(axis, at, a[1..], b);
      assert (a + b)[1..] == a[1..] + b;
    }
  }

  lemma ReopenOne(axis: Axis, at: int, n: Node)
    ensures Closed(axis, at, Opened(axis, at, n)) == Some(n)
  {
  }

  lemma DeleteCons(axis: Axis, at: int, n: Node, rest: seq<Node>)
    ensures DeleteLine(axis, at, [n] + rest) ==
            (if Closed(axis, at, n).Some? then [Closed(axis, at, n).value] else []) + DeleteLine(axis, at, rest)
  {
    hide Closed;
    assert ([n] + rest)[1..] == rest;
  }

  lemma {:induction false} ReopenAll(axis: Axis, at: int, cells: seq<Node>)
    ensures DeleteLine(axis, at, OpenLine(axis, at, cells)) == cells
  {
    hide Closed, Opened, DeleteLine;
    if cells == [] {
      DeleteNothing(axis, at);
    } else {
      ReopenOne(axis, at, cells[0]);
      ReopenAll(axis, at, cells[1..]);
      DeleteCons(axis, at, Opened(axis, at, cells[0]), OpenLine(axis, at, cells[1..]));
    }
  }

  lemma DeleteNothing(axis: Axis, at: int)
    ensures DeleteLine(axis, at, []) == []
  {
  }

  lemma {:induction false} DropNewLine(axis: Axis, at: int, cells: seq<Node>)
    requires forall k :: 0 <= k < |cells| ==> IsCell(cells[k]) && Along(axis, cells[k]) == at
    ensures DeleteLine(axis, at, cells) == []
  {
    if cells != [] {
      DropNewLine(axis, at, cells[1..]);
    }
  }

  /** Deleting the line just inserted gives back the very same children in the same order, at any
      position, in range or not. */
  lemma DeleteAfterInsert(axis: Axis, at: int, cells: seq<Node>, metas: seq<Meta>)
    ensures DeleteLine(axis, at, InsertLine(axis, at, cells, metas)) == cells
  {
    var shifted, added := OpenLine(axis, at, cells), NewLine(axis, at, metas);
    DeleteAppend(axis, at, shifted, added);
    ReopenAll(axis, at, cells);
    DropNewLine(axis, at, added);
  }

  // ----- what is where -----

  datatype Content = Plain(value: CellValue) | Formula(formula: string, cached: CellValue)

  function ContentOf(n: Node): Content
    requires IsCell(n)
  {
    if n.Cell? then Plain(n.value) else Formula(n.formula, n.cachedValue)
  }

  /** Some child stands at these coordinates with this content. */
  ghost predicate Shows(axis: Axis, cells: seq<Node>, along: int, across: int, x: Content) {
    exists i :: 0 <= i < |cells| && Standing(axis, cells[i], along, across) && ContentOf(cells[i]) == x
  }

  predicate Standing(axis: Axis, n: Node, along: int, across: int) {
    IsCell(n) && Along(axis, n) == along && Across(axis, n) == across
  }

  lemma {:induction false} DeleteShows(axis: Axis, at: int, cells: seq<Node>, along: int, across: int, x: Content)
    ensures Shows(axis, DeleteLine(axis, at, cells), along, across, x) <==>
      Shows(axis, cells, if along < at then along else along + 1, across, x)
  {
    hide Placed;
    if cells != [] {
      DeleteShows(axis, at, cells[1..], along, across, x);
      var rest, from := DeleteLine(axis, at, cells[1..]), if along < at then along else along + 1;
      var first := Closed(axis, at, cells[0]);
      ShowsCons(axis, cells[0], cells[1..], from, across, x);
      assert cells == [cells[0]] + cells[1..];
      ClosedStands(axis, at, cells[0], along, across, x);
      if first.Some? {
        ShowsCons(axis, first.value, rest, along, across, x);
      }
      hide Shows, Closed;
    }
  }

  lemma ShowsCons(axis: Axis, n: Node, rest: seq<Node>, along: int, across: int, x: Content)
    ensures Shows(axis, [n] + rest, along, across, x) <==>
      (Standing(axis, n, along, across) && ContentOf(n) == x) || Shows(axis, rest, along, across, x)
  {
    var all := [n] + rest;
    assert forall i :: 1 <= i < |all| ==> all[i] == rest[i - 1];
    if Shows(axis, rest, along, across, x) {
      var i :| 0 <= i < |rest| && Standing(axis, rest[i], along, across) && ContentOf(rest[i]) == x;
      assert all[i + 1] == rest[i];
    }
    assert all[0] == n;
  }

  lemma ClosedStands(axis: Axis, at: int, n: Node, along: int, across: int, x: Content)
    ensures
      (var m := Closed(axis, at, n); m.Some? && Standing(axis, m.value, along, across) && ContentOf(m.value) == x)
      <==> Standing(axis, n, if along < at then along else along + 1, across) && ContentOf(n) == x
  {
  }

  lemma {:induction false} OpenShows(axis: Axis, at: int, cells: seq<Node>, along: int, across: int, x: Content)
    ensures Shows(axis, OpenLine(axis, at, cells), along, across, x) <==>
      along != at && Shows(axis, cells, if along < at then along else along - 1, across, x)
  {
    hide Placed;
    if cells != [] {
      OpenShows(axis, at, cells[1..], along, across, x);
      var rest, first := OpenLine(axis, at, cells[1..]), Opened(axis, at, cells[0]);
      var from := if along < at then along else along - 1;
      ShowsCons(axis, cells[0], cells[1..], from, across, x);
      assert cells == [cells[0]] + cells[1..];
      OpenedStands(axis, at, cells[0], along, across, x);
      ShowsCons(axis, first, rest, along, across, x);
      hide Shows, Opened;
    }
  }

  lemma OpenedStands(axis: Axis, at: int, n: Node, along: int, across: int, x: Content)
    ensures Standing(axis, Opened(axis, at, n), along, across) && ContentOf(Opened(axis, at, n)) == x
      <==> along != at && Standing(axis, n, if along < at then along else along - 1, across) && ContentOf(n) == x
  {
  }

  lemma ShowsAppend(axis: Axis, a: seq<Node>, b: seq<Node>, along: int, across: int, x: Content)
    ensures Shows(axis, a + b, along, across, x) <==>
      Shows(axis, a, along, across, x) || Shows(axis, b, along, across, x)
  {
    var c := a + b;
    if Shows(axis, a, along, across, x) {
      var i :| 0 <= i < |a| && Standing(axis, a[i], along, across) && ContentOf(a[i]) == x;
      assert c[i] == a[i];
    }
    if Shows(axis, b, along, across, x) {
      var i :| 0 <= i < |b| && Standing(axis, b[i], along, across) && ContentOf(b[i]) == x;
      assert c[|a| + i] == b[i];
    }
    if Shows(axis, c, along, across, x) {
      var i :| 0 <= i < |c| && Standing(axis, c[i], along, across) && ContentOf(c[i]) == x;
      assert if i < |a| then c[i] == a[i] else c[i] == b[i - |a|];
    }
  }

  lemma NewLineShows(axis: Axis, at: int, metas: seq<Meta>, along: int, across: int, x: Content)
    ensures Shows(axis, NewLine(axis, at, metas), along, across, x) <==>
      along == at && 0 <= across < |metas| && x == Plain(VNone)
  {
    var line := NewLine(axis, at, metas);
    if along == at && 0 <= across < |metas| && x == Plain(VNone) {
      assert Standing(axis, line[across], along, across) && ContentOf(line[across]) == x;
    }
  }

  /** After an insertion every value and formula is found at its shifted place, and the new line
      shows empty cells and nothing else. */
  lemma InsertShows(axis: Axis, at: int, cells: seq<Node>, metas: seq<Meta>, along: int, across: int, x: Content)
    ensures Shows(axis, InsertLine(axis, at, cells, metas), along, across, x) <==>
      if along == at then 0 <= across < |metas| && x == Plain(VNone)
      else Shows(axis, cells, if along < at then along else along - 1, across, x)
  {
    hide Shows, Placed;
    ShowsAppend(axis, OpenLine(axis, at, cells), NewLine(axis, at, metas), along, across, x);
    OpenShows(axis, at, cells, along, across, x);
    NewLineShows(axis, at, metas, along, across, x);
  }

  // ----- density -----

  ghost predicate Taken(axis: Axis, cells: seq<Node>, a: int, b: int) {
    exists x :: Shows(axis, cells, a, b, x)
  }

  /** No two cells at the same place. */
  ghost predicate Apart(axis: Axis, cells: seq<Node>) {
    forall i, j :: 0 <= i < j < |cells| && IsCell(cells[i]) ==>
      !Standing(axis, cells[j], Along(axis, cells[i]), Across(axis, cells[i]))
  }

  ghost predicate Within(axis: Axis, cells: seq<Node>, n: nat, m: nat) {
    forall i :: 0 <= i < |cells| ==>
      IsCell(cells[i]) && 0 <= Along(axis, cells[i]) < n && 0 <= Across(axis, cells[i]) < m
  }

  /** One cell for each place of an n by m grid, and nothing else. */
  ghost predicate Dense(axis: Axis, cells: seq<Node>, n: nat, m: nat) {
    && Within(axis, cells, n, m) && Apart(axis, cells)
    && forall a, b :: 0 <= a < n && 0 <= b < m ==> Taken(axis, cells, a, b)
  }

  lemma StandsMeansTaken(axis: Axis, cells: seq<Node>, i: nat)
    requires i < |cells| && IsCell(cells[i])
    ensures Taken(axis, cells, Along(axis, cells[i]), Across(axis, cells[i]))
  {
    assert Shows(axis, cells, Along(axis, cells[i]), Across(axis, cells[i]), ContentOf(cells[i]));
  }

  lemma ApartCons(axis: Axis, n: Node, rest: seq<Node>)
    requires IsCell(n)
    ensures Apart(axis, [n] + rest) <==> Apart(axis, rest) && !Taken(axis, rest, Along(axis, n), Across(axis, n))
  {
    var all := [n] + rest;
    assert forall i :: 1 <= i < |all| ==> all[i] == rest[i - 1];
    if Taken(axis, rest, Along(axis, n), Across(axis, n)) {
      var x :| Shows(axis, rest, Along(axis, n), Across(axis, n), x);
      var i :| 0 <= i < |rest| && Standing(axis, rest[i], Along(axis, n), Across(axis, n));
      assert Standing(axis, all[i + 1], Along(axis, all[0]), Across(axis, all[0]));
    } else if Apart(axis, rest) {
      forall i, j | 0 <= i < j < |all| && IsCell(all[i])
        ensures !Standing(axis, all[j], Along(axis, all[i]), Across(axis, all[i]))
      {
        if i == 0 && Standing(axis, rest[j - 1], Along(axis, n), Across(axis, n)) {
          StandsMeansTaken(axis, rest, j - 1);
        }
      }
    }
    if Apart(axis, all) {
      forall i, j | 0 <= i < j < |rest| && IsCell(rest[i])
        ensures !Standing(axis, rest[j], Along(axis, rest[i]), Across(axis, rest[i]))
      {
        assert all[i + 1] == rest[i] && all[j + 1] == rest[j];
      }
    }
  }

  lemma DeleteTaken(axis: Axis, at: int, cells: seq<Node>, a: int, b: int)
    ensures Taken(axis, DeleteLine(axis, at, cells), a, b) <==> Taken(axis, cells, if a < at then a else a + 1, b)
  {
    hide Shows, DeleteLine;
    var from := if a < at then a else a + 1;
    if x :| Shows(axis, cells, from, b, x) {
      DeleteShows(axis, at, cells, a, b, x);
    }
    if x :| Shows(axis, DeleteLine(axis, at, cells), a, b, x) {
      DeleteShows(axis, at, cells, a, b, x);
    }
  }

  lemma InsertTaken(axis: Axis, at: int, cells: seq<Node>, metas: seq<Meta>, a: int, b: int)
    ensures Taken(axis, InsertLine(axis, at, cells, metas), a, b) <==>
      if a == at then 0 <= b < |metas| else Taken(axis, cells, if a < at then a else a - 1, b)
  {
    hide Shows, InsertLine;
    InsertShows(axis, at, cells, metas, a, b, Plain(VNone));
    var from := if a < at then a else a - 1;
    if x :| Shows(axis, cells, from, b, x) {
      InsertShows(axis, at, cells, metas, a, b, x);
    }
    if x :| Shows(axis, InsertLine(axis, at, cells, metas), a, b, x) {
      InsertShows(axis, at, cells, metas, a, b, x);
    }
  }

  /** Deleting a line keeps what remains inside the smaller grid, when it was one of the lines. */
  lemma {:induction false} DeleteKeeps(axis: Axis, at: int, cells: seq<Node>, n: nat, m: nat)
    requires Within(axis, cells, n, m) && Apart(axis, cells)
    ensures Apart(axis, DeleteLine(axis, at, cells))
    ensures 0 <= at < n ==> Within(axis, DeleteLine(axis, at, cells), n - 1, m)
  {
    if cells != [] {
      var rest := cells[1..];
      assert cells == [cells[0]] + rest && IsCell(cells[0]);
      ApartCons(axis, cells[0], rest);
      DeleteKeeps(axis, at, rest, n, m);
      DeleteCons(axis, at, cells[0], rest);
      hide Apart, Taken, DeleteLine;
      var first := Closed(axis, at, cells[0]);
      if first.Some? {
        ApartCons(axis, first.value, DeleteLine(axis, at, rest));
        DeleteTaken(axis, at, rest, Along(axis, first.value), Across(axis, first.value));
      }
    }
  }

  lemma OpenedApart(axis: Axis, at: int, x: Node, y: Node)
    requires IsCell(x)
    ensures Along(axis, Opened(axis, at, x)) != at
    ensures !Standing(axis, y, Along(axis, x), Across(axis, x)) ==>
      !Standing(axis, Opened(axis, at, y), Along(axis, Opened(axis, at, x)), Across(axis, Opened(axis, at, x)))
  {
  }

  /** The children after an insertion, one by one. */
  lemma InsertedAt(axis: Axis, at: int, cells: seq<Node>, metas: seq<Meta>, i: nat)
    requires i < |cells| + |metas|
    ensures var all := InsertLine(axis, at, cells, metas);
      |all| == |cells| + |metas| &&
        all[i] == if i < |cells| then Opened(axis, at, cells[i]) else NewLine(axis, at, metas)[i - |cells|]
  {
  }

  lemma InsertedCount(axis: Axis, at: int, cells: seq<Node>, metas: seq<Meta>)
    ensures |InsertLine(axis, at, cells, metas)| == |cells| + |metas|
  {
  }

  lemma InsertWithin(axis: Axis, at: int, cells: seq<Node>, metas: seq<Meta>, n: nat)
    requires Within(axis, cells, n, |metas|) && 0 <= at <= n
    ensures Within(axis, InsertLine(axis, at, cells, metas), n + 1, |metas|)
  {
    var all := InsertLine(axis, at, cells, metas);
    InsertedCount(axis, at, cells, metas);
    hide OpenLine, InsertLine;
    forall i | 0 <= i < |all|
      ensures IsCell(all[i]) && 0 <= Along(axis, all[i]) < n + 1 && 0 <= Across(axis, all[i]) < |metas|
    {
      InsertedAt(axis, at, cells, metas, i);
    }
  }

  lemma InsertApart(axis: Axis, at: int, cells: seq<Node>, metas: seq<Meta>)
    requires Apart(axis, cells) && forall i :: 0 <= i < |cells| ==> IsCell(cells[i])
    ensures Apart(axis, InsertLine(axis, at, cells, metas))
  {
    var all := InsertLine(axis, at, cells, metas);
    InsertedCount(axis, at, cells, metas);
    hide OpenLine, InsertLine, Opened;
    forall i, j | 0 <= i < j < |all| && IsCell(all[i])
      ensures !Standing(axis, all[j], Along(axis, all[i]), Across(axis, all[i]))
    {
      InsertedAt(axis, at, cells, metas, i);
      InsertedAt(axis, at, cells, metas, j);
      if i < |cells| {
        OpenedApart(axis, at, cells[i], if j < |cells| then cells[j] else all[j]);
      }
    }
  }

  /** Inserting a line within or at the edge of the grid keeps everything inside the larger one. */
  lemma InsertKeeps(axis: Axis, at: int, cells: seq<Node>, metas: seq<Meta>, n: nat)
    requires Within(axis, cells, n, |metas|) && Apart(axis, cells) && 0 <= at <= n
    ensures Apart(axis, InsertLine(axis, at, cells, metas))
    ensures Within(axis, InsertLine(axis, at, cells, metas), n + 1, |metas|)
  {
    InsertWithin(axis, at, cells, metas, n);
    InsertApart(axis, at, cells, metas);
  }

  /** Inserting a line into a dense grid leaves a dense, larger grid if and only if the position
      is one of the grid's lines or just behind them (or the lines are empty). */
  lemma InsertKeepsDenseIff(axis: Axis, at: int, cells: seq<Node>, metas: seq<Meta>, n: nat)
    requires Dense(axis, cells, n, |metas|)
    ensures Dense(axis, InsertLine(axis, at, cells, metas), n + 1, |metas|) <==> 0 <= at <= n || metas == []
  {
    var all, line := InsertLine(axis, at, cells, metas), NewLine(axis, at, metas);
    if 0 <= at <= n {
      InsertKeeps(axis, at, cells, metas, n);
      hide Apart, Within, Taken, InsertLine;
      forall a, b | 0 <= a < n + 1 && 0 <= b < |metas| ensures Taken(axis, all, a, b) {
        InsertTaken(axis, at, cells, metas, a, b);
      }
    } else if metas != [] {
      assert all[|cells|] == line[0];
    } else {
      assert cells == [];
      assert all == [];
    }
  }

  /** Deleting a line from a dense grid leaves a dense, smaller grid if and only if the position is
      one of the grid's lines (or there is no cell at all). */
  lemma DeleteKeepsDenseIff(axis: Axis, at: int, cells: seq<Node>, n: nat, m: nat)
    requires Dense(axis, cells, n, m)
    ensures Dense(axis, DeleteLine(axis, at, cells), if n == 0 then 0 else n - 1, m) <==>
      0 <= at < n || n == 0 || m == 0
  {
    var rest := DeleteLine(axis, at, cells);
    if 0 <= at < n {
      DeleteKeeps(axis, at, cells, n, m);
      hide Apart, Within, Taken, DeleteLine;
      forall a, b | 0 <= a < n - 1 && 0 <= b < m ensures Taken(axis, rest, a, b) {
        DeleteTaken(axis, at, cells, a, b);
      }
    } else if n > 0 && m > 0 {
      DeleteOutside(axis, at, cells, n, m);
    } else {
      assert cells == [] by { if cells != [] { CellHasPlace(axis, cells, n, m); } }
    }
  }

  lemma CellHasPlace(axis: Axis, cells: seq<Node>, n: nat, m: nat)
    requires Within(axis, cells, n, m) && cells != []
    ensures n > 0 && m > 0
  {
    assert 0 <= Along(axis, cells[0]) < n;
  }

  /** Out of range, the remaining cells overflow the smaller grid on one side. */
  lemma DeleteOutside(axis: Axis, at: int, cells: seq<Node>, n: nat, m: nat)
    requires Dense(axis, cells, n, m) && n > 0 && m > 0 && !(0 <= at < n)
    ensures !Dense(axis, DeleteLine(axis, at, cells), n - 1, m)
  {
    var rest, a := DeleteLine(axis, at, cells), if at < 0 then -1 else n - 1;
    DeleteTaken(axis, at, cells, a, 0);
    assert Taken(axis, cells, if at < 0 then 0 else n - 1, 0);
    hide DeleteLine;
    var x :| Shows(axis, rest, a, 0, x);
    var i :| 0 <= i < |rest| && Standing(axis, rest[i], a, 0);
    assert !Within(axis, rest, n - 1, m);
  }

  /** Rows by columns or columns by rows: the same density. */
  lemma DenseSwaps(cells: seq<Node>, n: nat, m: nat)
    ensures Dense(Rows, cells, n, m) <==> Dense(Columns, cells, m, n)
  {
    forall a, b ensures Taken(Rows, cells, a, b) <==> Taken(Columns, cells, b, a) { TakenSwaps(cells, a, b); }
    ApartSwaps(cells);
    hide Taken, Apart;
  }

  lemma TakenSwaps(cells: seq<Node>, a: int, b: int)
    ensures Taken(Rows, cells, a, b) <==> Taken(Columns, cells, b, a)
  {
    forall x ensures Shows(Rows, cells, a, b, x) <==> Shows(Columns, cells, b, a, x) {
      assert forall i :: 0 <= i < |cells| ==> (Standing(Rows, cells[i], a, b) <==> Standing(Columns, cells[i], b, a));
    }
    hide Shows;
  }

  lemma ApartSwaps(cells: seq<Node>)
    ensures Apart(Rows, cells) <==> Apart(Columns, cells)
  {
    assert forall i, j :: 0 <= i < |cells| && 0 <= j < |cells| && IsCell(cells[i]) ==>
      (Standing(Rows, cells[j], Along(Rows, cells[i]), Across(Rows, cells[i])) <==>
       Standing(Columns, cells[j], Along(Columns, cells[i]), Across(Columns, cells[i])));
  }
}
