/** Small concrete histories: each shows that a property the code does not always keep does fail. */
module Witnesses {
  import opened Collections
  import opened Graphs
  import opened JsonValues
  import opened Nodes
  import opened Operations
  import opened OperationLogs
  import opened Materializer
  import opened Inverses
  import opened Indexing
  import opened GraphDbs
  import opened Queries
  import opened FullBundles
  import opened Reverts
  import opened FlowLens

  // ----- histories of operations that an empty database accepts -----

  function Uid(c: char): (u: Uuid)
    ensures u[0] == c
  {
    seq(36, _ => c)
  }

  const P := NodeId(Uid('p'))
  const Q := NodeId(Uid('q'))
  const X := NodeId(Uid('x'))
  const Y := NodeId(Uid('y'))

  const E0 := EdgeId(Uid('0'))
  const E1 := EdgeId(Uid('1'))
  const E2 := EdgeId(Uid('2'))
  const E3 := EdgeId(Uid('3'))

  const ANN := Some("ann")
  const BOB := Some("bob")

  lemma AllDifferent()
    ensures P != Q && P != X && P != Y && Q != X && Q != Y && X != Y
    ensures E0 != E1 && E0 != E2 && E0 != E3 && E1 != E2 && E1 != E3 && E2 != E3
  {
    assert P.value[0] == 'p' && Q.value[0] == 'q' && X.value[0] == 'x' && Y.value[0] == 'y';
    assert E0.value[0] == '0' && E1.value[0] == '1' && E2.value[0] == '2' && E3.value[0] == '3';
  }

  function Text(id: NodeId): Node {
    Paragraph(Meta(id, PARAGRAPH, 0, 0, None, None), "", "", "plain")
  }

  function Containment(e: EdgeId, parent: NodeId, child: NodeId): Edge {
    Edge(e, parent, child, CONTAINS, 0, [])
  }

  function Dependency(e: EdgeId, source: NodeId, target: NodeId): Edge {
    Edge(e, source, target, DEPENDS_ON, 0, [])
  }

  function LogOf(ops: seq<Operation>): (r: seq<Entry>)
    ensures |r| == |ops| && forall i :: 0 <= i < |r| ==> r[i] == NewEntry(ops[i])
  {
    MapSeq(NewEntry, ops)
  }

  /** Stamped one after another, no later than now, without parents. */
  ghost predicate InTime(ops: seq<Operation>, now: Time) {
    && (forall i :: 0 <= i < |ops| ==> ops[i].parentOps == [] && ops[i].timestamp <= now)
    && forall i, j :: 0 <= i < j < |ops| ==> ops[i].timestamp < ops[j].timestamp
  }

  /** Such operations are accepted one by one. */
  lemma {:induction false} Happens(ops: seq<Operation>, now: Time)
    requires InTime(ops, now)
    ensures CoreValid(Core(LogOf(ops), now)) && Survivors(ops) == LogOf(ops)
    ensures Replay(LogOf(ops)) == Run(EMPTY_STATE, ops)
  {
    hide ComputeOperationId, NewEntry, Step, ValidLog, Ids, LogOf;
    if ops == [] {
      NothingHappens(now);
    } else {
      var prev, op := Init(ops), Last(ops);
      var c := Core(LogOf(prev), op.timestamp - 1);
      assert ops == prev + [op];
      Happens(prev, op.timestamp - 1);
      LaterIsNew(c, op);
      assert LogOf(ops) == LogOf(prev) + [NewEntry(op)];
      AppendKeepsValid(c.log, op);
      ReplayOneMore(c.log, NewEntry(op));
      RunAppend(EMPTY_STATE, prev, [op]);
      RunSingle(Run(EMPTY_STATE, prev), op);
      NewEntryOp(op);
      hide Run, Replay;
    }
  }

  lemma NothingHappens(now: Time)
    ensures LogOf([]) == [] && CoreValid(Core([], now)) && Replay([]) == Run(EMPTY_STATE, [])
  {
  }

  lemma LogPrefix(ops: seq<Operation>, k: nat)
    requires k <= |ops|
    ensures LogOf(ops)[..k] == LogOf(ops[..k])
  {
    hide NewEntry;
  }

  /** One operation more, as seen in the list of p. */
  lemma Next(ops: seq<Operation>, op: Operation, p: NodeId)
    ensures var s, t := Run(EMPTY_STATE, ops), Run(EMPTY_STATE, ops + [op]);
      && t.nodes == NodesAfter(s.nodes, op) && t.edges.vals == EdgesAfter(s.edges.vals, op)
      && Kids(t, p) == KidsAfter(s.edges.vals, op, p, Kids(s, p))
  {
    hide Step, NewEntry, Run, NodesAfter, EdgesAfter, KidsAfter, Kids;
    var s, e := Run(EMPTY_STATE, ops), NewEntry(op);
    RunAppend(EMPTY_STATE, ops, [op]);
    RunSingle(s, op);
    NewEntryOp(op);
    StepParts(s, e);
    StepKids(s, e, p);
  }

  lemma AtFirst(p: NodeId)
    ensures var s := Run(EMPTY_STATE, []); s.nodes == map[] && s.edges.vals == map[] && Kids(s, p) == []
  {
  }

  // ----- undo -----

  const CONTAINED := [CreateNode(Text(P), [], 1, ANN), CreateNode(Text(Q), [], 2, ANN), CreateNode(Text(X), [], 3, ANN),
                      CreateEdge(Containment(E1, P, X), [], 4, ANN)]

  lemma Contained()
    ensures var s := Run(EMPTY_STATE, CONTAINED); Kids(s, P) == [X]
    ensures InTime(CONTAINED, 4) && LastMove(LogOf(CONTAINED), X).None?
  {
    hide Kids, Run, NewEntry;
    var ops := CONTAINED;
    AtFirst(P);
    assert ops[..0] == [] && ops[..1] == ops[..0] + [ops[0]] && ops[..2] == ops[..1] + [ops[1]];
    assert ops[..3] == ops[..2] + [ops[2]] && ops == ops[..3] + [ops[3]];
    Next(ops[..0], ops[0], P);
    Next(ops[..1], ops[1], P);
    Next(ops[..2], ops[2], P);
    Next(ops[..3], ops[3], P);
    NeverMoved(ops, X);
  }

  lemma {:induction false} NeverMoved(ops: seq<Operation>, id: NodeId)
    requires forall op :: op in ops ==> !op.MoveNode?
    ensures LastMove(LogOf(ops), id).None?
  {
    hide NewEntry;
    if ops != [] {
      assert Last(ops) in ops;
      NewEntryOp(Last(ops));
      assert Init(LogOf(ops)) == LogOf(Init(ops));
      NeverMoved(Init(ops), id);
    }
  }

  /** The last operation of a history, undone at once. */
  lemma UndoLatest(ops: seq<Operation>, op: Operation, now: Time) returns (s: State, t: State)
    requires InTime(ops + [op], now)
    ensures var c := Core(LogOf(ops + [op]), now);
      && CoreValid(c) && Wf(s) && s == Run(EMPTY_STATE, ops + [op])
      && t == Run(s, Inverse(LogOf(ops), op, s, now + 1)) && t == StateOf(UndoIds(c, [Last(c.log).id]).core)
  {
    hide ComputeOperationId, Run, Replay, Inverse, CoreValid, UndoIds, NewEntry, LogOf, Wf;
    var log := LogOf(ops + [op]);
    var c := Core(log, now);
    Happens(ops + [op], now);
    LogPrefix(ops + [op], |ops|);
    assert (ops + [op])[..|ops|] == ops;
    NewEntryOp(op);
    UndoOfOne(c, |ops|);
    ReplayWf(log);
    s := StateOf(c);
    t := StateOf(UndoIds(c, [Last(log).id]).core);
  }

  /** Nothing that undoes the move or the deletion of a node gives it to an empty list. */
  lemma EmptyListStays(prefix: seq<Entry>, op: Operation, s: State, p: NodeId, now: Time)
    requires Kids(s, p) == [] && (op.DeleteNode? || (op.MoveNode? && LastMove(prefix, op.nodeId).None?))
    ensures Kids(Run(s, Inverse(prefix, op, s, now)), p) == []
  {
    FirstParentFound(s.children.keys, s.children.vals, op.nodeId);
    hide Run, LastMove, LastNode, FirstParent;
    var r, prev := FirstParent(s.children.keys, s.children.vals, op.nodeId), LastNode(prefix, op.nodeId);
    if op.MoveNode? && r.Some? {
      assert r != Some(p);
      RunOne(s, MoveNode(op.nodeId, r.value, [], now, op.principal));
    } else if op.DeleteNode? && prev.Some? {
      RunOne(s, CreateNode(prev.value, [], now, op.principal));
    } else {
      RunNone(s);
    }
  }

  lemma UndoLatestOfContained(op: Operation)
    requires op == MoveNode(X, Q, [], 5, ANN) || op == DeleteNode(X, [], 5, ANN)
    ensures var c := Core(LogOf(CONTAINED + [op]), 5);
      && CoreValid(c) && Kids(Replay(LogOf(CONTAINED)), P) == [X]
      && Kids(StateOf(UndoIds(c, [Last(c.log).id]).core), P) == []
  {
    hide Run, Replay, CoreValid, UndoIds, LogOf, CONTAINED, LastMove, ComputeOperationId, Kids, Inverse, StateOf, Wf;
    AllDifferent();
    Contained();
    Happens(CONTAINED, 4);
    Next(CONTAINED, op, P);
    RemovedOnly(X);
    assert InTime(CONTAINED + [op], 5);
    var s, t := UndoLatest(CONTAINED, op, 5);
    EmptyListStays(LogOf(CONTAINED), op, s, P, 6);
  }

  lemma RemovedOnly(x: NodeId)
    ensures Remove([x], x) == []
  {
  }

  /** A first move, undone, leaves the node where it was moved to. */
  lemma FirstMoveStays()
    ensures var c := Core(LogOf(CONTAINED + [MoveNode(X, Q, [], 5, ANN)]), 5);
      && CoreValid(c) && Kids(Replay(LogOf(CONTAINED)), P) == [X]
      && Kids(StateOf(UndoIds(c, [Last(c.log).id]).core), P) == []
  {
    UndoLatestOfContained(MoveNode(X, Q, [], 5, ANN));
  }

  /** A contained node, deleted and brought back by undo, is listed nowhere. */
  lemma DeletedIsNotListedAgain()
    ensures var c := Core(LogOf(CONTAINED + [DeleteNode(X, [], 5, ANN)]), 5);
      && CoreValid(c) && Kids(Replay(LogOf(CONTAINED)), P) == [X]
      && Kids(StateOf(UndoIds(c, [Last(c.log).id]).core), P) == []
  {
    UndoLatestOfContained(DeleteNode(X, [], 5, ANN));
  }

  // ----- lookup by type -----

  const ACL := ArtifactACL(Meta(X, ARTIFACT_ACL, 0, 0, None, None), None, false)

  /** A lookup of artifacts finds a live access list. */
  lemma AccessListMatchesArtifact()
    ensures var log := LogOf([CreateNode(ACL, [], 1, ANN)]);
      && CoreValid(Core(log, 1)) && IndexAgrees(IndexReplay(log), Replay(log)) && Live(Replay(log), ACL)
      && ACL.meta.nodeType.ARTIFACT_ACL? && HasMatch(ACL, "node_type", NodeTypeValue(ARTIFACT))
  {
    hide Run, NewEntry, NodeTypeValue, HasMatch, IndexReplay, IndexAgrees, LogOf, ComputeOperationId, ValidLog;
    var op := CreateNode(ACL, [], 1, ANN);
    AtFirst(P);
    Next([], op, P);
    assert [] + [op] == [op];
    Happens([op], 1);
    HasTypeMatch(ACL, ARTIFACT);
    LogPrefix([op], 0);
    assert [op][..0] == [];
    NothingHappens(0);
    NewEntryOp(op);
    hide Replay;
    IndexAgreement(LogOf([op]));
  }

  // ----- revert -----

  /** What was stamped up to t, when stamps increase. */
  lemma {:induction false} UpToIs(ops: seq<Operation>, k: nat, t: Time)
    requires k <= |ops| && (forall i :: 0 <= i < |ops| ==> (ops[i].timestamp <= t <==> i < k))
    ensures UpTo(LogOf(ops), t) == LogOf(ops[..k])
  {
    hide NewEntry;
    if ops == [] {
      assert ops[..k] == [];
    } else {
      NewEntryOp(Last(ops));
      var prev := Init(ops);
      assert Init(LogOf(ops)) == LogOf(prev);
      if k == |ops| {
        UpToIs(prev, k - 1, t);
        assert ops[..k] == prev[..k - 1] + [Last(ops)];
      } else {
        UpToIs(prev, k, t);
        assert ops[..k] == prev[..k];
      }
    }
  }

  const LINKED := [CreateNode(Text(P), [], 1, ANN), CreateEdge(Dependency(E1, P, X), [], 2, ANN),
    CreateNode(Text(X), [], 3, ANN)]

  lemma LinkedStates()
    ensures LINKED[..2] + [LINKED[2]] == LINKED
    ensures var s, t := Run(EMPTY_STATE, LINKED[..2]), Run(EMPTY_STATE, LINKED);
      && X !in s.nodes && X in t.nodes
      && Get(s.edges.vals, E1) == Some(Dependency(E1, P, X)) && Get(t.edges.vals, E1) == Some(Dependency(E1, P, X))
  {
    hide Run, Kids, Text;
    var ops := LINKED;
    AllDifferent();
    AtFirst(P);
    assert ops[..0] == [] && ops[..1] == ops[..0] + [ops[0]];
    assert ops[..2] == ops[..1] + [ops[1]] && ops == ops[..2] + [ops[2]];
    assert Text(P).meta.id == P && Text(X).meta.id == X by { TextIds(P); TextIds(X); }
    Next(ops[..0], ops[0], P);
    Next(ops[..1], ops[1], P);
    Next(ops[..2], ops[2], P);
  }

  lemma TextIds(id: NodeId)
    ensures Text(id).meta.id == id
  {
  }

  lemma LinkedHistory()
    ensures var log := LogOf(LINKED);
      var cur, target := Replay(log), Replay(UpTo(log, 2));
      && CoreValid(Core(log, 3)) && X in cur.nodes && X !in target.nodes
      && Get(cur.edges.vals, E1) == Some(Dependency(E1, P, X))
      && Get(target.edges.vals, E1) == Some(Dependency(E1, P, X))
  {
    hide Run, LogOf, CoreValid, Replay, UpTo, InTime, LINKED;
    LinkedStates();
    LinkedInTime();
    Happens(LINKED, 3);
    Happens(LINKED[..2], 2);
    UpToIs(LINKED, 2, 2);
  }

  lemma LinkedInTime()
    ensures InTime(LINKED, 3) && InTime(LINKED[..2], 2)
    ensures |LINKED| == 3 && forall i :: 0 <= i < 3 ==> (LINKED[i].timestamp <= 2 <==> i < 2)
  {
  }

  /** Reverting to a time when a dependency named a node not yet created loses the dependency. */
  lemma RevertLosesEdge(ops: seq<Operation>, now: Time, who: string)
    requires now > 3
    requires forall op :: op in ops <==> RevertOp(Replay(LogOf(LINKED)), Replay(UpTo(LogOf(LINKED), 2)), now, who, op)
    ensures E1 in Replay(UpTo(LogOf(LINKED), 2)).edges.vals && E1 !in Replay(Offer(LogOf(LINKED), ops)).edges.vals
  {
    hide LogOf, CoreValid, Replay, UpTo, Offer, Halfway, RevertOp, EdgesKeyed, LINKED;
    LinkedHistory();
    var log := LogOf(LINKED);
    ReplayEdgesKeyed(UpTo(log, 2));
    OfferRevert(Core(log, 3), Replay(log), Replay(UpTo(log, 2)), ops, now, who);
    EdgeReached(Replay(log), Replay(UpTo(log, 2)), ops, Replay(Offer(log, ops)), now, who, E1);
  }

  const SWAPPED := CONTAINED + [ReorderChildren(P, [X, Q], [], 5, ANN)] + [ReorderChildren(P, [Q, X], [], 6, ANN)]

  lemma Swapped()
    ensures var log := LogOf(SWAPPED);
      var cur, target := Replay(log), Replay(UpTo(log, 5));
      && CoreValid(Core(log, 6)) && cur.nodes == target.nodes && cur.edges.vals == target.edges.vals
      && Kids(cur, P) == [Q, X] && Kids(target, P) == [X, Q]
  {
    hide Run, LogOf, CoreValid, Replay, UpTo, Kids, Text;
    var prev := CONTAINED + [ReorderChildren(P, [X, Q], [], 5, ANN)];
    Next(CONTAINED, ReorderChildren(P, [X, Q], [], 5, ANN), P);
    Next(prev, ReorderChildren(P, [Q, X], [], 6, ANN), P);
    assert SWAPPED[..5] == prev;
    Happens(SWAPPED, 6);
    Happens(prev, 5);
    UpToIs(SWAPPED, 5, 5);
  }

  /** Reverting to a time before children were swapped leaves them swapped. */
  lemma SwapStays(ops: seq<Operation>, now: Time, who: string)
    requires now > 6 && EdgesLast(ops)
    requires forall op :: op in ops <==> RevertOp(Replay(LogOf(SWAPPED)), Replay(UpTo(LogOf(SWAPPED), 5)), now, who, op)
    ensures Kids(Replay(Offer(LogOf(SWAPPED), ops)), P) == [Q, X] && Kids(Replay(UpTo(LogOf(SWAPPED), 5)), P) == [X, Q]
  {
    hide LogOf, CoreValid, Replay, UpTo, Offer, RevertOp, Kids, SWAPPED, EdgesLast;
    Swapped();
    OrderIsNotReverted(Core(LogOf(SWAPPED), 6), 5, ops, now, who);
  }

  const CHANGED := [CreateEdge(Dependency(E1, P, X), [], 1, ANN), CreateEdge(Dependency(E1, P, Y), [], 2, ANN)]

  lemma Changed()
    ensures var log := LogOf(CHANGED);
      var cur, target := Replay(log), Replay(UpTo(log, 1));
      && CoreValid(Core(log, 2)) && cur.nodes == target.nodes == map[]
      && Get(cur.edges.vals, E1) == Some(Dependency(E1, P, Y))
      && Get(target.edges.vals, E1) == Some(Dependency(E1, P, X))
  {
    hide Run, LogOf, CoreValid, Replay, UpTo, Kids;
    var ops := CHANGED;
    AtFirst(P);
    assert ops[..0] == [] && ops[..1] == ops[..0] + [ops[0]] && ops == ops[..1] + [ops[1]];
    Next(ops[..0], ops[0], P);
    Next(ops[..1], ops[1], P);
    Happens(ops, 2);
    Happens(ops[..1], 1);
    UpToIs(ops, 1, 1);
  }

  /** Reverting to a time when an edge id stood for another edge keeps the present one. */
  lemma RevertKeepsChangedEdge(ops: seq<Operation>, now: Time, who: string)
    requires now > 2
    requires forall op :: op in ops <==> RevertOp(Replay(LogOf(CHANGED)), Replay(UpTo(LogOf(CHANGED), 1)), now, who, op)
    ensures Get(Replay(UpTo(LogOf(CHANGED), 1)).edges.vals, E1) == Some(Dependency(E1, P, X))
    ensures Get(Replay(Offer(LogOf(CHANGED), ops)).edges.vals, E1) == Some(Dependency(E1, P, Y))
  {
    hide LogOf, CoreValid, Replay, UpTo, Offer, Halfway, RevertOp, EdgesKeyed, CHANGED;
    Changed();
    var log := LogOf(CHANGED);
    ReplayEdgesKeyed(UpTo(log, 1));
    OfferRevert(Core(log, 2), Replay(log), Replay(UpTo(log, 1)), ops, now, who);
    EdgeReached(Replay(log), Replay(UpTo(log, 1)), ops, Replay(Offer(log, ops)), now, who, E1);
  }

  // ----- dependencies -----

  lemma NothingReached(s: State, a: NodeId, b: NodeId)
    requires Wf(s) && a != b && forall e :: e in s.edges.vals ==> s.edges.vals[e].source != a
    ensures !Reaches(Deps(s), a, b)
  {
    forall y ensures y !in Succ(Deps(s), a) { SuccIsDependsOn(s, a, y); }
    hide Deps, Wf;
    if Reaches(Deps(s), a, b) {
      ClosedHoldsReachable(Deps(s), {a}, a, b);
    }
  }

  /** Setting a dependency that the guard lets through stores one edge. */
  lemma DependencySet(s: State, a: NodeId, b: NodeId, q: Request)
    requires Wf(s) && a != b && forall e :: e in s.edges.vals ==> s.edges.vals[e].source != b
    ensures var t := Act(s, SetDependency(a, b), q);
      && Wf(t) && t.edges.vals == s.edges.vals[q.edgeId := Edge(q.edgeId, a, b, DEPENDS_ON, q.now, [])]
      && Plan(s, SetDependency(a, b), q) ==
         Ok([CreateEdge(Edge(q.edgeId, a, b, DEPENDS_ON, q.now, []), [], q.now, Some(q.who))])
  {
    NothingReached(s, b, a);
    hide Reaches, Deps, Wf, Run;
    var op := CreateEdge(Edge(q.edgeId, a, b, DEPENDS_ON, q.now, []), [], q.now, Some(q.who));
    RunKeepsWf(s, [op]);
    RunOne(s, op);
  }

  function At(e: EdgeId, now: Time, who: string): Request {
    Request(X, e, now, who)
  }

  /** A dependency set twice and removed once is still there. */
  lemma SetTwiceRemovedOnce()
    ensures var s := ActAll(EMPTY_STATE,
      [(SetDependency(X, Y), At(E1, 1, "ann")), (SetDependency(X, Y), At(E2, 2, "ann"))]);
      DependsOn(Act(s, RemoveDependency(X, Y), At(E3, 3, "ann")).edges.vals, X, Y)
  {
    hide Act, Run, Wf, DependsOn;
    AllDifferent();
    assert Wf(EMPTY_STATE) by { ReplayWf([]); NothingHappens(0); AtFirst(P); RunNone(EMPTY_STATE); }
    assert EMPTY_STATE.edges.vals == map[];
    DependencySet(EMPTY_STATE, X, Y, At(E1, 1, "ann"));
    var s1 := Act(EMPTY_STATE, SetDependency(X, Y), At(E1, 1, "ann"));
    DependencySet(s1, X, Y, At(E2, 2, "ann"));
    var s2 := Act(s1, SetDependency(X, Y), At(E2, 2, "ann"));
    TwoActions(EMPTY_STATE, (SetDependency(X, Y), At(E1, 1, "ann")), (SetDependency(X, Y), At(E2, 2, "ann")));
    assert Records(s2, E1, X, Y) && Records(s2, E2, X, Y);
    assert EdgesKeyed(s2);
    assert DependsOn(s2.edges.vals, X, Y) by { RecordedMeans(s2, E1); }
    RemovedIffRecordedOnce(s2, X, Y, At(E3, 3, "ann"));
  }

  lemma RecordedMeans(s: State, e: EdgeId)
    requires Records(s, e, X, Y)
    ensures DependsOn(s.edges.vals, X, Y)
  {
  }

  lemma TwoActions(s: State, a: (FlowAction, Request), b: (FlowAction, Request))
    ensures ActAll(s, [a, b]) == Act(Act(s, a.0, a.1), b.0, b.1)
  {
    hide Act;
    var s1 := Act(s, a.0, a.1);
    assert [a, b][1..] == [b] && ActAll(s, [a, b]) == ActAll(s1, [b]);
    assert [b][1..] == [] && ActAll(s1, [b]) == ActAll(Act(s1, b.0, b.1), []);
  }

  lemma NoDependenciesYet()
    ensures Wf(EMPTY_STATE) && Acyclic(Deps(EMPTY_STATE))
  {
    var g := Deps(EMPTY_STATE);
    forall x, y ensures y !in Succ(g, x) {}
    forall p: seq<NodeId> | |p| >= 2 ensures !IsPath(g, p) { assert p[0 + 1] !in Succ(g, p[0]); }
  }

  lemma RemovalPlan(s: State, edge: Edge, q: Request)
    requires s.edges == Dict([edge.id], map[edge.id := edge]) && edge.edgeType.DEPENDS_ON?
    ensures Act(s, RemoveDependency(edge.source, edge.target), q) ==
      Run(s, [DeleteEdge(edge.id, [], q.now, Some(q.who))])
  {
    hide Run;
    var keys := [edge.id];
    assert keys[1..] == [] && EdgesFrom([], s.edges.vals, edge.source) == [];
    assert GetEdgesFrom(s, edge.source) == [edge];
  }

  const XY := CreateEdge(Edge(E1, X, Y, DEPENDS_ON, 1, []), [], 1, ANN)
  const NOT_XY := DeleteEdge(E1, [], 2, ANN)
  const YX := CreateEdge(Edge(E2, Y, X, DEPENDS_ON, 3, []), [], 3, BOB)

  const TURNED := [(SetDependency(X, Y), At(E1, 1, "ann")), (RemoveDependency(X, Y), At(E3, 2, "ann")),
                   (SetDependency(Y, X), At(E2, 3, "bob"))]

  /** The three actions issue these three operations. */
  lemma TurnedAround()
    ensures ActAll(EMPTY_STATE, TURNED) == Run(EMPTY_STATE, [XY, NOT_XY, YX])
    ensures Get(Run(EMPTY_STATE, [XY]).edges.vals, E1) == Some(XY.edge)
    ensures Run(EMPTY_STATE, [XY, NOT_XY, YX]).edges.vals == map[E2 := YX.edge]
  {
    hide Run, Act, Step, NewEntry, Wf, ActAll;
    AllDifferent();
    NoDependenciesYet();
    var s1, s2 := Run(EMPTY_STATE, [XY]), Run(EMPTY_STATE, [XY, NOT_XY]);
    FirstStored();
    SetIsRun(EMPTY_STATE, X, Y, At(E1, 1, "ann"));
    RemovalPlan(s1, XY.edge, At(E3, 2, "ann"));
    assert [XY] + [NOT_XY] == [XY, NOT_XY] && [XY, NOT_XY] + [YX] == [XY, NOT_XY, YX];
    RunAppend(EMPTY_STATE, [XY], [NOT_XY]);
    RunAppend(EMPTY_STATE, [XY, NOT_XY], [YX]);
    Next([XY], NOT_XY, P);
    Next([XY, NOT_XY], YX, P);
    RunKeepsWf(EMPTY_STATE, [XY, NOT_XY]);
    SetIsRun(s2, Y, X, At(E2, 3, "bob"));
    ThreeActions(EMPTY_STATE, TURNED[0], TURNED[1], TURNED[2]);
  }

  lemma FirstStored()
    ensures Run(EMPTY_STATE, [XY]).edges == Dict([E1], map[E1 := XY.edge])
  {
    RunSingle(EMPTY_STATE, XY);
    StepEdges(EMPTY_STATE, XY);
    hide Run, Step, NewEntry;
  }

  lemma SetIsRun(s: State, a: NodeId, b: NodeId, q: Request)
    requires Wf(s) && a != b && forall e :: e in s.edges.vals ==> s.edges.vals[e].source != b
    ensures Act(s, SetDependency(a, b), q) ==
      Run(s, [CreateEdge(Edge(q.edgeId, a, b, DEPENDS_ON, q.now, []), [], q.now, Some(q.who))])
  {
    DependencySet(s, a, b, q);
    hide Plan, Run;
  }

  lemma ThreeActions(s: State, a: (FlowAction, Request), b: (FlowAction, Request), c: (FlowAction, Request))
    ensures ActAll(s, [a, b, c]) == Act(Act(Act(s, a.0, a.1), b.0, b.1), c.0, c.1)
  {
    hide Act;
    assert [a, b, c][1..] == [b, c];
    TwoActions(Act(s, a.0, a.1), b, c);
  }

  /** Ann sets and removes a dependency, Bob sets the opposite one, which the guard allows; when Ann
      then undoes her removal there is a cycle. */
  lemma UndoneRemovalClosesCycle()
    ensures var c := Core(LogOf([XY, NOT_XY, YX]), 3);
      && CoreValid(c) && StateOf(c) == ActAll(EMPTY_STATE, TURNED) && Acyclic(Deps(StateOf(c)))
      && !Acyclic(Deps(StateOf(UndoIds(c, [c.log[1].id]).core)))
  {
    hide Run, CoreValid, Replay, UndoIds, ActAll, Acyclic, Reaches, Deps, Succ, Wf, NewEntry, LogOf;
    var ops := [XY, NOT_XY, YX];
    var c := Core(LogOf(ops), 3);
    Happens(ops, 3);
    Happens([XY], 1);
    TurnedAround();
    NoDependenciesYet();
    RunsStayAcyclic(EMPTY_STATE, TURNED);
    LogPrefix(ops, 1);
    assert ops[..1] == [XY];
    NewEntryOp(NOT_XY);
    SuccIsDependsOn(StateOf(c), Y, X);
    assert DependsOn(StateOf(c).edges.vals, Y, X) by { assert StateOf(c).edges.vals[E2] == YX.edge; }
    ReachesSelf(Deps(StateOf(c)), Y);
    ReachesStep(Deps(StateOf(c)), Y, Y, X);
    AllDifferent();
    UndoneRemovalAcyclicIff(c, 1);
  }

  // ----- full-history bundles -----

  lemma {:induction false} FullOpsAppend(a: seq<Operation>, b: seq<Operation>, ids: set<NodeId>, edgeIds: set<EdgeId>)
    ensures FullOps(LogOf(a + b), ids, edgeIds) == FullOps(LogOf(a), ids, edgeIds) + FullOps(LogOf(b), ids, edgeIds)
    decreases |b|
  {
    hide NewEntry, InSubtree, Orphaned;
    if b == [] {
      assert a + b == a;
    } else {
      FullOpsAppend(a, Init(b), ids, edgeIds);
      assert Init(LogOf(a + b)) == LogOf(a + Init(b)) && Init(LogOf(b)) == LogOf(Init(b));
    }
  }

  lemma {:induction false} AllKept(ops: seq<Operation>, ids: set<NodeId>, edgeIds: set<EdgeId>)
    requires forall op :: op in ops ==> InSubtree(op, ids, edgeIds) && op.parentOps == []
    ensures FullOps(LogOf(ops), ids, edgeIds) == ops
  {
    hide NewEntry, InSubtree;
    if ops != [] {
      assert Last(ops) in ops && ops == Init(ops) + [Last(ops)];
      NewEntryOp(Last(ops));
      AllKept(Init(ops), ids, edgeIds);
      assert Init(LogOf(ops)) == LogOf(Init(ops));
    }
  }

  lemma LeftOut(op: Operation, ids: set<NodeId>, edgeIds: set<EdgeId>)
    requires !InSubtree(op, ids, edgeIds)
    ensures FullOps(LogOf([op]), ids, edgeIds) == []
  {
    hide NewEntry, InSubtree;
    NewEntryOp(op);
    assert Init(LogOf([op])) == [];
  }

  // P holds Q and Q holds X; P holds X too, by two edges, one of which is then deleted.
  const SHARED := [CreateNode(Text(P), [], 1, ANN), CreateNode(Text(Q), [], 2, ANN), CreateNode(Text(X), [], 3, ANN),
                   CreateEdge(Containment(E0, P, Q), [], 4, ANN), CreateEdge(Containment(E3, Q, X), [], 5, ANN)]
  const DOUBLED := CreateEdge(Containment(E1, P, X), [], 6, ANN)
  const KEPT := CreateEdge(Containment(E2, P, X), [], 7, ANN)
  const DROPPED := DeleteEdge(E1, [], 8, ANN)

  const HISTORY := SHARED + [DOUBLED] + [KEPT] + [DROPPED]

  const IDS := {P, Q, X}
  const EDGE_IDS := {E0, E2, E3}

  lemma SharedSoFar()
    ensures var s := Run(EMPTY_STATE, SHARED); Kids(s, P) == [Q] && s.edges.vals.Keys == {E0, E3}
  {
    hide Run, Kids, Text;
    var ops := SHARED;
    AllDifferent();
    AtFirst(P);
    assert ops[..0] == [] && ops[..1] == ops[..0] + [ops[0]] && ops[..2] == ops[..1] + [ops[1]];
    assert ops[..3] == ops[..2] + [ops[2]] && ops[..4] == ops[..3] + [ops[3]] && ops == ops[..4] + [ops[4]];
    Next(ops[..0], ops[0], P);
    Next(ops[..1], ops[1], P);
    Next(ops[..2], ops[2], P);
    Next(ops[..3], ops[3], P);
    Next(ops[..4], ops[4], P);
  }

  lemma SharedStates()
    ensures Kids(Run(EMPTY_STATE, HISTORY), P) == [Q] && Kids(Run(EMPTY_STATE, SHARED + [KEPT]), P) == [Q, X]
    ensures Run(EMPTY_STATE, HISTORY).edges.vals.Keys <= EDGE_IDS
  {
    hide Run, Kids, SHARED;
    AllDifferent();
    SharedSoFar();
    Next(SHARED, DOUBLED, P);
    Next(SHARED + [DOUBLED], KEPT, P);
    Next(SHARED + [DOUBLED] + [KEPT], DROPPED, P);
    Next(SHARED, KEPT, P);
  }

  lemma SharedInTime()
    ensures InTime(HISTORY, 8)
  {
    hide Text, Containment, P, Q, X;
  }

  lemma SharedInSubtree()
    ensures forall op :: op in SHARED ==> InSubtree(op, IDS, EDGE_IDS) && op.parentOps == []
    ensures InSubtree(KEPT, IDS, EDGE_IDS) && !InSubtree(DOUBLED, IDS, EDGE_IDS) && !InSubtree(DROPPED, IDS, EDGE_IDS)
  {
    AllDifferent();
    hide P, Q, X, E0, E1, E2, E3;
  }

  lemma SharedExport()
    ensures FullOps(LogOf(HISTORY), IDS, EDGE_IDS) == SHARED + [KEPT] && InTime(HISTORY, 8)
  {
    hide LogOf, FullOps, InSubtree, SHARED, IDS, EDGE_IDS, InTime;
    SharedInSubtree();
    SharedInTime();
    AllKept(SHARED, IDS, EDGE_IDS);
    AllKept([KEPT], IDS, EDGE_IDS);
    LeftOut(DOUBLED, IDS, EDGE_IDS);
    LeftOut(DROPPED, IDS, EDGE_IDS);
    FullOpsAppend(SHARED + [DOUBLED] + [KEPT], [DROPPED], IDS, EDGE_IDS);
    FullOpsAppend(SHARED + [DOUBLED], [KEPT], IDS, EDGE_IDS);
    FullOpsAppend(SHARED, [DOUBLED], IDS, EDGE_IDS);
    assert SHARED + [] + [KEPT] + [] == SHARED + [KEPT];
  }

  /** Full export of P's subtree: the deleted edge is left out of the history together with its
      creation, and with them the unlisting that its deletion caused, so P lists X again. */
  lemma FullExportRelists()
    ensures var log := LogOf(HISTORY);
      && CoreValid(Core(log, 8)) && HoldsOutEdges(Replay(log), IDS, EDGE_IDS)
      && Kids(Replay(log), P) == [Q] && Kids(Run(EMPTY_STATE, FullOps(log, IDS, EDGE_IDS)), P) == [Q, X]
  {
    hide Run, Kids, LogOf, CoreValid, Replay, FullOps, HISTORY, SHARED, IDS, EDGE_IDS, InTime;
    SharedStates();
    SharedExport();
    Happens(HISTORY, 8);
    var s := Replay(LogOf(HISTORY));
    forall e | e in s.edges.vals ensures e in EDGE_IDS { assert e in s.edges.vals.Keys; }
  }
}
