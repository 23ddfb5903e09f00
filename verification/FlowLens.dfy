/** The task lens: the cycle guard, the edits and the dependency layout of
    src/uaf/app/lenses/flow_lens.py. */
module FlowLens {
  import opened Collections
  import opened Graphs
  import opened JsonValues
  import opened Nodes
  import opened Operations
  import opened OperationLogs
  import opened Materializer
  import opened Inverses
  import opened Indexing
  import opened GraphDbs
  import opened Queries

  // ----- the dependency graph -----

  function DependencyTargets(edges: seq<Edge>): (r: seq<NodeId>)
    ensures forall t :: t in r <==> exists e :: e in edges && e.edgeType.DEPENDS_ON? && e.target == t
  {
    if edges == [] then []
    else (if edges[0].edgeType.DEPENDS_ON? then [edges[0].target] else []) + DependencyTargets(edges[1..])
  }

  /** The tasks a task depends on, edge by edge. */
  function Deps(s: State): Graph<NodeId> {
    map id | id in Sources(s) :: DependencyTargets(GetEdgesFrom(s, id))
  }

  function Sources(s: State): set<NodeId> {
    set e | e in s.edges.vals :: s.edges.vals[e].source
  }

  ghost predicate DependsOn(edges: map<EdgeId, Edge>, a: NodeId, b: NodeId) {
    exists e :: e in edges && edges[e].edgeType.DEPENDS_ON? && edges[e].source == a && edges[e].target == b
  }

  lemma {:induction false} EdgesFromHolds(keys: seq<EdgeId>, m: map<EdgeId, Edge>, p: NodeId, x: Edge)
    ensures x in EdgesFrom(keys, m, p) <==> exists e :: e in keys && e in m && m[e] == x && x.source == p
  {
    if keys != [] {
      EdgesFromHolds(keys[1..], m, p, x);
      assert forall e :: e in keys <==> e == keys[0] || e in keys[1..];
    }
  }

  /** What get_edges_from yields, filtered, is the successor list of the graph. */
  lemma SuccIsTargets(s: State, id: NodeId)
    requires Wf(s)
    ensures Succ(Deps(s), id) == DependencyTargets(GetEdgesFrom(s, id))
  {
    if id !in Sources(s) {
      var edges := GetEdgesFrom(s, id);
      if edges != [] {
        assert edges[0] in edges;
        EdgesFromHolds(s.edges.keys, s.edges.vals, id, edges[0]);
      }
    }
  }

  lemma SuccIsDependsOn(s: State, a: NodeId, b: NodeId)
    requires Wf(s)
    ensures b in Succ(Deps(s), a) <==> DependsOn(s.edges.vals, a, b)
  {
    SuccIsTargets(s, a);
    EdgeKeys(s);
    hide EdgesFrom, Deps, Succ, Wf;
    var edges := GetEdgesFrom(s, a);
    if b in Succ(Deps(s), a) {
      var x :| x in edges && x.edgeType.DEPENDS_ON? && x.target == b;
      EdgesFromHolds(s.edges.keys, s.edges.vals, a, x);
    }
    if DependsOn(s.edges.vals, a, b) {
      var e :| e in s.edges.vals && s.edges.vals[e].edgeType.DEPENDS_ON? && s.edges.vals[e].source == a &&
        s.edges.vals[e].target == b;
      EdgesFromHolds(s.edges.keys, s.edges.vals, a, s.edges.vals[e]);
    }
  }

  // ----- the guard -----

  /** _would_create_cycle: an exact reachability test. */
  method WouldCreateCycle(s: State, source: NodeId, target: NodeId) returns (r: bool)
    requires Wf(s)
    ensures r <==> source == target || Reaches(Deps(s), target, source)
  {
    if source == target {
      return true;
    }
    ghost var g := Deps(s);
    var visited: set<NodeId> := {};
    var stack := [target];
    WalkStart(g, target);
    while stack != []
      invariant WalkInvariant(g, target, visited, stack)
      invariant source !in visited
      decreases Vertices(g) + {target} - visited, |stack|
    {
      hide WalkInvariant, Reaches, Vertices, Deps, Wf;
      var current := Last(stack);
      WalkStackInside(g, target, visited, stack);
      if current == source {
        return true;
      }
      if current in visited {
        WalkSkip(g, target, visited, stack);
        stack := Init(stack);
      } else {
        var edges := GetEdgesFrom(s, current);
        SuccIsTargets(s, current);
        var pushed := PushTargets(edges);
        WalkVisit(g, target, visited, stack, pushed);
        visited := visited + {current};
        stack := Init(stack) + pushed;
      }
    }
    WalkEnd(g, target, visited);
    r := false;
  }

  method PushTargets(edges: seq<Edge>) returns (r: seq<NodeId>)
    ensures r == DependencyTargets(edges)
  {
    r := [];
    for i := 0 to |edges|
      invariant DependencyTargets(edges) == r + DependencyTargets(edges[i..])
    {
      if edges[i].edgeType.DEPENDS_ON? {
        r := r + [edges[i].target];
      }
    }
  }

  // ----- the actions -----

  const STATUSES: set<string> := {"todo", "in_progress", "blocked", "done", "dropped"}

  datatype FlowAction =
    | CreateTask(parent: NodeId, title: string, due: Option<Time>, start: Option<Time>, end: Option<Time>)
    | CreateTaskGroup(parent: NodeId, title: string)
    | UpdateTask(task: NodeId, title: string)
    | ToggleTask(task: NodeId)
    | SetTaskStatus(task: NodeId, status: string)
    | SetDueDate(task: NodeId, due: Option<Time>)
    | SetDateRange(task: NodeId, start: Option<Time>, end: Option<Time>)
    | SetDependency(source: NodeId, target: NodeId)
    | RemoveDependency(source: NodeId, target: NodeId)
    | ReorderNodes(parent: NodeId, order: seq<NodeId>)
    | DeleteTask(id: NodeId)
    | RenameArtifact(artifact: NodeId, title: string)

  datatype FlowError = TaskNotFound | InvalidStatus | WouldCycle

  /** Fresh ids, the time and the author of one action. */
  datatype Request = Request(nodeId: NodeId, edgeId: EdgeId, now: Time, who: string)

  function NextStatus(status: string): string {
    if status == "todo" then "in_progress" else if status == "in_progress" then "done" else "todo"
  }

  /** The task as an editing action leaves it. */
  function Edited(a: FlowAction, t: Node): Node
    requires t.Task?
  {
    match a
    case UpdateTask(_, title) => Task(t.meta, title, t.completed, t.dueDate, t.startDate, t.endDate, t.status)
    case ToggleTask(_) => t.(status := NextStatus(t.status), completed := NextStatus(t.status) == "done")
    case SetTaskStatus(_, status) => t.(status := status, completed := status == "done")
    case SetDueDate(_, due) => t.(dueDate := due)
    case SetDateRange(_, start, end) => t.(startDate := start, endDate := end)
    case _ => t
  }

  function EditOps(s: State, a: FlowAction, id: NodeId, q: Request): Result<seq<Operation>, FlowError> {
    if id in s.nodes && s.nodes[id].Task? then Ok([UpdateNode(Edited(a, s.nodes[id]), [], q.now, Some(q.who))])
    else Err(TaskNotFound)
  }

  function Retitled(n: Node, title: string): Node
    requires n.Artifact?
  {
    Artifact(n.meta, title, n.artifactType)
  }

  function RenameOps(s: State, id: NodeId, title: string, q: Request): seq<Operation> {
    if id in s.nodes && s.nodes[id].Artifact?
    then [UpdateNode(Retitled(s.nodes[id], title), [], q.now, Some(q.who))] else []
  }

  function NewTaskOps(parent: NodeId, title: string, due: Option<Time>, start: Option<Time>, end: Option<Time>,
                      q: Request): seq<Operation> {
    var task := Task(Meta(q.nodeId, TASK, q.now, q.now, None, None), title, false, due, start, end, "todo");
    [CreateNode(task, [], q.now, Some(q.who)),
     CreateEdge(Edge(q.edgeId, parent, q.nodeId, CONTAINS, q.now, []), [], q.now, Some(q.who))]
  }

  /** The first edge recording the dependency. */
  function FirstDependency(edges: seq<Edge>, target: NodeId): Option<Edge> {
    if edges == [] then None
    else if edges[0].edgeType.DEPENDS_ON? && edges[0].target == target then Some(edges[0])
    else FirstDependency(edges[1..], target)
  }

  function DropDependencies(edges: seq<Edge>, q: Request): (r: seq<Operation>)
    ensures forall op :: op in r ==> op.DeleteEdge?
  {
    if edges == [] then []
    else
      var rest := DropDependencies(edges[1..], q);
      if edges[0].edgeType.DEPENDS_ON? then [DeleteEdge(edges[0].id, [], q.now, Some(q.who))] + rest else rest
  }

  /** The operations an action issues in a state, or why it is refused. */
  ghost function Plan(s: State, a: FlowAction, q: Request): Result<seq<Operation>, FlowError> {
    match a
    case CreateTask(parent, title, due, start, end) => Ok(NewTaskOps(parent, title, due, start, end, q))
    case CreateTaskGroup(parent, title) => Ok(NewTaskOps(parent, title, None, None, None, q))
    case UpdateTask(id, _) => EditOps(s, a, id, q)
    case ToggleTask(id) => EditOps(s, a, id, q)
    case SetTaskStatus(id, status) => if status !in STATUSES then Err(InvalidStatus) else EditOps(s, a, id, q)
    case SetDueDate(id, _) => EditOps(s, a, id, q)
    case SetDateRange(id, _, _) => EditOps(s, a, id, q)
    case SetDependency(source, target) =>
      if source == target || Reaches(Deps(s), target, source) then Err(WouldCycle)
      else Ok([CreateEdge(Edge(q.edgeId, source, target, DEPENDS_ON, q.now, []), [], q.now, Some(q.who))])
    case RemoveDependency(source, target) =>
      var edge := FirstDependency(GetEdgesFrom(s, source), target);
      Ok(if edge.Some? then [DeleteEdge(edge.value.id, [], q.now, Some(q.who))] else [])
    case ReorderNodes(parent, order) => Ok([ReorderChildren(parent, order, [], q.now, None)])
    case DeleteTask(id) => Ok(DropDependencies(GetEdgesFrom(s, id), q) + [DeleteNode(id, [], q.now, Some(q.who))])
    case RenameArtifact(id, title) =>
      Ok(RenameOps(s, id, title, q))
  }

  /** The state after an action; a refused one changes nothing. */
  ghost function Act(s: State, a: FlowAction, q: Request): State {
    match Plan(s, a, q)
    case Ok(ops) => Run(s, ops)
    case Err(_) => s
  }

  method PlanAction(s: State, a: FlowAction, q: Request) returns (r: Result<seq<Operation>, FlowError>)
    requires Wf(s)
    ensures r == Plan(s, a, q)
  {
    hide Wf, Reaches, Deps;
    match a
    case CreateTask(parent, title, due, start, end) => return Ok(NewTaskOps(parent, title, due, start, end, q));
    case CreateTaskGroup(parent, title) => return Ok(NewTaskOps(parent, title, None, None, None, q));
    case UpdateTask(id, _) => return EditOps(s, a, id, q);
    case ToggleTask(id) => return EditOps(s, a, id, q);
    case SetTaskStatus(id, status) =>
      if status !in STATUSES {
        return Err(InvalidStatus);
      }
      return EditOps(s, a, id, q);
    case SetDueDate(id, _) => return EditOps(s, a, id, q);
    case SetDateRange(id, _, _) => return EditOps(s, a, id, q);
    case SetDependency(source, target) =>
      var cycle := WouldCreateCycle(s, source, target);
      if cycle {
        return Err(WouldCycle);
      }
      return Ok([CreateEdge(Edge(q.edgeId, source, target, DEPENDS_ON, q.now, []), [], q.now, Some(q.who))]);
    case RemoveDependency(source, target) =>
      var edges := GetEdgesFrom(s, source);
      for i := 0 to |edges|
        invariant FirstDependency(edges, target) == FirstDependency(edges[i..], target)
      {
        if edges[i].edgeType.DEPENDS_ON? && edges[i].target == target {
          return Ok([DeleteEdge(edges[i].id, [], q.now, Some(q.who))]);
        }
      }
      return Ok([]);
    case ReorderNodes(parent, order) => return Ok([ReorderChildren(parent, order, [], q.now, None)]);
    case DeleteTask(id) =>
      var edges := GetEdgesFrom(s, id);
      var ops := [];
      for i := 0 to |edges|
        invariant DropDependencies(edges, q) == ops + DropDependencies(edges[i..], q)
      {
        if edges[i].edgeType.DEPENDS_ON? {
          ops := ops + [DeleteEdge(edges[i].id, [], q.now, Some(q.who))];
        }
      }
      assert ops == DropDependencies(edges, q);
      return Ok(ops + [DeleteNode(id, [], q.now, Some(q.who))]);
    case RenameArtifact(id, title) =>
      return Ok(RenameOps(s, id, title, q));
  }

  // ----- the graph stays acyclic -----

  predicate AddsDependency(op: Operation) {
    op.CreateEdge? && op.edge.edgeType.DEPENDS_ON?
  }

  lemma {:induction false} RunKeepsWf(s: State, ops: seq<Operation>)
    requires Wf(s)
    ensures Wf(Run(s, ops))
    decreases |ops|
  {
    hide Step, NewEntry, Wf;
    if ops != [] {
      StepKeepsWf(s, NewEntry(ops[0]));
      RunKeepsWf(Step(s, NewEntry(ops[0])), ops[1..]);
    }
  }

  lemma StepDependency(s: State, op: Operation, a: NodeId, b: NodeId)
    ensures var t := Step(s, NewEntry(op));
      DependsOn(t.edges.vals, a, b) ==>
        DependsOn(s.edges.vals, a, b) || (AddsDependency(op) && op.edge.source == a && op.edge.target == b)
  {
    NewEntryOp(op);
    StepParts(s, NewEntry(op));
    hide Step, NewEntry;
  }

  /** Operations that add no dependency leave none that was not there. */
  lemma {:induction false} RunDependency(s: State, ops: seq<Operation>, a: NodeId, b: NodeId)
    requires forall op :: op in ops ==> !AddsDependency(op)
    requires DependsOn(Run(s, ops).edges.vals, a, b)
    ensures DependsOn(s.edges.vals, a, b)
    decreases |ops|
  {
    hide Step, NewEntry, DependsOn, AddsDependency;
    if ops != [] {
      assert ops[0] in ops;
      RunDependency(Step(s, NewEntry(ops[0])), ops[1..], a, b);
      StepDependency(s, ops[0], a, b);
    }
  }

  lemma OtherActionsAddNone(s: State, a: FlowAction, q: Request)
    requires !a.SetDependency? && Plan(s, a, q).Ok?
    ensures forall op :: op in Plan(s, a, q).value ==> !AddsDependency(op)
  {
    hide Edited, Deps, GetEdgesFrom, FirstDependency, STATUSES;
  }

  lemma NewDependencyAdds(s: State, op: Operation)
    requires Wf(s) && AddsDependency(op)
    ensures Wf(Run(s, [op])) && Adds(Deps(s), Deps(Run(s, [op])), op.edge.source, op.edge.target)
  {
    RunKeepsWf(s, [op]);
    RunOne(s, op);
    var t := Run(s, [op]);
    hide Run, Deps, Wf, Succ;
    forall x, y | y in Succ(Deps(t), x) ensures y in Succ(Deps(s), x) || (x == op.edge.source && y == op.edge.target) {
      SuccIsDependsOn(t, x, y);
      SuccIsDependsOn(s, x, y);
    }
  }

  /** Operations without a new dependency keep the graph acyclic. */
  lemma DroppingKeepsAcyclic(s: State, ops: seq<Operation>)
    requires Wf(s) && Acyclic(Deps(s)) && forall op :: op in ops ==> !AddsDependency(op)
    ensures Acyclic(Deps(Run(s, ops)))
  {
    hide Acyclic, Deps, Wf, Run, AddsDependency, DependsOn, Succ;
    var t := Run(s, ops);
    RunKeepsWf(s, ops);
    forall x, y | y in Succ(Deps(t), x) ensures y in Succ(Deps(s), x) {
      SuccIsDependsOn(t, x, y);
      RunDependency(s, ops, x, y);
      SuccIsDependsOn(s, x, y);
    }
    FewerEdgesKeepAcyclic(Deps(s), Deps(t));
  }

  /** Every action, accepted or refused, keeps the dependencies acyclic. */
  lemma ActKeepsAcyclic(s: State, a: FlowAction, q: Request)
    requires Wf(s) && Acyclic(Deps(s))
    ensures Wf(Act(s, a, q)) && Acyclic(Deps(Act(s, a, q)))
  {
    hide Acyclic, Deps, Wf, Run, Reaches, Adds;
    if a.SetDependency? {
      var edge := Edge(q.edgeId, a.source, a.target, DEPENDS_ON, q.now, []);
      NewDependencyAdds(s, CreateEdge(edge, [], q.now, Some(q.who)));
      if Plan(s, a, q).Ok? {
        AddEdgeKeepsAcyclic(Deps(s), Deps(Act(s, a, q)), a.source, a.target);
      }
    } else if Plan(s, a, q).Ok? {
      OtherActionsAddNone(s, a, q);
      hide Plan, AddsDependency;
      RunKeepsWf(s, Plan(s, a, q).value);
      DroppingKeepsAcyclic(s, Plan(s, a, q).value);
    }
  }

  ghost function ActAll(s: State, actions: seq<(FlowAction, Request)>): State
    decreases |actions|
  {
    if actions == [] then s else ActAll(Act(s, actions[0].0, actions[0].1), actions[1..])
  }

  /** No run of actions, from an acyclic graph, ever closes a dependency cycle. */
  lemma {:induction false} RunsStayAcyclic(s: State, actions: seq<(FlowAction, Request)>)
    requires Wf(s) && Acyclic(Deps(s))
    ensures Wf(ActAll(s, actions)) && Acyclic(Deps(ActAll(s, actions)))
    decreases |actions|
  {
    hide Wf, Acyclic, Deps, Act;
    if actions != [] {
      ActKeepsAcyclic(s, actions[0].0, actions[0].1);
      RunsStayAcyclic(Act(s, actions[0].0, actions[0].1), actions[1..]);
    }
  }

  /** Storing a dependency under a new id makes a cycle exactly when its target reaches its source. */
  lemma NewDependencyAcyclicIff(s: State, op: Operation)
    requires Wf(s) && Acyclic(Deps(s)) && AddsDependency(op) && op.edge.id !in s.edges.vals
    ensures Acyclic(Deps(Run(s, [op]))) <==>
      op.edge.source != op.edge.target && !Reaches(Deps(s), op.edge.target, op.edge.source)
  {
    hide Run, Deps, Wf, Acyclic, Reaches, Adds, Succ;
    NewDependencyAdds(s, op);
    NewDependencyKeeps(s, op);
    AcyclicIff(Deps(s), Deps(Run(s, [op])), op.edge.source, op.edge.target);
  }

  /** The guard refuses only what it must: with a new edge id, setting a dependency is refused if
      and only if the graph with that edge would have a cycle. */
  lemma RefusedIffCyclic(s: State, source: NodeId, target: NodeId, q: Request)
    requires Wf(s) && Acyclic(Deps(s)) && q.edgeId !in s.edges.vals
    ensures var edge := Edge(q.edgeId, source, target, DEPENDS_ON, q.now, []);
      Plan(s, SetDependency(source, target), q) == Err(WouldCycle) <==>
        !Acyclic(Deps(Run(s, [CreateEdge(edge, [], q.now, Some(q.who))])))
  {
    hide Run, Deps, Wf, Acyclic, Reaches;
    PlanRefuses(s, source, target, q);
    hide Plan;
    NewDependencyAcyclicIff(s,
      CreateEdge(Edge(q.edgeId, source, target, DEPENDS_ON, q.now, []), [], q.now, Some(q.who)));
  }

  /** Undo does not pass the guard: undoing a logged removal of a dependency puts the edge back, and
      that closes a cycle exactly when the target has come to reach the source in the meantime. */
  lemma UndoneRemovalAcyclicIff(c: Core, i: nat)
    requires CoreValid(c) && Acyclic(Deps(StateOf(c))) && i < |c.log| && c.log[i].op.DeleteEdge?
    requires var id := c.log[i].op.edgeId;
      && id in Replay(c.log[..i]).edges.vals && Replay(c.log[..i]).edges.vals[id].edgeType.DEPENDS_ON?
      && id !in StateOf(c).edges.vals
    ensures var edge := Replay(c.log[..i]).edges.vals[c.log[i].op.edgeId];
      Acyclic(Deps(StateOf(UndoIds(c, [c.log[i].id]).core))) <==>
        edge.source != edge.target && !Reaches(Deps(StateOf(c)), edge.target, edge.source)
  {
    hide ComputeOperationId, Run, Deps, Wf, Acyclic, Reaches, LastEdge, Replay, CoreValid, UndoIds;
    var op := c.log[i].op;
    UndoOfOne(c, i);
    ReplayWf(c.log);
    BackwardSearchEdge(c.log[..i], op.edgeId);
    NewDependencyAcyclicIff(StateOf(c),
      CreateEdge(LastEdge(c.log[..i], op.edgeId).value, [], c.clock + 1, op.principal));
  }

  /** Nor does redo: setting a logged dependency again closes a cycle under the same condition. */
  lemma RedoneDependencyAcyclicIff(c: Core, i: nat)
    requires CoreValid(c) && Acyclic(Deps(StateOf(c))) && i < |c.log| && AddsDependency(c.log[i].op)
    requires c.log[i].op.edge.id !in StateOf(c).edges.vals
    ensures var edge := c.log[i].op.edge;
      Acyclic(Deps(StateOf(RedoIds(c, [c.log[i].id]).core))) <==>
        edge.source != edge.target && !Reaches(Deps(StateOf(c)), edge.target, edge.source)
  {
    hide ComputeOperationId, Run, Deps, Wf, Acyclic, Reaches, Replay, CoreValid, RedoIds, Restamp;
    var op := Restamp(c.log[i].op, c.clock + 1);
    RedoOfOne(c, i);
    ReplayWf(c.log);
    assert op.CreateEdge? && op.edge == c.log[i].op.edge;
    NewDependencyAcyclicIff(StateOf(c), op);
  }

  lemma PlanRefuses(s: State, source: NodeId, target: NodeId, q: Request)
    ensures Plan(s, SetDependency(source, target), q) == Err(WouldCycle) <==>
      source == target || Reaches(Deps(s), target, source)
  {
    hide Reaches, Deps;
  }

  lemma NewDependencyKeeps(s: State, op: Operation)
    requires Wf(s) && AddsDependency(op) && op.edge.id !in s.edges.vals
    ensures var t := Run(s, [op]);
      op.edge.target in Succ(Deps(t), op.edge.source) && forall x, y :: y in Succ(Deps(s), x) ==> y in Succ(Deps(t), x)
  {
    RunKeepsWf(s, [op]);
    RunOne(s, op);
    var t := Run(s, [op]);
    hide Run, Deps, Wf, Succ;
    forall x, y | y in Succ(Deps(s), x) ensures y in Succ(Deps(t), x) {
      SuccIsDependsOn(s, x, y);
      SuccIsDependsOn(t, x, y);
      var e :| e in s.edges.vals && s.edges.vals[e].edgeType.DEPENDS_ON? && s.edges.vals[e].source == x &&
        s.edges.vals[e].target == y;
      assert t.edges.vals[e] == s.edges.vals[e];
    }
    SuccIsDependsOn(t, op.edge.source, op.edge.target);
    assert t.edges.vals[op.edge.id] == op.edge;
  }

  /** The edge records that a depends on b. */
  ghost predicate Records(s: State, e: EdgeId, a: NodeId, b: NodeId) {
    && e in s.edges.vals && s.edges.vals[e].edgeType.DEPENDS_ON?
    && s.edges.vals[e].source == a && s.edges.vals[e].target == b
  }

  lemma {:induction false} FirstDependencyFound(edges: seq<Edge>, target: NodeId)
    ensures var r := FirstDependency(edges, target);
      if r.Some? then r.value in edges && r.value.edgeType.DEPENDS_ON? && r.value.target == target
      else forall e :: e in edges && e.edgeType.DEPENDS_ON? ==> e.target != target
  {
    if edges != [] {
      FirstDependencyFound(edges[1..], target);
    }
  }

  lemma RemovalDropsOne(s: State, source: NodeId, target: NodeId, q: Request) returns (e: EdgeId)
    requires Wf(s) && EdgesKeyed(s) && DependsOn(s.edges.vals, source, target)
    ensures Records(s, e, source, target)
    ensures Act(s, RemoveDependency(source, target), q).edges.vals == s.edges.vals - {e}
  {
    var edges := GetEdgesFrom(s, source);
    FirstDependencyFound(edges, target);
    EdgeKeys(s);
    hide Run, EdgesFrom, Wf, FirstDependency, GetEdgesFrom;
    var known :| known in s.edges.vals && s.edges.vals[known].edgeType.DEPENDS_ON?
      && s.edges.vals[known].source == source && s.edges.vals[known].target == target;
    EdgesFromHolds(s.edges.keys, s.edges.vals, source, s.edges.vals[known]);
    var first := FirstDependency(edges, target).value;
    EdgesFromHolds(s.edges.keys, s.edges.vals, source, first);
    e := first.id;
    RunOne(s, DeleteEdge(e, [], q.now, Some(q.who)));
  }

  /** Removing a dependency removes it if and only if a single edge records it: one set twice
      has to be removed twice. */
  lemma RemovedIffRecordedOnce(s: State, source: NodeId, target: NodeId, q: Request)
    requires Wf(s) && EdgesKeyed(s) && DependsOn(s.edges.vals, source, target)
    ensures !DependsOn(Act(s, RemoveDependency(source, target), q).edges.vals, source, target) <==>
      forall e1, e2 :: Records(s, e1, source, target) && Records(s, e2, source, target) ==> e1 == e2
  {
    var e := RemovalDropsOne(s, source, target, q);
    hide Act, Wf;
    var after := Act(s, RemoveDependency(source, target), q).edges.vals;
    if e1, e2 :| Records(s, e1, source, target) && Records(s, e2, source, target) && e1 != e2 {
      assert e1 in after || e2 in after;
    }
    if d :| d in after && after[d].edgeType.DEPENDS_ON? && after[d].source == source && after[d].target == target {
      assert Records(s, d, source, target) && Records(s, e, source, target);
    }
  }
}
