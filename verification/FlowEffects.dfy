/** What the actions of the task lens do to the stored graph: src/uaf/app/lenses/flow_lens.py. */
module FlowEffects {
  import opened Collections
  import opened JsonValues
  import opened Nodes
  import opened Operations
  import opened OperationLogs
  import opened Materializer
  import opened Inverses
  import opened Indexing
  import opened Queries
  import opened FlowLens

  /** Same edges and child lists; the one node that may differ is `id`. */
  ghost predicate OnlyNode(s: State, t: State, id: NodeId) {
    && t.edges.vals == s.edges.vals && (forall p :: Kids(t, p) == Kids(s, p))
    && t.nodes.Keys == s.nodes.Keys && forall x :: x in s.nodes && x != id ==> t.nodes[x] == s.nodes[x]
  }

  /** The task an action edits. */
  function EditedTask(a: FlowAction): Option<NodeId> {
    match a
    case UpdateTask(id, _) => Some(id)
    case ToggleTask(id) => Some(id)
    case SetTaskStatus(id, _) => Some(id)
    case SetDueDate(id, _) => Some(id)
    case SetDateRange(id, _, _) => Some(id)
    case _ => None
  }

  /** An edit sets its own fields and no others; toggling goes round "todo", "in_progress" and "done"
      and takes any other status to "todo"; a task is completed exactly when its status becomes "done". */
  ghost predicate TaskAfter(a: FlowAction, before: Node, after: Node)
    requires before.Task?
  {
    && after.Task? && after.meta == before.meta
    && after.title == (if a.UpdateTask? then a.title else before.title)
    && after.dueDate == (if a.SetDueDate? then a.due else before.dueDate)
    && after.startDate == (if a.SetDateRange? then a.start else before.startDate)
    && after.endDate == (if a.SetDateRange? then a.end else before.endDate)
    && (a.SetTaskStatus? ==> after.status == a.status && (after.completed <==> a.status == "done"))
    && (a.ToggleTask? && before.status == "todo" ==> after.status == "in_progress" && !after.completed)
    && (a.ToggleTask? && before.status == "in_progress" ==> after.status == "done" && after.completed)
    && (a.ToggleTask? && before.status !in {"todo", "in_progress"} ==> after.status == "todo" && !after.completed)
    && (!a.SetTaskStatus? && !a.ToggleTask? ==>
          after.status == before.status && after.completed == before.completed)
  }

  lemma EditedTaskAfter(a: FlowAction, t: Node)
    requires t.Task? && EditedTask(a).Some?
    ensures TaskAfter(a, t, Edited(a, t))
  {
  }

  lemma EditedKeepsId(a: FlowAction, t: Node)
    requires t.Task?
    ensures Edited(a, t).meta == t.meta
  {
  }

  /** An edit of a task changes that task and nothing else. */
  lemma EditEffect(s: State, a: FlowAction, id: NodeId, q: Request)
    requires NodesKeyed(s) && EditedTask(a) == Some(id) && id in s.nodes && s.nodes[id].Task?
    requires a.SetTaskStatus? ==> a.status in {"todo", "in_progress", "blocked", "done", "dropped"}
    ensures var t := Act(s, a, q); OnlyNode(s, t, id) && TaskAfter(a, s.nodes[id], t.nodes[id])
  {
    hide Act, Run, Kids, Plan, Edited, TaskAfter;
    EditPlanned(s, a, id, q);
    EditedTaskAfter(a, s.nodes[id]);
    EditedKeepsId(a, s.nodes[id]);
    ActRuns(s, a, q);
    RunOne(s, UpdateNode(Edited(a, s.nodes[id]), [], q.now, Some(q.who)));
  }

  lemma EditPlanned(s: State, a: FlowAction, id: NodeId, q: Request)
    requires EditedTask(a) == Some(id)
    requires a.SetTaskStatus? ==> a.status in {"todo", "in_progress", "blocked", "done", "dropped"}
    ensures Plan(s, a, q) == if id in s.nodes && s.nodes[id].Task?
      then Ok([UpdateNode(Edited(a, s.nodes[id]), [], q.now, Some(q.who))]) else Err(TaskNotFound)
  {
    hide Edited, Run;
  }

  /** An edit of something that is no task, or to a status that is none, is refused. */
  lemma EditRefused(s: State, a: FlowAction, id: NodeId, q: Request)
    requires EditedTask(a) == Some(id)
    ensures Plan(s, a, q).Err? <==>
      || !(id in s.nodes && s.nodes[id].Task?)
      || (a.SetTaskStatus? && a.status !in {"todo", "in_progress", "blocked", "done", "dropped"})
  {
    hide Edited, Run;
  }

  /** A refused action changes nothing; an accepted one is the run of its operations. */
  lemma ActRuns(s: State, a: FlowAction, q: Request)
    ensures Act(s, a, q) == if Plan(s, a, q).Ok? then Run(s, Plan(s, a, q).value) else s
  {
  }

  /** A new task is open and has the title and the dates asked for. */
  ghost predicate NewTask(a: FlowAction, q: Request, task: Node)
    requires a.CreateTask? || a.CreateTaskGroup?
  {
    && task.Task? && task.title == a.title && !task.completed && task.status == "todo"
    && task.meta.id == q.nodeId && task.meta.nodeType.TASK?
    && task.meta.createdAt == q.now && task.meta.updatedAt == q.now
    && task.dueDate == (if a.CreateTask? then a.due else None)
    && task.startDate == (if a.CreateTask? then a.start else None)
    && task.endDate == (if a.CreateTask? then a.end else None)
  }

  ghost predicate HoldsChild(edge: Edge, id: EdgeId, parent: NodeId, child: NodeId) {
    edge.id == id && edge.source == parent && edge.target == child && edge.edgeType.CONTAINS?
  }

  lemma CreatePlanned(s: State, a: FlowAction, q: Request)
    requires a.CreateTask? || a.CreateTaskGroup?
    ensures Plan(s, a, q).Ok?
    ensures var ops := Plan(s, a, q).value;
      && |ops| == 2 && ops[0].CreateNode? && NewTask(a, q, ops[0].node)
      && ops[1].CreateEdge? && HoldsChild(ops[1].edge, q.edgeId, a.parent, q.nodeId)
  {
  }

  lemma RunTwo(s: State, ops: seq<Operation>)
    requires |ops| == 2
    ensures AfterOp(s, ops[0], Run(s, [ops[0]])) && AfterOp(Run(s, [ops[0]]), ops[1], Run(s, ops))
  {
    RunOne(s, ops[0]);
    RunOne(Run(s, [ops[0]]), ops[1]);
    RunAppend(s, [ops[0]], [ops[1]]);
    assert ops == [ops[0]] + [ops[1]];
    hide Run, AfterOp;
  }

  /** A new task stands last in its parent, held there by one edge; nothing else changes. */
  lemma CreateEffect(s: State, a: FlowAction, q: Request)
    requires a.CreateTask? || a.CreateTaskGroup?
    ensures var t := Act(s, a, q);
      && q.nodeId in t.nodes && NewTask(a, q, t.nodes[q.nodeId])
      && t.nodes == s.nodes[q.nodeId := t.nodes[q.nodeId]]
      && q.edgeId in t.edges.vals && HoldsChild(t.edges.vals[q.edgeId], q.edgeId, a.parent, q.nodeId)
      && t.edges.vals == s.edges.vals[q.edgeId := t.edges.vals[q.edgeId]]
      && forall p :: p != a.parent || q.nodeId in Kids(s, p) ==> Kids(t, p) == Kids(s, p)
    ensures q.nodeId !in Kids(s, a.parent) ==> Kids(Act(s, a, q), a.parent) == Kids(s, a.parent) + [q.nodeId]
  {
    hide Run, Kids, Plan, Act, NewTask;
    CreatePlanned(s, a, q);
    RunTwo(s, Plan(s, a, q).value);
    ActRuns(s, a, q);
  }

  /** An accepted dependency is there afterwards, and no other one has come or gone. */
  lemma DependencyEffect(s: State, source: NodeId, target: NodeId, q: Request)
    requires q.edgeId !in s.edges.vals && Plan(s, SetDependency(source, target), q).Ok?
    ensures var t := Act(s, SetDependency(source, target), q);
      && t.nodes == s.nodes && (forall p :: Kids(t, p) == Kids(s, p))
      && t.edges.vals.Keys == s.edges.vals.Keys + {q.edgeId}
      && (forall e :: e in s.edges.vals ==> t.edges.vals[e] == s.edges.vals[e])
      && forall a, b :: DependsOn(t.edges.vals, a, b) <==>
        DependsOn(s.edges.vals, a, b) || (a == source && b == target)
  {
    var edge := Edge(q.edgeId, source, target, DEPENDS_ON, q.now, []);
    var t := Act(s, SetDependency(source, target), q);
    DependencyPlanned(s, source, target, q);
    ActRuns(s, SetDependency(source, target), q);
    hide Run, Kids, Plan, Act;
    RunOne(s, CreateEdge(edge, [], q.now, Some(q.who)));
    assert t.edges.vals == s.edges.vals[q.edgeId := edge];
    forall a, b ensures DependsOn(t.edges.vals, a, b) <==>
        DependsOn(s.edges.vals, a, b) || (a == source && b == target) {
      if DependsOn(s.edges.vals, a, b) {
        var e :| e in s.edges.vals && s.edges.vals[e].edgeType.DEPENDS_ON? && s.edges.vals[e].source == a
          && s.edges.vals[e].target == b;
        assert e in t.edges.vals;
      }
      assert q.edgeId in t.edges.vals;
    }
  }

  lemma DependencyPlanned(s: State, source: NodeId, target: NodeId, q: Request)
    requires Plan(s, SetDependency(source, target), q).Ok?
    ensures Plan(s, SetDependency(source, target), q)
      == Ok([CreateEdge(Edge(q.edgeId, source, target, DEPENDS_ON, q.now, []), [], q.now, Some(q.who))])
  {
  }

  ghost predicate HoldsDependency(edges: seq<Edge>, e: EdgeId) {
    exists x :: x in edges && x.edgeType.DEPENDS_ON? && x.id == e
  }

  /** Dropping the dependencies of a list deletes exactly its dependency edges. */
  lemma {:induction false} DropsEach(s: State, edges: seq<Edge>, q: Request)
    requires forall x :: x in edges && x.edgeType.DEPENDS_ON? && x.id in s.edges.vals ==>
      s.edges.vals[x.id].edgeType.DEPENDS_ON?
    ensures forall e :: Erases(DropDependencies(edges, q), e) <==> HoldsDependency(edges, e)
    ensures var t := Run(s, DropDependencies(edges, q));
      && t.nodes == s.nodes && (forall p :: Kids(t, p) == Kids(s, p))
      && t.edges.vals == map e | e in s.edges.vals && !HoldsDependency(edges, e) :: s.edges.vals[e]
    decreases |edges|
  {
    hide Kids, HoldsDependency, Erases, Run;
    if edges == [] {
      NoneHeld(s);
    } else {
      var op := DeleteEdge(edges[0].id, [], q.now, Some(q.who));
      var next := if edges[0].edgeType.DEPENDS_ON? then Run(s, [op]) else s;
      DropsHead(s, edges, q);
      assert forall x :: x in edges[1..] ==> x in edges;
      RunOne(s, op);
      DropsEach(next, edges[1..], q);
    }
  }

  lemma NoneHeld(s: State)
    ensures Run(s, []) == s && forall e :: !HoldsDependency([], e) && !Erases([], e)
  {
  }

  lemma DropsHead(s: State, edges: seq<Edge>, q: Request)
    requires edges != []
    ensures var op := DeleteEdge(edges[0].id, [], q.now, Some(q.who));
      var next := if edges[0].edgeType.DEPENDS_ON? then Run(s, [op]) else s;
      Run(s, DropDependencies(edges, q)) == Run(next, DropDependencies(edges[1..], q))
    ensures forall e :: HoldsDependency(edges, e) <==>
      HoldsDependency(edges[1..], e) || (edges[0].edgeType.DEPENDS_ON? && edges[0].id == e)
    ensures forall e :: Erases(DropDependencies(edges, q), e) <==>
      Erases(DropDependencies(edges[1..], q), e) || (edges[0].edgeType.DEPENDS_ON? && edges[0].id == e)
  {
    RunAppend(s, [DeleteEdge(edges[0].id, [], q.now, Some(q.who))], DropDependencies(edges[1..], q));
    hide Run;
    assert forall x :: x in edges <==> x == edges[0] || x in edges[1..];
  }

  /** Deleting a task removes the node and what it depends on, but not what depends on it. */
  lemma DeleteEffect(s: State, id: NodeId, q: Request)
    requires Wf(s) && EdgesKeyed(s)
    ensures var t := Act(s, DeleteTask(id), q);
      && t.nodes == s.nodes - {id}
      && (forall p :: Kids(t, p) == if p == id then [] else Remove(Kids(s, p), id))
      && (forall e :: e in t.edges.vals <==>
            e in s.edges.vals && !(s.edges.vals[e].edgeType.DEPENDS_ON? && s.edges.vals[e].source == id))
      && forall e :: e in t.edges.vals ==> t.edges.vals[e] == s.edges.vals[e]
  {
    hide Act, Run, Kids, Remove, Wf, EdgesKeyed, GetEdgesFrom, DropDependencies;
    var drops, del := DropDependencies(GetEdgesFrom(s, id), q), DeleteNode(id, [], q.now, Some(q.who));
    DeletePlanned(s, id, q);
    DropsOwn(s, id, q);
    RunOne(Run(s, drops), del);
    RunAppend(s, drops, [del]);
  }

  lemma DeletePlanned(s: State, id: NodeId, q: Request)
    ensures Act(s, DeleteTask(id), q) ==
      Run(s, DropDependencies(GetEdgesFrom(s, id), q) + [DeleteNode(id, [], q.now, Some(q.who))])
  {
    hide Run;
  }

  /** The dependencies of a task are dropped, and nothing else. */
  lemma DropsOwn(s: State, id: NodeId, q: Request)
    requires Wf(s) && EdgesKeyed(s)
    ensures var t := Run(s, DropDependencies(GetEdgesFrom(s, id), q));
      && t.nodes == s.nodes && (forall p :: Kids(t, p) == Kids(s, p))
      && t.edges.vals == map e | e in s.edges.vals
        && !(s.edges.vals[e].edgeType.DEPENDS_ON? && s.edges.vals[e].source == id) :: s.edges.vals[e]
  {
    hide Run, Kids, Wf, GetEdgesFrom, DropDependencies, HoldsDependency, EdgesKeyed;
    var edges := GetEdgesFrom(s, id);
    forall x | x in edges && x.id in s.edges.vals
      ensures x.edgeType.DEPENDS_ON? ==> s.edges.vals[x.id].edgeType.DEPENDS_ON?
    {
      EdgesFromMember(s, id, x);
    }
    DropsEach(s, edges, q);
    forall e | e in s.edges.vals
      ensures HoldsDependency(edges, e) <==> s.edges.vals[e].edgeType.DEPENDS_ON? && s.edges.vals[e].source == id
    {
      HeldIff(s, id, e);
    }
  }

  lemma EdgesFromMember(s: State, id: NodeId, x: Edge)
    requires Wf(s) && EdgesKeyed(s)
    ensures x in GetEdgesFrom(s, id) <==> x.id in s.edges.vals && s.edges.vals[x.id] == x && x.source == id
  {
    EdgeKeys(s);
    EdgesFromHolds(s.edges.keys, s.edges.vals, id, x);
    hide EdgesFrom, Wf;
  }

  lemma HeldIff(s: State, id: NodeId, e: EdgeId)
    requires Wf(s) && EdgesKeyed(s) && e in s.edges.vals
    ensures HoldsDependency(GetEdgesFrom(s, id), e) <==>
      s.edges.vals[e].edgeType.DEPENDS_ON? && s.edges.vals[e].source == id
  {
    hide GetEdgesFrom, Wf;
    EdgesFromMember(s, id, s.edges.vals[e]);
    if HoldsDependency(GetEdgesFrom(s, id), e) {
      var x :| x in GetEdgesFrom(s, id) && x.edgeType.DEPENDS_ON? && x.id == e;
      EdgesFromMember(s, id, x);
    }
  }

  /** The first key, in dictionary order, of an edge recording the dependency. */
  ghost predicate FirstRecord(keys: seq<EdgeId>, m: map<EdgeId, Edge>, source: NodeId, target: NodeId, i: int) {
    && 0 <= i < |keys| && IsRecord(m, keys[i], source, target)
    && forall j :: 0 <= j < i ==> !IsRecord(m, keys[j], source, target)
  }

  ghost predicate IsRecord(m: map<EdgeId, Edge>, e: EdgeId, source: NodeId, target: NodeId) {
    e in m && m[e].edgeType.DEPENDS_ON? && m[e].source == source && m[e].target == target
  }

  lemma {:induction false} FirstRecordFound(keys: seq<EdgeId>, m: map<EdgeId, Edge>, source: NodeId, target: NodeId)
    ensures var r := FirstDependency(EdgesFrom(keys, m, source), target);
      && (r.None? <==> forall i :: 0 <= i < |keys| ==> !IsRecord(m, keys[i], source, target))
      && (forall i :: FirstRecord(keys, m, source, target, i) ==> r == Some(m[keys[i]]))
  {
    if keys != [] {
      var rest, most := keys[1..], EdgesFrom(keys[1..], m, source);
      FirstRecordFound(rest, m, source, target);
      assert forall i :: 1 <= i < |keys| ==> keys[i] == rest[i - 1];
      if keys[0] in m && m[keys[0]].source == source {
        assert EdgesFrom(keys, m, source) == [m[keys[0]]] + most && ([m[keys[0]]] + most)[1..] == most;
      }
      hide EdgesFrom;
      forall i | FirstRecord(keys, m, source, target, i)
        ensures FirstDependency(EdgesFrom(keys, m, source), target) == Some(m[keys[i]])
      {
        if i > 0 {
          assert !IsRecord(m, keys[0], source, target);
          assert FirstRecord(rest, m, source, target, i - 1);
        }
      }
      if exists j :: 0 <= j < |rest| && IsRecord(m, rest[j], source, target) {
        var j :| 0 <= j < |rest| && IsRecord(m, rest[j], source, target);
        assert IsRecord(m, keys[j + 1], source, target);
      }
    }
  }

  /** Removing a dependency deletes the first edge recording it, and nothing when there is none. */
  lemma RemovalEffect(s: State, source: NodeId, target: NodeId, q: Request)
    requires Wf(s) && EdgesKeyed(s)
    ensures var t := Act(s, RemoveDependency(source, target), q);
      && (forall i :: FirstRecord(s.edges.keys, s.edges.vals, source, target, i) ==>
            t.nodes == s.nodes && t.edges.vals == s.edges.vals - {s.edges.keys[i]}
            && forall p :: Kids(t, p) == Kids(s, p))
      && ((forall i :: 0 <= i < |s.edges.keys| ==> !IsRecord(s.edges.vals, s.edges.keys[i], source, target)) ==> t == s)
  {
    var r := FirstDependency(GetEdgesFrom(s, source), target);
    FirstRecordFound(s.edges.keys, s.edges.vals, source, target);
    RunNone(s);
    hide Run, Kids, Wf, EdgesFrom, FirstDependency;
    if r.Some? { RunOne(s, DeleteEdge(r.value.id, [], q.now, Some(q.who))); }
  }

  /** Reordering sets one list. */
  lemma ReorderEffect(s: State, parent: NodeId, order: seq<NodeId>, q: Request)
    ensures var t := Act(s, ReorderNodes(parent, order), q);
      && t.nodes == s.nodes && t.edges.vals == s.edges.vals
      && forall p :: Kids(t, p) == if p == parent then order else Kids(s, p)
  {
    RunOne(s, ReorderChildren(parent, order, [], q.now, None));
    hide Run, Kids;
  }

  lemma RenamePlanned(s: State, id: NodeId, title: string, q: Request)
    ensures Plan(s, RenameArtifact(id, title), q) == Ok(if id in s.nodes && s.nodes[id].Artifact?
      then [UpdateNode(Artifact(s.nodes[id].meta, title, s.nodes[id].artifactType), [], q.now, Some(q.who))] else [])
  {
  }

  /** Renaming sets the title of an artifact, and does nothing when there is none. */
  lemma RenameEffect(s: State, id: NodeId, title: string, q: Request)
    requires NodesKeyed(s)
    ensures var t := Act(s, RenameArtifact(id, title), q);
      if id in s.nodes && s.nodes[id].Artifact? then
        && OnlyNode(s, t, id) && t.nodes[id].Artifact? && t.nodes[id].title == title
        && t.nodes[id].meta == s.nodes[id].meta && t.nodes[id].artifactType == s.nodes[id].artifactType
      else t == s
  {
    RunNone(s);
    RenamePlanned(s, id, title, q);
    ActRuns(s, RenameArtifact(id, title), q);
    hide Run, Kids, Plan, Act;
    if id in s.nodes && s.nodes[id].Artifact? {
      RunOne(s, UpdateNode(Artifact(s.nodes[id].meta, title, s.nodes[id].artifactType), [], q.now, Some(q.who)));
    }
  }

  // ----- completion follows status, over whole runs -----

  /** A task is completed if and only if its status is "done". */
  ghost predicate DoneIsCompleted(s: State) {
    forall id :: id in s.nodes && s.nodes[id].Task? ==> (s.nodes[id].completed <==> s.nodes[id].status == "done")
  }

  lemma ActKeepsCompletion(s: State, a: FlowAction, q: Request)
    requires Wf(s) && NodesKeyed(s) && EdgesKeyed(s) && DoneIsCompleted(s)
    ensures DoneIsCompleted(Act(s, a, q))
  {
    hide Act, Kids, Wf, Plan;
    if EditedTask(a).Some? {
      EditKeepsCompletion(s, a, EditedTask(a).value, q);
    } else if a.CreateTask? || a.CreateTaskGroup? {
      CreateEffect(s, a, q);
    } else if a.DeleteTask? {
      DeleteEffect(s, a.id, q);
    } else if a.ReorderNodes? {
      ReorderEffect(s, a.parent, a.order, q);
    } else if a.RenameArtifact? {
      RenameEffect(s, a.artifact, a.title, q);
    } else {
      EdgeActionsKeepNodes(s, a, q);
    }
  }

  lemma EditKeepsCompletion(s: State, a: FlowAction, id: NodeId, q: Request)
    requires NodesKeyed(s) && DoneIsCompleted(s) && EditedTask(a) == Some(id)
    ensures DoneIsCompleted(Act(s, a, q))
  {
    hide Act, Kids, Plan;
    EditRefused(s, a, id, q);
    ActRuns(s, a, q);
    if Plan(s, a, q).Ok? {
      EditEffect(s, a, id, q);
    }
    hide Run;
  }

  lemma EdgeActionsKeepNodes(s: State, a: FlowAction, q: Request)
    requires a.SetDependency? || a.RemoveDependency?
    ensures Act(s, a, q).nodes == s.nodes
  {
    ActRuns(s, a, q);
    hide Act, Run, Deps, FirstDependency, GetEdgesFrom;
    if Plan(s, a, q).Ok? {
      var ops := Plan(s, a, q).value;
      if ops == [] { RunNone(s); } else { RunOne(s, ops[0]); }
      assert ops != [] ==> ops == [ops[0]];
    }
  }

  lemma {:induction false} RunKeepsKeys(s: State, ops: seq<Operation>)
    requires Wf(s) && NodesKeyed(s) && EdgesKeyed(s)
    ensures Wf(Run(s, ops)) && NodesKeyed(Run(s, ops)) && EdgesKeyed(Run(s, ops))
    decreases |ops|
  {
    hide Step, Wf;
    if ops != [] {
      var t := Step(s, NewEntry(ops[0]));
      StepKeepsWf(s, NewEntry(ops[0]));
      StepNodesKeyed(s, NewEntry(ops[0]));
      StepParts(s, NewEntry(ops[0]));
      hide NewEntry;
      RunKeepsKeys(t, ops[1..]);
    }
  }

  /** Whatever the actions, completion and status agree after any run from a graph in which they do. */
  lemma {:induction false} RunsKeepCompletion(s: State, actions: seq<(FlowAction, Request)>)
    requires Wf(s) && NodesKeyed(s) && EdgesKeyed(s) && DoneIsCompleted(s)
    ensures DoneIsCompleted(ActAll(s, actions))
    decreases |actions|
  {
    hide Act, Wf, Plan, NodesKeyed, EdgesKeyed, DoneIsCompleted, Run;
    if actions != [] {
      var a, q := actions[0].0, actions[0].1;
      ActKeepsCompletion(s, a, q);
      ActRuns(s, a, q);
      if Plan(s, a, q).Ok? { RunKeepsKeys(s, Plan(s, a, q).value); }
      RunsKeepCompletion(Act(s, a, q), actions[1..]);
    }
  }
}
