/** Full-history bundles: the filtered journal of src/uaf/db/bundle.py. */
module FullBundles {
  import opened Collections
  import opened JsonValues
  import opened Nodes
  import opened Serialization
  import opened Operations
  import opened OperationLogs
  import opened Materializer
  import opened Inverses
  import opened GraphDbs
  import opened JournaledGraphDbs
  import opened Queries
  import opened Bundles

  /** _op_in_subtree */
  predicate InSubtree(op: Operation, ids: set<NodeId>, edgeIds: set<EdgeId>) {
    match op
    case CreateNode(n, _, _, _) => n.meta.id in ids
    case UpdateNode(n, _, _, _) => n.meta.id in ids
    case DeleteNode(id, _, _, _) => id in ids
    case CreateEdge(e, _, _, _) => e.id in edgeIds
    case DeleteEdge(id, _, _, _) => id in edgeIds
    case MoveNode(id, _, _, _, _) => id in ids
    case ReorderChildren(p, _, _, _, _) => p in ids
  }

  /** `d["parent_ops"] = []` */
  function Orphaned(op: Operation): Operation {
    op.(parentOps := [])
  }

  function FullOps(log: seq<Entry>, ids: set<NodeId>, edgeIds: set<EdgeId>): seq<Operation> {
    if log == [] then []
    else
      var ops := FullOps(Init(log), ids, edgeIds);
      if InSubtree(Last(log).op, ids, edgeIds) then ops + [Orphaned(Last(log).op)] else ops
  }

  /** _build_full_journal */
  method BuildFull(log: seq<Entry>, ids: set<NodeId>, edgeIds: set<EdgeId>) returns (lines: seq<Json>)
    ensures lines == MapSeq(OperationToJson, FullOps(log, ids, edgeIds))
  {
    hide InSubtree, OperationToJson, Orphaned;
    ghost var ops := [];
    lines := [];
    assert log[..0] == [];
    for i := 0 to |log|
      invariant ops == FullOps(log[..i], ids, edgeIds) && lines == MapSeq(OperationToJson, ops)
    {
      assert Init(log[..i + 1]) == log[..i];
      if InSubtree(log[i].op, ids, edgeIds) {
        ops := ops + [Orphaned(log[i].op)];
        lines := lines + [OperationToJson(Orphaned(log[i].op))];
      }
    }
    assert log[..|log|] == log;
  }

  /** all_edge_ids: the edges leaving a node of the subtree. */
  ghost predicate HoldsOutEdges(s: State, ids: set<NodeId>, edgeIds: set<EdgeId>) {
    forall e :: e in s.edges.vals && s.edges.vals[e].source in ids ==> e in edgeIds
  }

  // ----- replaying the filtered log -----

  function Kept(keys: seq<EdgeId>, edgeIds: set<EdgeId>): seq<EdgeId> {
    if keys == [] then [] else (if keys[0] in edgeIds then [keys[0]] else []) + Kept(keys[1..], edgeIds)
  }

  /** t is s cut down to the subtree: its nodes agree, and its edges are the subtree's, in order. */
  ghost predicate CutDown(s: State, t: State, ids: set<NodeId>, edgeIds: set<EdgeId>) {
    NodesCut(s.nodes, t.nodes, ids) && EdgesCut(s.edges, t.edges, edgeIds)
  }

  ghost predicate NodesCut(s: map<NodeId, Node>, t: map<NodeId, Node>, ids: set<NodeId>) {
    (forall id :: id in ids ==> Get(t, id) == Get(s, id)) && forall id :: id in t ==> id in ids
  }

  ghost predicate EdgesCut(s: Dict<EdgeId, Edge>, t: Dict<EdgeId, Edge>, edgeIds: set<EdgeId>) {
    && (forall e :: Get(t.vals, e) == if e in edgeIds then Get(s.vals, e) else None)
    && t.keys == Kept(s.keys, edgeIds)
  }

  lemma {:induction false} KeptAppend(keys: seq<EdgeId>, e: EdgeId, edgeIds: set<EdgeId>)
    ensures Kept(keys + [e], edgeIds) == Kept(keys, edgeIds) + if e in edgeIds then [e] else []
  {
    hide Kept;
    KeptNone(edgeIds);
    if keys == [] {
      assert keys + [e] == [e] && [e][1..] == [];
      KeptFirst([e], edgeIds);
    } else {
      KeptAppend(keys[1..], e, edgeIds);
      assert (keys + [e])[1..] == keys[1..] + [e];
      KeptFirst(keys + [e], edgeIds);
      KeptFirst(keys, edgeIds);
    }
  }

  lemma {:induction false} KeptRemove(keys: seq<EdgeId>, e: EdgeId, edgeIds: set<EdgeId>)
    ensures Kept(Remove(keys, e), edgeIds) ==
      if e in edgeIds then Remove(Kept(keys, edgeIds), e) else Kept(keys, edgeIds)
  {
    hide Kept, Remove;
    RemoveNone(e);
    KeptNone(edgeIds);
    if keys != [] {
      KeptRemove(keys[1..], e, edgeIds);
      KeptFirst(keys, edgeIds);
      RemoveFirst(keys[0], keys[1..], e);
      assert [keys[0]] + keys[1..] == keys;
      assert keys[0] !in edgeIds ==> Kept(keys, edgeIds) == Kept(keys[1..], edgeIds);
      if keys[0] != e {
        var less := [keys[0]] + Remove(keys[1..], e);
        KeptFirst(less, edgeIds);
        assert less[1..] == Remove(keys[1..], e);
      }
      RemoveFirst(keys[0], Kept(keys[1..], edgeIds), e);
    }
  }

  lemma RemoveFirst(x: EdgeId, rest: seq<EdgeId>, e: EdgeId)
    ensures Remove([x] + rest, e) == if x == e then rest else [x] + Remove(rest, e)
  {
    assert ([x] + rest)[1..] == rest;
  }

  lemma RemoveNone(e: EdgeId)
    ensures Remove([], e) == []
  {
  }

  lemma KeptNone(edgeIds: set<EdgeId>)
    ensures Kept([], edgeIds) == []
  {
  }

  lemma KeptFirst(keys: seq<EdgeId>, edgeIds: set<EdgeId>)
    requires keys != []
    ensures Kept(keys, edgeIds) == (if keys[0] in edgeIds then [keys[0]] else []) + Kept(keys[1..], edgeIds)
  {
  }

  /** Steps change the edge dictionary only for edge operations. */
  lemma StepEdges(s: State, op: Operation)
    ensures Step(s, NewEntry(op)).edges ==
      if op.CreateEdge? then s.edges.Put(op.edge.id, op.edge)
      else if op.DeleteEdge? && op.edgeId in s.edges.vals then s.edges.Pop(op.edgeId)
      else s.edges
  {
    NewEntryOp(op);
    hide NewEntry, Unlist, Dict.Put, Dict.Pop;
    match op
    case CreateEdge(e, _, _, _) => EnlistParts(s.(edges := s.edges.Put(e.id, e)), e.source, e.target);
    case MoveNode(id, p, _, _, _) => EnlistParts(s.(children := Unlist(s.children, id)), p, id);
    case _ =>
  }

  lemma StepNodes(s: State, op: Operation)
    ensures Step(s, NewEntry(op)).nodes == NodesAfter(s.nodes, op)
  {
    NewEntryOp(op);
    StepParts(s, NewEntry(op));
    hide Step, NewEntry;
  }

  lemma PutCut(s: Dict<EdgeId, Edge>, t: Dict<EdgeId, Edge>, e: Edge, edgeIds: set<EdgeId>)
    requires EdgesCut(s, t, edgeIds)
    ensures e.id in edgeIds ==> EdgesCut(s.Put(e.id, e), t.Put(e.id, e), edgeIds)
    ensures e.id !in edgeIds ==> EdgesCut(s.Put(e.id, e), t, edgeIds)
  {
    hide Kept;
    KeptAppend(s.keys, e.id, edgeIds);
    assert Get(t.vals, e.id) == if e.id in edgeIds then Get(s.vals, e.id) else None;
  }

  lemma PopCut(s: Dict<EdgeId, Edge>, t: Dict<EdgeId, Edge>, e: EdgeId, edgeIds: set<EdgeId>)
    requires EdgesCut(s, t, edgeIds) && s.Wf()
    ensures e in edgeIds ==> EdgesCut(s.Pop(e), t.Pop(e), edgeIds) && (e in s.vals <==> e in t.vals)
    ensures e !in edgeIds ==> EdgesCut(s.Pop(e), t, edgeIds)
  {
    hide Kept, Remove, Dict.Wf;
    KeptRemove(s.keys, e, edgeIds);
    assert Get(t.vals, e) == if e in edgeIds then Get(s.vals, e) else None;
  }

  /** An operation of the subtree has the same effect on the part and on the whole. */
  lemma CutDownStep(s: State, t: State, op: Operation, ids: set<NodeId>, edgeIds: set<EdgeId>)
    requires CutDown(s, t, ids, edgeIds) && s.edges.Wf() && InSubtree(op, ids, edgeIds)
    ensures CutDown(Step(s, NewEntry(op)), Step(t, NewEntry(op)), ids, edgeIds)
  {
    hide Step, NewEntry, EdgesCut, Dict.Wf, Dict.Put, Dict.Pop;
    StepNodes(s, op);
    StepNodes(t, op);
    StepEdges(s, op);
    StepEdges(t, op);
    if op.CreateEdge? {
      PutCut(s.edges, t.edges, op.edge, edgeIds);
    } else if op.DeleteEdge? {
      PopCut(s.edges, t.edges, op.edgeId, edgeIds);
    }
  }

  /** Any other operation leaves the part alone. */
  lemma CutDownSkip(s: State, t: State, op: Operation, ids: set<NodeId>, edgeIds: set<EdgeId>)
    requires CutDown(s, t, ids, edgeIds) && s.edges.Wf() && !InSubtree(op, ids, edgeIds)
    ensures CutDown(Step(s, NewEntry(op)), t, ids, edgeIds)
  {
    hide Step, NewEntry, EdgesCut, Dict.Wf, Dict.Put, Dict.Pop;
    StepNodes(s, op);
    StepEdges(s, op);
    if op.CreateEdge? {
      PutCut(s.edges, t.edges, op.edge, edgeIds);
    } else if op.DeleteEdge? {
      PopCut(s.edges, t.edges, op.edgeId, edgeIds);
    }
  }

  /** The step does not look at parents. */
  lemma OrphanStep(s: State, op: Operation, ids: set<NodeId>, edgeIds: set<EdgeId>)
    ensures Step(s, NewEntry(op)).nodes == Step(s, NewEntry(Orphaned(op))).nodes
    ensures Step(s, NewEntry(op)).edges == Step(s, NewEntry(Orphaned(op))).edges
    ensures InSubtree(Orphaned(op), ids, edgeIds) == InSubtree(op, ids, edgeIds)
  {
    hide Step, NewEntry;
    StepNodes(s, op);
    StepNodes(s, Orphaned(op));
    StepEdges(s, op);
    StepEdges(s, Orphaned(op));
  }

  /** Running the filtered operations from nothing gives the replayed state, cut down. */
  lemma {:induction false} FilteredRun(log: seq<Entry>, ids: set<NodeId>, edgeIds: set<EdgeId>)
    requires ValidLog(log)
    ensures CutDown(Replay(log), Run(EMPTY_STATE, FullOps(log, ids, edgeIds)), ids, edgeIds)
  {
    hide ComputeOperationId, Step, NewEntry, CutDown, Run, InSubtree, Orphaned;
    if log == [] {
      RunNone(EMPTY_STATE);
      NothingCut(ids, edgeIds);
    } else {
      var op, rest := Last(log).op, Init(log);
      assert ValidLog(rest) by { forall i | 0 <= i < |rest| ensures rest[..i] == log[..i] {} }
      FilteredRun(rest, ids, edgeIds);
      ReplayWf(rest);
      EntryIsNewest(log);
      var s, ops := Replay(rest), FullOps(rest, ids, edgeIds);
      hide ValidLog, Replay;
      FilteredRound(s, ops, op, ids, edgeIds);
    }
  }

  lemma FilteredRound(s: State, ops: seq<Operation>, op: Operation, ids: set<NodeId>, edgeIds: set<EdgeId>)
    requires CutDown(s, Run(EMPTY_STATE, ops), ids, edgeIds) && Wf(s)
    ensures var ops' := if InSubtree(op, ids, edgeIds) then ops + [Orphaned(op)] else ops;
      CutDown(Step(s, NewEntry(op)), Run(EMPTY_STATE, ops'), ids, edgeIds)
  {
    hide Step, NewEntry, NodesCut, EdgesCut, Run, InSubtree, Orphaned;
    var t := Run(EMPTY_STATE, ops);
    OrphanStep(s, op, ids, edgeIds);
    if InSubtree(op, ids, edgeIds) {
      RunAppend(EMPTY_STATE, ops, [Orphaned(op)]);
      RunSingle(t, Orphaned(op));
      CutDownStep(s, t, Orphaned(op), ids, edgeIds);
    } else {
      CutDownSkip(s, t, op, ids, edgeIds);
    }
  }

  lemma EntryIsNewest(log: seq<Entry>)
    requires ValidLog(log) && log != []
    ensures Last(log) == NewEntry(Last(log).op) && Replay(log) == Step(Replay(Init(log)), NewEntry(Last(log).op))
  {
    hide ComputeOperationId, Step;
  }

  lemma NothingCut(ids: set<NodeId>, edgeIds: set<EdgeId>)
    ensures Replay([]) == EMPTY_STATE && CutDown(EMPTY_STATE, EMPTY_STATE, ids, edgeIds)
  {
    KeptNone(edgeIds);
  }

  // ----- the round trip -----

  /** The exported operations, decoded: the decoded log, filtered. */
  lemma {:induction false} DecodedFull(log: seq<Entry>, ids: set<NodeId>, edgeIds: set<EdgeId>)
    ensures MapSeq(NormalOp, FullOps(log, ids, edgeIds)) == FullOps(NormalLog(log), ids, edgeIds)
  {
    hide NormalOp, InSubtree, Orphaned, MapSeq;
    if log == [] {
      NothingDecoded();
    } else {
      var op, rest := Last(log).op, Init(log);
      DecodedFull(rest, ids, edgeIds);
      assert Init(NormalLog(log)) == NormalLog(rest) && Last(NormalLog(log)).op == NormalOp(op);
      NormalInSubtree(op, ids, edgeIds);
      MapLast(FullOps(rest, ids, edgeIds), Orphaned(op));
      hide NormalLog;
    }
  }

  lemma NothingDecoded()
    ensures NormalLog([]) == [] && MapSeq(NormalOp, []) == []
  {
  }

  lemma MapLast(ops: seq<Operation>, op: Operation)
    ensures MapSeq(NormalOp, ops + [op]) == MapSeq(NormalOp, ops) + [NormalOp(op)]
  {
    hide NormalOp;
  }

  lemma NormalInSubtree(op: Operation, ids: set<NodeId>, edgeIds: set<EdgeId>)
    ensures InSubtree(NormalOp(op), ids, edgeIds) == InSubtree(op, ids, edgeIds)
    ensures NormalOp(Orphaned(op)) == Orphaned(NormalOp(op))
  {
    if op.CreateNode? || op.UpdateNode? { NormalNodeKeepsMeta(op.node); }
    hide NormalNode;
  }

  lemma NormalLogValid(log: seq<Entry>)
    requires ValidLog(log)
    ensures ValidLog(NormalLog(log))
  {
    hide ComputeOperationId, NormalOp;
    var n := NormalLog(log);
    forall i | 0 <= i < |n| ensures n[i].id == ComputeOperationId(n[i].op) { EncodingIsStable(log[i].op); }
    forall i, p | 0 <= i < |n| && p in n[i].op.parentOps ensures p in Ids(n[..i]) {
      NormalKeepsParents(log[i].op);
      NormalLogIds(log[..i]);
      assert n[..i] == NormalLog(log[..i]);
    }
  }

  /** What a full bundle carries over: for every node of the subtree the same value, up to
      encoding, and the same outgoing edges in the same order; and no other node. */
  ghost predicate CarriedOver(s: State, t: State, ids: set<NodeId>) {
    && (forall id :: id in ids ==> Get(t.nodes, id) == Get(s.nodes, id) && GetEdgesFrom(t, id) == GetEdgesFrom(s, id))
    && forall id :: id in t.nodes ==> id in ids
  }

  lemma {:induction false} KeptEdgesFrom(keys: seq<EdgeId>, s: map<EdgeId, Edge>, t: map<EdgeId, Edge>,
                                         edgeIds: set<EdgeId>, p: NodeId)
    requires forall e :: Get(t, e) == if e in edgeIds then Get(s, e) else None
    requires forall e :: e in s && s[e].source == p ==> e in edgeIds
    ensures EdgesFrom(Kept(keys, edgeIds), t, p) == EdgesFrom(keys, s, p)
  {
    if keys != [] {
      KeptEdgesFrom(keys[1..], s, t, edgeIds, p);
      assert Get(t, keys[0]) == if keys[0] in edgeIds then Get(s, keys[0]) else None;
      if keys[0] in edgeIds {
        assert ([keys[0]] + Kept(keys[1..], edgeIds))[1..] == Kept(keys[1..], edgeIds);
      } else {
        assert Kept(keys, edgeIds) == Kept(keys[1..], edgeIds);
      }
    }
  }

  lemma CutDownCarries(s: State, t: State, ids: set<NodeId>, edgeIds: set<EdgeId>)
    requires CutDown(s, t, ids, edgeIds) && HoldsOutEdges(s, ids, edgeIds)
    ensures CarriedOver(s, t, ids)
  {
    forall id | id in ids ensures GetEdgesFrom(t, id) == GetEdgesFrom(s, id) {
      KeptEdgesFrom(s.edges.keys, s.edges.vals, t.edges.vals, edgeIds, id);
    }
    hide EdgesFrom, Kept;
  }

  // ----- child lists -----

  ghost predicate SameLists(s: State, t: State, ids: set<NodeId>) {
    forall p :: p in ids ==> Kids(t, p) == Kids(s, p)
  }

  /** Every operation left out changed no list of the subtree when it was logged. */
  ghost predicate LeftOutHarmless(log: seq<Entry>, ids: set<NodeId>, edgeIds: set<EdgeId>) {
    forall i :: 0 <= i < |log| && !InSubtree(log[i].op, ids, edgeIds) ==>
      SameLists(Replay(log[..i]), Replay(log[..i + 1]), ids)
  }

  /** The exported history shows the lists of the subtree after every operation. */
  ghost predicate ListsFollow(log: seq<Entry>, ids: set<NodeId>, edgeIds: set<EdgeId>) {
    forall k :: 0 <= k <= |log| ==> SameLists(Replay(log[..k]), Run(EMPTY_STATE, FullOps(log[..k], ids, edgeIds)), ids)
  }

  lemma KeptKids(s: State, t: State, op: Operation, ids: set<NodeId>, edgeIds: set<EdgeId>, p: NodeId)
    requires CutDown(s, t, ids, edgeIds) && InSubtree(op, ids, edgeIds) && Kids(t, p) == Kids(s, p)
    ensures Kids(Step(t, NewEntry(Orphaned(op))), p) == Kids(Step(s, NewEntry(op)), p)
  {
    hide Step, NewEntry, Kids, Remove, AddChild, Kept;
    NewEntryOp(op);
    NewEntryOp(Orphaned(op));
    StepKids(s, NewEntry(op), p);
    StepKids(t, NewEntry(Orphaned(op)), p);
    if op.DeleteEdge? {
      assert Get(t.edges.vals, op.edgeId) == Get(s.edges.vals, op.edgeId);
    }
  }

  lemma ListsRound(s: State, ops: seq<Operation>, op: Operation, ids: set<NodeId>, edgeIds: set<EdgeId>)
    requires CutDown(s, Run(EMPTY_STATE, ops), ids, edgeIds) && SameLists(s, Run(EMPTY_STATE, ops), ids)
    ensures var s', ops' := Step(s, NewEntry(op)), if InSubtree(op, ids, edgeIds) then ops + [Orphaned(op)] else ops;
      SameLists(s', Run(EMPTY_STATE, ops'), ids) <==> InSubtree(op, ids, edgeIds) || SameLists(s, s', ids)
  {
    hide Step, NewEntry, CutDown, Run, InSubtree, Orphaned, Kids;
    var t := Run(EMPTY_STATE, ops);
    if InSubtree(op, ids, edgeIds) {
      RunAppend(EMPTY_STATE, ops, [Orphaned(op)]);
      RunSingle(t, Orphaned(op));
      forall p | p in ids ensures Kids(Step(t, NewEntry(Orphaned(op))), p) == Kids(Step(s, NewEntry(op)), p) {
        KeptKids(s, t, op, ids, edgeIds, p);
      }
    }
  }

  /** The lists of the subtree come out right at every point of its history if and only if each
      operation left out had changed none of them. */
  lemma {:induction false} ListsFollowIff(log: seq<Entry>, ids: set<NodeId>, edgeIds: set<EdgeId>)
    requires ValidLog(log)
    ensures ListsFollow(log, ids, edgeIds) <==> LeftOutHarmless(log, ids, edgeIds)
  {
    hide ComputeOperationId, Step, NewEntry, CutDown, Run, InSubtree, Orphaned, SameLists, ListsFollow,
      LeftOutHarmless;
    if log == [] {
      NothingFollows(ids, edgeIds);
    } else {
      var rest := Init(log);
      assert ValidLog(rest) by { forall i | 0 <= i < |rest| ensures rest[..i] == log[..i] {} }
      ListsFollowIff(rest, ids, edgeIds);
      FilteredRun(rest, ids, edgeIds);
      EntryIsNewest(log);
      hide ValidLog;
      OneMoreFollows(log, ids, edgeIds);
      if ListsFollow(rest, ids, edgeIds) {
        FollowsNow(rest, ids, edgeIds);
        hide Replay;
        ListsRound(Replay(rest), FullOps(rest, ids, edgeIds), Last(log).op, ids, edgeIds);
      }
    }
  }

  lemma NothingFollows(ids: set<NodeId>, edgeIds: set<EdgeId>)
    ensures ListsFollow([], ids, edgeIds) && LeftOutHarmless([], ids, edgeIds)
  {
    NothingCut(ids, edgeIds);
    RunNone(EMPTY_STATE);
    var none: seq<Entry> := [];
    assert none[..0] == none && FullOps(none, ids, edgeIds) == [];
    hide Run, FullOps, Replay;
  }

  lemma FollowsNow(log: seq<Entry>, ids: set<NodeId>, edgeIds: set<EdgeId>)
    requires ListsFollow(log, ids, edgeIds)
    ensures SameLists(Replay(log), Run(EMPTY_STATE, FullOps(log, ids, edgeIds)), ids)
  {
    hide Run, FullOps, Replay, SameLists;
    assert log[..|log|] == log;
  }

  /** Both conditions, for one entry more. */
  lemma OneMoreFollows(log: seq<Entry>, ids: set<NodeId>, edgeIds: set<EdgeId>)
    requires log != []
    ensures ListsFollow(log, ids, edgeIds) <==>
      ListsFollow(Init(log), ids, edgeIds) && SameLists(Replay(log), Run(EMPTY_STATE, FullOps(log, ids, edgeIds)), ids)
    ensures LeftOutHarmless(log, ids, edgeIds) <==>
      && LeftOutHarmless(Init(log), ids, edgeIds)
      && (InSubtree(Last(log).op, ids, edgeIds) || SameLists(Replay(Init(log)), Replay(log), ids))
  {
    hide ListsFollow, LeftOutHarmless, SameLists, InSubtree, Run, FullOps, Replay;
    OneMoreAlike(log, ids, edgeIds);
    OneMoreHarmless(log, ids, edgeIds);
  }

  lemma PrefixesOfInit(log: seq<Entry>)
    requires log != []
    ensures log[..|log|] == log && log[..|log| - 1] == Init(log)
    ensures forall k :: 0 <= k < |log| ==> Init(log)[..k] == log[..k]
  {
  }

  lemma OneMoreAlike(log: seq<Entry>, ids: set<NodeId>, edgeIds: set<EdgeId>)
    requires log != []
    ensures ListsFollow(log, ids, edgeIds) <==>
      ListsFollow(Init(log), ids, edgeIds) && SameLists(Replay(log), Run(EMPTY_STATE, FullOps(log, ids, edgeIds)), ids)
  {
    hide Run, FullOps, Replay, SameLists;
    PrefixesOfInit(log);
  }

  lemma OneMoreHarmless(log: seq<Entry>, ids: set<NodeId>, edgeIds: set<EdgeId>)
    requires log != []
    ensures LeftOutHarmless(log, ids, edgeIds) <==>
      && LeftOutHarmless(Init(log), ids, edgeIds)
      && (InSubtree(Last(log).op, ids, edgeIds) || SameLists(Replay(Init(log)), Replay(log), ids))
  {
    hide Replay, SameLists, InSubtree;
    PrefixesOfInit(log);
  }

  /** Some member of the subtree lists the node. */
  ghost predicate ListedWithin(s: State, ids: set<NodeId>, x: NodeId) {
    exists p :: p in ids && x in Kids(s, p)
  }

  /** What the operation does to the lists of members it does by member nodes and exported edges. */
  ghost predicate KeptWithin(s: State, op: Operation, ids: set<NodeId>, edgeIds: set<EdgeId>) {
    match op
    case CreateEdge(e, _, _, _) => e.edgeType.CONTAINS? && e.source in ids ==> e.id in edgeIds
    case DeleteNode(x, _, _, _) => ListedWithin(s, ids, x) ==> x in ids
    case MoveNode(x, q, _, _, _) => ListedWithin(s, ids, x) || q in ids ==> x in ids
    case _ => true
  }

  /** Every containment edge ever created from a member is among the exported edges, every node
      deleted or moved while a member lists it is a member, and only members are moved into members.
      Orders recorded for members need no excuse. */
  ghost predicate SelfContained(log: seq<Entry>, ids: set<NodeId>, edgeIds: set<EdgeId>) {
    forall i :: 0 <= i < |log| ==> KeptWithin(Replay(log[..i]), log[i].op, ids, edgeIds)
  }

  /** The containment edges that members own are exported edges. */
  ghost predicate OwnEdges(s: State, ids: set<NodeId>, edgeIds: set<EdgeId>) {
    forall e :: e in s.edges.vals && s.edges.vals[e].edgeType.CONTAINS? && s.edges.vals[e].source in ids
      ==> e in edgeIds
  }

  lemma {:induction false} OwnEdgesExported(log: seq<Entry>, ids: set<NodeId>, edgeIds: set<EdgeId>)
    requires SelfContained(log, ids, edgeIds)
    ensures OwnEdges(Replay(log), ids, edgeIds)
  {
    hide Step;
    if log != [] {
      var rest := Init(log);
      assert forall i :: 0 <= i < |rest| ==> rest[..i] == log[..i];
      assert log[..|log| - 1] == rest;
      hide KeptWithin;
      OwnEdgesExported(rest, ids, edgeIds);
      OwnEdgesStep(Replay(rest), Last(log), ids, edgeIds);
    }
  }

  lemma OwnEdgesStep(s: State, e: Entry, ids: set<NodeId>, edgeIds: set<EdgeId>)
    requires OwnEdges(s, ids, edgeIds) && KeptWithin(s, e.op, ids, edgeIds)
    ensures OwnEdges(Step(s, e), ids, edgeIds)
  {
    StepParts(s, e);
    hide Step, ListedWithin;
  }

  lemma LeftOutUnseen(s: State, e: Entry, ids: set<NodeId>, edgeIds: set<EdgeId>)
    requires KeptWithin(s, e.op, ids, edgeIds) && OwnEdges(s, ids, edgeIds) && !InSubtree(e.op, ids, edgeIds)
    ensures SameLists(s, Step(s, e), ids)
  {
    hide Step, Kids, Remove, AddChild;
    forall p | p in ids ensures Kids(Step(s, e), p) == Kids(s, p) {
      StepKids(s, e, p);
      if e.op.DeleteNode? || e.op.MoveNode? {
        assert e.op.nodeId !in Kids(s, p);
        RemoveTwice(Kids(s, p), e.op.nodeId);
      }
    }
  }

  /** In a self-contained history nothing left out matters. */
  lemma SelfContainedIsHarmless(log: seq<Entry>, ids: set<NodeId>, edgeIds: set<EdgeId>)
    requires SelfContained(log, ids, edgeIds)
    ensures LeftOutHarmless(log, ids, edgeIds)
  {
    hide Replay, KeptWithin, OwnEdges, SameLists, InSubtree;
    forall i | 0 <= i < |log| && !InSubtree(log[i].op, ids, edgeIds)
      ensures SameLists(Replay(log[..i]), Replay(log[..i + 1]), ids)
    {
      SelfContainedPrefix(log, i, ids, edgeIds);
      OwnEdgesExported(log[..i], ids, edgeIds);
      assert log[..i + 1] == log[..i] + [log[i]];
      ReplayOneMore(log[..i], log[i]);
      hide Step;
      LeftOutUnseen(Replay(log[..i]), log[i], ids, edgeIds);
    }
  }

  lemma SelfContainedPrefix(log: seq<Entry>, k: nat, ids: set<NodeId>, edgeIds: set<EdgeId>)
    requires SelfContained(log, ids, edgeIds) && k <= |log|
    ensures SelfContained(log[..k], ids, edgeIds)
  {
    hide Replay, KeptWithin;
    assert forall i :: 0 <= i < k ==> log[..k][..i] == log[..i];
  }

  // ----- which operations are distinct without their parents -----

  /** No two operations encode alike. */
  ghost predicate NoneAlike(ops: seq<Operation>) {
    forall i, j :: 0 <= i < j < |ops| ==> NormalOp(ops[i]) != NormalOp(ops[j])
  }

  /** An empty database takes every one of the operations if and only if no two are alike. */
  lemma FreshIffNoneAlike(ops: seq<Operation>)
    requires forall i :: 0 <= i < |ops| ==> ops[i].parentOps == []
    ensures FreshBatch([], MapSeq(NormalOp, ops)) <==> NoneAlike(ops)
  {
    hide ComputeOperationId, NormalOp;
    var r := MapSeq(NormalOp, ops);
    forall i | 0 <= i < |ops| ensures r[i].parentOps == [] && NormalOp(r[i]) == r[i] {
      NormalKeepsParents(ops[i]);
      NormalOnce(ops[i]);
    }
    assert Ids([]) == {};
    forall i, j | 0 <= i < j < |ops| ensures ComputeOperationId(r[i]) != ComputeOperationId(r[j]) <==> r[i] != r[j] {
      if r[i] != r[j] { DifferentIds(r[i], r[j]); }
    }
  }

  lemma {:induction false} FullOpsOrphaned(log: seq<Entry>, ids: set<NodeId>, edgeIds: set<EdgeId>)
    ensures forall i :: 0 <= i < |FullOps(log, ids, edgeIds)| ==> FullOps(log, ids, edgeIds)[i].parentOps == []
  {
    hide InSubtree;
    if log != [] { FullOpsOrphaned(Init(log), ids, edgeIds); }
  }

  /** Operations stamped at different times are not alike. */
  lemma StampsTellApart(ops: seq<Operation>)
    requires forall i, j :: 0 <= i < j < |ops| ==> ops[i].timestamp != ops[j].timestamp
    ensures NoneAlike(ops)
  {
    hide NormalOp;
    forall i | 0 <= i < |ops| ensures NormalOp(ops[i]).timestamp == ops[i].timestamp { NormalKeepsTime(ops[i]); }
  }

  // ----- the round trip, whole -----

  /** Exporting the full history of a subtree and importing it into an empty database.  Stripping
      the parents must not make two exported operations alike, as the import would skip the second;
      different stamps rule that out (StampsTellApart). */
  lemma FullRoundTrip(log: seq<Entry>, ids: set<NodeId>, edgeIds: set<EdgeId>)
    requires ValidLog(log) && HoldsOutEdges(Replay(log), ids, edgeIds) && NoneAlike(FullOps(log, ids, edgeIds))
    ensures var r := Import([], MapSeq(OperationToJson, FullOps(log, ids, edgeIds)));
      r.error.None? && CarriedOver(NormalState(Replay(log)), Replay(r.log), ids)
  {
    FullOpsOrphaned(log, ids, edgeIds);
    FreshIffNoneAlike(FullOps(log, ids, edgeIds));
    hide Replay, Run, FullOps, NormalLog, FreshBatch, Import, CutDown, HoldsOutEdges, CarriedOver, OperationToJson,
      NormalOp, MapSeq, NormalState, ValidLog, ComputeOperationId, NoneAlike;
    ImportRuns(log, ids, edgeIds);
    NormalLogValid(log);
    FilteredRun(NormalLog(log), ids, edgeIds);
    ReplayCommutes(log);
    NormalHolds(Replay(log), ids, edgeIds);
    CutDownCarries(NormalState(Replay(log)), Run(EMPTY_STATE, FullOps(NormalLog(log), ids, edgeIds)), ids, edgeIds);
  }

  /** The import is a run of the decoded operations from nothing. */
  lemma ImportRuns(log: seq<Entry>, ids: set<NodeId>, edgeIds: set<EdgeId>)
    requires FreshBatch([], MapSeq(NormalOp, FullOps(log, ids, edgeIds)))
    ensures var r := Import([], MapSeq(OperationToJson, FullOps(log, ids, edgeIds)));
      r.error.None? && Replay(r.log) == Run(EMPTY_STATE, FullOps(NormalLog(log), ids, edgeIds))
  {
    FullLinesHold(log, ids, edgeIds);
    hide Replay, Run, FullOps, NormalLog, FreshBatch, Holds, Import, OperationToJson, NormalOp, MapSeq;
    DecodedFull(log, ids, edgeIds);
    ImportFresh([], MapSeq(OperationToJson, FullOps(log, ids, edgeIds)), FullOps(NormalLog(log), ids, edgeIds));
    ReplayNothing();
  }

  /** Every listed child of a node of the subtree belongs to it. */
  ghost predicate ClosedSubtree(s: State, ids: set<NodeId>) {
    forall id, k :: id in ids && k in Kids(s, id) ==> k in ids
  }

  lemma {:induction false} SameLiveChildren(a: map<NodeId, Node>, b: map<NodeId, Node>, kids: seq<NodeId>)
    requires forall k :: k in kids ==> Get(a, k) == Get(b, k)
    ensures LiveChildren(a, kids) == LiveChildren(b, kids)
  {
    if kids != [] {
      SameLiveChildren(a, b, kids[1..]);
      assert kids[0] in kids && Get(a, kids[0]) == Get(b, kids[0]);
    }
  }

  lemma NormalHarmless(log: seq<Entry>, ids: set<NodeId>, edgeIds: set<EdgeId>)
    requires LeftOutHarmless(log, ids, edgeIds)
    ensures LeftOutHarmless(NormalLog(log), ids, edgeIds)
  {
    var n := NormalLog(log);
    hide NormalOp, NormalNode, InSubtree, Replay, Kids;
    forall i | 0 <= i < |n| && !InSubtree(n[i].op, ids, edgeIds)
      ensures SameLists(Replay(n[..i]), Replay(n[..i + 1]), ids)
    {
      NormalInSubtree(log[i].op, ids, edgeIds);
      NormalPrefix(log, i);
      NormalPrefix(log, i + 1);
      assert SameLists(Replay(log[..i]), Replay(log[..i + 1]), ids);
    }
  }

  lemma NormalPrefix(log: seq<Entry>, k: nat)
    requires k <= |log|
    ensures forall p :: Kids(Replay(NormalLog(log)[..k]), p) == Kids(Replay(log[..k]), p)
  {
    hide NormalEntry, Replay;
    assert NormalLog(log)[..k] == NormalLog(log[..k]);
    ReplayCommutes(log[..k]);
    hide NormalLog;
  }

  /** When moreover each operation left out had changed no list of the subtree, and the subtree is
      closed, every member shows its children again, in order. */
  lemma FullRoundTripLists(log: seq<Entry>, ids: set<NodeId>, edgeIds: set<EdgeId>)
    requires ValidLog(log) && HoldsOutEdges(Replay(log), ids, edgeIds) && NoneAlike(FullOps(log, ids, edgeIds))
    requires LeftOutHarmless(log, ids, edgeIds) && ClosedSubtree(Replay(log), ids)
    ensures var r := Import([], MapSeq(OperationToJson, FullOps(log, ids, edgeIds)));
      forall p :: p in ids ==> GetChildren(Replay(r.log), p) == GetChildren(NormalState(Replay(log)), p)
  {
    FullRoundTrip(log, ids, edgeIds);
    FullOpsOrphaned(log, ids, edgeIds);
    FreshIffNoneAlike(FullOps(log, ids, edgeIds));
    hide Replay, Run, FullOps, NormalLog, FreshBatch, Import, OperationToJson, NormalOp, MapSeq, NormalState,
      ValidLog, ComputeOperationId, NoneAlike, GetEdgesFrom, Kids, LeftOutHarmless, ListsFollow, LiveChildren;
    ImportRuns(log, ids, edgeIds);
    NormalLogValid(log);
    NormalHarmless(log, ids, edgeIds);
    ListsFollowIff(NormalLog(log), ids, edgeIds);
    FollowsNow(NormalLog(log), ids, edgeIds);
    ReplayCommutes(log);
    var s, t := NormalState(Replay(log)), Replay(Import([], MapSeq(OperationToJson, FullOps(log, ids, edgeIds))).log);
    forall p | p in ids ensures GetChildren(t, p) == GetChildren(s, p) {
      NormalKids(Replay(log), p);
      SameLiveChildren(t.nodes, s.nodes, Kids(s, p));
    }
  }

  /** So the full export of a self-contained, closed subtree brings every child list back. */
  lemma FullRoundTripWhole(log: seq<Entry>, ids: set<NodeId>, edgeIds: set<EdgeId>)
    requires ValidLog(log) && HoldsOutEdges(Replay(log), ids, edgeIds) && NoneAlike(FullOps(log, ids, edgeIds))
    requires SelfContained(log, ids, edgeIds) && ClosedSubtree(Replay(log), ids)
    ensures var r := Import([], MapSeq(OperationToJson, FullOps(log, ids, edgeIds)));
      && r.error.None? && CarriedOver(NormalState(Replay(log)), Replay(r.log), ids)
      && forall p :: p in ids ==> GetChildren(Replay(r.log), p) == GetChildren(NormalState(Replay(log)), p)
  {
    hide *;
    SelfContainedIsHarmless(log, ids, edgeIds);
    FullRoundTrip(log, ids, edgeIds);
    FullRoundTripLists(log, ids, edgeIds);
  }

  lemma NormalKids(s: State, p: NodeId)
    ensures Kids(NormalState(s), p) == Kids(s, p)
  {
    hide NormalNode;
  }

  lemma NormalHolds(s: State, ids: set<NodeId>, edgeIds: set<EdgeId>)
    requires HoldsOutEdges(s, ids, edgeIds)
    ensures HoldsOutEdges(NormalState(s), ids, edgeIds)
  {
  }

  lemma FullLinesHold(log: seq<Entry>, ids: set<NodeId>, edgeIds: set<EdgeId>)
    ensures Holds(MapSeq(OperationToJson, FullOps(log, ids, edgeIds)), MapSeq(NormalOp, FullOps(log, ids, edgeIds)))
  {
    hide OperationToJson, OperationFromJson, NormalOp, FullOps;
    var ops := FullOps(log, ids, edgeIds);
    forall i | 0 <= i < |ops| ensures OperationFromJson(OperationToJson(ops[i])) == Some(NormalOp(ops[i])) {
      OperationRoundTrip(ops[i]);
    }
  }
}
