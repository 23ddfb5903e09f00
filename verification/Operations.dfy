/** The seven operations of src/uaf/core/operations.py. */
module Operations {
  import opened Collections
  import opened JsonValues
  import opened Nodes
  import opened Serialization

  datatype Operation =
    | CreateNode(node: Node, parentOps: seq<OperationId>, timestamp: Time, principal: Option<string>)
    | UpdateNode(node: Node, parentOps: seq<OperationId>, timestamp: Time, principal: Option<string>)
    | DeleteNode(nodeId: NodeId, parentOps: seq<OperationId>, timestamp: Time, principal: Option<string>)
    | CreateEdge(edge: Edge, parentOps: seq<OperationId>, timestamp: Time, principal: Option<string>)
    | DeleteEdge(edgeId: EdgeId, parentOps: seq<OperationId>, timestamp: Time, principal: Option<string>)
    | MoveNode(nodeId: NodeId, newParentId: NodeId, parentOps: seq<OperationId>, timestamp: Time,
               principal: Option<string>)
    | ReorderChildren(parentId: NodeId, newOrder: seq<NodeId>, parentOps: seq<OperationId>,
                      timestamp: Time, principal: Option<string>)

  /** The same change to the graph, whatever its time stamp, parents and author. */
  predicate SameAction(a: Operation, b: Operation) {
    match (a, b)
    case (CreateNode(x, _, _, _), CreateNode(y, _, _, _)) => x == y
    case (UpdateNode(x, _, _, _), UpdateNode(y, _, _, _)) => x == y
    case (DeleteNode(x, _, _, _), DeleteNode(y, _, _, _)) => x == y
    case (CreateEdge(x, _, _, _), CreateEdge(y, _, _, _)) => x == y
    case (DeleteEdge(x, _, _, _), DeleteEdge(y, _, _, _)) => x == y
    case (MoveNode(x, p, _, _, _), MoveNode(y, q, _, _, _)) => x == y && p == q
    case (ReorderChildren(p, x, _, _, _), ReorderChildren(q, y, _, _, _)) => p == q && x == y
    case _ => false
  }

  // ----- encoding -----

  function ParentsToJson(ids: seq<OperationId>): Json {
    JList(MapSeq((id: OperationId) => JDigest(id), ids))
  }

  function Common(name: TypeName, op: Operation): Fields {
    map[KType := JType(name), KParentOps := ParentsToJson(op.parentOps),
        KTimestamp := JTime(op.timestamp), KPrincipalId := NullStr(op.principal)]
  }

  function NodeIdToJson(id: NodeId): Json { JStr(id.value) }

  /** operation_to_dict */
  function OperationToJson(op: Operation): Json {
    match op
    case CreateNode(node, _, _, _) => JObject(Common(TCreateNode, op)[KNode := NodeToJson(node)])
    case UpdateNode(node, _, _, _) => JObject(Common(TUpdateNode, op)[KNode := NodeToJson(node)])
    case DeleteNode(id, _, _, _) => JObject(Common(TDeleteNode, op)[KNodeId := NodeIdToJson(id)])
    case CreateEdge(edge, _, _, _) => JObject(Common(TCreateEdge, op)[KEdge := EdgeToJson(edge)])
    case DeleteEdge(id, _, _, _) => JObject(Common(TDeleteEdge, op)[KEdgeId := JStr(id.value)])
    case MoveNode(id, parent, _, _, _) =>
      JObject(Common(TMoveNode, op)[KNodeId := NodeIdToJson(id)][KNewParentId := NodeIdToJson(parent)])
    case ReorderChildren(parent, order, _, _, _) =>
      var d := Common(TReorderChildren, op);
      JObject(d[KParentId := NodeIdToJson(parent)][KNewOrder := JList(MapSeq(NodeIdToJson, order))])
  }

  function AsDigest(j: Json): Option<OperationId> { if j.JDigest? then Some(j.digest) else None }

  function AsNodeId(j: Json): Option<NodeId> {
    if j.JStr? && |j.s| == 36 then Some(NodeId(j.s)) else None
  }

  function AsEdgeId(j: Json): Option<EdgeId> {
    if j.JStr? && |j.s| == 36 then Some(EdgeId(j.s)) else None
  }

  /** operation_from_dict */
  function OperationFromJson(j: Json): Option<Operation> {
    var d :- AsObject(j);
    var name :- Req(d, KType, AsTypeName);
    var parents :- Req(d, KParentOps, AsList(AsDigest));
    var time :- Req(d, KTimestamp, AsTime);
    var who :- Opt(d, KPrincipalId, AsStr);
    match name
    case TCreateNode =>
      var node :- Req(d, KNode, NodeFromJson);
      Some(CreateNode(node, parents, time, who))
    case TUpdateNode =>
      var node :- Req(d, KNode, NodeFromJson);
      Some(UpdateNode(node, parents, time, who))
    case TDeleteNode =>
      var id :- Req(d, KNodeId, AsNodeId);
      Some(DeleteNode(id, parents, time, who))
    case TCreateEdge =>
      var edge :- Req(d, KEdge, EdgeFromJson);
      Some(CreateEdge(edge, parents, time, who))
    case TDeleteEdge =>
      var id :- Req(d, KEdgeId, AsEdgeId);
      Some(DeleteEdge(id, parents, time, who))
    case TMoveNode =>
      var id :- Req(d, KNodeId, AsNodeId);
      var parent :- Req(d, KNewParentId, AsNodeId);
      Some(MoveNode(id, parent, parents, time, who))
    case TReorderChildren =>
      var parent :- Req(d, KParentId, AsNodeId);
      var order :- Req(d, KNewOrder, AsList(AsNodeId));
      Some(ReorderChildren(parent, order, parents, time, who))
    case _ => None
  }

  /** compute_operation_id */
  function ComputeOperationId(op: Operation): OperationId {
    OperationId(OperationToJson(op))
  }

  /** What survives encoding and decoding of an operation. */
  function NormalOp(op: Operation): Operation {
    match op
    case CreateNode(node, _, _, _) => op.(node := NormalNode(node))
    case UpdateNode(node, _, _, _) => op.(node := NormalNode(node))
    case _ => op
  }

  lemma ListRoundTrip<T(!new)>(xs: seq<T>, write: T -> Json, read: Json -> Option<T>)
    requires forall x :: x in xs ==> read(write(x)) == Some(x)
    ensures AsList(read)(JList(MapSeq(write, xs))) == Some(xs)
  {
    ReadAllInverts(xs, write, read, (x: T) => x);
    assert MapSeq((x: T) => x, xs) == xs;
  }

  ghost predicate HoldsCommon(d: Fields, name: TypeName, op: Operation) {
    && Get(d, KType) == Some(JType(name))
    && Get(d, KParentOps) == Some(ParentsToJson(op.parentOps))
    && Get(d, KTimestamp) == Some(JTime(op.timestamp))
    && Get(d, KPrincipalId) == Some(NullStr(op.principal))
  }

  lemma ParentsRead(ids: seq<OperationId>)
    ensures AsList(AsDigest)(ParentsToJson(ids)) == Some(ids)
  {
    ListRoundTrip(ids, (id: OperationId) => JDigest(id), AsDigest);
    hide AsList, MapSeq;
  }

  /** The four shared fields read back. */
  lemma CommonReads(d: Fields, name: TypeName, op: Operation)
    requires HoldsCommon(d, name, op)
    ensures Req(d, KType, AsTypeName) == Some(name)
    ensures Req(d, KParentOps, AsList(AsDigest)) == Some(op.parentOps)
    ensures Req(d, KTimestamp, AsTime) == Some(op.timestamp)
    ensures Opt(d, KPrincipalId, AsStr) == Some(op.principal)
  {
    ParentsRead(op.parentOps);
    hide AsList, ParentsToJson;
  }

  lemma OperationHoldsCommon(op: Operation)
    ensures HoldsCommon(OperationToJson(op).fields, OpName(op), op)
  {
    hide NodeToJson, EdgeToJson, ParentsToJson, NullStr, NodeIdToJson, MapSeq;
  }

  function OpName(op: Operation): TypeName {
    match op
    case CreateNode(_, _, _, _) => TCreateNode
    case UpdateNode(_, _, _, _) => TUpdateNode
    case DeleteNode(_, _, _, _) => TDeleteNode
    case CreateEdge(_, _, _, _) => TCreateEdge
    case DeleteEdge(_, _, _, _) => TDeleteEdge
    case MoveNode(_, _, _, _, _) => TMoveNode
    case ReorderChildren(_, _, _, _, _) => TReorderChildren
  }

  lemma NodeIdReads(id: NodeId)
    ensures AsNodeId(NodeIdToJson(id)) == Some(id)
  {
  }

  lemma NodeOpRoundTrip(op: Operation)
    requires op.CreateNode? || op.UpdateNode?
    ensures OperationFromJson(OperationToJson(op)) == Some(NormalOp(op))
  {
    hide NodeToJson, NodeFromJson, NormalNode, Opt, AsList, ParentsToJson, NullStr, HoldsCommon;
    var d := OperationToJson(op).fields;
    OperationHoldsCommon(op);
    CommonReads(d, OpName(op), op);
    NodeRoundTrip(op.node);
  }

  lemma EdgeOpRoundTrip(op: Operation)
    requires op.CreateEdge? || op.DeleteEdge?
    ensures OperationFromJson(OperationToJson(op)) == Some(NormalOp(op))
  {
    hide EdgeToJson, EdgeFromJson, Opt, AsList, ParentsToJson, NullStr, HoldsCommon;
    var d := OperationToJson(op).fields;
    OperationHoldsCommon(op);
    CommonReads(d, OpName(op), op);
    if op.CreateEdge? { EdgeRoundTrip(op.edge); }
  }

  lemma TreeOpRoundTrip(op: Operation)
    requires op.DeleteNode? || op.MoveNode?
    ensures OperationFromJson(OperationToJson(op)) == Some(NormalOp(op))
  {
    hide Opt, AsList, AsNodeId, NodeIdToJson, MapSeq, ParentsToJson, NullStr, HoldsCommon;
    var d := OperationToJson(op).fields;
    OperationHoldsCommon(op);
    CommonReads(d, OpName(op), op);
    NodeIdReads(op.nodeId);
    if op.MoveNode? { NodeIdReads(op.newParentId); }
  }

  lemma OrderReads(order: seq<NodeId>)
    ensures AsList(AsNodeId)(JList(MapSeq(NodeIdToJson, order))) == Some(order)
  {
    forall n | n in order ensures AsNodeId(NodeIdToJson(n)) == Some(n) { NodeIdReads(n); }
    ListRoundTrip(order, NodeIdToJson, AsNodeId);
  }

  lemma ReorderRoundTrip(op: Operation)
    requires op.ReorderChildren?
    ensures OperationFromJson(OperationToJson(op)) == Some(NormalOp(op))
  {
    hide Opt, AsList, AsNodeId, NodeIdToJson, MapSeq, ParentsToJson, NullStr, HoldsCommon;
    var d := OperationToJson(op).fields;
    OperationHoldsCommon(op);
    CommonReads(d, OpName(op), op);
    NodeIdReads(op.parentId);
    OrderReads(op.newOrder);
  }

  /** Reading an operation back gives its normal form. */
  lemma OperationRoundTrip(op: Operation)
    ensures OperationFromJson(OperationToJson(op)) == Some(NormalOp(op))
  {
    hide *;
    if op.CreateNode? || op.UpdateNode? {
      NodeOpRoundTrip(op);
    } else if op.CreateEdge? || op.DeleteEdge? {
      EdgeOpRoundTrip(op);
    } else if op.DeleteNode? || op.MoveNode? {
      TreeOpRoundTrip(op);
    } else {
      ReorderRoundTrip(op);
    }
  }

  /** encode after decode after encode is encode, so ids survive a restart. */
  lemma EncodingIsStable(op: Operation)
    ensures OperationToJson(NormalOp(op)) == OperationToJson(op)
    ensures ComputeOperationId(NormalOp(op)) == ComputeOperationId(op)
  {
    hide NodeToJson, EdgeToJson, NormalNode;
    if op.CreateNode? || op.UpdateNode? {
      NodeNormalEncodesAlike(op.node);
    }
  }

  /** Distinct normal forms have distinct ids. */
  lemma IdDeterminesOp(a: Operation, b: Operation)
    requires ComputeOperationId(a) == ComputeOperationId(b)
    ensures NormalOp(a) == NormalOp(b)
  {
    OperationRoundTrip(a);
    OperationRoundTrip(b);
    hide OperationToJson, OperationFromJson, NormalOp;
  }
}
