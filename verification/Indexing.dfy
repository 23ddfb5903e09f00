/** Keeping the indexes in step with the graph: the index half of GraphDB.apply in
    src/uaf/db/graph_db.py. */
module Indexing {
  import opened Collections
  import opened JsonValues
  import opened Nodes
  import opened Operations
  import opened OperationLogs
  import opened Materializer
  import opened Eavt

  // ----- datoms of a node -----

  function NodeTypeValue(t: NodeType): string {
    match t
    case ARTIFACT => "artifact"
    case PARAGRAPH => "paragraph"
    case HEADING => "heading"
    case TEXT_BLOCK => "text_block"
    case CELL => "cell"
    case FORMULA_CELL => "formula_cell"
    case SHEET => "sheet"
    case CODE_BLOCK => "code_block"
    case MATH_BLOCK => "math_block"
    case TASK => "task"
    case SLIDE => "slide"
    case SHAPE => "shape"
    case IMAGE => "image"
    case ARTIFACT_ACL => "artifact_acl"
    case RAW => "raw"
    case BULLET_LIST_ITEM => "bullet_list_item"
    case NUMBERED_LIST_ITEM => "numbered_list_item"
    case BLOCKQUOTE => "blockquote"
    case DIVIDER => "divider"
  }

  function NatText(n: nat): string {
    (if n < 10 then [] else NatText(n / 10)) + [('0' as int + n % 10) as char]
  }

  function IntText(i: int): string {
    if i < 0 then "-" + NatText(-i) else NatText(i)
  }

  function BoolText(b: bool): string {
    if b then "True" else "False"
  }

  function CellText(v: CellValue): string {
    match v
    case VNone => ""
    case VBool(b) => BoolText(b)
    case VInt(i) => IntText(i)
    case VFloat(repr) => repr
    case VStr(s) => s
  }

  /** `_extract_fields` */
  function ExtractFields(node: Node): seq<(string, string)> {
    match node
    case Artifact(_, title, kind) => [("title", title), ("artifact_type", kind)]
    case Paragraph(_, text, style, _) => [("text", text), ("style", style)]
    case Heading(_, text, level) => [("text", text), ("level", IntText(level))]
    case TextBlock(_, text, format) => [("text", text), ("format", format)]
    case Cell(_, value, row, col) => [("value", CellText(value)), ("row", IntText(row)), ("col", IntText(col))]
    case FormulaCell(_, formula, _, row, col) => [("formula", formula), ("row", IntText(row)), ("col", IntText(col))]
    case Sheet(_, title, rows, cols) => [("title", title), ("rows", IntText(rows)), ("cols", IntText(cols))]
    case CodeBlock(_, source, language) => [("source", source), ("language", language)]
    case Task(_, title, completed, _, _, _, status) =>
      [("title", title), ("completed", BoolText(completed)), ("status", status)]
    case Slide(_, title, order) => [("title", title), ("order", IntText(order))]
    case Shape(_, shapeType, _, _, _, _) => [("shape_type", shapeType)]
    case Image(_, uri, altText, _, _) => [("uri", uri), ("alt_text", altText)]
    case ArtifactACL(_, defaultRole, publicRead) =>
      (if defaultRole.Some? then [("default_role", defaultRole.value)] else []) +
        [("public_read", BoolText(publicRead))]
    case BulletListItem(_, text, _, _) => [("text", text)]
    case NumberedListItem(_, text, _, _) => [("text", text)]
    case Blockquote(_, text, _) => [("text", text)]
    case _ => []
  }

  /** The attributes indexed for a node: its type, its owner if any, its own fields. */
  function Attributes(node: Node): (r: seq<(string, string)>)
    ensures r != [] && r[0] == ("node_type", NodeTypeValue(node.meta.nodeType))
  {
    [("node_type", NodeTypeValue(node.meta.nodeType))]
    + (if node.meta.owner.Some? then [("owner", node.meta.owner.value)] else [])
    + ExtractFields(node)
  }

  function ToDatoms(entity: string, fields: seq<(string, string)>, tx: OperationId): (r: seq<Datom>)
    ensures |r| == |fields|
    ensures forall i :: 0 <= i < |fields| ==> r[i] == Datom(entity, fields[i].0, fields[i].1, tx)
  {
    seq(|fields|, i requires 0 <= i < |fields| => Datom(entity, fields[i].0, fields[i].1, tx))
  }

  function NodeDatoms(node: Node, tx: OperationId): (r: seq<Datom>)
    ensures r != []
    ensures forall i :: 0 <= i < |r| ==> r[i].entity == node.meta.id.value && r[i].tx == tx
  {
    ToDatoms(node.meta.id.value, Attributes(node), tx)
  }

  // ----- the index along the log -----

  /** The index work of one apply, in the state before it. */
  function IndexStep(m: EntityDatoms, s: State, e: Entry): EntityDatoms {
    match e.op
    case CreateNode(node, _, _, _) => AddDatoms(m, NodeDatoms(node, e.id))
    case UpdateNode(node, _, _, _) =>
      var m1 := if node.meta.id in s.nodes then Retract(m, s.nodes[node.meta.id].meta.id.value) else m;
      AddDatoms(m1, NodeDatoms(node, e.id))
    case DeleteNode(id, _, _, _) => if id in s.nodes then Retract(m, id.value) else m
    case _ => m
  }

  function IndexReplay(log: seq<Entry>): EntityDatoms {
    if log == [] then map[] else IndexStep(IndexReplay(Init(log)), Replay(Init(log)), Last(log))
  }

  /** The datoms a scan of the live nodes finds for an entity, tagged with node_last_op. */
  function LiveDatoms(s: State, e: string): seq<Datom> {
    if |e| == 36 && NodeId(e) in s.nodes && NodeId(e) in s.lastOp
    then NodeDatoms(s.nodes[NodeId(e)], s.lastOp[NodeId(e)]) else []
  }

  /** The index holds, for every entity, exactly the datoms of its live node. */
  ghost predicate IndexAgrees(m: EntityDatoms, s: State) {
    forall e :: DatomsAt(m, e) == LiveDatoms(s, e)
  }

  /** Each node is stored under its own id and carries the operation that wrote it. */
  ghost predicate NodesKeyed(s: State) {
    && s.lastOp.Keys == s.nodes.Keys
    && forall id :: id in s.nodes ==> s.nodes[id].meta.id == id
  }

  lemma StepNodesKeyed(s: State, e: Entry)
    requires NodesKeyed(s)
    ensures NodesKeyed(Step(s, e))
  {
    hide Step;
    StepParts(s, e);
    StepLastOp(s, e);
  }

  lemma {:induction false} ReplayNodesKeyed(log: seq<Entry>)
    ensures NodesKeyed(Replay(log))
  {
    if log != [] {
      hide Step;
      ReplayNodesKeyed(Init(log));
      StepNodesKeyed(Replay(Init(log)), Last(log));
    }
  }

  /** Each edge is stored under its own id. */
  ghost predicate EdgesKeyed(s: State) {
    forall e :: e in s.edges.vals ==> s.edges.vals[e].id == e
  }

  lemma {:induction false} ReplayEdgesKeyed(log: seq<Entry>)
    ensures EdgesKeyed(Replay(log))
  {
    if log != [] {
      hide Step;
      ReplayEdgesKeyed(Init(log));
      StepParts(Replay(Init(log)), Last(log));
    }
  }

  lemma {:induction false} AddDatomsAt(m: EntityDatoms, ds: seq<Datom>, x: string, e: string)
    requires forall i :: 0 <= i < |ds| ==> ds[i].entity == x
    ensures DatomsAt(AddDatoms(m, ds), e) == if e == x then DatomsAt(m, e) + ds else DatomsAt(m, e)
    decreases |ds|
  {
    if ds == [] {
      assert DatomsAt(m, e) + ds == DatomsAt(m, e);
    } else {
      AddDatomsAt(AddDatom(m, ds[0]), ds[1..], x, e);
      assert DatomsAt(m, x) + [ds[0]] + ds[1..] == DatomsAt(m, x) + ds;
      assert DatomsAt(AddDatom(m, ds[0]), e) == if e == x then DatomsAt(m, x) + [ds[0]] else DatomsAt(m, e);
      assert ds[0].entity == x;
      hide AddDatom, DatomsAt;
    }
  }

  predicate CreatesLive(s: State, op: Operation) {
    op.CreateNode? && op.node.meta.id in s.nodes
  }

  /** What one apply leaves for entity x when the index agreed with the state before. */
  function Written(s: State, e: Entry, x: string): seq<Datom> {
    match e.op
    case CreateNode(node, _, _, _) =>
      if x == node.meta.id.value then LiveDatoms(s, x) + NodeDatoms(node, e.id) else LiveDatoms(s, x)
    case UpdateNode(node, _, _, _) => if x == node.meta.id.value then NodeDatoms(node, e.id) else LiveDatoms(s, x)
    case DeleteNode(id, _, _, _) => if x == id.value then [] else LiveDatoms(s, x)
    case _ => LiveDatoms(s, x)
  }

  lemma IndexStepWrites(m: EntityDatoms, s: State, e: Entry, x: string)
    requires IndexAgrees(m, s) && NodesKeyed(s)
    ensures DatomsAt(IndexStep(m, s, e), x) == Written(s, e, x)
  {
    hide NodeDatoms, AddDatoms;
    match e.op
    case CreateNode(node, _, _, _) => AddDatomsAt(m, NodeDatoms(node, e.id), node.meta.id.value, x);
    case UpdateNode(node, _, _, _) =>
      var id := node.meta.id;
      var m1 := if id in s.nodes then Retract(m, s.nodes[id].meta.id.value) else m;
      AddDatomsAt(m1, NodeDatoms(node, e.id), id.value, x);
      assert id !in s.nodes ==> LiveDatoms(s, id.value) == [] by { assert NodeId(id.value) == id; }
      assert DatomsAt(m1, id.value) == [];
      assert [] + NodeDatoms(node, e.id) == NodeDatoms(node, e.id);
    case DeleteNode(id, _, _, _) =>
      assert id !in s.nodes ==> LiveDatoms(s, id.value) == [] by { assert NodeId(id.value) == id; }
    case _ =>
  }

  lemma LiveDatomsAfter(s: State, e: Entry, x: string)
    requires NodesKeyed(s)
    ensures LiveDatoms(Step(s, e), x) ==
      if (e.op.CreateNode? || e.op.UpdateNode?) && x == e.op.node.meta.id.value then NodeDatoms(e.op.node, e.id)
      else if e.op.DeleteNode? && x == e.op.nodeId.value then []
      else LiveDatoms(s, x)
  {
    hide NodeDatoms, Step;
    StepParts(s, e);
    StepLastOp(s, e);
  }

  /** One apply keeps the agreement, unless it creates a node on a live id; then it always breaks
      it, because the datoms of the old node are not retracted. */
  lemma StepKeepsAgreementIff(m: EntityDatoms, s: State, e: Entry)
    requires IndexAgrees(m, s) && NodesKeyed(s)
    ensures IndexAgrees(IndexStep(m, s, e), Step(s, e)) <==> !CreatesLive(s, e.op)
  {
    hide Step, IndexStep, LiveDatoms, NodeDatoms;
    forall x ensures DatomsAt(IndexStep(m, s, e), x) == Written(s, e, x) { IndexStepWrites(m, s, e, x); }
    forall x { LiveDatomsAfter(s, e, x); }
    if e.op.CreateNode? {
      var x := e.op.node.meta.id.value;
      LiveDatomsOf(s, e.op.node.meta.id);
      if CreatesLive(s, e.op) {
        assert |Written(s, e, x)| > |NodeDatoms(e.op.node, e.id)|;
      } else {
        assert LiveDatoms(s, x) + NodeDatoms(e.op.node, e.id) == NodeDatoms(e.op.node, e.id);
      }
    }
  }

  lemma LiveDatomsOf(s: State, id: NodeId)
    requires NodesKeyed(s)
    ensures LiveDatoms(s, id.value) == [] <==> id !in s.nodes
    ensures id in s.nodes ==> LiveDatoms(s, id.value) == NodeDatoms(s.nodes[id], s.lastOp[id])
  {
    assert NodeId(id.value) == id;
  }

  /** No CreateNode in the log hits an id that was live at that point. */
  ghost predicate CreatesFresh(log: seq<Entry>) {
    forall i :: 0 <= i < |log| ==> !CreatesLive(Replay(log[..i]), log[i].op)
  }

  /** Over any run that creates nodes on non-live ids only, the index is a scan of live nodes. */
  lemma {:induction false} IndexAgreement(log: seq<Entry>)
    requires CreatesFresh(log)
    ensures IndexAgrees(IndexReplay(log), Replay(log))
  {
    if log != [] {
      var shorter := Init(log);
      assert CreatesFresh(shorter) by {
        forall i | 0 <= i < |shorter| ensures !CreatesLive(Replay(shorter[..i]), shorter[i].op) {
          assert shorter[..i] == log[..i];
        }
      }
      assert log[..|log| - 1] == shorter;
      assert !CreatesLive(Replay(shorter), Last(log).op);
      hide Step, IndexStep, CreatesFresh, IndexAgrees, CreatesLive;
      IndexAgreement(shorter);
      ReplayNodesKeyed(shorter);
      StepKeepsAgreementIff(IndexReplay(shorter), Replay(shorter), Last(log));
    } else {
      assert forall e :: LiveDatoms(EMPTY_STATE, e) == [];
    }
  }

  /** The sorted list holds exactly the datoms of the live nodes. */
  ghost predicate HoldsLive(o: Order, rows: seq<Row>, s: State) {
    && Sorted(rows)
    && (forall d :: multiset(rows)[Project(o, d)] == multiset(LiveDatoms(s, d.entity))[d])
    && forall x :: x in rows <==> Unproject(o, x) in LiveDatoms(s, Unproject(o, x).entity)
  }

  lemma SortedListHoldsLive(o: Order, rows: seq<Row>, m: EntityDatoms, s: State)
    requires IndexAgrees(m, s) && Agrees(o, rows, m)
    ensures HoldsLive(o, rows, s)
  {
    hide LiveDatoms, Sorted, DatomsAt;
    forall x ensures x in rows <==> Unproject(o, x) in LiveDatoms(s, Unproject(o, x).entity) {
      var d := Unproject(o, x);
      assert multiset(rows)[Project(o, d)] == multiset(LiveDatoms(s, d.entity))[d];
      hide Project, Unproject;
      assert x in rows <==> x in multiset(rows);
      assert d in LiveDatoms(s, d.entity) <==> d in multiset(LiveDatoms(s, d.entity));
    }
  }

  /** All four of them, over such a run. */
  lemma IndexesHoldLive(log: seq<Entry>, index: EAVTIndex)
    requires CreatesFresh(log) && index.Valid() && index.entityDatoms == IndexReplay(log)
    ensures var s := Replay(log);
      && HoldsLive(EAVT, index.eavt, s) && HoldsLive(AEVT, index.aevt, s)
      && HoldsLive(AVET, index.avet, s) && HoldsLive(VAET, index.vaet, s)
  {
    hide HoldsLive, Replay, IndexReplay, Agrees, IndexAgrees, CreatesFresh;
    IndexAgreement(log);
    SortedListHoldsLive(EAVT, index.eavt, index.entityDatoms, Replay(log));
    SortedListHoldsLive(AEVT, index.aevt, index.entityDatoms, Replay(log));
    SortedListHoldsLive(AVET, index.avet, index.entityDatoms, Replay(log));
    SortedListHoldsLive(VAET, index.vaet, index.entityDatoms, Replay(log));
  }
}
