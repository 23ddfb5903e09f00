/** The documents that the codecs of src/uaf/core/serialization.py write and read, key by key. */
module Documents {
  import opened Collections
  import opened JsonValues
  import opened Nodes
  import opened Serialization
  import opened Operations

  // ----- what is written under each key -----

  ghost function TextField(n: Node): Option<Json> {
    match n
    case Paragraph(_, text, _, _) => Some(JStr(text))
    case Heading(_, text, _) => Some(JStr(text))
    case TextBlock(_, text, _) => Some(JStr(text))
    case BulletListItem(_, text, _, _) => Some(JStr(text))
    case NumberedListItem(_, text, _, _) => Some(JStr(text))
    case Blockquote(_, text, _) => Some(JStr(text))
    case _ => None
  }

  /** A cell value as plain JSON: null, a truth value, a number or a string. */
  ghost predicate WritesValue(v: CellValue, j: Json) {
    && (v.VNone? ==> j == JNull) && (v.VBool? ==> j == JBool(v.b)) && (v.VInt? ==> j == JInt(v.i))
    && (v.VFloat? ==> j == JNumber(v.repr)) && (v.VStr? ==> j == JStr(v.s))
  }

  ghost predicate WritesText(o: Option<string>, j: Json) {
    if o.Some? then j == JStr(o.value) else j == JNull
  }

  ghost predicate WritesInt(o: Option<int>, j: Json) {
    if o.Some? then j == JInt(o.value) else j == JNull
  }

  ghost predicate WritesTime(o: Option<Time>, j: Json) {
    if o.Some? then j == JTime(o.value) else j == JNull
  }

  /** Keys of text, with the nodes that write them. */
  ghost predicate TextKeys(n: Node, d: Fields) {
    && Get(d, KText) == TextField(n)
    && (KTitle in d <==> n.Artifact? || n.Sheet? || n.Task? || n.Slide?)
    && (KTitle in d ==> d[KTitle] == JStr(n.title))
    && (KArtifactType in d <==> n.Artifact? && n.artifactType != "doc")
    && (KArtifactType in d ==> d[KArtifactType] == JStr(n.artifactType))
  }

  /** Keys of paragraphs, headings and text blocks. */
  ghost predicate StyleKeys(n: Node, d: Fields) {
    && Get(d, KStyle) == (if n.Paragraph? then Some(JStr(n.style)) else None)
    && Get(d, KLevel) == (if n.Heading? then Some(JInt(n.level)) else None)
    && Get(d, KFormat) == (if n.TextBlock? then Some(JStr(n.format)) else None)
  }

  /** Keys of list items and quotations. */
  ghost predicate ItemKeys(n: Node, d: Fields) {
    && (KIndentLevel in d <==> n.BulletListItem? || n.NumberedListItem?)
    && (KIndentLevel in d ==> d[KIndentLevel] == JInt(n.indentLevel))
    && (KContentFormat in d <==> n.BulletListItem? || n.NumberedListItem? || n.Blockquote?)
    && (KContentFormat in d ==> d[KContentFormat] == JStr(n.contentFormat))
  }

  /** Keys of cells. */
  ghost predicate GridKeys(n: Node, d: Fields) {
    && (KRow in d <==> n.Cell? || n.FormulaCell?) && (KRow in d ==> d[KRow] == JInt(n.row))
    && (KCol in d <==> n.Cell? || n.FormulaCell?) && (KCol in d ==> d[KCol] == JInt(n.col))
    && (KValue in d <==> n.Cell?) && (KValue in d ==> WritesValue(n.value, d[KValue]))
    && (KCachedValue in d <==> n.FormulaCell?) && (KCachedValue in d ==> WritesValue(n.cachedValue, d[KCachedValue]))
  }

  /** Keys of formulas and sheets. */
  ghost predicate SheetKeys(n: Node, d: Fields) {
    && Get(d, KFormula) == (if n.FormulaCell? then Some(JStr(n.formula)) else None)
    && Get(d, KRows) == (if n.Sheet? then Some(JInt(n.rows)) else None)
    && Get(d, KCols) == (if n.Sheet? then Some(JInt(n.cols)) else None)
  }

  /** Keys of the dates of tasks. */
  ghost predicate DateKeys(n: Node, d: Fields) {
    && (KDueDate in d <==> n.Task?) && (KDueDate in d ==> WritesTime(n.dueDate, d[KDueDate]))
    && (KStartDate in d <==> n.Task?) && (KStartDate in d ==> WritesTime(n.startDate, d[KStartDate]))
    && (KEndDate in d <==> n.Task?) && (KEndDate in d ==> WritesTime(n.endDate, d[KEndDate]))
  }

  /** Keys of the state of tasks and of slides. */
  ghost predicate TaskKeys(n: Node, d: Fields) {
    && Get(d, KCompleted) == (if n.Task? then Some(JBool(n.completed)) else None)
    && Get(d, KOrder) == (if n.Slide? then Some(JInt(n.order)) else None)
    && Get(d, KStatus) == (if n.Task? then Some(JStr(n.status)) else None)
  }

  /** Keys of source text. */
  ghost predicate SourceKeys(n: Node, d: Fields) {
    && (KSource in d <==> n.CodeBlock? || n.MathBlock?) && (KSource in d ==> d[KSource] == JStr(n.source))
  }

  /** Keys of code and of equations. */
  ghost predicate CodeKeys(n: Node, d: Fields) {
    && Get(d, KLanguage) == (if n.CodeBlock? then Some(JStr(n.language)) else None)
    && (KEquationNumber in d <==> n.MathBlock?)
    && (KEquationNumber in d ==> WritesText(n.equationNumber, d[KEquationNumber]))
    && Get(d, KDisplay) == (if n.MathBlock? then Some(JStr(n.display)) else None)
  }

  /** Keys of shapes. */
  ghost predicate FigureKeys(n: Node, d: Fields) {
    && Get(d, KShapeType) == (if n.Shape? then Some(JStr(n.shapeType)) else None)
    && Get(d, KX) == (if n.Shape? then Some(JFloat(n.sx)) else None)
    && Get(d, KY) == (if n.Shape? then Some(JFloat(n.sy)) else None)
  }

  /** Keys of images, and the size they share with shapes. */
  ghost predicate ImageKeys(n: Node, d: Fields) {
    && (KWidth in d <==> n.Shape? || n.Image?) && (KHeight in d <==> n.Shape? || n.Image?)
    && (n.Shape? ==> d[KWidth] == JFloat(n.swidth) && d[KHeight] == JFloat(n.sheight))
    && (n.Image? ==> WritesInt(n.iwidth, d[KWidth]) && WritesInt(n.iheight, d[KHeight]))
    && Get(d, KUri) == (if n.Image? then Some(JStr(n.uri)) else None)
    && Get(d, KAltText) == (if n.Image? then Some(JStr(n.altText)) else None)
  }

  /** Keys of access lists. */
  ghost predicate OtherKeys(n: Node, d: Fields) {
    && (KDefaultRole in d <==> n.ArtifactACL?) && (KDefaultRole in d ==> WritesText(n.defaultRole, d[KDefaultRole]))
    && Get(d, KPublicRead) == (if n.ArtifactACL? then Some(JBool(n.publicRead)) else None)
  }

  /** Keys of raw nodes. */
  ghost predicate RawKeys(n: Node, d: Fields) {
    && Get(d, KRaw) == (if n.RawNode? then Some(n.raw) else None)
    && Get(d, KOriginalType) == (if n.RawNode? then Some(JType(n.originalType)) else None)
  }

  lemma TextBodies(n: Node)
    ensures TextKeys(n, NodeBody(n)) && StyleKeys(n, NodeBody(n)) && ItemKeys(n, NodeBody(n))
  {
    hide CellToJson, NullStr, NullInt, NullTime, StyleKeys, ItemKeys;
    StyleBodies(n);
    ItemBodies(n);
  }

  lemma StyleBodies(n: Node)
    ensures StyleKeys(n, NodeBody(n))
  {
    hide CellToJson, NullStr, NullInt, NullTime;
  }

  lemma ItemBodies(n: Node)
    ensures ItemKeys(n, NodeBody(n))
  {
    hide CellToJson, NullStr, NullInt, NullTime;
  }

  lemma GridBodies(n: Node)
    ensures GridKeys(n, NodeBody(n)) && SheetKeys(n, NodeBody(n))
  {
    hide NullStr, NullInt, NullTime, SheetKeys;
    SheetBodies(n);
  }

  lemma SheetBodies(n: Node)
    ensures SheetKeys(n, NodeBody(n))
  {
    hide CellToJson, NullStr, NullInt, NullTime;
  }

  lemma TaskBodies(n: Node)
    ensures TaskKeys(n, NodeBody(n)) && DateKeys(n, NodeBody(n))
    ensures SourceKeys(n, NodeBody(n)) && CodeKeys(n, NodeBody(n))
  {
    hide CellToJson, NullStr, NullInt, NullTime, DateKeys, SourceKeys, CodeKeys;
    DateBodies(n);
    SourceBodies(n);
    CodeBodies(n);
  }

  lemma DateBodies(n: Node)
    ensures DateKeys(n, NodeBody(n))
  {
    hide CellToJson, NullStr, NullInt;
  }

  lemma CodeBodies(n: Node)
    ensures CodeKeys(n, NodeBody(n))
  {
    hide CellToJson, NullInt, NullTime;
  }

  lemma SourceBodies(n: Node)
    ensures SourceKeys(n, NodeBody(n))
  {
    hide CellToJson, NullInt, NullTime;
  }

  lemma FigureBodies(n: Node)
    ensures FigureKeys(n, NodeBody(n)) && ImageKeys(n, NodeBody(n))
    ensures OtherKeys(n, NodeBody(n)) && RawKeys(n, NodeBody(n))
  {
    hide CellToJson, NullStr, NullInt, NullTime, ImageKeys, OtherKeys, RawKeys;
    ImageBodies(n);
    OtherBodies(n);
    RawBodies(n);
  }

  lemma ImageBodies(n: Node)
    ensures ImageKeys(n, NodeBody(n))
  {
    hide CellToJson, NullStr, NullTime;
  }

  lemma RawBodies(n: Node)
    ensures RawKeys(n, NodeBody(n))
  {
    hide CellToJson, NullStr, NullInt, NullTime;
  }

  lemma OtherBodies(n: Node)
    ensures OtherKeys(n, NodeBody(n))
  {
    hide CellToJson, NullInt, NullTime;
  }

  /** The body of a node, under every key. */
  lemma BodyDocument(n: Node)
    ensures TextKeys(n, NodeBody(n)) && StyleKeys(n, NodeBody(n)) && ItemKeys(n, NodeBody(n))
    ensures GridKeys(n, NodeBody(n)) && SheetKeys(n, NodeBody(n))
    ensures TaskKeys(n, NodeBody(n)) && DateKeys(n, NodeBody(n))
    ensures SourceKeys(n, NodeBody(n)) && CodeKeys(n, NodeBody(n))
    ensures FigureKeys(n, NodeBody(n)) && ImageKeys(n, NodeBody(n))
    ensures OtherKeys(n, NodeBody(n)) && RawKeys(n, NodeBody(n))
  {
    TextBodies(n);
    GridBodies(n);
    TaskBodies(n);
    FigureBodies(n);
    hide *;
  }

  /** The document of a node: its class name, the schema version, its metadata and its body. */
  lemma NodeDocument(n: Node)
    ensures NodeToJson(n).JObject?
    ensures var d := NodeToJson(n).fields;
      && Get(d, KType) == Some(JType(TypeNameOf(n))) && Get(d, KSchema) == Some(JInt(1))
      && Get(d, KMeta) == Some(JObject(MetaToFields(n.meta)))
      && forall k :: k !in {KType, KSchema, KMeta} ==> Get(d, k) == Get(NodeBody(n), k)
  {
    hide NodeBody, MetaToFields, TypeNameOf;
  }

  /** Each kind of node has the type name of its class. */
  lemma TypeNames(n: Node)
    ensures var t := TypeNameOf(n);
      && (t.TArtifact? <==> n.Artifact?) && (t.TParagraph? <==> n.Paragraph?) && (t.THeading? <==> n.Heading?)
      && (t.TTextBlock? <==> n.TextBlock?) && (t.TCell? <==> n.Cell?) && (t.TFormulaCell? <==> n.FormulaCell?)
      && (t.TSheet? <==> n.Sheet?) && (t.TCodeBlock? <==> n.CodeBlock?) && (t.TMathBlock? <==> n.MathBlock?)
      && (t.TTask? <==> n.Task?) && (t.TSlide? <==> n.Slide?) && (t.TShape? <==> n.Shape?) && (t.TImage? <==> n.Image?)
      && (t.TArtifactACL? <==> n.ArtifactACL?) && (t.TRawNode? <==> n.RawNode?)
      && (t.TBulletListItem? <==> n.BulletListItem?) && (t.TNumberedListItem? <==> n.NumberedListItem?)
      && (t.TBlockquote? <==> n.Blockquote?) && (t.TDivider? <==> n.Divider?)
  {
  }

  /** The document of an edge. */
  lemma EdgeDocument(e: Edge)
    ensures EdgeToJson(e).JObject?
    ensures var d := EdgeToJson(e).fields;
      && d.Keys == {KType, KSchema, KId, KSource, KTarget, KEdgeType, KCreatedAt, KProperties}
      && d[KType] == JType(TEdge) && d[KSchema] == JInt(1) && d[KId] == JStr(e.id.value)
      && d[KSource] == JStr(e.source.value) && d[KTarget] == JStr(e.target.value)
      && d[KEdgeType] == JEdgeType(e.edgeType) && d[KCreatedAt] == JTime(e.createdAt) && d[KProperties].JList?
      && |d[KProperties].items| == |e.properties|
      && forall i :: 0 <= i < |e.properties| ==> PropertyWritten(e.properties[i], d[KProperties].items[i])
  {
  }

  /** A pair of the name and the plain value. */
  ghost predicate PropertyWritten(p: (string, PropertyValue), j: Json) {
    && j.JList? && |j.items| == 2 && j.items[0] == JStr(p.0)
    && (p.1.PBool? ==> j.items[1] == JBool(p.1.b)) && (p.1.PInt? ==> j.items[1] == JInt(p.1.i))
    && (p.1.PFloat? ==> j.items[1] == JFloat(p.1.r)) && (p.1.PStr? ==> j.items[1] == JStr(p.1.s))
  }

  /** The fields all operations share. */
  ghost predicate SharedKeys(op: Operation, d: Fields) {
    && {KType, KParentOps, KTimestamp, KPrincipalId} <= d.Keys
    && d[KType] == JType(
      if op.CreateNode? then TCreateNode else if op.UpdateNode? then TUpdateNode else if op.DeleteNode? then TDeleteNode
      else if op.CreateEdge? then TCreateEdge else if op.DeleteEdge? then TDeleteEdge
      else if op.MoveNode? then TMoveNode else TReorderChildren)
    && d[KParentOps].JList? && |d[KParentOps].items| == |op.parentOps|
    && (forall i :: 0 <= i < |op.parentOps| ==> d[KParentOps].items[i] == JDigest(op.parentOps[i]))
    && d[KTimestamp] == JTime(op.timestamp) && WritesText(op.principal, d[KPrincipalId])
  }

  /** Fields of node and edge operations. */
  ghost predicate OwnKeys(op: Operation, d: Fields) {
    && (KNode in d <==> op.CreateNode? || op.UpdateNode?) && (KNode in d ==> d[KNode] == NodeToJson(op.node))
    && (KEdge in d <==> op.CreateEdge?) && (KEdge in d ==> d[KEdge] == EdgeToJson(op.edge))
    && (KEdgeId in d <==> op.DeleteEdge?) && (KEdgeId in d ==> d[KEdgeId] == JStr(op.edgeId.value))
    && (KNodeId in d <==> op.DeleteNode? || op.MoveNode?) && (KNodeId in d ==> d[KNodeId] == JStr(op.nodeId.value))
  }

  /** Fields of tree operations. */
  ghost predicate TreeKeys(op: Operation, d: Fields) {
    && (KNewParentId in d <==> op.MoveNode?) && (KNewParentId in d ==> d[KNewParentId] == JStr(op.newParentId.value))
    && (KParentId in d <==> op.ReorderChildren?) && (KParentId in d ==> d[KParentId] == JStr(op.parentId.value))
    && (KNewOrder in d <==> op.ReorderChildren?)
    && (KNewOrder in d ==>
          && d[KNewOrder].JList? && |d[KNewOrder].items| == |op.newOrder|
          && forall i :: 0 <= i < |op.newOrder| ==> d[KNewOrder].items[i] == JStr(op.newOrder[i].value))
  }

  /** The document of an operation, whose hash is its id. */
  lemma OperationDocument(op: Operation)
    ensures OperationToJson(op).JObject?
    ensures var d := OperationToJson(op).fields; SharedKeys(op, d) && OwnKeys(op, d) && TreeKeys(op, d)
  {
    SharedWritten(op);
    OwnWritten(op);
    TreeWritten(op);
    hide SharedKeys, OwnKeys, TreeKeys;
  }

  lemma TreeWritten(op: Operation)
    ensures OperationToJson(op).JObject? && TreeKeys(op, OperationToJson(op).fields)
  {
    hide NodeToJson, EdgeToJson, ParentsToJson, NullStr;
  }

  lemma SharedWritten(op: Operation)
    ensures OperationToJson(op).JObject? && SharedKeys(op, OperationToJson(op).fields)
  {
    hide NodeToJson, EdgeToJson, NodeIdToJson;
  }

  lemma OwnWritten(op: Operation)
    ensures OperationToJson(op).JObject? && OwnKeys(op, OperationToJson(op).fields)
  {
    hide NodeToJson, EdgeToJson, ParentsToJson, NullStr, MapSeq;
  }

  // ----- what survives -----

  /** The two fields that no document holds are unset. */
  ghost predicate WhollyWritten(n: Node) {
    && (n.meta.layout.Some? ==> n.meta.layout.value.lineLefts.None?)
    && (n.Paragraph? ==> n.contentFormat == "plain")
  }

  /** A node comes back from its document unchanged if and only if the layout has no line offsets and,
      being a paragraph, it is in plain format. */
  lemma NodeSurvivesIff(n: Node)
    ensures NodeFromJson(NodeToJson(n)) == Some(n) <==> WhollyWritten(n)
  {
    NodeRoundTrip(n);
    NormalIsSameIff(n);
    hide NodeToJson, NodeFromJson, NormalNode, WhollyWritten;
  }

  lemma NormalIsSameIff(n: Node)
    ensures NormalNode(n) == n <==> WhollyWritten(n)
  {
    var m := NormalMeta(n.meta);
    assert m == n.meta <==> n.meta.layout.Some? ==> n.meta.layout.value.lineLefts.None?;
    hide NormalMeta;
    assert NormalNode(n).meta == m;
    assert m == n.meta ==> n.(meta := m) == n;
  }

  /** An operation comes back unchanged if and only if the node it carries, if any, does. */
  lemma OperationSurvivesIff(op: Operation)
    ensures OperationFromJson(OperationToJson(op)) == Some(op) <==>
      (op.CreateNode? || op.UpdateNode? ==> WhollyWritten(op.node))
  {
    OperationRoundTrip(op);
    if op.CreateNode? || op.UpdateNode? { NormalIsSameIff(op.node); }
    hide OperationToJson, OperationFromJson, NormalNode, WhollyWritten;
  }

  // ----- reading what this version did not write -----

  /** The class names the decoder knows. */
  const CLASS_NAMES: set<TypeName> := {TArtifact, TParagraph, THeading, TTextBlock, TCell, TFormulaCell, TSheet,
    TCodeBlock, TMathBlock, TTask, TSlide, TShape, TImage, TArtifactACL, TRawNode, TBulletListItem,
    TNumberedListItem, TBlockquote, TDivider}

  /** A document of an unknown type is kept whole: it becomes a raw node under the same id, and writing
      and reading that node gives the same document again. */
  lemma UnknownTypeIsKept(d: Fields)
    requires Get(d, KType).Some? && d[KType].JType? && d[KType].name !in CLASS_NAMES
    ensures var r := NodeFromJson(JObject(d));
      if KMeta in d && d[KMeta].JObject? && MetaFromFields(d[KMeta].fields).Some? then
        var m := MetaFromFields(d[KMeta].fields).value;
        && r.Some? && r.value.RawNode? && r.value.raw == JObject(d) && r.value.originalType == d[KType].name
        && r.value.meta == Meta(m.id, RAW, m.createdAt, m.updatedAt, m.owner, m.layout)
        && NodeFromJson(NodeToJson(r.value)).Some? && NodeFromJson(NodeToJson(r.value)).value.RawNode?
        && NodeFromJson(NodeToJson(r.value)).value.raw == JObject(d)
      else r.None?
  {
    hide MetaFromFields, NodeToJson;
    var r := NodeFromJson(JObject(d));
    if r.Some? { NodeRoundTrip(r.value); }
  }

  /** Fields that older documents lack are read as their defaults. */
  lemma MissingFieldDefaults(m: Meta, d: Fields)
    ensures Get(d, KTitle).Some? && d[KTitle].JStr? && KArtifactType !in d ==>
      NodeFromFields(TArtifact, m, d) == Some(Artifact(m, d[KTitle].s, "doc"))
    ensures Get(d, KText).Some? && d[KText].JStr? && KStyle !in d ==>
      NodeFromFields(TParagraph, m, d) == Some(Paragraph(m, d[KText].s, "body", "plain"))
    ensures Get(d, KText).Some? && d[KText].JStr? && KFormat !in d ==>
      NodeFromFields(TTextBlock, m, d) == Some(TextBlock(m, d[KText].s, "plain"))
    ensures Get(d, KSource).Some? && d[KSource].JStr? && KEquationNumber !in d && KDisplay !in d ==>
      NodeFromFields(TMathBlock, m, d) == Some(MathBlock(m, d[KSource].s, None, "block"))
    ensures Get(d, KUri).Some? && d[KUri].JStr? && KAltText !in d && KWidth !in d && KHeight !in d ==>
      NodeFromFields(TImage, m, d) == Some(Image(m, d[KUri].s, "", None, None))
    ensures KDefaultRole !in d && KPublicRead !in d ==>
      NodeFromFields(TArtifactACL, m, d) == Some(ArtifactACL(m, None, false))
  {
  }

  lemma MissingListDefaults(m: Meta, d: Fields)
    requires Get(d, KText).Some? && d[KText].JStr? && KIndentLevel !in d && KContentFormat !in d
    ensures NodeFromFields(TBulletListItem, m, d) == Some(BulletListItem(m, d[KText].s, 0, "plain"))
    ensures NodeFromFields(TNumberedListItem, m, d) == Some(NumberedListItem(m, d[KText].s, 0, "plain"))
    ensures NodeFromFields(TBlockquote, m, d) == Some(Blockquote(m, d[KText].s, "plain"))
  {
  }

  lemma MissingTaskDefaults(m: Meta, d: Fields)
    requires Get(d, KTitle).Some? && d[KTitle].JStr? && Get(d, KCompleted).Some? && d[KCompleted].JBool?
    requires KDueDate !in d && KStartDate !in d && KEndDate !in d && KStatus !in d
    ensures NodeFromFields(TTask, m, d) == Some(Task(m, d[KTitle].s, d[KCompleted].b, None, None, None, "todo"))
  {
  }
}
