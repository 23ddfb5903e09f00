/** Identifiers, node types, layout metadata and edges: the values stored in the graph. */
module Nodes {
  import opened Collections
  import opened JsonValues

  /** The canonical 36-character text form of a UUID (section 4 of RFC 9562). */
  type Uuid = s: string | |s| == 36 witness seq(36, _ => '0')

  datatype NodeId = NodeId(value: Uuid)

  datatype EdgeId = EdgeId(value: Uuid)

  datatype SpanInfo = SpanInfo(
    text: string, fontSize: Option<real>, fontFamily: Option<string>, fontWeight: Option<string>,
    fontStyle: Option<string>, yOffset: Option<real>, xOffset: Option<real>)

  datatype FontAnnotation = FontAnnotation(
    start: int, end: int, fontFamily: string, fontStyle: Option<string>, fontSize: Option<real>,
    fontWeight: Option<string>, verticalAlign: Option<real>)

  datatype LayoutHint = LayoutHint(
    page: Option<int>, x: Option<real>, y: Option<real>, width: Option<real>, height: Option<real>,
    fontFamily: Option<string>, fontSize: Option<real>, fontWeight: Option<string>,
    fontStyle: Option<string>, color: Option<string>, readingOrder: Option<int>,
    rotation: Option<real>, firstLineWeight: Option<string>, headerFooter: bool,
    displayText: Option<string>, lineHeight: Option<real>, lineBaselines: Option<seq<real>>,
    lineLefts: Option<seq<real>>, spans: Option<seq<SpanInfo>>,
    fontAnnotations: Option<seq<FontAnnotation>>)

  datatype Meta = Meta(
    id: NodeId, nodeType: NodeType, createdAt: Time, updatedAt: Time, owner: Option<string>,
    layout: Option<LayoutHint>)

  /** A float is carried as its shortest decimal text. */
  datatype CellValue = VNone | VBool(b: bool) | VInt(i: int) | VFloat(repr: string) | VStr(s: string)

  datatype Node =
    | Artifact(meta: Meta, title: string, artifactType: string)
    | Paragraph(meta: Meta, text: string, style: string, contentFormat: string)
    | Heading(meta: Meta, text: string, level: int)
    | TextBlock(meta: Meta, text: string, format: string)
    | Cell(meta: Meta, value: CellValue, row: int, col: int)
    | FormulaCell(meta: Meta, formula: string, cachedValue: CellValue, row: int, col: int)
    | Sheet(meta: Meta, title: string, rows: int, cols: int)
    | CodeBlock(meta: Meta, source: string, language: string)
    | MathBlock(meta: Meta, source: string, equationNumber: Option<string>, display: string)
    | Task(meta: Meta, title: string, completed: bool, dueDate: Option<Time>,
           startDate: Option<Time>, endDate: Option<Time>, status: string)
    | Slide(meta: Meta, title: string, order: int)
    | Shape(meta: Meta, shapeType: string, sx: real, sy: real, swidth: real, sheight: real)
    | Image(meta: Meta, uri: string, altText: string, iwidth: Option<int>, iheight: Option<int>)
    | ArtifactACL(meta: Meta, defaultRole: Option<string>, publicRead: bool)
    | RawNode(meta: Meta, raw: Json, originalType: TypeName)
    | BulletListItem(meta: Meta, text: string, indentLevel: int, contentFormat: string)
    | NumberedListItem(meta: Meta, text: string, indentLevel: int, contentFormat: string)
    | Blockquote(meta: Meta, text: string, contentFormat: string)
    | Divider(meta: Meta)

  datatype PropertyValue = PBool(b: bool) | PInt(i: int) | PFloat(r: real) | PStr(s: string)

  datatype Edge = Edge(
    id: EdgeId, source: NodeId, target: NodeId, edgeType: EdgeType, createdAt: Time,
    properties: seq<(string, PropertyValue)>)
}
