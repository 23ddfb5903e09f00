/** Decoded JSON documents, and the content-addressed operation id.

    Keys and type names that the codecs know are enumerated; `Other` stands for any other
    text.  A string that is a UUID, an ISO time stamp or a digest is kept as the value it
    renders (UUIDs as text), since each rendering is injective. */
module JsonValues {

  /** A point in time, as an injective image of its ISO text. */
  type Time = int

  datatype NodeType =
    | ARTIFACT | PARAGRAPH | HEADING | TEXT_BLOCK | CELL | FORMULA_CELL | SHEET | CODE_BLOCK
    | MATH_BLOCK | TASK | SLIDE | SHAPE | IMAGE | ARTIFACT_ACL | RAW | BULLET_LIST_ITEM
    | NUMBERED_LIST_ITEM | BLOCKQUOTE | DIVIDER

  datatype EdgeType =
    | CONTAINS | REFERENCES | DEPENDS_ON | COMPLIES_WITH | FOLLOWS | LINKED_TO | OWNED_BY | GRANTS_ROLE

  datatype TypeName =
    | TArtifact | TParagraph | THeading | TTextBlock | TCell | TFormulaCell | TSheet | TCodeBlock
    | TMathBlock | TTask | TSlide | TShape | TImage | TArtifactACL | TRawNode | TBulletListItem
    | TNumberedListItem | TBlockquote | TDivider | TEdge
    | TCreateNode | TUpdateNode | TDeleteNode | TCreateEdge | TDeleteEdge | TMoveNode
    | TReorderChildren | TOther(name: string)

  datatype Key =
    | KType | KSchema | KMeta | KId | KNodeType | KCreatedAt | KUpdatedAt | KOwner | KLayout
    | KPage | KX | KY | KWidth | KHeight | KFontFamily | KFontSize | KFontWeight | KFontStyle
    | KColor | KReadingOrder | KRotation | KFirstLineWeight | KHeaderFooter | KDisplayText
    | KLineHeight | KLineBaselines | KSpans | KFontAnnotations | KText | KYOffset | KXOffset
    | KStart | KEnd | KVerticalAlign | KTitle | KArtifactType | KStyle | KLevel | KFormat
    | KValue | KRow | KCol | KFormula | KCachedValue | KRows | KCols | KSource | KLanguage
    | KEquationNumber | KDisplay | KCompleted | KDueDate | KStartDate | KEndDate | KStatus
    | KOrder | KShapeType | KUri | KAltText | KDefaultRole | KPublicRead | KIndentLevel
    | KContentFormat | KRaw | KOriginalType | KTarget | KEdgeType | KProperties
    | KParentOps | KTimestamp | KPrincipalId | KNode | KNodeId | KEdge | KEdgeId
    | KNewParentId | KParentId | KNewOrder | KOther(name: string)

  datatype Json =
    | JNull
    | JBool(b: bool)
    | JInt(i: int)
    | JFloat(r: real)
    | JNumber(repr: string)
    | JStr(s: string)
    | JTime(t: Time)
    | JNodeType(nodeType: NodeType)
    | JEdgeType(edgeType: EdgeType)
    | JType(name: TypeName)
    | JDigest(digest: OperationId)
    | JList(items: seq<Json>)
    | JObject(fields: map<Key, Json>)

  /** SHA-256 of the canonical JSON text, taken to be injective: the id carries its preimage. */
  datatype OperationId = OperationId(preimage: Json)
}
