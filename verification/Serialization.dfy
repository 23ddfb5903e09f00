/** The JSON codecs of src/uaf/core/serialization.py.  A decoder returns None where the code
    raises KeyError, ValueError or SerializationError. */
module Serialization {
  import opened Collections
  import opened JsonValues
  import opened Nodes

  type Fields = map<Key, Json>

  const SCHEMA_VERSION := 1

  // ----- field helpers -----

  /** The dictionary holding key k exactly when write(k) has a value, as the `if ... is not
      None: d[k] = ...` chains of the encoders build it. */
  function Collect(keys: set<Key>, write: Key -> Option<Json>): (d: Fields)
    ensures forall k :: Get(d, k) == if k in keys then write(k) else None
  {
    map k | k in keys && write(k).Some? :: write(k).value
  }

  function OptStr(o: Option<string>): Option<Json> { if o.Some? then Some(JStr(o.value)) else None }
  function OptInt(o: Option<int>): Option<Json> { if o.Some? then Some(JInt(o.value)) else None }
  function OptFloat(o: Option<real>): Option<Json> { if o.Some? then Some(JFloat(o.value)) else None }

  function NullStr(o: Option<string>): Json { if o.Some? then JStr(o.value) else JNull }
  function NullInt(o: Option<int>): Json { if o.Some? then JInt(o.value) else JNull }
  function NullTime(o: Option<Time>): Json { if o.Some? then JTime(o.value) else JNull }

  function AsStr(j: Json): Option<string> { if j.JStr? then Some(j.s) else None }
  function AsInt(j: Json): Option<int> { if j.JInt? then Some(j.i) else None }
  function AsFloat(j: Json): Option<real> { if j.JFloat? then Some(j.r) else None }
  function AsBool(j: Json): Option<bool> { if j.JBool? then Some(j.b) else None }
  function AsTime(j: Json): Option<Time> { if j.JTime? then Some(j.t) else None }
  function AsUuid(j: Json): Option<Uuid> { if j.JStr? && |j.s| == 36 then Some(j.s) else None }

  /** `d.get(k)` read as an optional value: a missing key and null are both None. */
  function Opt<T>(d: Fields, k: Key, read: Json -> Option<T>): Option<Option<T>> {
    if k !in d || d[k].JNull? then Some(None)
    else var v := read(d[k]); if v.Some? then Some(Some(v.value)) else None
  }

  /** `d.get(k, default)` */
  function Default<T>(d: Fields, k: Key, read: Json -> Option<T>, default: T): Option<T> {
    if k in d then read(d[k]) else Some(default)
  }

  /** `d[k]` */
  function Req<T>(d: Fields, k: Key, read: Json -> Option<T>): Option<T> {
    if k in d then read(d[k]) else None
  }

  function ReadAll<T>(items: seq<Json>, read: Json -> Option<T>): Option<seq<T>> {
    if items == [] then Some([])
    else
      var head :- read(items[0]);
      var tail :- ReadAll(items[1..], read);
      Some([head] + tail)
  }

  function AsList<T>(read: Json -> Option<T>): Json -> Option<seq<T>> {
    (j: Json) => if j.JList? then ReadAll(j.items, read) else None
  }

  /** Reading back a list written item by item. */
  lemma {:induction false} ReadAllInverts<A, B>(xs: seq<A>, write: A -> Json, read: Json -> Option<B>, norm: A -> B)
    requires forall x :: x in xs ==> read(write(x)) == Some(norm(x))
    ensures ReadAll(MapSeq(write, xs), read) == Some(MapSeq(norm, xs))
  {
    if xs == [] {
      assert MapSeq(norm, xs) == [];
    } else {
      ReadAllInverts(xs[1..], write, read, norm);
      assert MapSeq(write, xs)[1..] == MapSeq(write, xs[1..]);
      assert MapSeq(norm, xs) == [norm(xs[0])] + MapSeq(norm, xs[1..]);
    }
  }

  // ----- layout -----

  const SPAN_KEYS: set<Key> := {KText, KFontSize, KFontFamily, KFontWeight, KFontStyle, KYOffset, KXOffset}

  function SpanField(s: SpanInfo, k: Key): Option<Json> {
    match k
    case KText => Some(JStr(s.text))
    case KFontSize => OptFloat(s.fontSize)
    case KFontFamily => OptStr(s.fontFamily)
    case KFontWeight => OptStr(s.fontWeight)
    case KFontStyle => OptStr(s.fontStyle)
    case KYOffset => OptFloat(s.yOffset)
    case KXOffset => OptFloat(s.xOffset)
    case _ => None
  }

  function SpanFields(s: SpanInfo): Fields {
    Collect(SPAN_KEYS, k => SpanField(s, k))
  }

  function SpanToJson(s: SpanInfo): Json {
    JObject(SpanFields(s))
  }

  function SpanFromJson(j: Json): Option<SpanInfo> {
    if !j.JObject? then None else
    var d := j.fields;
    var text :- Req(d, KText, AsStr);
    var fontSize :- Opt(d, KFontSize, AsFloat);
    var fontFamily :- Opt(d, KFontFamily, AsStr);
    var fontWeight :- Opt(d, KFontWeight, AsStr);
    var fontStyle :- Opt(d, KFontStyle, AsStr);
    var yOffset :- Opt(d, KYOffset, AsFloat);
    var xOffset :- Opt(d, KXOffset, AsFloat);
    Some(SpanInfo(text, fontSize, fontFamily, fontWeight, fontStyle, yOffset, xOffset))
  }

  /** An optional field reads back as the option that was written. */
  lemma OptStrReads(d: Fields, k: Key, o: Option<string>)
    ensures Get(d, k) == OptStr(o) ==> Opt(d, k, AsStr) == Some(o)
  {
  }

  lemma OptFloatReads(d: Fields, k: Key, o: Option<real>)
    ensures Get(d, k) == OptFloat(o) ==> Opt(d, k, AsFloat) == Some(o)
  {
  }

  lemma OptIntReads(d: Fields, k: Key, o: Option<int>)
    ensures Get(d, k) == OptInt(o) ==> Opt(d, k, AsInt) == Some(o)
  {
  }

  lemma OptFloatNotText(o: Option<real>)
    ensures OptFloat(o).Some? ==> !OptFloat(o).value.JStr?
  {
  }

  lemma OptListReads<T(!new)>(d: Fields, k: Key, o: Option<seq<T>>, write: T -> Json, read: Json -> Option<T>)
    requires forall x :: read(write(x)) == Some(x)
    ensures Get(d, k) == OptList(o, write) ==> Opt(d, k, AsList(read)) == Some(o)
  {
    if o.Some? {
      ReadAllInverts(o.value, write, read, (x: T) => x);
      assert MapSeq((x: T) => x, o.value) == o.value;
    }
  }

  lemma SpanFieldWritten(s: SpanInfo, k: Key)
    requires k in SPAN_KEYS
    ensures Get(SpanFields(s), k) == SpanField(s, k)
  {
    hide Get, SpanField, Collect;
  }

  lemma SpanWritten(s: SpanInfo)
    ensures Get(SpanFields(s), KText) == Some(JStr(s.text))
    ensures Get(SpanFields(s), KFontSize) == OptFloat(s.fontSize)
    ensures Get(SpanFields(s), KFontFamily) == OptStr(s.fontFamily)
    ensures Get(SpanFields(s), KFontWeight) == OptStr(s.fontWeight)
    ensures Get(SpanFields(s), KFontStyle) == OptStr(s.fontStyle)
    ensures Get(SpanFields(s), KYOffset) == OptFloat(s.yOffset)
    ensures Get(SpanFields(s), KXOffset) == OptFloat(s.xOffset)
  {
    hide Get, SpanFields, OptStr, OptFloat;
    SpanFieldWritten(s, KText);
    SpanFieldWritten(s, KFontSize);
    SpanFieldWritten(s, KFontFamily);
    SpanFieldWritten(s, KFontWeight);
    SpanFieldWritten(s, KFontStyle);
    SpanFieldWritten(s, KYOffset);
    SpanFieldWritten(s, KXOffset);
  }

  lemma SpanRoundTrip(s: SpanInfo)
    ensures SpanFromJson(SpanToJson(s)) == Some(s)
  {
    SpanWritten(s);
    var d := SpanFields(s);
    hide Opt, OptStr, OptFloat, SpanFields;
    OptFloatReads(d, KFontSize, s.fontSize);
    OptStrReads(d, KFontFamily, s.fontFamily);
    OptStrReads(d, KFontWeight, s.fontWeight);
    OptStrReads(d, KFontStyle, s.fontStyle);
    OptFloatReads(d, KYOffset, s.yOffset);
    OptFloatReads(d, KXOffset, s.xOffset);
  }

  const ANNOT_KEYS: set<Key> := {KStart, KEnd, KFontFamily, KFontStyle, KFontSize, KFontWeight, KVerticalAlign}

  function AnnotField(a: FontAnnotation, k: Key): Option<Json> {
    match k
    case KStart => Some(JInt(a.start))
    case KEnd => Some(JInt(a.end))
    case KFontFamily => Some(JStr(a.fontFamily))
    case KFontStyle => OptStr(a.fontStyle)
    case KFontSize => OptFloat(a.fontSize)
    case KFontWeight => OptStr(a.fontWeight)
    case KVerticalAlign => OptFloat(a.verticalAlign)
    case _ => None
  }

  function AnnotFields(a: FontAnnotation): Fields {
    Collect(ANNOT_KEYS, k => AnnotField(a, k))
  }

  function AnnotToJson(a: FontAnnotation): Json {
    JObject(AnnotFields(a))
  }

  function AnnotFromJson(j: Json): Option<FontAnnotation> {
    if !j.JObject? then None else
    var d := j.fields;
    var start :- Req(d, KStart, AsInt);
    var end :- Req(d, KEnd, AsInt);
    var fontFamily :- Req(d, KFontFamily, AsStr);
    var fontStyle :- Opt(d, KFontStyle, AsStr);
    var fontSize :- Opt(d, KFontSize, AsFloat);
    var fontWeight :- Opt(d, KFontWeight, AsStr);
    // Old data stored a name here; it reads as no alignment.
    var verticalAlign :-
      if KVerticalAlign in d && d[KVerticalAlign].JStr? then Some(None) else Opt(d, KVerticalAlign, AsFloat);
    Some(FontAnnotation(start, end, fontFamily, fontStyle, fontSize, fontWeight, verticalAlign))
  }

  lemma AnnotFieldWritten(a: FontAnnotation, k: Key)
    requires k in ANNOT_KEYS
    ensures Get(AnnotFields(a), k) == AnnotField(a, k)
  {
    hide Get, AnnotField, Collect;
  }

  lemma AnnotWritten(a: FontAnnotation)
    ensures Get(AnnotFields(a), KStart) == Some(JInt(a.start))
    ensures Get(AnnotFields(a), KEnd) == Some(JInt(a.end))
    ensures Get(AnnotFields(a), KFontFamily) == Some(JStr(a.fontFamily))
    ensures Get(AnnotFields(a), KFontStyle) == OptStr(a.fontStyle)
    ensures Get(AnnotFields(a), KFontSize) == OptFloat(a.fontSize)
    ensures Get(AnnotFields(a), KFontWeight) == OptStr(a.fontWeight)
    ensures Get(AnnotFields(a), KVerticalAlign) == OptFloat(a.verticalAlign)
  {
    hide Get, AnnotFields, OptStr, OptFloat;
    AnnotFieldWritten(a, KStart);
    AnnotFieldWritten(a, KEnd);
    AnnotFieldWritten(a, KFontFamily);
    AnnotFieldWritten(a, KFontStyle);
    AnnotFieldWritten(a, KFontSize);
    AnnotFieldWritten(a, KFontWeight);
    AnnotFieldWritten(a, KVerticalAlign);
  }

  lemma AnnotRoundTrip(a: FontAnnotation)
    ensures AnnotFromJson(AnnotToJson(a)) == Some(a)
  {
    AnnotWritten(a);
    var d := AnnotFields(a);
    hide Opt, OptStr, OptFloat, AnnotFields;
    OptStrReads(d, KFontStyle, a.fontStyle);
    OptFloatReads(d, KFontSize, a.fontSize);
    OptStrReads(d, KFontWeight, a.fontWeight);
    OptFloatReads(d, KVerticalAlign, a.verticalAlign);
    OptFloatNotText(a.verticalAlign);
  }

  function OptList<T>(o: Option<seq<T>>, write: T -> Json): Option<Json> {
    if o.Some? then Some(JList(MapSeq(write, o.value))) else None
  }

  const LAYOUT_KEYS: set<Key> := {
    KPage, KX, KY, KWidth, KHeight, KFontFamily, KFontSize, KFontWeight, KFontStyle, KColor,
    KReadingOrder, KRotation, KFirstLineWeight, KHeaderFooter, KDisplayText, KLineHeight,
    KLineBaselines, KSpans, KFontAnnotations}

  /** `line_lefts` is never written. */
  function LayoutField(l: LayoutHint, k: Key): Option<Json> {
    match k
    case KPage => OptInt(l.page)
    case KX => OptFloat(l.x)
    case KY => OptFloat(l.y)
    case KWidth => OptFloat(l.width)
    case KHeight => OptFloat(l.height)
    case KFontFamily => OptStr(l.fontFamily)
    case KFontSize => OptFloat(l.fontSize)
    case KFontWeight => OptStr(l.fontWeight)
    case KFontStyle => OptStr(l.fontStyle)
    case KColor => OptStr(l.color)
    case KReadingOrder => OptInt(l.readingOrder)
    case KRotation => OptFloat(l.rotation)
    case KFirstLineWeight => OptStr(l.firstLineWeight)
    case KHeaderFooter => if l.headerFooter then Some(JBool(true)) else None
    case KDisplayText => OptStr(l.displayText)
    case KLineHeight => OptFloat(l.lineHeight)
    case KLineBaselines => OptList(l.lineBaselines, (r: real) => JFloat(r))
    case KSpans => OptList(l.spans, SpanToJson)
    case KFontAnnotations => OptList(l.fontAnnotations, AnnotToJson)
    case _ => None
  }

  function LayoutToFields(l: LayoutHint): Fields {
    Collect(LAYOUT_KEYS, k => LayoutField(l, k))
  }

  function LayoutFromFields(d: Fields): Option<LayoutHint> {
    var page :- Opt(d, KPage, AsInt);
    var x :- Opt(d, KX, AsFloat);
    var y :- Opt(d, KY, AsFloat);
    var width :- Opt(d, KWidth, AsFloat);
    var height :- Opt(d, KHeight, AsFloat);
    var fontFamily :- Opt(d, KFontFamily, AsStr);
    var fontSize :- Opt(d, KFontSize, AsFloat);
    var fontWeight :- Opt(d, KFontWeight, AsStr);
    var fontStyle :- Opt(d, KFontStyle, AsStr);
    var color :- Opt(d, KColor, AsStr);
    var readingOrder :- Opt(d, KReadingOrder, AsInt);
    var rotation :- Opt(d, KRotation, AsFloat);
    var firstLineWeight :- Opt(d, KFirstLineWeight, AsStr);
    var headerFooter :- Default(d, KHeaderFooter, AsBool, false);
    var displayText :- Opt(d, KDisplayText, AsStr);
    var lineHeight :- Opt(d, KLineHeight, AsFloat);
    var lineBaselines :- Opt(d, KLineBaselines, AsList(AsFloat));
    var spans :- Opt(d, KSpans, AsList(SpanFromJson));
    var fontAnnotations :- Opt(d, KFontAnnotations, AsList(AnnotFromJson));
    Some(LayoutHint(
      page, x, y, width, height, fontFamily, fontSize, fontWeight, fontStyle, color, readingOrder,
      rotation, firstLineWeight, headerFooter, displayText, lineHeight, lineBaselines, None, spans,
      fontAnnotations))
  }

  /** What survives encoding and decoding of a layout hint. */
  function NormalLayout(l: LayoutHint): LayoutHint {
    l.(lineLefts := None)
  }

  lemma LayoutFieldWritten(l: LayoutHint, k: Key)
    requires k in LAYOUT_KEYS
    ensures Get(LayoutToFields(l), k) == LayoutField(l, k)
  {
    hide Get, LayoutField, Collect;
  }

  lemma LayoutBoxWritten(l: LayoutHint)
    ensures Get(LayoutToFields(l), KPage) == OptInt(l.page)
    ensures Get(LayoutToFields(l), KX) == OptFloat(l.x)
    ensures Get(LayoutToFields(l), KY) == OptFloat(l.y)
    ensures Get(LayoutToFields(l), KWidth) == OptFloat(l.width)
    ensures Get(LayoutToFields(l), KHeight) == OptFloat(l.height)
  {
    hide Get, LayoutToFields, OptStr, OptFloat, OptInt, OptList;
    LayoutFieldWritten(l, KPage);
    LayoutFieldWritten(l, KX);
    LayoutFieldWritten(l, KY);
    LayoutFieldWritten(l, KWidth);
    LayoutFieldWritten(l, KHeight);
  }

  lemma LayoutFontWritten(l: LayoutHint)
    ensures Get(LayoutToFields(l), KFontFamily) == OptStr(l.fontFamily)
    ensures Get(LayoutToFields(l), KFontSize) == OptFloat(l.fontSize)
    ensures Get(LayoutToFields(l), KFontWeight) == OptStr(l.fontWeight)
    ensures Get(LayoutToFields(l), KFontStyle) == OptStr(l.fontStyle)
    ensures Get(LayoutToFields(l), KColor) == OptStr(l.color)
  {
    hide Get, LayoutToFields, OptStr, OptFloat, OptInt, OptList;
    LayoutFieldWritten(l, KFontFamily);
    LayoutFieldWritten(l, KFontSize);
    LayoutFieldWritten(l, KFontWeight);
    LayoutFieldWritten(l, KFontStyle);
    LayoutFieldWritten(l, KColor);
  }

  lemma LayoutTextWritten(l: LayoutHint)
    ensures Get(LayoutToFields(l), KReadingOrder) == OptInt(l.readingOrder)
    ensures Get(LayoutToFields(l), KRotation) == OptFloat(l.rotation)
    ensures Get(LayoutToFields(l), KFirstLineWeight) == OptStr(l.firstLineWeight)
    ensures Get(LayoutToFields(l), KDisplayText) == OptStr(l.displayText)
    ensures Get(LayoutToFields(l), KLineHeight) == OptFloat(l.lineHeight)
  {
    hide Get, LayoutToFields, OptStr, OptFloat, OptInt, OptList;
    LayoutFieldWritten(l, KReadingOrder);
    LayoutFieldWritten(l, KRotation);
    LayoutFieldWritten(l, KFirstLineWeight);
    LayoutFieldWritten(l, KDisplayText);
    LayoutFieldWritten(l, KLineHeight);
  }

  lemma LayoutListsWritten(l: LayoutHint)
    ensures Get(LayoutToFields(l), KHeaderFooter) == (if l.headerFooter then Some(JBool(true)) else None)
    ensures Get(LayoutToFields(l), KLineBaselines) == OptList(l.lineBaselines, (r: real) => JFloat(r))
    ensures Get(LayoutToFields(l), KSpans) == OptList(l.spans, SpanToJson)
    ensures Get(LayoutToFields(l), KFontAnnotations) == OptList(l.fontAnnotations, AnnotToJson)
  {
    hide Get, LayoutToFields, OptStr, OptFloat, OptInt, OptList;
    LayoutFieldWritten(l, KHeaderFooter);
    LayoutFieldWritten(l, KLineBaselines);
    LayoutFieldWritten(l, KSpans);
    LayoutFieldWritten(l, KFontAnnotations);
  }

  lemma LayoutRoundTrip(l: LayoutHint)
    ensures LayoutFromFields(LayoutToFields(l)) == Some(NormalLayout(l))
  {
    hide Collect, OptStr, OptFloat, OptInt, OptList, LayoutToFields;
    var d := LayoutToFields(l);
    LayoutBoxWritten(l);
    LayoutFontWritten(l);
    LayoutTextWritten(l);
    LayoutListsWritten(l);
    OptIntReads(d, KPage, l.page);
    OptFloatReads(d, KX, l.x);
    OptFloatReads(d, KY, l.y);
    OptFloatReads(d, KWidth, l.width);
    OptFloatReads(d, KHeight, l.height);
    OptStrReads(d, KFontFamily, l.fontFamily);
    OptFloatReads(d, KFontSize, l.fontSize);
    OptStrReads(d, KFontWeight, l.fontWeight);
    OptStrReads(d, KFontStyle, l.fontStyle);
    OptStrReads(d, KColor, l.color);
    OptIntReads(d, KReadingOrder, l.readingOrder);
    OptFloatReads(d, KRotation, l.rotation);
    OptStrReads(d, KFirstLineWeight, l.firstLineWeight);
    OptStrReads(d, KDisplayText, l.displayText);
    OptFloatReads(d, KLineHeight, l.lineHeight);
    OptListReads(d, KLineBaselines, l.lineBaselines, (r: real) => JFloat(r), AsFloat);
    forall s ensures SpanFromJson(SpanToJson(s)) == Some(s) { SpanRoundTrip(s); }
    OptListReads(d, KSpans, l.spans, SpanToJson, SpanFromJson);
    forall a ensures AnnotFromJson(AnnotToJson(a)) == Some(a) { AnnotRoundTrip(a); }
    OptListReads(d, KFontAnnotations, l.fontAnnotations, AnnotToJson, AnnotFromJson);
  }

  // ----- metadata -----

  function AsObject(j: Json): Option<Fields> { if j.JObject? then Some(j.fields) else None }

  const META_KEYS: set<Key> := {KId, KNodeType, KCreatedAt, KUpdatedAt, KOwner, KLayout}

  function MetaField(m: Meta, k: Key): Option<Json> {
    match k
    case KId => Some(JStr(m.id.value))
    case KNodeType => Some(JNodeType(m.nodeType))
    case KCreatedAt => Some(JTime(m.createdAt))
    case KUpdatedAt => Some(JTime(m.updatedAt))
    case KOwner => OptStr(m.owner)
    case KLayout => if m.layout.Some? then Some(JObject(LayoutToFields(m.layout.value))) else None
    case _ => None
  }

  function MetaToFields(m: Meta): Fields {
    Collect(META_KEYS, k => MetaField(m, k))
  }

  function LayoutOf(d: Fields): Option<Option<LayoutHint>> {
    if KLayout in d then
      var fields :- AsObject(d[KLayout]);
      var layout :- LayoutFromFields(fields);
      Some(Some(layout))
    else Some(None)
  }

  function MetaFromFields(d: Fields): Option<Meta> {
    var layout :- LayoutOf(d);
    var id :- Req(d, KId, AsUuid);
    var nodeType :- Req(d, KNodeType, (j: Json) => if j.JNodeType? then Some(j.nodeType) else None);
    var createdAt :- Req(d, KCreatedAt, AsTime);
    var updatedAt :- Req(d, KUpdatedAt, AsTime);
    var owner :- Opt(d, KOwner, AsStr);
    Some(Meta(NodeId(id), nodeType, createdAt, updatedAt, owner, layout))
  }

  function NormalMeta(m: Meta): Meta {
    if m.layout.Some? then m.(layout := Some(NormalLayout(m.layout.value))) else m
  }

  lemma MetaFieldWritten(m: Meta, k: Key)
    requires k in META_KEYS
    ensures Get(MetaToFields(m), k) == MetaField(m, k)
  {
    hide Get, MetaField, Collect;
  }

  lemma MetaWritten(m: Meta)
    ensures Get(MetaToFields(m), KId) == Some(JStr(m.id.value))
    ensures Get(MetaToFields(m), KNodeType) == Some(JNodeType(m.nodeType))
    ensures Get(MetaToFields(m), KCreatedAt) == Some(JTime(m.createdAt))
    ensures Get(MetaToFields(m), KUpdatedAt) == Some(JTime(m.updatedAt))
    ensures Get(MetaToFields(m), KOwner) == OptStr(m.owner)
    ensures Get(MetaToFields(m), KLayout) ==
      if m.layout.Some? then Some(JObject(LayoutToFields(m.layout.value))) else None
  {
    hide Get, MetaToFields, OptStr, LayoutToFields;
    MetaFieldWritten(m, KId);
    MetaFieldWritten(m, KNodeType);
    MetaFieldWritten(m, KCreatedAt);
    MetaFieldWritten(m, KUpdatedAt);
    MetaFieldWritten(m, KOwner);
    MetaFieldWritten(m, KLayout);
  }

  lemma LayoutOfMeta(m: Meta)
    ensures LayoutOf(MetaToFields(m)) == Some(NormalMeta(m).layout)
  {
    MetaWritten(m);
    hide MetaToFields, LayoutToFields, LayoutFromFields, NormalLayout;
    if m.layout.Some? {
      LayoutRoundTrip(m.layout.value);
    }
  }

  lemma MetaRoundTrip(m: Meta)
    ensures MetaFromFields(MetaToFields(m)) == Some(NormalMeta(m))
  {
    MetaWritten(m);
    LayoutOfMeta(m);
    OptStrReads(MetaToFields(m), KOwner, m.owner);
    hide MetaToFields, LayoutToFields, LayoutFromFields, NormalLayout, LayoutOf, Opt, OptStr;
  }

  // ----- nodes -----

  function CellToJson(v: CellValue): Json {
    match v
    case VNone => JNull
    case VBool(b) => JBool(b)
    case VInt(i) => JInt(i)
    case VFloat(repr) => JNumber(repr)
    case VStr(s) => JStr(s)
  }

  function AsCell(j: Json): Option<CellValue> {
    match j
    case JNull => Some(VNone)
    case JBool(b) => Some(VBool(b))
    case JInt(i) => Some(VInt(i))
    case JNumber(repr) => Some(VFloat(repr))
    case JStr(s) => Some(VStr(s))
    case _ => None
  }

  function TypeNameOf(n: Node): TypeName {
    match n
    case Artifact(_, _, _) => TArtifact
    case Paragraph(_, _, _, _) => TParagraph
    case Heading(_, _, _) => THeading
    case TextBlock(_, _, _) => TTextBlock
    case Cell(_, _, _, _) => TCell
    case FormulaCell(_, _, _, _, _) => TFormulaCell
    case Sheet(_, _, _, _) => TSheet
    case CodeBlock(_, _, _) => TCodeBlock
    case MathBlock(_, _, _, _) => TMathBlock
    case Task(_, _, _, _, _, _, _) => TTask
    case Slide(_, _, _) => TSlide
    case Shape(_, _, _, _, _, _) => TShape
    case Image(_, _, _, _, _) => TImage
    case ArtifactACL(_, _, _) => TArtifactACL
    case RawNode(_, _, _) => TRawNode
    case BulletListItem(_, _, _, _) => TBulletListItem
    case NumberedListItem(_, _, _, _) => TNumberedListItem
    case Blockquote(_, _, _) => TBlockquote
    case Divider(_) => TDivider
  }

  /** The fields written per type.  A paragraph's content format is never written. */
  function NodeBody(n: Node): Fields {
    match n
    case Artifact(_, title, kind) =>
      if kind != "doc" then map[KTitle := JStr(title), KArtifactType := JStr(kind)] else map[KTitle := JStr(title)]
    case Paragraph(_, text, style, _) => map[KText := JStr(text), KStyle := JStr(style)]
    case Heading(_, text, level) => map[KText := JStr(text), KLevel := JInt(level)]
    case TextBlock(_, text, format) => map[KText := JStr(text), KFormat := JStr(format)]
    case Cell(_, value, row, col) => map[KValue := CellToJson(value), KRow := JInt(row), KCol := JInt(col)]
    case FormulaCell(_, formula, cached, row, col) =>
      map[KFormula := JStr(formula), KCachedValue := CellToJson(cached), KRow := JInt(row), KCol := JInt(col)]
    case Sheet(_, title, rows, cols) => map[KTitle := JStr(title), KRows := JInt(rows), KCols := JInt(cols)]
    case CodeBlock(_, source, language) => map[KSource := JStr(source), KLanguage := JStr(language)]
    case MathBlock(_, source, number, display) =>
      map[KSource := JStr(source), KEquationNumber := NullStr(number), KDisplay := JStr(display)]
    case Task(_, title, completed, due, start, end, status) =>
      map[KTitle := JStr(title), KCompleted := JBool(completed), KDueDate := NullTime(due),
          KStartDate := NullTime(start), KEndDate := NullTime(end), KStatus := JStr(status)]
    case Slide(_, title, order) => map[KTitle := JStr(title), KOrder := JInt(order)]
    case Shape(_, kind, x, y, w, h) =>
      map[KShapeType := JStr(kind), KX := JFloat(x), KY := JFloat(y), KWidth := JFloat(w), KHeight := JFloat(h)]
    case Image(_, uri, alt, w, h) =>
      map[KUri := JStr(uri), KAltText := JStr(alt), KWidth := NullInt(w), KHeight := NullInt(h)]
    case ArtifactACL(_, role, public) => map[KDefaultRole := NullStr(role), KPublicRead := JBool(public)]
    case RawNode(_, raw, original) => map[KRaw := raw, KOriginalType := JType(original)]
    case BulletListItem(_, text, indent, format) =>
      map[KText := JStr(text), KIndentLevel := JInt(indent), KContentFormat := JStr(format)]
    case NumberedListItem(_, text, indent, format) =>
      map[KText := JStr(text), KIndentLevel := JInt(indent), KContentFormat := JStr(format)]
    case Blockquote(_, text, format) => map[KText := JStr(text), KContentFormat := JStr(format)]
    case Divider(_) => map[]
  }

  function NodeToJson(n: Node): Json {
    var d := NodeBody(n)[KType := JType(TypeNameOf(n))][KSchema := JInt(SCHEMA_VERSION)];
    JObject(d[KMeta := JObject(MetaToFields(n.meta))])
  }

  function AsTypeName(j: Json): Option<TypeName> { if j.JType? then Some(j.name) else None }

  /** The branch of node_from_dict for a type name; any other name becomes a RawNode that keeps
      the whole document. */
  function NodeFromFields(t: TypeName, meta: Meta, d: Fields): Option<Node> {
    match t
    case TArtifact =>
      var title :- Req(d, KTitle, AsStr);
      var kind :- Default(d, KArtifactType, AsStr, "doc");
      Some(Artifact(meta, title, kind))
    case TParagraph =>
      var text :- Req(d, KText, AsStr);
      var style :- Default(d, KStyle, AsStr, "body");
      Some(Paragraph(meta, text, style, "plain"))
    case THeading =>
      var text :- Req(d, KText, AsStr);
      var level :- Req(d, KLevel, AsInt);
      Some(Heading(meta, text, level))
    case TTextBlock =>
      var text :- Req(d, KText, AsStr);
      var format :- Default(d, KFormat, AsStr, "plain");
      Some(TextBlock(meta, text, format))
    case TCell =>
      var value :- Req(d, KValue, AsCell);
      var row :- Req(d, KRow, AsInt);
      var col :- Req(d, KCol, AsInt);
      Some(Cell(meta, value, row, col))
    case TFormulaCell =>
      var formula :- Req(d, KFormula, AsStr);
      var cached :- Req(d, KCachedValue, AsCell);
      var row :- Req(d, KRow, AsInt);
      var col :- Req(d, KCol, AsInt);
      Some(FormulaCell(meta, formula, cached, row, col))
    case TSheet =>
      var title :- Req(d, KTitle, AsStr);
      var rows :- Req(d, KRows, AsInt);
      var cols :- Req(d, KCols, AsInt);
      Some(Sheet(meta, title, rows, cols))
    case TCodeBlock =>
      var source :- Req(d, KSource, AsStr);
      var language :- Req(d, KLanguage, AsStr);
      Some(CodeBlock(meta, source, language))
    case TMathBlock =>
      var source :- Req(d, KSource, AsStr);
      var number :- Opt(d, KEquationNumber, AsStr);
      var display :- Default(d, KDisplay, AsStr, "block");
      Some(MathBlock(meta, source, number, display))
    case TTask =>
      var due :- Opt(d, KDueDate, AsTime);
      var start :- Opt(d, KStartDate, AsTime);
      var end :- Opt(d, KEndDate, AsTime);
      var title :- Req(d, KTitle, AsStr);
      var completed :- Req(d, KCompleted, AsBool);
      var status :- Default(d, KStatus, AsStr, "todo");
      Some(Task(meta, title, completed, due, start, end, status))
    case TSlide =>
      var title :- Req(d, KTitle, AsStr);
      var order :- Req(d, KOrder, AsInt);
      Some(Slide(meta, title, order))
    case TShape =>
      var kind :- Req(d, KShapeType, AsStr);
      var x :- Req(d, KX, AsFloat);
      var y :- Req(d, KY, AsFloat);
      var w :- Req(d, KWidth, AsFloat);
      var h :- Req(d, KHeight, AsFloat);
      Some(Shape(meta, kind, x, y, w, h))
    case TImage =>
      var uri :- Req(d, KUri, AsStr);
      var alt :- Default(d, KAltText, AsStr, "");
      var w :- Opt(d, KWidth, AsInt);
      var h :- Opt(d, KHeight, AsInt);
      Some(Image(meta, uri, alt, w, h))
    case TArtifactACL =>
      var role :- Opt(d, KDefaultRole, AsStr);
      var public :- Default(d, KPublicRead, AsBool, false);
      Some(ArtifactACL(meta, role, public))
    case TBulletListItem =>
      var text :- Req(d, KText, AsStr);
      var indent :- Default(d, KIndentLevel, AsInt, 0);
      var format :- Default(d, KContentFormat, AsStr, "plain");
      Some(BulletListItem(meta, text, indent, format))
    case TNumberedListItem =>
      var text :- Req(d, KText, AsStr);
      var indent :- Default(d, KIndentLevel, AsInt, 0);
      var format :- Default(d, KContentFormat, AsStr, "plain");
      Some(NumberedListItem(meta, text, indent, format))
    case TBlockquote =>
      var text :- Req(d, KText, AsStr);
      var format :- Default(d, KContentFormat, AsStr, "plain");
      Some(Blockquote(meta, text, format))
    case TDivider => Some(Divider(meta))
    case TRawNode =>
      if KRaw !in d then None else
      var original :- Req(d, KOriginalType, AsTypeName);
      Some(RawNode(meta, d[KRaw], original))
    case _ => Some(RawNode(meta.(nodeType := RAW), JObject(d), t))
  }

  function NodeFromJson(j: Json): Option<Node> {
    var d :- AsObject(j);
    var t :- Req(d, KType, AsTypeName);
    var metaFields :- Req(d, KMeta, AsObject);
    var meta :- MetaFromFields(metaFields);
    NodeFromFields(t, meta, d)
  }

  /** What survives encoding and decoding of a node. */
  function NormalNode(n: Node): Node {
    if n.Paragraph? then Paragraph(NormalMeta(n.meta), n.text, n.style, "plain") else n.(meta := NormalMeta(n.meta))
  }

  /** d holds everything the body of n holds, and no artifact type of its own. */
  ghost predicate HoldsBody(d: Fields, n: Node) {
    && (forall k {:trigger k in d} {:trigger d[k]} :: k in NodeBody(n) ==> k in d && d[k] == NodeBody(n)[k])
    && (KArtifactType in d ==> KArtifactType in NodeBody(n))
  }

  /** The node a decoder rebuilds from the body of n under metadata m. */
  function ReadBack(n: Node, m: Meta): Node {
    if n.Paragraph? then Paragraph(m, n.text, n.style, "plain") else n.(meta := m)
  }

  lemma TextBodyRoundTrip(n: Node, meta: Meta, d: Fields)
    requires n.Artifact? || n.Paragraph? || n.Heading? || n.TextBlock? || n.Cell?
    requires HoldsBody(d, n)
    ensures NodeFromFields(TypeNameOf(n), meta, d) == Some(ReadBack(n, meta))
  {
  }

  lemma GridBodyRoundTrip(n: Node, meta: Meta, d: Fields)
    requires n.FormulaCell? || n.Sheet? || n.CodeBlock? || n.MathBlock?
    requires HoldsBody(d, n)
    ensures NodeFromFields(TypeNameOf(n), meta, d) == Some(ReadBack(n, meta))
  {
  }

  lemma TaskBodyRoundTrip(n: Node, meta: Meta, d: Fields)
    requires n.Task?
    requires HoldsBody(d, n)
    ensures NodeFromFields(TypeNameOf(n), meta, d) == Some(ReadBack(n, meta))
  {
  }

  lemma FigureBodyRoundTrip(n: Node, meta: Meta, d: Fields)
    requires n.Slide? || n.Shape? || n.Image? || n.ArtifactACL?
    requires HoldsBody(d, n)
    ensures NodeFromFields(TypeNameOf(n), meta, d) == Some(ReadBack(n, meta))
  {
  }

  lemma ItemBodyRoundTrip(n: Node, meta: Meta, d: Fields)
    requires n.RawNode? || n.BulletListItem? || n.NumberedListItem? || n.Blockquote? || n.Divider?
    requires HoldsBody(d, n)
    ensures NodeFromFields(TypeNameOf(n), meta, d) == Some(ReadBack(n, meta))
  {
  }

  lemma BodyRoundTrip(n: Node, meta: Meta, d: Fields)
    requires HoldsBody(d, n)
    ensures NodeFromFields(TypeNameOf(n), meta, d) == Some(ReadBack(n, meta))
  {
    hide *;
    if n.Artifact? || n.Paragraph? || n.Heading? || n.TextBlock? || n.Cell? {
      TextBodyRoundTrip(n, meta, d);
    } else if n.FormulaCell? || n.Sheet? || n.CodeBlock? || n.MathBlock? {
      GridBodyRoundTrip(n, meta, d);
    } else if n.Task? {
      TaskBodyRoundTrip(n, meta, d);
    } else if n.Slide? || n.Shape? || n.Image? || n.ArtifactACL? {
      FigureBodyRoundTrip(n, meta, d);
    } else {
      ItemBodyRoundTrip(n, meta, d);
    }
  }

  lemma BodyKeys(n: Node)
    ensures KType !in NodeBody(n) && KSchema !in NodeBody(n) && KMeta !in NodeBody(n)
    ensures KArtifactType in NodeBody(n) ==> n.Artifact?
  {
    hide CellToJson;
  }

  lemma NodeHoldsBody(n: Node)
    ensures HoldsBody(NodeToJson(n).fields, n)
  {
    BodyKeys(n);
    hide MetaToFields, NodeBody, TypeNameOf;
  }

  /** decode after encode is the identity but for a paragraph's content format and the layout's
      line_lefts. */
  lemma NodeRoundTrip(n: Node)
    ensures NodeFromJson(NodeToJson(n)) == Some(NormalNode(n))
  {
    NodeHoldsBody(n);
    MetaRoundTrip(n.meta);
    var d := NodeToJson(n).fields;
    BodyRoundTrip(n, NormalMeta(n.meta), d);
    hide MetaToFields, MetaFromFields, NodeBody, NodeFromFields, NormalMeta, HoldsBody, TypeNameOf;
    assert d[KType] == JType(TypeNameOf(n)) && d[KMeta] == JObject(MetaToFields(n.meta));
  }

  lemma LayoutFieldNormal(l: LayoutHint, k: Key)
    ensures LayoutField(NormalLayout(l), k) == LayoutField(l, k)
  {
    hide OptList, OptStr, OptInt, OptFloat;
  }

  lemma LayoutNormalEncodesAlike(l: LayoutHint)
    ensures LayoutToFields(NormalLayout(l)) == LayoutToFields(l)
  {
    hide LayoutField, NormalLayout, OptList;
    forall k { LayoutFieldNormal(l, k); }
  }

  lemma MetaNormalEncodesAlike(m: Meta)
    ensures MetaToFields(NormalMeta(m)) == MetaToFields(m)
  {
    hide LayoutToFields, NormalLayout;
    if m.layout.Some? { LayoutNormalEncodesAlike(m.layout.value); }
    forall k ensures MetaField(NormalMeta(m), k) == MetaField(m, k) {}
  }

  lemma BodyNormalEncodesAlike(n: Node)
    ensures NodeBody(NormalNode(n)) == NodeBody(n) && TypeNameOf(NormalNode(n)) == TypeNameOf(n)
  {
    hide NormalMeta, CellToJson;
  }

  /** encode after decode after encode is encode. */
  lemma NodeNormalEncodesAlike(n: Node)
    ensures NodeToJson(NormalNode(n)) == NodeToJson(n)
  {
    BodyNormalEncodesAlike(n);
    MetaNormalEncodesAlike(n.meta);
    assert NormalNode(n).meta == NormalMeta(n.meta);
    hide NodeBody, MetaToFields, NormalMeta, NormalNode, TypeNameOf;
  }

  // ----- edges -----

  function PropertyToJson(p: (string, PropertyValue)): Json {
    var value := match p.1
      case PBool(b) => JBool(b)
      case PInt(i) => JInt(i)
      case PFloat(r) => JFloat(r)
      case PStr(s) => JStr(s);
    JList([JStr(p.0), value])
  }

  function AsProperty(j: Json): Option<(string, PropertyValue)> {
    if !j.JList? || |j.items| != 2 || !j.items[0].JStr? then None
    else match j.items[1]
      case JBool(b) => Some((j.items[0].s, PBool(b)))
      case JInt(i) => Some((j.items[0].s, PInt(i)))
      case JFloat(r) => Some((j.items[0].s, PFloat(r)))
      case JStr(s) => Some((j.items[0].s, PStr(s)))
      case _ => None
  }

  function EdgeToJson(e: Edge): Json {
    JObject(map[
      KType := JType(TEdge), KSchema := JInt(SCHEMA_VERSION), KId := JStr(e.id.value),
      KSource := JStr(e.source.value), KTarget := JStr(e.target.value), KEdgeType := JEdgeType(e.edgeType),
      KCreatedAt := JTime(e.createdAt), KProperties := JList(MapSeq(PropertyToJson, e.properties))])
  }

  function EdgeFromJson(j: Json): Option<Edge> {
    var d :- AsObject(j);
    var properties :- Req(d, KProperties, AsList(AsProperty));
    var id :- Req(d, KId, AsUuid);
    var source :- Req(d, KSource, AsUuid);
    var target :- Req(d, KTarget, AsUuid);
    var edgeType :- Req(d, KEdgeType, (j: Json) => if j.JEdgeType? then Some(j.edgeType) else None);
    var createdAt :- Req(d, KCreatedAt, AsTime);
    Some(Edge(EdgeId(id), NodeId(source), NodeId(target), edgeType, createdAt, properties))
  }

  lemma PropertyRoundTrip(p: (string, PropertyValue))
    ensures AsProperty(PropertyToJson(p)) == Some(p)
  {
  }

  lemma EdgeRoundTrip(e: Edge)
    ensures EdgeFromJson(EdgeToJson(e)) == Some(e)
  {
    forall p | p in e.properties ensures AsProperty(PropertyToJson(p)) == Some(p) { PropertyRoundTrip(p); }
    var same := (p: (string, PropertyValue)) => p;
    ReadAllInverts(e.properties, PropertyToJson, AsProperty, same);
    assert MapSeq(same, e.properties) == e.properties;
    hide PropertyToJson, AsProperty, ReadAll, MapSeq;
  }
}
