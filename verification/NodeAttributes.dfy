/** What the indexed attributes of a node say about it, attribute by attribute: _extract_fields of
    src/uaf/db/graph_db.py read from the names of the attributes to the fields. */
module NodeAttributes {
  import opened Collections
  import opened Nodes
  import opened Indexing

  // ----- decimal text -----

  predicate IsDigit(c: char) { '0' <= c <= '9' }

  /** The number a digit string writes. */
  function ReadNat(text: string): nat
    requires forall c :: c in text ==> IsDigit(c)
  {
    if text == [] then 0
    else
      assert IsDigit(Last(text));
      10 * ReadNat(Init(text)) + (Last(text) as int - '0' as int)
  }

  /** The text writes the number: an optional minus sign and digits, the first of them zero only
      when it stands alone and without the sign. */
  ghost predicate Writes(text: string, i: int) {
    var digits := if i < 0 && text != [] then text[1..] else text;
    && digits != [] && (forall c :: c in digits ==> IsDigit(c))
    && (i < 0 ==> text == "-" + digits) && ReadNat(digits) == (if i < 0 then -i else i)
    && (digits[0] == '0' ==> digits == "0" && i == 0)
  }

  lemma {:induction false} NatTextReads(n: nat)
    ensures var text := NatText(n);
      && text != [] && (forall c :: c in text ==> IsDigit(c)) && ReadNat(text) == n
      && (text[0] == '0' ==> text == "0" && n == 0)
  {
    var text := NatText(n);
    if n >= 10 {
      NatTextReads(n / 10);
      assert text[0] == NatText(n / 10)[0];
    }
    assert Init(text) == if n < 10 then [] else NatText(n / 10);
  }

  lemma IntTextWrites(i: int)
    ensures Writes(IntText(i), i)
  {
    NatTextReads(if i < 0 then -i else i);
    hide NatText, ReadNat;
    assert i < 0 ==> IntText(i)[1..] == NatText(-i);
  }

  // ----- which node carries which attribute -----

  ghost predicate TextIs(n: Node, value: string) {
    match n
    case Paragraph(_, text, _, _) => value == text
    case Heading(_, text, _) => value == text
    case TextBlock(_, text, _) => value == text
    case BulletListItem(_, text, _, _) => value == text
    case NumberedListItem(_, text, _, _) => value == text
    case Blockquote(_, text, _) => value == text
    case _ => false
  }

  ghost predicate TitleIs(n: Node, value: string) {
    (n.Artifact? || n.Sheet? || n.Task? || n.Slide?) && value == n.title
  }

  /** Empty for no value, Python's spelling of truth values and integers, and a float's own text. */
  ghost predicate ValueIs(v: CellValue, value: string) {
    match v
    case VNone => value == ""
    case VBool(b) => if b then value == "True" else value == "False"
    case VInt(i) => Writes(value, i)
    case VFloat(repr) => value == repr
    case VStr(s) => value == s
  }

  ghost predicate Truth(b: bool, value: string) {
    if b then value == "True" else value == "False"
  }

  /** The node carries the attribute with that value. */
  ghost predicate Carries(n: Node, name: string, value: string) {
    if name == "node_type" then value == NodeTypeValue(n.meta.nodeType)
    else if name == "owner" then n.meta.owner == Some(value)
    else if name == "title" then TitleIs(n, value)
    else if name == "text" then TextIs(n, value)
    else if name == "row" then (n.Cell? || n.FormulaCell?) && Writes(value, n.row)
    else if name == "col" then (n.Cell? || n.FormulaCell?) && Writes(value, n.col)
    else if name == "rows" then n.Sheet? && Writes(value, n.rows)
    else if name == "cols" then n.Sheet? && Writes(value, n.cols)
    else if name == "value" then n.Cell? && ValueIs(n.value, value)
    else if name == "formula" then n.FormulaCell? && value == n.formula
    else if name == "completed" then n.Task? && Truth(n.completed, value)
    else if name == "status" then n.Task? && value == n.status
    else if name == "level" then n.Heading? && Writes(value, n.level)
    else if name == "order" then n.Slide? && Writes(value, n.order)
    else if name == "style" then n.Paragraph? && value == n.style
    else if name == "format" then n.TextBlock? && value == n.format
    else if name == "source" then n.CodeBlock? && value == n.source
    else if name == "language" then n.CodeBlock? && value == n.language
    else if name == "artifact_type" then n.Artifact? && value == n.artifactType
    else if name == "shape_type" then n.Shape? && value == n.shapeType
    else if name == "uri" then n.Image? && value == n.uri
    else if name == "alt_text" then n.Image? && value == n.altText
    else if name == "default_role" then n.ArtifactACL? && n.defaultRole == Some(value)
    else name == "public_read" && n.ArtifactACL? && Truth(n.publicRead, value)
  }

  /** Two texts of one number are one text. */
  lemma {:induction false} ReadNatInjective(a: string, b: string)
    requires a != [] && b != [] && (forall c :: c in a ==> IsDigit(c)) && forall c :: c in b ==> IsDigit(c)
    requires (a[0] == '0' ==> a == "0") && (b[0] == '0' ==> b == "0") && ReadNat(a) == ReadNat(b)
    ensures a == b
  {
    LastDigits(a, b);
    assert a == Init(a) + [Last(a)] && b == Init(b) + [Last(b)];
    if |a| > 1 && |b| > 1 {
      ReadNatInjective(Init(a), Init(b));
    } else if |a| > 1 {
      ReadNatPositive(Init(a));
    } else if |b| > 1 {
      ReadNatPositive(Init(b));
    }
  }

  lemma LastDigits(a: string, b: string)
    requires a != [] && b != [] && (forall c :: c in a ==> IsDigit(c)) && forall c :: c in b ==> IsDigit(c)
    requires ReadNat(a) == ReadNat(b)
    ensures Last(a) == Last(b) && ReadNat(Init(a)) == ReadNat(Init(b))
  {
    var x, y, p, q := ReadNat(Init(a)), ReadNat(Init(b)), Last(a) as int - '0' as int, Last(b) as int - '0' as int;
    assert Last(a) in a && Last(b) in b;
    assert 10 * x + p == 10 * y + q;
  }

  lemma {:induction false} ReadNatPositive(a: string)
    requires a != [] && (forall c :: c in a ==> IsDigit(c)) && a[0] != '0'
    ensures ReadNat(a) > 0
  {
    assert a[0] in a && Last(a) in a;
    if |a| > 1 {
      ReadNatPositive(Init(a));
    }
    assert ReadNat(a) == 10 * ReadNat(Init(a)) + (Last(a) as int - '0' as int);
  }

  /** There is one text for each number, the one the source writes. */
  lemma WritesIff(text: string, i: int)
    ensures Writes(text, i) <==> text == IntText(i)
  {
    IntTextWrites(i);
    hide ReadNat, IntText;
    if Writes(text, i) {
      var t := IntText(i);
      ReadNatInjective(if i < 0 then text[1..] else text, if i < 0 then t[1..] else t);
    }
  }

  lemma ValueIff(v: CellValue, value: string)
    ensures ValueIs(v, value) <==> value == CellText(v)
  {
    hide Writes, IntText;
    if v.VInt? { WritesIff(value, v.i); }
  }

  /** The attributes of a node, by name. */
  lemma AttributeTable(n: Node, name: string, value: string)
    ensures (name, value) in Attributes(n) <==> Carries(n, name, value)
  {
    hide IntText, CellText, Writes, ValueIs, TextIs, TitleIs, ExtractFields, Carries, FieldsAgree;
    FieldsIff(n, name, value);
    OuterAttributes(n, name, value);
  }

  lemma OuterAttributes(n: Node, name: string, value: string)
    requires FieldsAgree(n, name, value)
    ensures (name, value) in Attributes(n) <==> Carries(n, name, value)
  {
    hide ExtractFields, NodeTypeValue;
  }

  lemma NumbersIff(n: Node, value: string)
    ensures n.Cell? || n.FormulaCell? ==>
      (Writes(value, n.row) <==> value == IntText(n.row)) && (Writes(value, n.col) <==> value == IntText(n.col))
    ensures n.Cell? ==> (ValueIs(n.value, value) <==> value == CellText(n.value))
    ensures n.Sheet? ==>
      (Writes(value, n.rows) <==> value == IntText(n.rows)) && (Writes(value, n.cols) <==> value == IntText(n.cols))
    ensures n.Heading? ==> (Writes(value, n.level) <==> value == IntText(n.level))
    ensures n.Slide? ==> (Writes(value, n.order) <==> value == IntText(n.order))
  {
    hide IntText, CellText, Writes, ValueIs;
    if n.Cell? || n.FormulaCell? {
      WritesIff(value, n.row);
      WritesIff(value, n.col);
    }
    if n.Cell? { ValueIff(n.value, value); }
    if n.Sheet? {
      WritesIff(value, n.rows);
      WritesIff(value, n.cols);
    }
    if n.Heading? { WritesIff(value, n.level); }
    if n.Slide? { WritesIff(value, n.order); }
  }

  /** The fields of a node, compared with the table. */
  ghost predicate FieldsAgree(n: Node, name: string, value: string) {
    if name == "node_type" || name == "owner" then (name, value) !in ExtractFields(n)
    else (name, value) in ExtractFields(n) <==> Carries(n, name, value)
  }

  lemma GridFields(n: Node, name: string, value: string)
    requires n.Cell? || n.FormulaCell? || n.Sheet?
    ensures FieldsAgree(n, name, value)
  {
    hide IntText, CellText, Writes, ValueIs;
    NumbersIff(n, value);
  }

  lemma TextFields(n: Node, name: string, value: string)
    requires n.Heading? || n.Paragraph? || n.TextBlock? || n.BulletListItem? || n.NumberedListItem? || n.Blockquote?
    ensures FieldsAgree(n, name, value)
  {
    hide IntText, Writes;
    NumbersIff(n, value);
  }

  lemma TitledFields(n: Node, name: string, value: string)
    requires n.Artifact? || n.Task? || n.Slide? || n.CodeBlock?
    ensures FieldsAgree(n, name, value)
  {
    hide IntText, Writes;
    NumbersIff(n, value);
  }

  lemma FieldsIff(n: Node, name: string, value: string)
    ensures FieldsAgree(n, name, value)
  {
    if n.Cell? || n.FormulaCell? || n.Sheet? {
      GridFields(n, name, value);
    } else if n.Heading? || n.Paragraph? || n.TextBlock? || n.BulletListItem? || n.NumberedListItem? || n.Blockquote? {
      TextFields(n, name, value);
    } else if n.Artifact? || n.Task? || n.Slide? || n.CodeBlock? {
      TitledFields(n, name, value);
    } else if n.ArtifactACL? {
      AccessFields(n, name, value);
    } else {
      OtherFields(n, name, value);
    }
    hide FieldsAgree;
  }

  lemma OtherFields(n: Node, name: string, value: string)
    requires n.Shape? || n.Image? || n.MathBlock? || n.RawNode? || n.Divider?
    ensures FieldsAgree(n, name, value)
  {
    hide Writes, ValueIs;
  }

  lemma AccessFields(n: Node, name: string, value: string)
    requires n.ArtifactACL?
    ensures FieldsAgree(n, name, value)
  {
    hide Writes, ValueIs;
    var read := ("public_read", BoolText(n.publicRead));
    assert ExtractFields(n) == if n.defaultRole.Some? then [("default_role", n.defaultRole.value), read] else [read];
  }
}
