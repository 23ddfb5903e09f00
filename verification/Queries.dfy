/** The read-only query layer of src/uaf/db/query.py: indexed lookup against a scan of the live
    nodes. */
module Queries {
  import opened Collections
  import opened JsonValues
  import opened Nodes
  import opened Materializer
  import opened Eavt
  import opened Indexing
  import opened NodeAttributes

  /** get_children: the live nodes of the child list, in its order. */
  function LiveChildren(nodes: map<NodeId, Node>, ids: seq<NodeId>): (r: seq<Node>)
    ensures forall n :: n in r ==> exists id :: id in ids && id in nodes && nodes[id] == n
  {
    if ids == [] then []
    else (if ids[0] in nodes then [nodes[ids[0]]] else []) + LiveChildren(nodes, ids[1..])
  }

  function GetChildren(s: State, p: NodeId): seq<Node> {
    LiveChildren(s.nodes, Kids(s, p))
  }

  /** get_edges_from: the edges leaving a node, in dictionary order. */
  function EdgesFrom(keys: seq<EdgeId>, edges: map<EdgeId, Edge>, source: NodeId): seq<Edge> {
    if keys == [] then []
    else
      var rest := EdgesFrom(keys[1..], edges, source);
      if keys[0] in edges && edges[keys[0]].source == source then [edges[keys[0]]] + rest else rest
  }

  function GetEdgesFrom(s: State, source: NodeId): seq<Edge> {
    EdgesFrom(s.edges.keys, s.edges.vals, source)
  }

  // ----- attribute lookup -----

  /** The node has the attribute with a value the range scan for v hits. */
  ghost predicate HasMatch(n: Node, a: string, v: string) {
    exists i :: 0 <= i < |Attributes(n)| && Attributes(n)[i].0 == a && Matches(v, Attributes(n)[i].1)
  }

  /** In terms of the fields of the node: its attribute of that name has v as its value, or extends
      v by a character below U+FFFF. */
  ghost predicate CarriesLike(n: Node, a: string, v: string) {
    exists w :: Carries(n, a, w) && v <= w && (|w| == |v| || w[|v|] < '\U{FFFF}')
  }

  lemma MatchMeaning(n: Node, a: string, v: string)
    ensures HasMatch(n, a, v) <==> CarriesLike(n, a, v)
  {
    hide Carries, Attributes, Matches;
    if HasMatch(n, a, v) {
      var i :| 0 <= i < |Attributes(n)| && Attributes(n)[i].0 == a && Matches(v, Attributes(n)[i].1);
      MatchesMeaning(v, Attributes(n)[i].1);
      AttributeTable(n, a, Attributes(n)[i].1);
      assert Attributes(n)[i] == (a, Attributes(n)[i].1);
    }
    if w :| Carries(n, a, w) && v <= w && (|w| == |v| || w[|v|] < '\U{FFFF}') {
      AttributeTable(n, a, w);
      MatchesMeaning(v, w);
      var i :| 0 <= i < |Attributes(n)| && Attributes(n)[i] == (a, w);
    }
  }

  ghost predicate Live(s: State, n: Node) {
    n.meta.id in s.nodes && s.nodes[n.meta.id] == n
  }

  /** A datom of a live node, and the attribute it came from. */
  lemma LiveDatomIsAttribute(s: State, d: Datom)
    requires NodesKeyed(s) && d in LiveDatoms(s, d.entity)
    ensures |d.entity| == 36 && NodeId(d.entity) in s.nodes
    ensures exists i ::
      0 <= i < |Attributes(s.nodes[NodeId(d.entity)])| &&
        Attributes(s.nodes[NodeId(d.entity)])[i] == (d.attribute, d.value)
  {
    hide Attributes;
    var id := NodeId(d.entity);
    var ds := NodeDatoms(s.nodes[id], s.lastOp[id]);
    var i :| 0 <= i < |ds| && ds[i] == d;
    assert Attributes(s.nodes[id])[i] == (d.attribute, d.value);
  }

  lemma AttributeIsLiveDatom(s: State, n: Node, i: nat)
    requires NodesKeyed(s) && Live(s, n) && i < |Attributes(n)|
    ensures var e, a := n.meta.id.value, Attributes(n)[i];
      Datom(e, a.0, a.1, s.lastOp[n.meta.id]) in LiveDatoms(s, e)
  {
    hide Attributes;
    var id := n.meta.id;
    assert NodeId(id.value) == id;
    assert NodeDatoms(n, s.lastOp[id])[i] == Datom(id.value, Attributes(n)[i].0, Attributes(n)[i].1, s.lastOp[id]);
  }

  /** The rows an attr_value scan returns stand for the matching live nodes. */
  lemma HitIsMatch(s: State, m: EntityDatoms, avet: seq<Row>, a: string, v: string, x: Row)
    requires NodesKeyed(s) && IndexAgrees(m, s) && Agrees(AVET, avet, m)
    requires x in Between(avet, Key3(a, v, ""), Key3(a, v + TOP, ""))
    ensures |x.key.k2| == 36 && NodeId(x.key.k2) in s.nodes && HasMatch(s.nodes[NodeId(x.key.k2)], a, v)
  {
    hide Between, Sorted, LiveDatoms, Attributes, Matches, InRange;
    AttrValueRange(x, a, v);
    var d := Unproject(AVET, x);
    assert multiset(avet)[Project(AVET, d)] > 0;
    assert d in DatomsAt(m, d.entity);
    LiveDatomIsAttribute(s, d);
  }

  lemma MatchIsHit(s: State, m: EntityDatoms, avet: seq<Row>, a: string, v: string, n: Node)
    requires NodesKeyed(s) && IndexAgrees(m, s) && Agrees(AVET, avet, m)
    requires Live(s, n) && HasMatch(n, a, v)
    ensures exists x :: x in Between(avet, Key3(a, v, ""), Key3(a, v + TOP, "")) && x.key.k2 == n.meta.id.value
  {
    hide Between, Sorted, LiveDatoms, Attributes, Matches, InRange;
    var i :| 0 <= i < |Attributes(n)| && Attributes(n)[i].0 == a && Matches(v, Attributes(n)[i].1);
    AttributeIsLiveDatom(s, n, i);
    var d := Datom(n.meta.id.value, a, Attributes(n)[i].1, s.lastOp[n.meta.id]);
    assert d in DatomsAt(m, d.entity);
    var x := Project(AVET, d);
    assert multiset(avet)[x] > 0;
    AttrValueRange(x, a, v);
  }

  /** `_find_node_by_entity_str` */
  function NodeOf(s: State, e: string): Option<Node> {
    if |e| == 36 && NodeId(e) in s.nodes then Some(s.nodes[NodeId(e)]) else None
  }

  /** What find_by_attribute has collected from the first rows of the scan. */
  ghost predicate Found(s: State, rows: seq<Row>, seen: set<string>, result: seq<Node>) {
    && (forall e :: e in seen <==> exists x :: x in rows && x.key.k2 == e)
    && (forall n :: n in result <==> Live(s, n) && n.meta.id.value in seen)
    && (forall i, j :: 0 <= i < j < |result| ==> result[i].meta.id != result[j].meta.id)
  }

  lemma SeenNext(rows: seq<Row>, seen: set<string>, x: Row)
    requires forall e :: e in seen <==> exists y :: y in rows && y.key.k2 == e
    ensures forall e :: e in seen + {x.key.k2} <==> exists y :: y in rows + [x] && y.key.k2 == e
  {
    var rows' := rows + [x];
    assert forall y :: y in rows' <==> y in rows || y == x;
    assert x in rows';
    forall e | e in seen + {x.key.k2} ensures exists y :: y in rows' && y.key.k2 == e {
      if e in seen {
        var y :| y in rows && y.key.k2 == e;
        assert y in rows';
      }
    }
  }

  lemma FoundNext(s: State, rows: seq<Row>, seen: set<string>, result: seq<Node>, x: Row)
    requires Found(s, rows, seen, result) && NodesKeyed(s)
    ensures var e := x.key.k2;
      var result' := if e !in seen && NodeOf(s, e).Some? then result + [NodeOf(s, e).value] else result;
      Found(s, rows + [x], seen + {e}, result')
  {
    var e := x.key.k2;
    SeenNext(rows, seen, x);
    if NodeOf(s, e).Some? {
      var n := NodeOf(s, e).value;
      forall m | Live(s, m) && m.meta.id.value == e ensures m == n { assert NodeId(m.meta.id.value) == m.meta.id; }
      assert Live(s, n) && n.meta.id.value == e;
    } else {
      forall m | Live(s, m) ensures m.meta.id.value != e { assert NodeId(m.meta.id.value) == m.meta.id; }
    }
  }

  /** When the index agrees with the state, the rows of a scan stand for exactly the live nodes
      whose attribute has v as a prefix (with a next character below U+FFFF): indexed lookup is a
      scan of the live nodes. */
  lemma ScanFindsMatches(s: State, m: EntityDatoms, avet: seq<Row>, a: string, v: string, n: Node)
    requires NodesKeyed(s) && IndexAgrees(m, s) && Agrees(AVET, avet, m) && Live(s, n)
    ensures (exists x :: x in Between(avet, Key3(a, v, ""), Key3(a, v + TOP, "")) && x.key.k2 == n.meta.id.value)
      <==> HasMatch(n, a, v)
  {
    hide HasMatch, Between, Agrees, IndexAgrees;
    var rows := Between(avet, Key3(a, v, ""), Key3(a, v + TOP, ""));
    if x :| x in rows && x.key.k2 == n.meta.id.value {
      HitIsMatch(s, m, avet, a, v, x);
      assert NodeId(x.key.k2) == n.meta.id;
    } else if HasMatch(n, a, v) {
      MatchIsHit(s, m, avet, a, v, n);
    }
  }

  /** The live nodes behind the rows of a scan, each where it is first met. */
  function NodesBehind(s: State, rows: seq<Row>): seq<Node> {
    if rows == [] then []
    else
      var most, node := NodesBehind(s, Init(rows)), NodeOf(s, Last(rows).key.k2);
      if node.Some? && !exists x :: x in Init(rows) && x.key.k2 == Last(rows).key.k2 then most + [node.value] else most
  }

  /** A row of the entity `a` comes before every row of the entity `b`. */
  ghost predicate RowsBefore(rows: seq<Row>, a: string, b: string) {
    exists p :: 0 <= p < |rows| && rows[p].key.k2 == a && forall q :: 0 <= q <= p ==> rows[q].key.k2 != b
  }

  /** The nodes stand in the order in which the scan meets them first. */
  lemma {:induction false} BehindOrder(s: State, rows: seq<Row>)
    requires NodesKeyed(s)
    ensures var r := NodesBehind(s, rows);
      && (forall n :: n in r ==> exists p :: 0 <= p < |rows| && rows[p].key.k2 == n.meta.id.value)
      && forall i, j :: 0 <= i < j < |r| ==> RowsBefore(rows, r[i].meta.id.value, r[j].meta.id.value)
  {
    if rows != [] {
      BehindOrder(s, Init(rows));
      assert forall p :: 0 <= p < |rows| - 1 ==> rows[p] == Init(rows)[p];
      assert Last(rows) == rows[|rows| - 1];
      hide RowsBefore;
      var r, most := NodesBehind(s, rows), NodesBehind(s, Init(rows));
      forall i, j | 0 <= i < j < |r| ensures RowsBefore(rows, r[i].meta.id.value, r[j].meta.id.value) {
        if j < |most| {
          BeforeLonger(rows, most[i].meta.id.value, most[j].meta.id.value);
        } else {
          assert most[i] in most;
          BeforeNew(rows, most[i].meta.id.value);
        }
      }
    }
  }

  lemma BeforeLonger(rows: seq<Row>, a: string, b: string)
    requires rows != [] && RowsBefore(Init(rows), a, b)
    ensures RowsBefore(rows, a, b)
  {
    var p :| 0 <= p < |rows| - 1 && Init(rows)[p].key.k2 == a && forall q :: 0 <= q <= p ==> Init(rows)[q].key.k2 != b;
    assert forall q :: 0 <= q <= p ==> rows[q] == Init(rows)[q];
  }

  lemma BeforeNew(rows: seq<Row>, a: string)
    requires rows != [] && (exists p :: 0 <= p < |rows| - 1 && Init(rows)[p].key.k2 == a)
    requires !exists x :: x in Init(rows) && x.key.k2 == Last(rows).key.k2
    ensures RowsBefore(rows, a, Last(rows).key.k2)
  {
    var p :| 0 <= p < |rows| - 1 && Init(rows)[p].key.k2 == a;
    assert forall q :: 0 <= q < |rows| - 1 ==> rows[q] == Init(rows)[q] && Init(rows)[q] in Init(rows);
  }

  /** find_by_attribute: with an agreeing index, exactly the live nodes with a matching attribute,
      each once, in the order of the scan. */
  method FindByAttribute(s: State, index: EAVTIndex, a: string, v: string) returns (result: seq<Node>)
    requires NodesKeyed(s)
    ensures result == NodesBehind(s, index.AttrValue(a, v))
    ensures forall n :: n in result <==>
      Live(s, n) && exists x :: x in index.AttrValue(a, v) && x.key.k2 == n.meta.id.value
    ensures forall i, j :: 0 <= i < j < |result| ==> result[i].meta.id != result[j].meta.id
    ensures index.Valid() && IndexAgrees(index.entityDatoms, s) ==>
      forall n :: n in result <==> Live(s, n) && HasMatch(n, a, v)
    ensures index.Valid() && IndexAgrees(index.entityDatoms, s) ==>
      forall n :: n in result <==> Live(s, n) && CarriesLike(n, a, v)
    ensures forall i, j :: 0 <= i < j < |result| ==>
      RowsBefore(index.AttrValue(a, v), result[i].meta.id.value, result[j].meta.id.value)
  {
    hide HasMatch, Agrees, IndexAgrees, CarriesLike, RowsBefore, NodesBehind, Found, Between, NodesKeyed, Live;
    var rows := index.AttrValue(a, v);
    result := [];
    var seen: set<string> := {};
    assert rows[..0] == [];
    NoneBehind(s);
    for i := 0 to |rows|
      invariant Found(s, rows[..i], seen, result) && result == NodesBehind(s, rows[..i])
    {
      var e := rows[i].key.k2;
      FoundNext(s, rows[..i], seen, result, rows[i]);
      BehindNext(s, rows[..i], seen, result, rows[i]);
      assert rows[..i + 1] == rows[..i] + [rows[i]];
      assert e in seen ==> seen + {e} == seen;
      if e !in seen {
        seen := seen + {e};
        var node := NodeOf(s, e);
        if node.Some? {
          result := result + [node.value];
        }
      }
    }
    assert rows[..|rows|] == rows;
    BehindOrder(s, rows);
    FoundAll(s, rows, seen, result);
    if index.Valid() && IndexAgrees(index.entityDatoms, s) {
      FoundMatches(s, index.entityDatoms, index.avet, a, v, result);
    }
  }

  lemma FoundMatches(s: State, m: EntityDatoms, avet: seq<Row>, a: string, v: string, result: seq<Node>)
    requires NodesKeyed(s) && IndexAgrees(m, s) && Agrees(AVET, avet, m)
    requires forall n :: n in result <==>
      Live(s, n) && exists x :: x in Between(avet, Key3(a, v, ""), Key3(a, v + TOP, "")) && x.key.k2 == n.meta.id.value
    ensures forall n :: n in result <==> Live(s, n) && HasMatch(n, a, v)
    ensures forall n :: n in result <==> Live(s, n) && CarriesLike(n, a, v)
  {
    hide HasMatch, Between, Agrees, IndexAgrees, NodesKeyed, Live, CarriesLike;
    forall n | Live(s, n) ensures n in result <==> HasMatch(n, a, v) { ScanFindsMatches(s, m, avet, a, v, n); }
    forall n ensures HasMatch(n, a, v) <==> CarriesLike(n, a, v) { MatchMeaning(n, a, v); }
  }

  lemma NoneBehind(s: State)
    ensures NodesBehind(s, []) == [] && Found(s, [], {}, [])
  {
  }

  lemma FoundAll(s: State, rows: seq<Row>, seen: set<string>, result: seq<Node>)
    requires Found(s, rows, seen, result)
    ensures forall n :: n in result <==> Live(s, n) && exists x :: x in rows && x.key.k2 == n.meta.id.value
    ensures forall i, j :: 0 <= i < j < |result| ==> result[i].meta.id != result[j].meta.id
  {
  }

  lemma BehindNext(s: State, rows: seq<Row>, seen: set<string>, result: seq<Node>, x: Row)
    requires Found(s, rows, seen, result)
    ensures NodesBehind(s, rows + [x]) ==
      NodesBehind(s, rows) + if x.key.k2 !in seen && NodeOf(s, x.key.k2).Some? then [NodeOf(s, x.key.k2).value] else []
  {
    assert Init(rows + [x]) == rows;
  }

  // ----- lookup by type -----

  /** The first three letters, which tell all type values apart but one pair. */
  function Initials(t: NodeType): (char, char, char) {
    match t
    case ARTIFACT => ('a', 'r', 't')
    case PARAGRAPH => ('p', 'a', 'r')
    case HEADING => ('h', 'e', 'a')
    case TEXT_BLOCK => ('t', 'e', 'x')
    case CELL => ('c', 'e', 'l')
    case FORMULA_CELL => ('f', 'o', 'r')
    case SHEET => ('s', 'h', 'e')
    case CODE_BLOCK => ('c', 'o', 'd')
    case MATH_BLOCK => ('m', 'a', 't')
    case TASK => ('t', 'a', 's')
    case SLIDE => ('s', 'l', 'i')
    case SHAPE => ('s', 'h', 'a')
    case IMAGE => ('i', 'm', 'a')
    case ARTIFACT_ACL => ('a', 'r', 't')
    case RAW => ('r', 'a', 'w')
    case BULLET_LIST_ITEM => ('b', 'u', 'l')
    case NUMBERED_LIST_ITEM => ('n', 'u', 'm')
    case BLOCKQUOTE => ('b', 'l', 'o')
    case DIVIDER => ('d', 'i', 'v')
  }

  lemma InitialsAreFirst(t: NodeType)
    ensures var v := NodeTypeValue(t); |v| >= 3 && (v[0], v[1], v[2]) == Initials(t)
  {
  }

  lemma InitialsTellApart(a: NodeType, b: NodeType)
    ensures Initials(a) == Initials(b) ==> a == b || {a, b} == {ARTIFACT, ARTIFACT_ACL}
  {
  }

  lemma PrefixStartsAlike(v: string, w: string)
    requires |v| >= 3
    ensures v <= w ==> |w| >= 3 && (v[0], v[1], v[2]) == (w[0], w[1], w[2])
  {
  }

  /** The range scan for a type value hits that type only, except that "artifact" also hits
      "artifact_acl". */
  lemma TypeMatches(a: NodeType, b: NodeType)
    ensures Matches(NodeTypeValue(a), NodeTypeValue(b)) <==> a == b || (a.ARTIFACT? && b.ARTIFACT_ACL?)
  {
    var v, w := NodeTypeValue(a), NodeTypeValue(b);
    MatchesMeaning(v, w);
    InitialsAreFirst(a);
    InitialsAreFirst(b);
    InitialsTellApart(a, b);
    hide Matches, Initials;
    if a.ARTIFACT? && b.ARTIFACT_ACL? {
      assert "artifact" <= "artifact_acl" && "artifact_acl"[|"artifact"|] == '_';
    }
    PrefixStartsAlike(v, w);
    assert a == ARTIFACT_ACL ==> !("artifact_acl" <= "artifact");
  }

  /** Only the type attribute is called node_type. */
  lemma TypeAttribute(n: Node, i: nat)
    requires i < |Attributes(n)| && Attributes(n)[i].0 == "node_type"
    ensures Attributes(n)[i].1 == NodeTypeValue(n.meta.nodeType)
  {
    hide IntText, CellText, BoolText, NodeTypeValue;
  }

  lemma HasTypeMatch(n: Node, t: NodeType)
    ensures HasMatch(n, "node_type", NodeTypeValue(t)) <==>
      n.meta.nodeType == t || (t.ARTIFACT? && n.meta.nodeType.ARTIFACT_ACL?)
  {
    hide NodeTypeValue, Matches, Attributes;
    TypeMatches(t, n.meta.nodeType);
    if HasMatch(n, "node_type", NodeTypeValue(t)) {
      var i :| 0 <= i < |Attributes(n)| && Attributes(n)[i].0 == "node_type" &&
        Matches(NodeTypeValue(t), Attributes(n)[i].1);
      TypeAttribute(n, i);
    } else {
      assert Attributes(n)[0].0 == "node_type";
    }
  }

  /** find_by_type(t) finds exactly the live nodes of type t if and only if t is not ARTIFACT or
      no artifact_acl node is live. */
  method FindByType(s: State, index: EAVTIndex, t: NodeType) returns (result: seq<Node>)
    requires NodesKeyed(s) && index.Valid() && IndexAgrees(index.entityDatoms, s)
    ensures forall i, j :: 0 <= i < j < |result| ==> result[i].meta.id != result[j].meta.id
    ensures forall n :: n in result <==>
      Live(s, n) && (n.meta.nodeType == t || (t.ARTIFACT? && n.meta.nodeType.ARTIFACT_ACL?))
    ensures (forall n :: n in result <==> Live(s, n) && n.meta.nodeType == t)
      <==> !t.ARTIFACT? || forall n :: Live(s, n) ==> !n.meta.nodeType.ARTIFACT_ACL?
  {
    hide NodeTypeValue, HasMatch, Between, NodesKeyed, IndexAgrees, Agrees, Live;
    var v := NodeTypeValue(t);
    result := FindByAttribute(s, index, "node_type", v);
    forall n | Live(s, n)
      ensures n in result <==> n.meta.nodeType == t || (t.ARTIFACT? && n.meta.nodeType.ARTIFACT_ACL?)
    {
      HasTypeMatch(n, t);
    }
  }
}
