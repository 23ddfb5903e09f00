/** The four sorted indexes of src/uaf/db/eavt.py and what their range scans return. */
module Eavt {
  import opened Collections
  import opened JsonValues

  datatype Datom = Datom(entity: string, attribute: string, value: string, tx: OperationId)

  /** The first three fields of an index row, in the index's own order. */
  datatype Key3 = Key3(k0: string, k1: string, k2: string)

  datatype Row = Row(key: Key3, tx: OperationId)

  datatype Order = EAVT | AEVT | AVET | VAET

  function Project(o: Order, d: Datom): Row {
    match o
    case EAVT => Row(Key3(d.entity, d.attribute, d.value), d.tx)
    case AEVT => Row(Key3(d.attribute, d.entity, d.value), d.tx)
    case AVET => Row(Key3(d.attribute, d.value, d.entity), d.tx)
    case VAET => Row(Key3(d.value, d.attribute, d.entity), d.tx)
  }

  function Unproject(o: Order, r: Row): (d: Datom)
    ensures Project(o, d) == r
  {
    match o
    case EAVT => Datom(r.key.k0, r.key.k1, r.key.k2, r.tx)
    case AEVT => Datom(r.key.k1, r.key.k0, r.key.k2, r.tx)
    case AVET => Datom(r.key.k2, r.key.k0, r.key.k1, r.tx)
    case VAET => Datom(r.key.k2, r.key.k1, r.key.k0, r.tx)
  }

  // ----- order -----

  /** Code-point order of strings. */
  predicate Less(a: string, b: string) {
    if b == [] then false
    else if a == [] then true
    else a[0] < b[0] || (a[0] == b[0] && Less(a[1..], b[1..]))
  }

  lemma {:induction false} LessTransitive(a: string, b: string, c: string)
    requires Less(a, b) && Less(b, c)
    ensures Less(a, c)
  {
    if a != [] && a[0] == b[0] && b[0] == c[0] {
      LessTransitive(a[1..], b[1..], c[1..]);
    }
  }

  lemma {:induction false} LessTotal(a: string, b: string)
    ensures Less(a, b) || a == b || Less(b, a)
    ensures !(Less(a, b) && Less(b, a))
    ensures !Less(a, a)
  {
    if a != [] && b != [] && a[0] == b[0] {
      LessTotal(a[1..], b[1..]);
      assert a == [a[0]] + a[1..] && b == [b[0]] + b[1..];
    }
    if a != [] { LessTotal(a[1..], a[1..]); }
  }

  predicate KeyLess(a: Key3, b: Key3) {
    Less(a.k0, b.k0) || (a.k0 == b.k0 && (
    Less(a.k1, b.k1) || (a.k1 == b.k1 && Less(a.k2, b.k2))))
  }

  /** a comes first where the two strings part, or ends there. */
  ghost predicate Precedes(a: string, b: string) {
    exists k :: 0 <= k <= |a| && k < |b| && a[..k] == b[..k] && (k == |a| || a[k] < b[k])
  }

  lemma {:induction false} LessIff(a: string, b: string)
    ensures Less(a, b) <==> Precedes(a, b)
  {
    if a != [] && b != [] {
      LessIff(a[1..], b[1..]);
      if a[0] < b[0] {
        assert a[..0] == b[..0];
      } else if Less(a, b) {
        var k :| 0 <= k < |a| && k < |b| - 1 && a[1..][..k] == b[1..][..k] && (k == |a| - 1 || a[1..][k] < b[1..][k]);
        assert a[..k + 1] == [a[0]] + a[1..][..k] && b[..k + 1] == [b[0]] + b[1..][..k];
      }
      if Precedes(a, b) {
        var k :| 0 <= k <= |a| && k < |b| && a[..k] == b[..k] && (k == |a| || a[k] < b[k]);
        if k > 0 {
          assert a[0] == a[..k][0] && b[0] == b[..k][0];
          assert a[1..][..k - 1] == a[..k][1..] && b[1..][..k - 1] == b[..k][1..];
        }
      }
    } else if b != [] {
      assert a[..0] == b[..0];
    }
  }

  /** Keys are compared field by field. */
  lemma KeyOrder(a: Key3, b: Key3)
    ensures KeyLess(a, b) <==>
      || Precedes(a.k0, b.k0)
      || (a.k0 == b.k0 && Precedes(a.k1, b.k1))
      || (a.k0 == b.k0 && a.k1 == b.k1 && Precedes(a.k2, b.k2))
  {
    LessIff(a.k0, b.k0);
    LessIff(a.k1, b.k1);
    LessIff(a.k2, b.k2);
    hide Less, Precedes;
  }

  /** Rows with equal keys stay in the order they were added. */
  predicate RowLess(a: Row, b: Row) {
    KeyLess(a.key, b.key)
  }

  lemma RowLessTransitive(a: Row, b: Row, c: Row)
    requires RowLess(a, b) && RowLess(b, c)
    ensures RowLess(a, c)
  {
    hide Less;
    var x, y, z := a.key, b.key, c.key;
    if Less(x.k0, y.k0) && Less(y.k0, z.k0) { LessTransitive(x.k0, y.k0, z.k0); }
    if Less(x.k1, y.k1) && Less(y.k1, z.k1) { LessTransitive(x.k1, y.k1, z.k1); }
    if Less(x.k2, y.k2) && Less(y.k2, z.k2) { LessTransitive(x.k2, y.k2, z.k2); }
  }

  lemma RowLessAsymmetric(a: Row, b: Row)
    ensures !(RowLess(a, b) && RowLess(b, a))
  {
    hide Less;
    LessTotal(a.key.k0, b.key.k0);
    LessTotal(a.key.k1, b.key.k1);
    LessTotal(a.key.k2, b.key.k2);
  }

  // ----- sorted lists -----

  ghost predicate Sorted(rows: seq<Row>) {
    forall i, j :: 0 <= i < j < |rows| ==> !RowLess(rows[j], rows[i])
  }

  /** SortedList.add: after the rows that are not greater. */
  function Insert(rows: seq<Row>, r: Row): seq<Row> {
    if rows == [] then [r]
    else if RowLess(r, rows[0]) then [r] + rows
    else [rows[0]] + Insert(rows[1..], r)
  }

  lemma {:induction false} InsertContents(rows: seq<Row>, r: Row)
    ensures multiset(Insert(rows, r)) == multiset(rows)[r := multiset(rows)[r] + 1]
  {
    hide RowLess;
    if rows != [] {
      assert rows == [rows[0]] + rows[1..];
      InsertContents(rows[1..], r);
    }
  }

  lemma SortedCons(x: Row, t: seq<Row>)
    requires Sorted(t) && forall y :: y in multiset(t) ==> !RowLess(y, x)
    ensures Sorted([x] + t)
  {
    hide RowLess;
    var s := [x] + t;
    forall i, j | 0 <= i < j < |s| ensures !RowLess(s[j], s[i]) {
      assert s[j] == t[j - 1];
      assert t[j - 1] in multiset(t);
    }
  }

  lemma SortedTail(rows: seq<Row>)
    requires Sorted(rows) && rows != []
    ensures Sorted(rows[1..]) && forall y :: y in multiset(rows[1..]) ==> !RowLess(y, rows[0])
  {
    hide RowLess;
  }

  lemma {:induction false} InsertSorted(rows: seq<Row>, r: Row)
    requires Sorted(rows)
    ensures Sorted(Insert(rows, r))
  {
    if rows != [] {
      SortedTail(rows);
      hide RowLess, Sorted;
      if RowLess(r, rows[0]) {
        assert rows == [rows[0]] + rows[1..];
        forall y | y in multiset(rows) ensures !RowLess(y, r) {
          if RowLess(y, r) { RowLessTransitive(y, r, rows[0]); }
          RowLessAsymmetric(rows[0], rows[0]);
        }
        SortedCons(r, rows);
      } else {
        InsertSorted(rows[1..], r);
        InsertContents(rows[1..], r);
        SortedCons(rows[0], Insert(rows[1..], r));
      }
    } else {
      assert Sorted([r]);
    }
  }

  lemma {:induction false} RemoveContents(rows: seq<Row>, r: Row)
    ensures multiset(Remove(rows, r)) == multiset(rows) - multiset{r}
  {
    if rows != [] {
      assert rows == [rows[0]] + rows[1..];
      RemoveContents(rows[1..], r);
    }
  }

  lemma {:induction false} RemoveSorted(rows: seq<Row>, r: Row)
    requires Sorted(rows)
    ensures Sorted(Remove(rows, r))
  {
    if rows != [] {
      SortedTail(rows);
      hide RowLess, Sorted;
      if rows[0] != r {
        RemoveSorted(rows[1..], r);
        RemoveContents(rows[1..], r);
        SortedCons(rows[0], Remove(rows[1..], r));
      }
    }
  }

  predicate InRange(x: Row, lo: Key3, hi: Key3) {
    !KeyLess(x.key, lo) && KeyLess(x.key, hi)
  }

  /** `irange(lo, hi, (True, False))` */
  function Between(rows: seq<Row>, lo: Key3, hi: Key3): (r: seq<Row>)
    ensures forall x :: x in r <==> x in rows && InRange(x, lo, hi)
  {
    if rows == [] then []
    else (if InRange(rows[0], lo, hi) then [rows[0]] else []) + Between(rows[1..], lo, hi)
  }

  // ----- what a prefix scan means -----

  const TOP := "\U{FFFF}"

  /** w lies in the half-open range from v to v followed by U+FFFF. */
  predicate Matches(v: string, w: string) {
    !Less(w, v) && Less(w, v + TOP)
  }

  /** The range holds exactly v itself and its extensions whose next character is below U+FFFF:
      every exact match, and every hit has v as a prefix. */
  lemma {:induction false} MatchesMeaning(v: string, w: string)
    ensures Matches(v, w) <==> v <= w && (|w| == |v| || w[|v|] < '\U{FFFF}')
  {
    if v == [] {
      assert v + TOP == TOP && TOP[1..] == [];
      assert TOP[0] == '\U{FFFF}';
      assert w != [] ==> (Less(w, TOP) <==> w[0] < TOP[0] || (w[0] == TOP[0] && Less(w[1..], [])));
    } else {
      assert (v + TOP)[1..] == v[1..] + TOP;
      if w != [] && w[0] == v[0] {
        MatchesMeaning(v[1..], w[1..]);
        assert v <= w <==> v[1..] <= w[1..] by {
          assert v == [v[0]] + v[1..] && w == [w[0]] + w[1..];
        }
      }
    }
  }

  /** attr_value: the rows of attribute a whose value matches v. */
  lemma AttrValueRange(x: Row, a: string, v: string)
    ensures InRange(x, Key3(a, v, ""), Key3(a, v + TOP, "")) <==> x.key.k0 == a && Matches(v, x.key.k1)
  {
    LessTotal(x.key.k0, a);
    LessTotal(x.key.k1, v);
    assert !Less(x.key.k2, "");
    hide Less;
  }

  /** entity_attrs, attr_entities and value_refs: the rows whose first field matches. */
  lemma FirstFieldRange(x: Row, v: string)
    ensures InRange(x, Key3(v, "", ""), Key3(v + TOP, "", "")) <==> Matches(v, x.key.k0)
  {
    LessTotal(x.key.k0, v);
    assert !Less(x.key.k1, "") && !Less(x.key.k2, "");
    hide Less;
  }

  /** Among strings of one length, as the UUID text form is, the range is exact. */
  lemma FixedLengthExact(v: string, w: string)
    requires |v| == |w|
    ensures Matches(v, w) <==> v == w
  {
    MatchesMeaning(v, w);
  }

  /** entity_attrs over entity names of one length: exactly the rows of that entity. */
  lemma EntityAttrsExact(rows: seq<Row>, e: string)
    requires forall x :: x in rows ==> |x.key.k0| == |e|
    ensures forall x :: x in Between(rows, Key3(e, "", ""), Key3(e + TOP, "", "")) <==> x in rows && x.key.k0 == e
  {
    hide Between, Matches, InRange;
    forall x | x in rows ensures InRange(x, Key3(e, "", ""), Key3(e + TOP, "", "")) <==> x.key.k0 == e {
      FirstFieldRange(x, e);
      FixedLengthExact(e, x.key.k0);
    }
  }

  // ----- the four lists agree with the per-entity list -----

  type EntityDatoms = map<string, seq<Datom>>

  /** `_entity_datoms.get(e, [])` */
  function DatomsAt(m: EntityDatoms, e: string): seq<Datom> {
    if e in m then m[e] else []
  }

  function AddDatom(m: EntityDatoms, d: Datom): EntityDatoms {
    m[d.entity := DatomsAt(m, d.entity) + [d]]
  }

  function AddDatoms(m: EntityDatoms, ds: seq<Datom>): EntityDatoms
    decreases |ds|
  {
    if ds == [] then m else AddDatoms(AddDatom(m, ds[0]), ds[1..])
  }

  function Retract(m: EntityDatoms, e: string): EntityDatoms {
    m - {e}
  }

  ghost predicate OwnEntity(m: EntityDatoms) {
    forall e, i {:trigger m[e][i]} :: e in m && 0 <= i < |m[e]| ==> m[e][i].entity == e
  }

  /** The sorted list holds each datom as often as the per-entity lists do. */
  ghost predicate Agrees(o: Order, rows: seq<Row>, m: EntityDatoms) {
    && Sorted(rows)
    && forall d :: multiset(rows)[Project(o, d)] == multiset(DatomsAt(m, d.entity))[d]
  }

  lemma ProjectInjective(o: Order, d: Datom, e: Datom)
    ensures Project(o, d) == Project(o, e) ==> d == e
  {
  }

  lemma AddOwnEntity(m: EntityDatoms, d: Datom)
    requires OwnEntity(m)
    ensures OwnEntity(AddDatom(m, d))
  {
  }

  lemma AddAgrees(o: Order, rows: seq<Row>, m: EntityDatoms, d: Datom)
    requires Agrees(o, rows, m)
    ensures Agrees(o, Insert(rows, Project(o, d)), AddDatom(m, d))
  {
    hide Sorted, Insert;
    var r := Project(o, d);
    InsertSorted(rows, r);
    InsertContents(rows, r);
    forall x ensures multiset(Insert(rows, r))[Project(o, x)] == multiset(DatomsAt(AddDatom(m, d), x.entity))[x] {
      ProjectInjective(o, x, d);
      hide Project;
    }
  }

  /** The discards of one list during a retraction. */
  function DiscardAll(o: Order, rows: seq<Row>, ds: seq<Datom>): seq<Row>
    decreases |ds|
  {
    if ds == [] then rows else DiscardAll(o, Remove(rows, Project(o, ds[0])), ds[1..])
  }

  lemma DiscardOne(o: Order, rows: seq<Row>, x: Datom, d: Datom)
    ensures multiset(Remove(rows, Project(o, x)))[Project(o, d)] ==
      if d == x && multiset(rows)[Project(o, d)] > 0
      then multiset(rows)[Project(o, d)] - 1 else multiset(rows)[Project(o, d)]
  {
    hide Project, Remove;
    RemoveContents(rows, Project(o, x));
    ProjectInjective(o, d, x);
  }

  lemma {:induction false} DiscardAllContents(o: Order, rows: seq<Row>, ds: seq<Datom>, d: Datom)
    ensures multiset(DiscardAll(o, rows, ds))[Project(o, d)] ==
      if multiset(rows)[Project(o, d)] >= multiset(ds)[d] then multiset(rows)[Project(o, d)] - multiset(ds)[d] else 0
    decreases |ds|
  {
    hide Project, Remove;
    if ds != [] {
      DiscardOne(o, rows, ds[0], d);
      assert ds == [ds[0]] + ds[1..];
      DiscardAllContents(o, Remove(rows, Project(o, ds[0])), ds[1..], d);
    }
  }

  lemma {:induction false} DiscardAllSorted(o: Order, rows: seq<Row>, ds: seq<Datom>)
    requires Sorted(rows)
    ensures Sorted(DiscardAll(o, rows, ds))
    decreases |ds|
  {
    hide Sorted, Project;
    if ds != [] {
      RemoveSorted(rows, Project(o, ds[0]));
      DiscardAllSorted(o, Remove(rows, Project(o, ds[0])), ds[1..]);
    }
  }

  lemma RetractAgrees(o: Order, rows: seq<Row>, m: EntityDatoms, e: string)
    requires Agrees(o, rows, m) && OwnEntity(m)
    ensures Agrees(o, DiscardAll(o, rows, DatomsAt(m, e)), Retract(m, e))
  {
    hide Sorted, Project, DiscardAll;
    var ds := DatomsAt(m, e);
    DiscardAllSorted(o, rows, ds);
    forall x
      ensures multiset(DiscardAll(o, rows, ds))[Project(o, x)] == multiset(DatomsAt(Retract(m, e), x.entity))[x]
    {
      DiscardAllContents(o, rows, ds, x);
      if x.entity != e {
        assert x !in ds;
      }
    }
  }

  // ----- what each scan returns -----

  ghost predicate Stored(m: EntityDatoms, entity: string, attribute: string, value: string, tx: OperationId) {
    Datom(entity, attribute, value, tx) in DatomsAt(m, entity)
  }

  /** w is v, or goes on after v with a character below U+FFFF. */
  ghost predicate GoesOn(v: string, w: string) {
    v <= w && (|w| == |v| || w[|v|] < '\U{FFFF}')
  }

  lemma RowStored(o: Order, rows: seq<Row>, m: EntityDatoms, d: Datom)
    requires Agrees(o, rows, m)
    ensures Project(o, d) in rows <==> Stored(m, d.entity, d.attribute, d.value, d.tx)
  {
    hide Project, Sorted;
    assert multiset(rows)[Project(o, d)] == multiset(DatomsAt(m, d.entity))[d];
  }

  lemma EntityAttrsRows(rows: seq<Row>, m: EntityDatoms, entity: string)
    requires Agrees(EAVT, rows, m)
    ensures var r := Between(rows, Key3(entity, "", ""), Key3(entity + TOP, "", ""));
      forall e, a, v, tx :: Row(Key3(e, a, v), tx) in r <==> Stored(m, e, a, v, tx) && GoesOn(entity, e)
  {
    hide Agrees, Between, InRange, Stored, Matches;
    var r := Between(rows, Key3(entity, "", ""), Key3(entity + TOP, "", ""));
    forall e, a, v, tx ensures Row(Key3(e, a, v), tx) in r <==> Stored(m, e, a, v, tx) && GoesOn(entity, e) {
      RowStored(EAVT, rows, m, Datom(e, a, v, tx));
      FirstFieldRange(Row(Key3(e, a, v), tx), entity);
      MatchesMeaning(entity, e);
    }
  }

  lemma EntityAttrRows(rows: seq<Row>, m: EntityDatoms, entity: string, attribute: string)
    requires Agrees(EAVT, rows, m)
    ensures var r := Between(rows, Key3(entity, attribute, ""), Key3(entity, attribute + TOP, ""));
      forall e, a, v, tx ::
        Row(Key3(e, a, v), tx) in r <==> Stored(m, e, a, v, tx) && e == entity && GoesOn(attribute, a)
  {
    hide Agrees, Between, InRange, Stored, Matches;
    var r := Between(rows, Key3(entity, attribute, ""), Key3(entity, attribute + TOP, ""));
    forall e, a, v, tx ensures
        Row(Key3(e, a, v), tx) in r <==> Stored(m, e, a, v, tx) && e == entity && GoesOn(attribute, a) {
      RowStored(EAVT, rows, m, Datom(e, a, v, tx));
      AttrValueRange(Row(Key3(e, a, v), tx), entity, attribute);
      MatchesMeaning(attribute, a);
    }
  }

  lemma AttrEntitiesRows(rows: seq<Row>, m: EntityDatoms, attribute: string)
    requires Agrees(AEVT, rows, m)
    ensures var r := Between(rows, Key3(attribute, "", ""), Key3(attribute + TOP, "", ""));
      forall e, a, v, tx :: Row(Key3(a, e, v), tx) in r <==> Stored(m, e, a, v, tx) && GoesOn(attribute, a)
  {
    hide Agrees, Between, InRange, Stored, Matches;
    var r := Between(rows, Key3(attribute, "", ""), Key3(attribute + TOP, "", ""));
    forall e, a, v, tx ensures Row(Key3(a, e, v), tx) in r <==> Stored(m, e, a, v, tx) && GoesOn(attribute, a) {
      RowStored(AEVT, rows, m, Datom(e, a, v, tx));
      FirstFieldRange(Row(Key3(a, e, v), tx), attribute);
      MatchesMeaning(attribute, a);
    }
  }

  lemma AttrValueRows(rows: seq<Row>, m: EntityDatoms, attribute: string, value: string)
    requires Agrees(AVET, rows, m)
    ensures var r := Between(rows, Key3(attribute, value, ""), Key3(attribute, value + TOP, ""));
      forall e, a, v, tx ::
        Row(Key3(a, v, e), tx) in r <==> Stored(m, e, a, v, tx) && a == attribute && GoesOn(value, v)
  {
    hide Agrees, Between, InRange, Stored, Matches;
    var r := Between(rows, Key3(attribute, value, ""), Key3(attribute, value + TOP, ""));
    forall e, a, v, tx ensures
        Row(Key3(a, v, e), tx) in r <==> Stored(m, e, a, v, tx) && a == attribute && GoesOn(value, v) {
      RowStored(AVET, rows, m, Datom(e, a, v, tx));
      AttrValueRange(Row(Key3(a, v, e), tx), attribute, value);
      MatchesMeaning(value, v);
    }
  }

  lemma ValueRefsRows(rows: seq<Row>, m: EntityDatoms, value: string)
    requires Agrees(VAET, rows, m)
    ensures var r := Between(rows, Key3(value, "", ""), Key3(value + TOP, "", ""));
      forall e, a, v, tx :: Row(Key3(v, a, e), tx) in r <==> Stored(m, e, a, v, tx) && GoesOn(value, v)
  {
    hide Agrees, Between, InRange, Stored, Matches;
    var r := Between(rows, Key3(value, "", ""), Key3(value + TOP, "", ""));
    forall e, a, v, tx ensures Row(Key3(v, a, e), tx) in r <==> Stored(m, e, a, v, tx) && GoesOn(value, v) {
      RowStored(VAET, rows, m, Datom(e, a, v, tx));
      FirstFieldRange(Row(Key3(v, a, e), tx), value);
      MatchesMeaning(value, v);
    }
  }

  class EAVTIndex {
    var eavt: seq<Row>
    var aevt: seq<Row>
    var avet: seq<Row>
    var vaet: seq<Row>
    var entityDatoms: EntityDatoms

    ghost predicate Valid()
      reads this
    {
      && OwnEntity(entityDatoms)
      && Agrees(EAVT, eavt, entityDatoms)
      && Agrees(AEVT, aevt, entityDatoms)
      && Agrees(AVET, avet, entityDatoms)
      && Agrees(VAET, vaet, entityDatoms)
    }

    constructor ()
      ensures Valid() && entityDatoms == map[]
    {
      eavt, aevt, avet, vaet, entityDatoms := [], [], [], [], map[];
    }

    method Add(d: Datom)
      requires Valid()
      modifies this
      ensures Valid()
      ensures entityDatoms == AddDatom(old(entityDatoms), d)
    {
      AddAgrees(EAVT, eavt, entityDatoms, d);
      AddAgrees(AEVT, aevt, entityDatoms, d);
      AddAgrees(AVET, avet, entityDatoms, d);
      AddAgrees(VAET, vaet, entityDatoms, d);
      AddOwnEntity(entityDatoms, d);
      hide Agrees, AddDatom, OwnEntity, Insert, Project;
      eavt := Insert(eavt, Project(EAVT, d));
      aevt := Insert(aevt, Project(AEVT, d));
      avet := Insert(avet, Project(AVET, d));
      vaet := Insert(vaet, Project(VAET, d));
      entityDatoms := AddDatom(entityDatoms, d);
    }

    method RetractEntity(e: string)
      requires Valid()
      modifies this
      ensures Valid()
      ensures entityDatoms == Retract(old(entityDatoms), e)
    {
      RetractAgrees(EAVT, eavt, entityDatoms, e);
      RetractAgrees(AEVT, aevt, entityDatoms, e);
      RetractAgrees(AVET, avet, entityDatoms, e);
      RetractAgrees(VAET, vaet, entityDatoms, e);
      assert OwnEntity(Retract(entityDatoms, e));
      var datoms := DatomsAt(entityDatoms, e);
      hide Agrees, OwnEntity;
      entityDatoms := Retract(entityDatoms, e);
      ghost var e0, a0, v0, r0 := eavt, aevt, avet, vaet;
      for i := 0 to |datoms|
        invariant DiscardAll(EAVT, eavt, datoms[i..]) == DiscardAll(EAVT, e0, datoms)
        invariant DiscardAll(AEVT, aevt, datoms[i..]) == DiscardAll(AEVT, a0, datoms)
        invariant DiscardAll(AVET, avet, datoms[i..]) == DiscardAll(AVET, v0, datoms)
        invariant DiscardAll(VAET, vaet, datoms[i..]) == DiscardAll(VAET, r0, datoms)
        invariant entityDatoms == Retract(old(entityDatoms), e)
      {
        eavt := Remove(eavt, Project(EAVT, datoms[i]));
        aevt := Remove(aevt, Project(AEVT, datoms[i]));
        avet := Remove(avet, Project(AVET, datoms[i]));
        vaet := Remove(vaet, Project(VAET, datoms[i]));
      }
    }

    function EntityAttrs(entity: string): (r: seq<Row>)
      reads this
    {
      Between(eavt, Key3(entity, "", ""), Key3(entity + TOP, "", ""))
    }

    function EntityAttr(entity: string, attribute: string): (r: seq<Row>)
      reads this
    {
      Between(eavt, Key3(entity, attribute, ""), Key3(entity, attribute + TOP, ""))
    }

    function AttrEntities(attribute: string): (r: seq<Row>)
      reads this
    {
      Between(aevt, Key3(attribute, "", ""), Key3(attribute + TOP, "", ""))
    }

    function AttrValue(attribute: string, value: string): seq<Row>
      reads this
    {
      Between(avet, Key3(attribute, value, ""), Key3(attribute, value + TOP, ""))
    }

    function ValueRefs(value: string): (r: seq<Row>)
      reads this
    {
      Between(vaet, Key3(value, "", ""), Key3(value + TOP, "", ""))
    }

    /** Each scan returns exactly the stored facts it is asked for, its fields in its own order. */
    lemma Scans()
      requires Valid()
      ensures forall entity, e, a, v, tx :: Row(Key3(e, a, v), tx) in EntityAttrs(entity) <==>
        Stored(entityDatoms, e, a, v, tx) && GoesOn(entity, e)
      ensures forall entity, attribute, e, a, v, tx :: Row(Key3(e, a, v), tx) in EntityAttr(entity, attribute) <==>
        Stored(entityDatoms, e, a, v, tx) && e == entity && GoesOn(attribute, a)
      ensures forall attribute, e, a, v, tx :: Row(Key3(a, e, v), tx) in AttrEntities(attribute) <==>
        Stored(entityDatoms, e, a, v, tx) && GoesOn(attribute, a)
      ensures forall attribute, value, e, a, v, tx :: Row(Key3(a, v, e), tx) in AttrValue(attribute, value) <==>
        Stored(entityDatoms, e, a, v, tx) && a == attribute && GoesOn(value, v)
      ensures forall value, e, a, v, tx :: Row(Key3(v, a, e), tx) in ValueRefs(value) <==>
        Stored(entityDatoms, e, a, v, tx) && GoesOn(value, v)
    {
      hide Agrees, Between, Stored, GoesOn, OwnEntity;
      forall entity { EntityAttrsRows(eavt, entityDatoms, entity); }
      forall entity, attribute { EntityAttrRows(eavt, entityDatoms, entity, attribute); }
      forall attribute { AttrEntitiesRows(aevt, entityDatoms, attribute); }
      forall attribute, value { AttrValueRows(avet, entityDatoms, attribute, value); }
      forall value { ValueRefsRows(vaet, entityDatoms, value); }
    }
  }
}
