/** The database facade: src/uaf/db/graph_db.py.  One apply appends to the log, records for
    undo, materialises and indexes; undo and redo append compensating operations. */
module GraphDbs {
  import opened Collections
  import opened JsonValues
  import opened Nodes
  import opened Serialization
  import opened Operations
  import opened OperationLogs
  import opened Materializer
  import opened Inverses
  import opened UndoManagers
  import opened Eavt
  import opened Indexing

  /** The log determines state and index; the clock is the last time utc_now returned. */
  datatype Core = Core(log: seq<Entry>, clock: Time)

  datatype Outcome = Outcome(core: Core, error: Option<LogError>)

  function StateOf(c: Core): State {
    Replay(c.log)
  }

  ghost predicate CoreValid(c: Core) {
    && ValidLog(c.log)
    && forall i :: 0 <= i < |c.log| ==> c.log[i].op.timestamp <= c.clock
  }

  function Tick(c: Core): Core {
    c.(clock := c.clock + 1)
  }

  function Accept(c: Core, op: Operation): Core {
    c.(log := c.log + [NewEntry(op)])
  }

  /** Apply in order, stopping at the first rejection as an exception does. */
  function ApplyAll(c: Core, ops: seq<Operation>): Outcome
    decreases |ops|
  {
    if ops == [] then Outcome(c, None)
    else if Rejection(c.log, ops[0]).Some? then Outcome(c, Rejection(c.log, ops[0]))
    else ApplyAll(Accept(c, ops[0]), ops[1..])
  }

  /** The compensating operations for one logged operation. */
  function InverseAt(c: Core, i: nat, now: Time): seq<Operation>
    requires i < |c.log|
  {
    Inverse(c.log[..i], c.log[i].op, StateOf(c), now)
  }

  /** The loop of undo: the group's operations in reverse, each inverse computed in the state
      the previous ones left. */
  function UndoIds(c: Core, ids: seq<OperationId>): Outcome
    decreases |ids|
  {
    if ids == [] then Outcome(c, None)
    else
      var i := Position(c.log, Last(ids));
      if i == |c.log| then UndoIds(c, Init(ids))
      else
        var o := ApplyAll(Tick(c), InverseAt(c, i, c.clock + 1));
        if o.error.Some? then o else UndoIds(o.core, Init(ids))
  }

  /** `replace(op, timestamp=utc_now(), parent_ops=())` */
  function Restamp(op: Operation, now: Time): (r: Operation)
    ensures SameAction(op, r) && r.timestamp == now && r.parentOps == [] && r.principal == op.principal
  {
    op.(timestamp := now, parentOps := [])
  }

  /** The loop of redo: the original operations again, in order, freshly stamped. */
  function RedoIds(c: Core, ids: seq<OperationId>): Outcome
    decreases |ids|
  {
    if ids == [] then Outcome(c, None)
    else
      var i := Position(c.log, ids[0]);
      if i == |c.log| then RedoIds(c, ids[1..])
      else
        var o := ApplyAll(Tick(c), [Restamp(c.log[i].op, c.clock + 1)]);
        if o.error.Some? then o else RedoIds(o.core, ids[1..])
  }

  // ----- acceptance -----

  lemma {:induction false} ReplayWf(log: seq<Entry>)
    ensures Wf(Replay(log))
  {
    if log != [] {
      hide Step;
      ReplayWf(Init(log));
      StepKeepsWf(Replay(Init(log)), Last(log));
      hide Wf;
    } else {
      assert Wf(EMPTY_STATE);
    }
  }

  lemma ReplayOneMore(log: seq<Entry>, e: Entry)
    ensures Replay(log + [e]) == Step(Replay(log), e)
  {
    hide Step;
    assert Init(log + [e]) == log;
  }

  /** The ids of a batch of operations are new to the log and distinct from each other. */
  ghost predicate FreshBatch(log: seq<Entry>, ops: seq<Operation>) {
    && (forall i :: 0 <= i < |ops| ==> ops[i].parentOps == [] && ComputeOperationId(ops[i]) !in Ids(log))
    && (forall i, j :: 0 <= i < j < |ops| ==> ComputeOperationId(ops[i]) != ComputeOperationId(ops[j]))
  }

  ghost predicate Extends(c: Core, c': Core) {
    |c.log| <= |c'.log| && c'.log[..|c.log|] == c.log && c.clock <= c'.clock
  }

  lemma AcceptOne(c: Core, op: Operation)
    requires CoreValid(c) && Rejection(c.log, op).None? && op.timestamp <= c.clock
    ensures CoreValid(Accept(c, op)) && Extends(c, Accept(c, op))
    ensures StateOf(Accept(c, op)) == Step(StateOf(c), NewEntry(op))
  {
    hide ComputeOperationId, ValidLog, Step, NewEntry, Rejection, Replay;
    AppendKeepsValid(c.log, op);
    ReplayOneMore(c.log, NewEntry(op));
    NewEntryOp(op);
  }

  lemma FreshRest(c: Core, ops: seq<Operation>)
    requires FreshBatch(c.log, ops) && ops != []
    ensures Rejection(c.log, ops[0]).None?
    ensures FreshBatch(Accept(c, ops[0]).log, ops[1..])
  {
    hide ComputeOperationId;
    NewIds(c.log, ops[0]);
    hide Ids, NewEntry;
  }

  lemma {:induction false} AcceptBatch(c: Core, ops: seq<Operation>)
    requires CoreValid(c) && FreshBatch(c.log, ops)
    requires forall i :: 0 <= i < |ops| ==> ops[i].timestamp <= c.clock
    ensures var o := ApplyAll(c, ops);
      o.error.None? && CoreValid(o.core) && Extends(c, o.core) && o.core.clock == c.clock
      && StateOf(o.core) == Run(StateOf(c), ops)
    decreases |ops|
  {
    hide CoreValid, FreshBatch, StateOf, Rejection, Step, NewEntry;
    if ops != [] {
      var c1 := Accept(c, ops[0]);
      FreshRest(c, ops);
      AcceptOne(c, ops[0]);
      AcceptBatch(c1, ops[1..]);
      ExtendsTransitive(c, c1, ApplyAll(c1, ops[1..]).core);
      hide Accept, Extends;
    }
  }

  lemma ExtendsTransitive(a: Core, b: Core, c: Core)
    requires Extends(a, b) && Extends(b, c)
    ensures Extends(a, c)
  {
    assert c.log[..|a.log|] == c.log[..|b.log|][..|a.log|];
  }

  lemma NewIds(log: seq<Entry>, op: Operation)
    ensures Ids(log + [NewEntry(op)]) == Ids(log) + {ComputeOperationId(op)}
  {
    hide ComputeOperationId;
    IdsAppend(log, NewEntry(op));
  }

  /** A time stamp later than everything logged makes an id new. */
  lemma LaterIsNew(c: Core, op: Operation)
    requires CoreValid(c) && op.timestamp > c.clock
    ensures ComputeOperationId(op) !in Ids(c.log)
  {
    if ComputeOperationId(op) in Ids(c.log) {
      var i :| 0 <= i < |c.log| && c.log[i].id == ComputeOperationId(op);
      IdDeterminesOp(c.log[i].op, op);
      NormalKeepsTime(c.log[i].op);
      NormalKeepsTime(op);
      hide ComputeOperationId, NormalOp;
    }
  }

  lemma NormalKeepsTime(op: Operation)
    ensures NormalOp(op).timestamp == op.timestamp
  {
    hide NormalNode;
  }

  // ----- undo and redo are never rejected -----

  lemma {:induction false} TouchingDistinct(keys: seq<EdgeId>, edges: map<EdgeId, Edge>, id: NodeId)
    requires Distinct(keys)
    ensures Distinct(EdgesTouching(keys, edges, id))
  {
    if keys != [] {
      TouchingDistinct(keys[1..], edges, id);
      assert keys[0] !in keys[1..];
      var rest := EdgesTouching(keys[1..], edges, id);
      assert keys[0] !in rest;
    }
  }

  lemma DropsDistinct(ids: seq<EdgeId>, id: NodeId, now: Time, who: Option<string>)
    requires Distinct(ids)
    ensures var r := DeleteEdges(ids, now, who) + [DeleteNode(id, [], now, who)];
      && (forall i :: 0 <= i < |r| ==> r[i].parentOps == [] && r[i].timestamp == now && NormalOp(r[i]) == r[i])
      && Distinct(r)
  {
    var r := DeleteEdges(ids, now, who) + [DeleteNode(id, [], now, who)];
    forall i | 0 <= i < |ids| ensures r[i] == DeleteEdge(ids[i], [], now, who) {}
    hide DeleteEdges;
  }

  /** Compensating operations carry the given time, no parents, and differ from each other. */
  lemma InverseStamped(prefix: seq<Entry>, op: Operation, s: State, now: Time)
    requires Wf(s)
    ensures var r := Inverse(prefix, op, s, now);
      && (forall i :: 0 <= i < |r| ==> r[i].parentOps == [] && r[i].timestamp == now)
      && (|r| >= 2 ==> forall i :: 0 <= i < |r| ==> NormalOp(r[i]) == r[i])
      && Distinct(r)
  {
    if op.CreateNode? {
      TouchingDistinct(s.edges.keys, s.edges.vals, op.node.meta.id);
      DropsDistinct(EdgesTouching(s.edges.keys, s.edges.vals, op.node.meta.id), op.node.meta.id, now, op.principal);
      hide Wf, EdgesTouching, LastNode, NormalOp, Distinct, DeleteEdges;
    } else {
      hide Wf, EdgesTouching, LastNode, LastEdge, LastMove, LastOrder, FirstParent, NormalOp;
    }
  }

  lemma InverseIsFresh(c: Core, i: nat)
    requires CoreValid(c) && i < |c.log|
    ensures var r := InverseAt(c, i, c.clock + 1);
      FreshBatch(c.log, r) && forall k :: 0 <= k < |r| ==> r[k].timestamp <= Tick(c).clock
  {
    var r := InverseAt(c, i, c.clock + 1);
    ReplayWf(c.log);
    InverseStamped(c.log[..i], c.log[i].op, StateOf(c), c.clock + 1);
    hide ComputeOperationId, Inverse, CoreValid, StateOf, Wf, InverseAt, NormalOp, Ids;
    forall k | 0 <= k < |r| ensures ComputeOperationId(r[k]) !in Ids(c.log) { LaterIsNew(c, r[k]); }
    forall j, k | 0 <= j < k < |r| ensures ComputeOperationId(r[j]) != ComputeOperationId(r[k]) {
      DifferentIds(r[j], r[k]);
    }
  }

  lemma DifferentIds(a: Operation, b: Operation)
    requires a != b && NormalOp(a) == a && NormalOp(b) == b
    ensures ComputeOperationId(a) != ComputeOperationId(b)
  {
    hide ComputeOperationId, NormalOp;
    if ComputeOperationId(a) == ComputeOperationId(b) {
      IdDeterminesOp(a, b);
    }
  }

  /** One round of the undo loop. */
  lemma UndoRound(c: Core, i: nat)
    requires CoreValid(c) && i < |c.log|
    ensures var o := ApplyAll(Tick(c), InverseAt(c, i, c.clock + 1));
      && o.error.None? && CoreValid(o.core) && Extends(c, o.core)
      && StateOf(o.core) == Run(StateOf(c), InverseAt(c, i, c.clock + 1))
  {
    InverseIsFresh(c, i);
    assert CoreValid(Tick(c)) && Extends(c, Tick(c)) && StateOf(Tick(c)) == StateOf(c);
    hide CoreValid, StateOf, InverseAt, FreshBatch;
    AcceptBatch(Tick(c), InverseAt(c, i, c.clock + 1));
    ExtendsTransitive(c, Tick(c), ApplyAll(Tick(c), InverseAt(c, i, c.clock + 1)).core);
  }

  /** Undo of any group is accepted, and only appends. */
  lemma {:induction false} UndoAccepted(c: Core, ids: seq<OperationId>)
    requires CoreValid(c)
    ensures var o := UndoIds(c, ids); o.error.None? && CoreValid(o.core) && Extends(c, o.core)
    decreases |ids|
  {
    hide CoreValid, InverseAt, StateOf, ApplyAll, Run;
    if ids == [] {
      assert Extends(c, c);
    } else {
      hide Extends;
      var i := Position(c.log, Last(ids));
      if i == |c.log| {
        UndoAccepted(c, Init(ids));
      } else {
        UndoRound(c, i);
        var c1 := ApplyAll(Tick(c), InverseAt(c, i, c.clock + 1)).core;
        UndoAccepted(c1, Init(ids));
        ExtendsTransitive(c, c1, UndoIds(c1, Init(ids)).core);
      }
    }
  }

  lemma RedoRound(c: Core, i: nat)
    requires CoreValid(c) && i < |c.log|
    ensures var op := Restamp(c.log[i].op, c.clock + 1);
      var o := ApplyAll(Tick(c), [op]);
      && o.error.None? && CoreValid(o.core) && Extends(c, o.core)
      && StateOf(o.core) == Step(StateOf(c), NewEntry(op))
  {
    hide StateOf, FreshBatch, ComputeOperationId, Step, NewEntry, ValidLog, ApplyAll, Run;
    var op := Restamp(c.log[i].op, c.clock + 1);
    TickFresh(c, op);
    hide CoreValid, Extends;
    AcceptBatch(Tick(c), [op]);
    ExtendsTransitive(c, Tick(c), ApplyAll(Tick(c), [op]).core);
    RunSingle(StateOf(c), op);
  }

  lemma TickFresh(c: Core, op: Operation)
    requires CoreValid(c) && op.timestamp == c.clock + 1 && op.parentOps == []
    ensures CoreValid(Tick(c)) && Extends(c, Tick(c)) && StateOf(Tick(c)) == StateOf(c) && FreshBatch(Tick(c).log, [op])
  {
    hide ComputeOperationId, ValidLog, Replay;
    LaterIsNew(c, op);
  }

  lemma RunSingle(s: State, op: Operation)
    ensures Run(s, [op]) == Step(s, NewEntry(op))
  {
    hide Step, NewEntry;
    assert [op][1..] == [];
    RunNone(Step(s, NewEntry(op)));
  }

  lemma {:induction false} RedoAccepted(c: Core, ids: seq<OperationId>)
    requires CoreValid(c)
    ensures var o := RedoIds(c, ids); o.error.None? && CoreValid(o.core) && Extends(c, o.core)
    decreases |ids|
  {
    hide CoreValid, StateOf, ApplyAll, Step, NewEntry;
    if ids == [] {
      assert Extends(c, c);
    } else {
      hide Extends;
      var i := Position(c.log, ids[0]);
      if i == |c.log| {
        RedoAccepted(c, ids[1..]);
      } else {
        RedoRound(c, i);
        var c1 := ApplyAll(Tick(c), [Restamp(c.log[i].op, c.clock + 1)]).core;
        RedoAccepted(c1, ids[1..]);
        ExtendsTransitive(c, c1, RedoIds(c1, ids[1..]).core);
      }
    }
  }

  // ----- the object -----

  /** An append-only operation journal: one encoded operation per line. */
  class Journal {
    var lines: seq<Json>

    constructor ()
      ensures lines == []
    {
      lines := [];
    }

    method Append(op: Operation)
      modifies this
      ensures lines == old(lines) + [OperationToJson(op)]
    {
      lines := lines + [OperationToJson(op)];
    }
  }

  /** What a journal reads back as: one operation per line that decodes. */
  function ReadJournal(lines: seq<Json>): seq<Operation> {
    if lines == [] then []
    else
      var op := OperationFromJson(Last(lines));
      ReadJournal(Init(lines)) + if op.Some? then [op.value] else []
  }

  /** The log that results from offering the operations one by one, keeping the accepted ones. */
  function Survivors(ops: seq<Operation>): seq<Entry> {
    if ops == [] then []
    else
      var log := Survivors(Init(ops));
      if Rejection(log, Last(ops)).None? then log + [NewEntry(Last(ops))] else log
  }

  function NormalEntry(e: Entry): Entry {
    Entry(e.id, NormalOp(e.op))
  }

  function NormalLog(log: seq<Entry>): (r: seq<Entry>)
    ensures |r| == |log| && forall i :: 0 <= i < |log| ==> r[i] == NormalEntry(log[i])
  {
    seq(|log|, i requires 0 <= i < |log| => NormalEntry(log[i]))
  }

  /** The journal determines the log: offering its operations again gives every entry of the
      log, with the same id and in the same order, up to encoding. */
  ghost predicate Mirrors(log: seq<Entry>, lines: seq<Json>) {
    NormalLog(log) == Survivors(ReadJournal(lines))
  }

  lemma NormalLogIds(log: seq<Entry>)
    ensures Ids(NormalLog(log)) == Ids(log)
  {
    hide NormalOp;
    forall i | 0 <= i < |log| ensures NormalLog(log)[i].id == log[i].id {}
    hide NormalLog;
    assert forall i :: 0 <= i < |log| ==> log[i].id in Ids(NormalLog(log)) by {
      forall i | 0 <= i < |log| ensures log[i].id in Ids(NormalLog(log)) { assert NormalLog(log)[i].id == log[i].id; }
    }
  }

  lemma NormalKeepsParents(op: Operation)
    ensures NormalOp(op).parentOps == op.parentOps
  {
    hide NormalNode;
  }

  /** Encoding does not change what the log accepts. */
  lemma NormalRejection(log: seq<Entry>, op: Operation)
    ensures Rejection(NormalLog(log), NormalOp(op)) == Rejection(log, op)
    ensures NewEntry(NormalOp(op)) == NormalEntry(NewEntry(op))
  {
    EncodingIsStable(op);
    NormalKeepsParents(op);
    NormalLogIds(log);
    NewEntryOp(op);
    hide ComputeOperationId, NormalOp, Ids, NormalLog;
  }

  /** Write-ahead keeps the correspondence whether or not the operation is then accepted. */
  lemma MirrorsAfter(log: seq<Entry>, lines: seq<Json>, op: Operation)
    requires Mirrors(log, lines)
    ensures Mirrors(if Rejection(log, op).None? then log + [NewEntry(op)] else log, lines + [OperationToJson(op)])
  {
    OperationRoundTrip(op);
    NormalRejection(log, op);
    hide OperationToJson, OperationFromJson, NormalOp, Rejection, NewEntry, NormalEntry;
    var ops := ReadJournal(lines);
    var lines' := lines + [OperationToJson(op)];
    assert Init(lines') == lines;
    assert ReadJournal(lines') == ops + [NormalOp(op)];
    assert Init(ops + [NormalOp(op)]) == ops;
    assert NormalLog(log + [NewEntry(op)]) == NormalLog(log) + [NormalEntry(NewEntry(op))];
  }

  class GraphDB {
    const log: OperationLog
    const materializer: StateMaterializer
    const index: EAVTIndex
    const undo: UndoManager
    var applyingUndo: bool
    var currentArtifactId: Option<string>
    var clock: Time

    /** The derived parts are what replaying the log from genesis gives. */
    ghost predicate Valid()
      reads this, log, materializer, index, undo
    {
      && log.Valid() && materializer.Valid() && index.Valid() && undo.Valid()
      && materializer.View() == Replay(log.entries)
      && index.entityDatoms == IndexReplay(log.entries)
    }

    /** CoreValid of this value adds that no operation is stamped later than the clock. */
    ghost function View(): Core
      reads this, log
    {
      Core(log.entries, clock)
    }

    constructor (sink: seq<UndoEvent>, now: Time)
      ensures Valid() && log.entries == [] && undo.View() == NO_UNDO.(events := sink)
      ensures !applyingUndo && currentArtifactId.None? && clock == now
      ensures fresh(log) && fresh(materializer) && fresh(index) && fresh(undo)
    {
      log := new OperationLog();
      materializer := new StateMaterializer();
      index := new EAVTIndex();
      undo := new UndoManager(sink);
      applyingUndo, currentArtifactId, clock := false, None, now;
    }

    method UtcNow() returns (now: Time)
      modifies this`clock
      ensures now == clock == old(clock) + 1
      ensures old(Valid()) ==> Valid()
    {
      clock := clock + 1;
      now := clock;
    }

    /** Retraction of the old datoms, before the state changes. */
    method RetractOld(op: Operation)
      requires index.Valid()
      modifies index
      ensures index.Valid()
      ensures index.entityDatoms ==
        if op.UpdateNode? && op.node.meta.id in materializer.nodes
        then Retract(old(index.entityDatoms), materializer.nodes[op.node.meta.id].meta.id.value)
        else if op.DeleteNode? && op.nodeId in materializer.nodes then Retract(old(index.entityDatoms), op.nodeId.value)
        else old(index.entityDatoms)
    {
      match op
      case UpdateNode(node, _, _, _) =>
        if node.meta.id in materializer.nodes {
          index.RetractEntity(materializer.nodes[node.meta.id].meta.id.value);
        }
      case DeleteNode(id, _, _, _) =>
        if id in materializer.nodes {
          index.RetractEntity(id.value);
        }
      case _ =>
    }

    method IndexNode(node: Node, tx: OperationId)
      requires index.Valid()
      modifies index
      ensures index.Valid()
      ensures index.entityDatoms == AddDatoms(old(index.entityDatoms), NodeDatoms(node, tx))
    {
      hide NodeDatoms;
      var datoms := NodeDatoms(node, tx);
      for i := 0 to |datoms|
        invariant index.Valid()
        invariant AddDatoms(index.entityDatoms, datoms[i..]) == AddDatoms(old(index.entityDatoms), datoms)
      {
        assert datoms[i..][1..] == datoms[i + 1..];
        index.Add(datoms[i]);
      }
    }

    /** Everything one apply does after the log accepted the entry. */
    method Project(entry: Entry)
      requires materializer.Valid() && index.Valid()
      modifies materializer, index
      ensures materializer.Valid() && index.Valid()
      ensures materializer.View() == Step(old(materializer.View()), entry)
      ensures index.entityDatoms == IndexStep(old(index.entityDatoms), old(materializer.View()), entry)
    {
      hide Step, NodeDatoms, AddDatoms, Retract;
      RetractOld(entry.op);
      materializer.Apply(entry);
      if entry.op.CreateNode? || entry.op.UpdateNode? {
        IndexNode(entry.op.node, entry.id);
      }
    }

    /** Log, record, materialise, index.  `freshId` is the uuid4 an automatic group would take. */
    method Apply(op: Operation, freshId: string) returns (r: Result<OperationId, LogError>)
      requires Valid()
      modifies log, materializer, index, undo
      ensures Valid()
      ensures r == match Rejection(old(log.entries), op) case Some(e) => Err(e) case None => Ok(ComputeOperationId(op))
      ensures log.entries == if r.Ok? then old(log.entries) + [NewEntry(op)] else old(log.entries)
      ensures undo.View() ==
        if r.Ok? && !applyingUndo && op.principal.Some?
        then RecordOp(old(undo.View()), r.value, op.principal.value, currentArtifactId, freshId)
        else old(undo.View())
    {
      hide ComputeOperationId, Step, IndexStep, RecordOp, Rejection, ValidLog;
      ghost var before := log.entries;
      r := log.Append(op);
      if r.Err? {
        return;
      }
      var entry := Entry(r.value, op);
      assert entry == NewEntry(op);
      if !applyingUndo && op.principal.Some? {
        undo.Record(r.value, op.principal.value, currentArtifactId, freshId);
      }
      Project(entry);
      assert Init(before + [entry]) == before;
    }

    /** The injected apply: with a journal, the operation is written before it is applied. */
    method DoApply(op: Operation, freshId: string, journal: Journal?) returns (r: Result<OperationId, LogError>)
      requires Valid()
      modifies log, materializer, index, undo, if journal != null then {journal} else {}
      ensures Valid()
      ensures r == match Rejection(old(log.entries), op) case Some(e) => Err(e) case None => Ok(ComputeOperationId(op))
      ensures log.entries == if r.Ok? then old(log.entries) + [NewEntry(op)] else old(log.entries)
      ensures undo.View() ==
        if r.Ok? && !applyingUndo && op.principal.Some?
        then RecordOp(old(undo.View()), r.value, op.principal.value, currentArtifactId, freshId)
        else old(undo.View())
      ensures journal != null ==> journal.lines == old(journal.lines) + [OperationToJson(op)]
      ensures journal != null && old(Mirrors(log.entries, journal.lines)) ==> Mirrors(log.entries, journal.lines)
    {
      hide *;
      if journal != null {
        if Mirrors(log.entries, journal.lines) {
          MirrorsAfter(log.entries, journal.lines, op);
        }
        journal.Append(op);
      }
      r := Apply(op, freshId);
    }

    /** The inner loop of undo and redo. */
    method ApplyEach(ops: seq<Operation>, journal: Journal?)
      returns (applied: seq<OperationId>, error: Option<LogError>)
      requires Valid() && applyingUndo
      modifies log, materializer, index, undo, if journal != null then {journal} else {}
      ensures Valid() && undo.View() == old(undo.View())
      ensures View() == ApplyAll(old(View()), ops).core && error == ApplyAll(old(View()), ops).error
      ensures Appended(old(log.entries), log.entries, applied)
      ensures journal != null && old(Mirrors(log.entries, journal.lines)) ==> Mirrors(log.entries, journal.lines)
    {
      hide ComputeOperationId, ValidLog, Rejection, Mirrors, ApplyAll, Valid, OperationToJson, Appended;
      ghost var c0 := View();
      ApplyFrom(c0, ops);
      applied := [];
      AppendedNone(log.entries);
      for i := 0 to |ops|
        invariant Valid() && undo.View() == old(undo.View())
        invariant Appended(c0.log, log.entries, applied)
        invariant ApplyAll(View(), ops[i..]) == ApplyAll(c0, ops)
        invariant journal != null && old(Mirrors(log.entries, journal.lines)) ==> Mirrors(log.entries, journal.lines)
      {
        ApplyRound(View(), ops, i);
        AppendedNext(c0.log, log.entries, applied, NewEntry(ops[i]));
        var r := DoApply(ops[i], "", journal);
        if r.Err? {
          return applied, Some(r.error);
        }
        applied := applied + [r.value];
      }
      ApplyFrom(View(), ops);
      error := None;
    }

    /** One round of undo: look the operation up, compute its inverse, apply it. */
    method CompensateOne(id: OperationId, journal: Journal?)
      returns (applied: seq<OperationId>, error: Option<LogError>)
      requires Valid() && applyingUndo
      modifies this`clock, log, materializer, index, undo, if journal != null then {journal} else {}
      ensures Valid() && undo.View() == old(undo.View())
      ensures Outcome(View(), error) == Compensate(old(View()), id)
      ensures Appended(old(log.entries), log.entries, applied)
      ensures journal != null && old(Mirrors(log.entries, journal.lines)) ==> Mirrors(log.entries, journal.lines)
    {
      hide ComputeOperationId, ValidLog, Mirrors, ApplyAll, Inverse, Replay, Wf, IndexReplay;
      var entry := log.GetEntry(id);
      AppendedNone(log.entries);
      if entry.None? {
        return [], None;
      }
      var now := UtcNow();
      var inverses := ComputeInverse(log.entries, entry.value, materializer.View(), now);
      applied, error := ApplyEach(inverses, journal);
    }

    method CompensateAll(ids: seq<OperationId>, journal: Journal?)
      returns (applied: seq<OperationId>, error: Option<LogError>)
      requires Valid() && applyingUndo
      modifies this`clock, log, materializer, index, undo, if journal != null then {journal} else {}
      ensures Valid() && undo.View() == old(undo.View())
      ensures Outcome(View(), error) == UndoIds(old(View()), ids)
      ensures Appended(old(log.entries), log.entries, applied)
      ensures journal != null && old(Mirrors(log.entries, journal.lines)) ==> Mirrors(log.entries, journal.lines)
    {
      hide ComputeOperationId, ValidLog, Mirrors, UndoIds, Compensate, Valid, Appended;
      ghost var c0 := View();
      UndoNone(c0);
      applied := [];
      AppendedNone(log.entries);
      var i := |ids|;
      assert ids[..i] == ids;
      while i > 0
        invariant 0 <= i <= |ids|
        invariant Valid() && undo.View() == old(undo.View())
        invariant UndoIds(View(), ids[..i]) == UndoIds(c0, ids)
        invariant Appended(c0.log, log.entries, applied)
        invariant journal != null && old(Mirrors(log.entries, journal.lines)) ==> Mirrors(log.entries, journal.lines)
      {
        i := i - 1;
        ghost var c1 := View();
        UndoRest(c1, ids, i);
        var more;
        more, error := CompensateOne(ids[i], journal);
        AppendedChain(c0.log, c1.log, log.entries, applied, more);
        applied := applied + more;
        if error.Some? {
          return;
        }
      }
      UndoNone(View());
      error := None;
    }

    /** Undo the newest group of a principal on an artifact; the flag keeps the compensating
        operations off the stacks.  Unless something is raised, their ids are returned. */
    method UndoLast(principal: string, artifact: string, journal: Journal?)
      returns (applied: seq<OperationId>, error: Option<LogError>)
      requires Valid()
      modifies this`applyingUndo, this`clock, log, materializer, index, undo, if journal != null then {journal} else {}
      ensures Valid()
      ensures var (u, g) := PopUndo(old(undo.View()), (principal, artifact));
        undo.View() == u &&
        Outcome(View(), error) == if g.Some? then UndoIds(old(View()), g.value.opIds) else Outcome(old(View()), None)
      ensures journal != null && old(Mirrors(log.entries, journal.lines)) ==> Mirrors(log.entries, journal.lines)
      ensures PopUndo(old(undo.View()), (principal, artifact)).1.Some? ==> !applyingUndo
      ensures Appended(old(log.entries), log.entries, applied)
    {
      hide ComputeOperationId, ValidLog, Mirrors, UndoIds, Replay, Wf, IndexReplay, PopUndo;
      var group := undo.PopUndoGroup((principal, artifact));
      AppendedNone(log.entries);
      if group.None? {
        return [], None;
      }
      applyingUndo := true;
      applied, error := CompensateAll(group.value.opIds, journal);
      applyingUndo := false;
    }

    method RepeatOne(id: OperationId, journal: Journal?) returns (applied: seq<OperationId>, error: Option<LogError>)
      requires Valid() && applyingUndo
      modifies this`clock, log, materializer, index, undo, if journal != null then {journal} else {}
      ensures Valid() && undo.View() == old(undo.View())
      ensures Outcome(View(), error) == Repeat(old(View()), id)
      ensures Appended(old(log.entries), log.entries, applied)
      ensures journal != null && old(Mirrors(log.entries, journal.lines)) ==> Mirrors(log.entries, journal.lines)
    {
      hide ComputeOperationId, ValidLog, Mirrors, ApplyAll, Replay, Wf, IndexReplay;
      var entry := log.GetEntry(id);
      AppendedNone(log.entries);
      if entry.None? {
        return [], None;
      }
      var now := UtcNow();
      applied, error := ApplyEach([Restamp(entry.value.op, now)], journal);
    }

    method RepeatAll(ids: seq<OperationId>, journal: Journal?)
      returns (applied: seq<OperationId>, error: Option<LogError>)
      requires Valid() && applyingUndo
      modifies this`clock, log, materializer, index, undo, if journal != null then {journal} else {}
      ensures Valid() && undo.View() == old(undo.View())
      ensures Outcome(View(), error) == RedoIds(old(View()), ids)
      ensures Appended(old(log.entries), log.entries, applied)
      ensures journal != null && old(Mirrors(log.entries, journal.lines)) ==> Mirrors(log.entries, journal.lines)
    {
      hide ComputeOperationId, ValidLog, Mirrors, RedoIds, Repeat, Valid, Appended;
      ghost var c0 := View();
      RedoNone(c0, ids);
      applied := [];
      AppendedNone(log.entries);
      for i := 0 to |ids|
        invariant Valid() && undo.View() == old(undo.View()) && applyingUndo
        invariant RedoIds(View(), ids[i..]) == RedoIds(c0, ids)
        invariant Appended(c0.log, log.entries, applied)
        invariant journal != null && old(Mirrors(log.entries, journal.lines)) ==> Mirrors(log.entries, journal.lines)
      {
        ghost var c1 := View();
        RedoRest(c1, ids, i);
        var more;
        more, error := RepeatOne(ids[i], journal);
        AppendedChain(c0.log, c1.log, log.entries, applied, more);
        applied := applied + more;
        if error.Some? {
          return;
        }
      }
      RedoNone(View(), ids);
      error := None;
    }

    method RedoLast(principal: string, artifact: string, journal: Journal?)
      returns (applied: seq<OperationId>, error: Option<LogError>)
      requires Valid()
      modifies this`applyingUndo, this`clock, log, materializer, index, undo, if journal != null then {journal} else {}
      ensures Valid()
      ensures var (u, g) := PopRedo(old(undo.View()), (principal, artifact));
        undo.View() == u &&
        Outcome(View(), error) == if g.Some? then RedoIds(old(View()), g.value.opIds) else Outcome(old(View()), None)
      ensures journal != null && old(Mirrors(log.entries, journal.lines)) ==> Mirrors(log.entries, journal.lines)
      ensures PopRedo(old(undo.View()), (principal, artifact)).1.Some? ==> !applyingUndo
      ensures Appended(old(log.entries), log.entries, applied)
    {
      hide ComputeOperationId, ValidLog, Mirrors, RedoIds, Replay, Wf, IndexReplay, PopRedo;
      var group := undo.PopRedoGroup((principal, artifact));
      AppendedNone(log.entries);
      if group.None? {
        return [], None;
      }
      applyingUndo := true;
      applied, error := RepeatAll(group.value.opIds, journal);
      applyingUndo := false;
    }

    /** Entering action_group; the previous artifact is handed back for the exit. */
    method EnterGroup(principal: string, artifact: string, freshId: string) returns (previous: Option<string>)
      requires Valid()
      modifies this`currentArtifactId, undo
      ensures Valid() && undo.View() == BeginGroup(old(undo.View()), principal, artifact, freshId)
      ensures currentArtifactId == Some(artifact) && previous == old(currentArtifactId)
    {
      hide Replay, Wf, IndexReplay, ValidLog;
      previous := currentArtifactId;
      currentArtifactId := Some(artifact);
      var _ := undo.Begin(principal, artifact, freshId);
    }

    /** Leaving it, normally or by an exception. */
    method LeaveGroup(previous: Option<string>)
      requires Valid()
      modifies this`currentArtifactId, undo
      ensures Valid() && undo.View() == EndGroup(old(undo.View()))
      ensures currentArtifactId == previous
    {
      hide Replay, Wf, IndexReplay, ValidLog;
      undo.End();
      currentArtifactId := previous;
    }
  }

  /** One round of the undo loop as a value. */
  function Compensate(c: Core, id: OperationId): Outcome {
    var i := Position(c.log, id);
    if i == |c.log| then Outcome(c, None) else ApplyAll(Tick(c), InverseAt(c, i, c.clock + 1))
  }

  function Repeat(c: Core, id: OperationId): Outcome {
    var i := Position(c.log, id);
    if i == |c.log| then Outcome(c, None) else ApplyAll(Tick(c), [Restamp(c.log[i].op, c.clock + 1)])
  }

  lemma RedoNone(c: Core, ids: seq<OperationId>)
    ensures RedoIds(c, ids[|ids|..]) == Outcome(c, None) && ids[0..] == ids
  {
    hide ComputeOperationId;
  }

  lemma RedoRest(c: Core, ids: seq<OperationId>, i: nat)
    requires i < |ids|
    ensures var o := Repeat(c, ids[i]);
      RedoIds(c, ids[i..]) == if o.error.Some? then o else RedoIds(o.core, ids[i + 1..])
  {
    hide ComputeOperationId, ApplyAll, Position, Restamp;
    assert ids[i..][1..] == ids[i + 1..];
  }

  lemma UndoNone(c: Core)
    ensures UndoIds(c, []) == Outcome(c, None)
  {
    hide ComputeOperationId;
  }

  lemma UndoRest(c: Core, ids: seq<OperationId>, i: nat)
    requires i < |ids|
    ensures var o := Compensate(c, ids[i]);
      UndoIds(c, ids[..i + 1]) == if o.error.Some? then o else UndoIds(o.core, ids[..i])
  {
    hide ComputeOperationId, ApplyAll, InverseAt, Position;
    assert Init(ids[..i + 1]) == ids[..i] && Last(ids[..i + 1]) == ids[i];
  }

  lemma ApplyFrom(c: Core, ops: seq<Operation>)
    ensures ops[0..] == ops && ops[|ops|..] == [] && ApplyAll(c, []) == Outcome(c, None)
  {
    hide ComputeOperationId;
  }

  lemma ApplyRound(c: Core, ops: seq<Operation>, i: nat)
    requires i < |ops|
    ensures ApplyAll(c, ops[i..]) ==
      if Rejection(c.log, ops[i]).Some? then Outcome(c, Rejection(c.log, ops[i]))
      else ApplyAll(c.(log := c.log + [NewEntry(ops[i])]), ops[i + 1..])
  {
    hide ComputeOperationId, NewEntry, Rejection;
    assert ops[i..][1..] == ops[i + 1..];
  }

  /** Undo and redo of a single logged operation. */
  lemma UndoOfOne(c: Core, i: nat)
    requires CoreValid(c) && i < |c.log|
    ensures StateOf(UndoIds(c, [c.log[i].id]).core) == Run(StateOf(c), InverseAt(c, i, c.clock + 1))
  {
    hide ComputeOperationId, StateOf, InverseAt, ApplyAll, UndoIds;
    var id := c.log[i].id;
    PositionOfEntry(c.log, i);
    UndoRound(c, i);
    UndoRest(c, [id], 0);
    assert [id][..1] == [id] && [id][..0] == [];
    UndoNone(ApplyAll(Tick(c), InverseAt(c, i, c.clock + 1)).core);
  }

  lemma RedoOfOne(c: Core, i: nat)
    requires CoreValid(c) && i < |c.log|
    ensures StateOf(RedoIds(c, [c.log[i].id]).core) == Run(StateOf(c), [Restamp(c.log[i].op, c.clock + 1)])
  {
    hide ComputeOperationId, StateOf, ApplyAll, RedoIds, Run, Step, NewEntry, Restamp;
    var id, op := c.log[i].id, Restamp(c.log[i].op, c.clock + 1);
    PositionOfEntry(c.log, i);
    RedoRound(c, i);
    RunSingle(StateOf(c), op);
    RedoRest(c, [id], 0);
    assert [id][0..] == [id] && [id][1..] == [];
    RedoNone(ApplyAll(Tick(c), [op]).core, []);
  }
}
