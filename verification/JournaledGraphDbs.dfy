/** Persistence and crash recovery: src/uaf/db/journaled_graph_db.py with the two journals of
    src/uaf/db/journal.py and src/uaf/db/undo_journal.py. */
module JournaledGraphDbs {
  import opened Collections
  import opened JsonValues
  import opened Nodes
  import opened Serialization
  import opened Operations
  import opened OperationLogs
  import opened Materializer
  import opened UndoManagers
  import opened Eavt
  import opened Indexing
  import opened GraphDbs

  // ----- what recovery rebuilds -----

  /** A state whose nodes have been encoded and decoded. */
  function NormalState(s: State): State {
    s.(nodes := map id | id in s.nodes :: NormalNode(s.nodes[id]))
  }

  lemma NormalNodeKeepsMeta(n: Node)
    ensures NormalNode(n).meta.id == n.meta.id
    ensures NormalNode(n).meta.nodeType == n.meta.nodeType && NormalNode(n).meta.owner == n.meta.owner
    ensures ExtractFields(NormalNode(n)) == ExtractFields(n)
  {
    hide NormalLayout, IntText, CellText;
  }

  lemma NormalNodeDatoms(n: Node, tx: OperationId)
    ensures NodeDatoms(NormalNode(n), tx) == NodeDatoms(n, tx)
  {
    NormalNodeKeepsMeta(n);
    hide NormalNode, ExtractFields, NodeTypeValue;
  }

  lemma PutCommutes(s: State, n: Node, id: OperationId)
    ensures PutNode(NormalState(s), NormalNode(n), id) == NormalState(PutNode(s, n, id))
  {
    hide NormalNode;
    NormalNodeKeepsMeta(n);
  }

  lemma DropCommutes(s: State, id: NodeId)
    ensures DropNode(NormalState(s), id) == NormalState(DropNode(s, id))
  {
    hide NormalNode, Unlist, Dict.Pop;
  }

  /** Materialising a decoded entry commutes with decoding the state. */
  lemma StepCommutes(s: State, e: Entry)
    ensures Step(NormalState(s), NormalEntry(e)) == NormalState(Step(s, e))
  {
    hide Unlist, Remove, NormalNode, Dict.Put, Dict.Pop, PutNode, DropNode;
    match e.op
    case CreateNode(node, _, _, _) => PutCommutes(s, node, e.id);
    case UpdateNode(node, _, _, _) => PutCommutes(s, node, e.id);
    case DeleteNode(id, _, _, _) => DropCommutes(s, id);
    case _ =>
  }

  lemma IndexStepCommutes(m: EntityDatoms, s: State, e: Entry)
    ensures IndexStep(m, NormalState(s), NormalEntry(e)) == IndexStep(m, s, e)
  {
    hide NormalNode, NodeDatoms, AddDatoms;
    match e.op
    case CreateNode(node, _, _, _) => NormalNodeDatoms(node, e.id);
    case UpdateNode(node, _, _, _) =>
      NormalNodeDatoms(node, e.id);
      NormalNodeKeepsMeta(node);
      if node.meta.id in s.nodes { NormalNodeKeepsMeta(s.nodes[node.meta.id]); }
    case _ =>
  }

  /** Replaying the decoded log gives the decoded state, and the very same index. */
  lemma {:induction false} ReplayCommutes(log: seq<Entry>)
    ensures Replay(NormalLog(log)) == NormalState(Replay(log))
    ensures IndexReplay(NormalLog(log)) == IndexReplay(log)
  {
    if log == [] {
      assert NormalLog(log) == [];
      assert NormalState(EMPTY_STATE) == EMPTY_STATE;
    } else {
      hide Step, IndexStep, NormalState, NormalEntry;
      var shorter := Init(log);
      assert Init(NormalLog(log)) == NormalLog(shorter);
      ReplayCommutes(shorter);
      StepCommutes(Replay(shorter), Last(log));
      IndexStepCommutes(IndexReplay(shorter), Replay(shorter), Last(log));
    }
  }

  lemma {:induction false} ApplyAllAppend(c: Core, ops: seq<Operation>, op: Operation)
    ensures ApplyAll(c, ops + [op]) == if ApplyAll(c, ops).error.Some? then ApplyAll(c, ops)
      else ApplyAll(ApplyAll(c, ops).core, [op])
    decreases |ops|
  {
    hide ComputeOperationId, Rejection, NewEntry;
    if ops == [] {
      assert ops + [op] == [op];
    } else {
      assert (ops + [op])[1..] == ops[1..] + [op];
      ApplyAllAppend(Accept(c, ops[0]), ops[1..], op);
    }
  }

  lemma ApplyOneOp(c: Core, op: Operation)
    ensures ApplyAll(c, [op]) ==
      if Rejection(c.log, op).Some? then Outcome(c, Rejection(c.log, op)) else Outcome(Accept(c, op), None)
  {
    hide ComputeOperationId, Rejection, NewEntry;
    assert [op][1..] == [];
  }

  /** Replaying a journal succeeds exactly when none of its operations had been rejected, and then
      rebuilds the surviving log. */
  lemma {:induction false} ReplaySucceedsIff(c: Core, ops: seq<Operation>)
    requires c.log == []
    ensures |Survivors(ops)| <= |ops|
    ensures ApplyAll(c, ops).error.None? <==> |Survivors(ops)| == |ops|
    ensures ApplyAll(c, ops).error.None? ==> ApplyAll(c, ops).core == c.(log := Survivors(ops))
  {
    hide ComputeOperationId, Rejection, NewEntry, ApplyAll;
    if ops == [] {
      ApplyFrom(c, ops);
    } else {
      var a, op := Init(ops), Last(ops);
      assert ops == a + [op];
      ReplaySucceedsIff(c, a);
      ApplyAllAppend(c, a, op);
      ApplyOneOp(ApplyAll(c, a).core, op);
    }
  }

  // ----- decoded values are in normal form -----

  lemma DecodedLayoutNormal(d: Fields)
    ensures LayoutFromFields(d).Some? ==> NormalLayout(LayoutFromFields(d).value) == LayoutFromFields(d).value
  {
    hide Opt, AsList, SpanFromJson, AnnotFromJson, Default;
  }

  lemma DecodedMetaNormal(d: Fields)
    ensures MetaFromFields(d).Some? ==> NormalMeta(MetaFromFields(d).value) == MetaFromFields(d).value
  {
    hide Opt, Req, LayoutFromFields, NormalLayout;
    if KLayout in d && d[KLayout].JObject? { DecodedLayoutNormal(d[KLayout].fields); }
  }

  lemma NodeFromFieldsNormal(t: TypeName, meta: Meta, d: Fields)
    requires NormalMeta(meta) == meta
    ensures var n := NodeFromFields(t, meta, d);
      n.Some? ==> NormalMeta(n.value.meta) == n.value.meta && (n.value.Paragraph? ==> n.value.contentFormat == "plain")
  {
    hide Opt, Req, Default, NormalLayout;
  }

  lemma DecodedNodeNormal(j: Json)
    ensures NodeFromJson(j).Some? ==> NormalNode(NodeFromJson(j).value) == NodeFromJson(j).value
  {
    if NodeFromJson(j).Some? {
      var d := j.fields;
      DecodedMetaNormal(d[KMeta].fields);
      NodeFromFieldsNormal(d[KType].name, MetaFromFields(d[KMeta].fields).value, d);
      hide NodeFromFields, MetaFromFields, NormalMeta;
    }
  }

  lemma DecodedOpNormal(j: Json)
    ensures OperationFromJson(j).Some? ==> NormalOp(OperationFromJson(j).value) == OperationFromJson(j).value
  {
    hide Opt, AsList, NodeFromJson, EdgeFromJson, NormalNode;
    if OperationFromJson(j).Some? && KNode in j.fields { DecodedNodeNormal(j.fields[KNode]); }
  }

  lemma {:induction false} DecodedLogNormal(lines: seq<Json>)
    ensures NormalLog(Survivors(ReadJournal(lines))) == Survivors(ReadJournal(lines))
  {
    if lines == [] {
      assert Survivors(ReadJournal(lines)) == [];
    } else {
      DecodedLogNormal(Init(lines));
      DecodedOpNormal(Last(lines));
      var ops := ReadJournal(Init(lines));
      var op := OperationFromJson(Last(lines));
      hide OperationFromJson, ReadJournal, Rejection, NormalOp, NewEntry, NormalEntry;
      JournalLast(lines);
      if op.Some? {
        NormalRejection(Survivors(ops), op.value);
        assert Init(ops + [op.value]) == ops;
        var log := Survivors(ops);
        assert NormalLog(log + [NewEntry(op.value)]) == NormalLog(log) + [NormalEntry(NewEntry(op.value))];
      }
    }
  }

  lemma JournalLast(lines: seq<Json>)
    requires lines != []
    ensures var op := OperationFromJson(Last(lines));
      ReadJournal(lines) == if op.Some? then ReadJournal(Init(lines)) + [op.value] else ReadJournal(Init(lines))
  {
    hide OperationFromJson;
  }

  // ----- recovery refines the live database -----

  /** Rebuilding from the two journals succeeds exactly when every journalled operation had been
      accepted.  It then gives the same ids in the same order, the same index, the live state with
      each node encoded and decoded, the same stacks for every key, and stacks whose operation ids
      all resolve in the recovered log. */
  lemma RecoveryRefinesLive(log: seq<Entry>, u: Undo, lines: seq<Json>, now: Time)
    requires Mirrors(log, lines) && Sourced(u) && UndoIdsIn(u, Ids(log))
    ensures var o, stacks := ApplyAll(Core([], now), ReadJournal(lines)), ReplayEvents(NOTHING, u.events);
      && (o.error.None? <==> |ReadJournal(lines)| == |log|)
      && (o.error.None? ==>
        && o.core.log == NormalLog(log) && o.core.clock == now
        && IndexReplay(o.core.log) == IndexReplay(log)
        && Replay(o.core.log) == NormalState(Replay(log))
        && SameStacks(stacks, u)
        && Sourced(Undo(stacks.undo, stacks.redo, None, u.events))
        && UndoIdsIn(Undo(stacks.undo, stacks.redo, None, u.events), Ids(o.core.log)))
  {
    hide ComputeOperationId, NormalLog, Survivors, ReadJournal, ApplyAll, ReplayEvents, StackIdsIn, Keyed, Ids;
    ReplaySucceedsIff(Core([], now), ReadJournal(lines));
    ReplayCommutes(log);
    NormalLogIds(log);
    SameStacksKnown(ReplayEvents(NOTHING, u.events), u, Ids(log));
    SameStacksSourced(ReplayEvents(NOTHING, u.events), u);
    hide SameStacks;
  }

  lemma SameStacksKnown(r: Rebuilt, u: Undo, known: set<OperationId>)
    requires SameStacks(r, u) && UndoIdsIn(u, known)
    ensures StackIdsIn(r.undo, known) && StackIdsIn(r.redo, known)
  {
    forall k, i, j | k in r.undo && 0 <= i < |r.undo[k]| && 0 <= j < |r.undo[k][i].opIds|
      ensures r.undo[k][i].opIds[j] in known
    {
      assert StackAt(r.undo, k) == StackAt(u.undo, k);
      assert u.undo[k][i].opIds[j] in known;
    }
    forall k, i, j | k in r.redo && 0 <= i < |r.redo[k]| && 0 <= j < |r.redo[k][i].opIds|
      ensures r.redo[k][i].opIds[j] in known
    {
      assert StackAt(r.redo, k) == StackAt(u.redo, k);
      assert u.redo[k][i].opIds[j] in known;
    }
  }

  lemma SameStacksSourced(r: Rebuilt, u: Undo)
    requires Sourced(u) && r == ReplayEvents(NOTHING, u.events)
    ensures Sourced(Undo(r.undo, r.redo, None, u.events))
  {
    hide ReplayEvents;
    forall k, i | k in r.undo && 0 <= i < |r.undo[k]| ensures r.undo[k][i].Key() == k {
      assert StackAt(r.undo, k) == StackAt(u.undo, k);
      assert u.undo[k][i].Key() == k;
    }
    forall k, i | k in r.redo && 0 <= i < |r.redo[k]| ensures r.redo[k][i].Key() == k {
      assert StackAt(r.redo, k) == StackAt(u.redo, k);
      assert u.redo[k][i].Key() == k;
    }
  }

  /** The failing case: an operation offered twice is rejected the second time, but is already in
      the journal, and the next start cannot replay it. */
  lemma RejectedOperationBlocksRecovery(op: Operation, now: Time)
    requires op.parentOps == []
    ensures var lines := [OperationToJson(op), OperationToJson(op)];
      && Mirrors([NewEntry(op)], lines)
      && ApplyAll(Core([], now), ReadJournal(lines)).error.Some?
  {
    var line := OperationToJson(op);
    hide ComputeOperationId, OperationToJson, NormalOp, ReadJournal, Survivors, ApplyAll;
    assert Mirrors([], []) by { EmptyMirrors(); }
    assert Rejection([], op).None?;
    MirrorsAfter([], [], op);
    assert [] + [NewEntry(op)] == [NewEntry(op)] && [] + [line] == [line];
    NewIds([], op);
    assert Rejection([NewEntry(op)], op).Some?;
    MirrorsAfter([NewEntry(op)], [line], op);
    assert [line] + [line] == [line, line];
    ReadTwice(op);
    hide Rejection, Mirrors;
    ReplaySucceedsIff(Core([], now), ReadJournal([line, line]));
    assert |Survivors(ReadJournal([line, line]))| == 1 by { SurvivorsOf([NewEntry(op)], [line, line]); }
  }

  lemma EmptyMirrors()
    ensures Mirrors([], [])
  {
    assert NormalLog([]) == [];
  }

  lemma SurvivorsOf(log: seq<Entry>, lines: seq<Json>)
    requires Mirrors(log, lines)
    ensures |Survivors(ReadJournal(lines))| == |log|
  {
    hide ReadJournal, Survivors;
  }

  lemma ReadTwice(op: Operation)
    ensures |ReadJournal([OperationToJson(op), OperationToJson(op)])| == 2
  {
    OperationRoundTrip(op);
    hide OperationFromJson, OperationToJson, NormalOp;
    var line := OperationToJson(op);
    assert Init([line, line]) == [line] && Init([line]) == [];
    JournalLast([line, line]);
    JournalLast([line]);
    assert ReadJournal([]) == [];
  }

  // ----- the log only grows -----

  lemma {:induction false} ApplyAllGrows(c: Core, ops: seq<Operation>)
    ensures Ids(c.log) <= Ids(ApplyAll(c, ops).core.log)
    decreases |ops|
  {
    hide ComputeOperationId, Rejection, Ids, NewEntry;
    if ops != [] && Rejection(c.log, ops[0]).None? {
      NewIds(c.log, ops[0]);
      ApplyAllGrows(Accept(c, ops[0]), ops[1..]);
    }
  }

  lemma {:induction false} UndoGrows(c: Core, ids: seq<OperationId>)
    ensures Ids(c.log) <= Ids(UndoIds(c, ids).core.log)
    decreases |ids|
  {
    hide ComputeOperationId, Ids, ApplyAll, InverseAt;
    if ids != [] {
      var i := Position(c.log, Last(ids));
      if i == |c.log| {
        UndoGrows(c, Init(ids));
      } else {
        ApplyAllGrows(Tick(c), InverseAt(c, i, c.clock + 1));
        UndoGrows(ApplyAll(Tick(c), InverseAt(c, i, c.clock + 1)).core, Init(ids));
      }
    }
  }

  lemma {:induction false} RedoGrows(c: Core, ids: seq<OperationId>)
    ensures Ids(c.log) <= Ids(RedoIds(c, ids).core.log)
    decreases |ids|
  {
    hide ComputeOperationId, Ids, ApplyAll, Restamp;
    if ids != [] {
      var i := Position(c.log, ids[0]);
      if i == |c.log| {
        RedoGrows(c, ids[1..]);
      } else {
        var op := Restamp(c.log[i].op, c.clock + 1);
        ApplyAllGrows(Tick(c), [op]);
        RedoGrows(ApplyAll(Tick(c), [op]).core, ids[1..]);
      }
    }
  }

  // ----- the object -----

  class JournaledGraphDB {
    const db: GraphDB
    const journal: Journal

    /** The live database and its journals correspond, as recovery needs. */
    ghost predicate Valid()
      reads db, db.log, db.materializer, db.index, db.undo, journal
    {
      && db.Valid()
      && Mirrors(db.log.entries, journal.lines)
      && Sourced(db.undo.View())
      && UndoIdsIn(db.undo.View(), Ids(db.log.entries))
    }

    /** Start from what the journals hold; `events` is the undo journal, which the callback of the
        new manager goes on filling. */
    constructor (lines: seq<Json>, events: seq<UndoEvent>, now: Time)
      ensures db.Valid() && journal.lines == lines && db.clock == now
      ensures db.log.entries == [] && db.undo.View() == NO_UNDO.(events := events) && !db.applyingUndo
      ensures fresh(db) && fresh(journal) && fresh(db.log) && fresh(db.materializer) && fresh(db.index)
      ensures fresh(db.undo)
    {
      db := new GraphDB(events, now);
      journal := new Journal();
      new;
      journal.lines := lines;
    }

    method Apply(op: Operation, freshId: string) returns (r: Result<OperationId, LogError>)
      requires Valid()
      modifies db.log, db.materializer, db.index, db.undo, journal
      ensures Valid()
      ensures r ==
        match Rejection(old(db.log.entries), op) case Some(e) => Err(e) case None => Ok(ComputeOperationId(op))
      ensures journal.lines == old(journal.lines) + [OperationToJson(op)]
      ensures db.log.entries == if r.Ok? then old(db.log.entries) + [NewEntry(op)] else old(db.log.entries)
    {
      hide ComputeOperationId, Mirrors, Sourced, UndoIdsIn, Ids, Rejection, RecordOp, NewEntry, OperationToJson;
      ghost var u, known := db.undo.View(), Ids(db.log.entries);
      r := db.DoApply(op, freshId, journal);
      if r.Ok? {
        NewIds(old(db.log.entries), op);
        MoreKnown(u, known, Ids(db.log.entries));
        if !db.applyingUndo && op.principal.Some? {
          RecordKeepsSourced(u, r.value, op.principal.value, db.currentArtifactId, freshId);
          RecordKnown(u, r.value, op.principal.value, db.currentArtifactId, freshId, Ids(db.log.entries));
        }
      }
    }

    method UndoLast(principal: string, artifact: string) returns (applied: seq<OperationId>, error: Option<LogError>)
      requires Valid()
      modifies db, db.log, db.materializer, db.index, db.undo, journal
      ensures Valid()
      ensures var (u, g) := PopUndo(old(db.undo.View()), (principal, artifact));
        db.undo.View() == u &&
        Outcome(db.View(), error) ==
          if g.Some? then UndoIds(old(db.View()), g.value.opIds) else Outcome(old(db.View()), None)
      ensures Appended(old(db.log.entries), db.log.entries, applied)
    {
      hide ComputeOperationId, Mirrors, Sourced, UndoIdsIn, Ids, UndoIds, PopUndo, PopRedo;
      ghost var u, c, key := db.undo.View(), db.View(), (principal, artifact);
      applied, error := db.UndoLast(principal, artifact, journal);
      PopUndoKeepsSourced(u, key);
      PopKnown(u, key, Ids(c.log));
      ghost var g := PopUndo(u, key).1;
      if g.Some? { UndoGrows(c, g.value.opIds); }
      MoreKnown(db.undo.View(), Ids(c.log), Ids(db.log.entries));
    }

    method RedoLast(principal: string, artifact: string) returns (applied: seq<OperationId>, error: Option<LogError>)
      requires Valid()
      modifies db, db.log, db.materializer, db.index, db.undo, journal
      ensures Valid()
      ensures var (u, g) := PopRedo(old(db.undo.View()), (principal, artifact));
        db.undo.View() == u &&
        Outcome(db.View(), error) ==
          if g.Some? then RedoIds(old(db.View()), g.value.opIds) else Outcome(old(db.View()), None)
      ensures Appended(old(db.log.entries), db.log.entries, applied)
    {
      hide ComputeOperationId, Mirrors, Sourced, UndoIdsIn, Ids, RedoIds, PopUndo, PopRedo;
      ghost var u, c, key := db.undo.View(), db.View(), (principal, artifact);
      applied, error := db.RedoLast(principal, artifact, journal);
      PopRedoKeepsSourced(u, key);
      PopKnown(u, key, Ids(c.log));
      ghost var g := PopRedo(u, key).1;
      if g.Some? { RedoGrows(c, g.value.opIds); }
      MoreKnown(db.undo.View(), Ids(c.log), Ids(db.log.entries));
    }

    method EnterGroup(principal: string, artifact: string, freshId: string) returns (previous: Option<string>)
      requires Valid()
      modifies db, db.undo
      ensures Valid() && db.undo.View() == BeginGroup(old(db.undo.View()), principal, artifact, freshId)
    {
      hide ComputeOperationId, Mirrors, Ids, ReplayEvents;
      previous := db.EnterGroup(principal, artifact, freshId);
    }

    method LeaveGroup(previous: Option<string>)
      requires Valid()
      modifies db, db.undo
      ensures Valid() && db.undo.View() == EndGroup(old(db.undo.View()))
    {
      hide ComputeOperationId, Mirrors, Ids, Sourced, UndoIdsIn, EndGroup;
      ghost var u := db.undo.View();
      db.LeaveGroup(previous);
      EndKeepsSourced(u);
      EndKnown(u, Ids(db.log.entries));
    }

    /** `_replay`, run once on the fresh object: every operation is applied with the recording
        flag up, then the stacks are rebuilt; a rejected operation makes it raise. */
    method Recover() returns (error: Option<LogError>)
      requires db.Valid() && db.log.entries == [] && db.undo.View() == NO_UNDO.(events := db.undo.delivered)
      modifies db, db.log, db.materializer, db.index, db.undo
      ensures db.Valid() && !db.applyingUndo
      ensures Outcome(db.View(), error) == ApplyAll(old(db.View()), ReadJournal(journal.lines))
      ensures db.undo.View() ==
        if error.None? then RestoredUndo(old(db.undo.delivered)) else NO_UNDO.(events := old(db.undo.delivered))
      ensures error.None? ==> Mirrors(db.log.entries, journal.lines)
    {
      hide ComputeOperationId, Mirrors, Sourced, UndoIdsIn, Ids, ReplayEvents, ApplyAll, ReadJournal, Survivors,
        NormalLog;
      ReplaySucceedsIff(db.View(), ReadJournal(journal.lines));
      DecodedLogNormal(journal.lines);
      db.applyingUndo := true;
      var applied;
      applied, error := db.ApplyEach(ReadJournal(journal.lines), null);
      if error.None? {
        db.undo.Rebuild(db.undo.delivered);
        MirrorsItself(db.log.entries, journal.lines);
      }
      db.applyingUndo := false;
    }

    /** A restart: a new object over the two journals of a live one.  It starts if and only if none
        of the journalled operations had been rejected; it is then itself a live database, with the
        same ids and index, the state up to encoding and the same stacks for every key. */
    static method Restart(live: JournaledGraphDB, now: Time) returns (r: JournaledGraphDB, error: Option<LogError>)
      requires live.Valid()
      ensures fresh(r) && fresh(r.db) && fresh(r.journal) && fresh(r.db.log) && fresh(r.db.materializer)
      ensures fresh(r.db.index) && fresh(r.db.undo)
      ensures r.journal.lines == live.journal.lines && r.db.undo.delivered == live.db.undo.delivered
      ensures error.None? <==> |ReadJournal(live.journal.lines)| == |live.db.log.entries|
      ensures error.None? ==> r.Valid() && !r.db.applyingUndo && r.db.log.entries == NormalLog(live.db.log.entries)
      ensures error.None? ==> r.db.materializer.View() == NormalState(live.db.materializer.View())
      ensures error.None? ==> r.db.index.entityDatoms == live.db.index.entityDatoms
      ensures error.None? ==> r.db.undo.View().open.None?
      ensures error.None? ==> SameStacks(Rebuilt(r.db.undo.undoStacks, r.db.undo.redoStacks), live.db.undo.View())
      ensures error.None? && CoreValid(live.db.View()) && live.db.clock <= now ==> CoreValid(r.db.View())
    {
      hide ComputeOperationId, Mirrors, Sourced, UndoIdsIn, Ids, ReplayEvents, ApplyAll, ReadJournal, NormalLog,
        NormalState, IndexReplay, Replay, SameStacks, ValidLog, Wf, CoreValid;
      r := new JournaledGraphDB(live.journal.lines, live.db.undo.delivered, now);
      RecoveryRefinesLive(live.db.log.entries, live.db.undo.View(), live.journal.lines, now);
      error := r.Recover();
      if CoreValid(live.db.View()) && live.db.clock <= now && error.None? {
        NormalCoreValid(live.db.View(), r.db.View());
      }
    }
  }

  /** What replaying the events leaves: the stacks, no open group, and the events themselves. */
  function RestoredUndo(events: seq<UndoEvent>): Undo {
    var stacks := ReplayEvents(NOTHING, events);
    Undo(stacks.undo, stacks.redo, None, events)
  }

  lemma NormalCoreValid(live: Core, c: Core)
    requires CoreValid(live) && ValidLog(c.log) && c.log == NormalLog(live.log) && live.clock <= c.clock
    ensures CoreValid(c)
  {
    hide ValidLog, NormalOp;
    forall i | 0 <= i < |c.log| ensures c.log[i].op.timestamp <= c.clock { NormalKeepsTime(live.log[i].op); }
  }

  lemma MirrorsItself(log: seq<Entry>, lines: seq<Json>)
    requires log == Survivors(ReadJournal(lines)) && NormalLog(log) == log
    ensures Mirrors(log, lines)
  {
    hide ReadJournal, Survivors, NormalLog;
  }
}
