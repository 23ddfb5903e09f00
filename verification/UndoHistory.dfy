/** Undo and redo over whole runs: any interleaving of groups, undos and redos moves a cursor
    along one history of graph states. */
module UndoHistory {
  import opened Collections
  import opened JsonValues
  import opened Operations
  import opened OperationLogs
  import opened Materializer
  import opened Inverses
  import opened UndoManagers
  import opened GraphDbs

  /** The ids are those of consecutive log entries from `start`. */
  ghost predicate Logged(log: seq<Entry>, ids: seq<OperationId>, start: nat) {
    && start + |ids| <= |log|
    && forall j :: 0 <= j < |ids| ==> log[start + j].id == ids[j]
  }

  ghost predicate Prefixes(log: seq<Entry>, log': seq<Entry>) {
    |log| <= |log'| && log'[..|log|] == log
  }

  /** Whatever has been logged since, undoing the group in a state equivalent to the one it left
      gives a state equivalent to the one it found. */
  ghost predicate Reversible(log: seq<Entry>, ids: seq<OperationId>, start: nat)
    requires Logged(log, ids, start)
  {
    forall c: Core ::
      CoreValid(c) && Prefixes(log, c.log) && Equiv(StateOf(c), Replay(log[..start + |ids|])) ==>
        Equiv(StateOf(UndoIds(c, ids).core), Replay(log[..start]))
  }

  /** Each operation of the group met the condition of its kind when it was applied. */
  ghost predicate EachExact(log: seq<Entry>, start: nat, n: nat)
    requires start + n <= |log|
  {
    forall i :: start <= i < start + n ==> UndoExact(log[..i], log[i].op, Replay(log[..i]))
  }

  lemma PositionInExtension(log: seq<Entry>, log': seq<Entry>, i: nat)
    requires ValidLog(log') && Prefixes(log, log') && i < |log|
    ensures Position(log', log[i].id) == i && log'[i] == log[i] && log'[..i] == log[..i]
  {
    hide ComputeOperationId;
    assert log'[..|log|][i] == log[i];
    PositionOfEntry(log', i);
    hide ValidLog, Position;
    assert log'[..i] == log'[..|log|][..i];
  }

  lemma EquivTransitive(a: State, b: State, c: State)
    requires Equiv(a, b) && Equiv(b, c)
    ensures Equiv(a, c)
  {
    hide Kids;
  }

  /** Undoing the last operation of a group of exact operations. */
  lemma UndoLastExact(c: Core, log: seq<Entry>, i: nat)
    requires CoreValid(c) && Prefixes(log, c.log) && i < |log|
    requires UndoExact(log[..i], log[i].op, Replay(log[..i]))
    requires Equiv(StateOf(c), Replay(log[..i + 1]))
    ensures Position(c.log, log[i].id) == i
    ensures Equiv(StateOf(ApplyAll(Tick(c), InverseAt(c, i, c.clock + 1)).core), Replay(log[..i]))
  {
    hide ComputeOperationId, UndoExact, Equiv, ApplyAll, Wf, Step, Inverse, Run, ValidLog;
    PositionInExtension(log, c.log, i);
    UndoRound(c, i);
    ReplayWf(c.log);
    var op := log[i].op;
    assert log[..i + 1] == log[..i] + [log[i]];
    ReplayOneMore(log[..i], log[i]);
    assert log[i] == NewEntry(op) by { assert c.log[i] == log[i]; EntryIsNew(c.log, i); }
    hide Replay, CoreValid, NewEntry;
    UndoIsExactIff(log[..i], op, StateOf(c), c.clock + 1);
  }

  lemma EntryIsNew(log: seq<Entry>, i: nat)
    requires ValidLog(log) && i < |log|
    ensures log[i] == NewEntry(log[i].op)
  {
    hide ComputeOperationId;
  }

  /** The last operation of a group, and the rest of it. */
  lemma GroupParts(log: seq<Entry>, ids: seq<OperationId>, start: nat)
    requires Logged(log, ids, start) && EachExact(log, start, |ids|) && ids != []
    ensures var i := start + |ids| - 1;
      && i < |log| && log[i].id == Last(ids) && UndoExact(log[..i], log[i].op, Replay(log[..i]))
      && Logged(log, Init(ids), start) && EachExact(log, start, |ids| - 1)
  {
    hide UndoExact, Replay;
    assert log[start + (|ids| - 1)].id == ids[|ids| - 1];
  }

  /** One round of the loop, as an equation. */
  lemma UndoIdsRound(c: Core, ids: seq<OperationId>, i: nat)
    requires CoreValid(c) && ids != [] && i < |c.log| && Position(c.log, Last(ids)) == i
    ensures UndoIds(c, ids) == UndoIds(ApplyAll(Tick(c), InverseAt(c, i, c.clock + 1)).core, Init(ids))
  {
    hide ComputeOperationId, CoreValid, ApplyAll, InverseAt, Tick, Run, StateOf, Extends, Position;
    UndoRound(c, i);
  }

  lemma {:induction false} ExactUndo(c: Core, log: seq<Entry>, ids: seq<OperationId>, start: nat)
    requires CoreValid(c) && Prefixes(log, c.log) && Logged(log, ids, start) && EachExact(log, start, |ids|)
    requires Equiv(StateOf(c), Replay(log[..start + |ids|]))
    ensures Equiv(StateOf(UndoIds(c, ids).core), Replay(log[..start]))
    decreases |ids|
  {
    if ids == [] {
      assert UndoIds(c, ids).core == c;
    } else {
      hide ComputeOperationId, UndoExact, Replay, Equiv, CoreValid, StateOf, ApplyAll, InverseAt, UndoIds;
      var i := start + |ids| - 1;
      GroupParts(log, ids, start);
      hide EachExact;
      UndoLastExact(c, log, i);
      UndoRound(c, i);
      InExtension(log, c, i);
      UndoIdsRound(c, ids, i);
      var c1 := ApplyAll(Tick(c), InverseAt(c, i, c.clock + 1)).core;
      PrefixesTransitive(log, c, c1);
      hide Prefixes, Logged;
      ExactUndo(c1, log, Init(ids), start);
    }
  }

  lemma InExtension(log: seq<Entry>, c: Core, i: nat)
    requires Prefixes(log, c.log) && i < |log|
    ensures i < |c.log|
  {
  }

  lemma PrefixesTransitive(log: seq<Entry>, c: Core, c1: Core)
    requires Prefixes(log, c.log) && Extends(c, c1)
    ensures Prefixes(log, c1.log)
  {
    assert c1.log[..|log|] == c1.log[..|c.log|][..|log|];
  }

  /** A group of exactly undoable operations is reversible as a whole. */
  lemma EachExactIsReversible(log: seq<Entry>, ids: seq<OperationId>, start: nat)
    requires Logged(log, ids, start) && EachExact(log, start, |ids|)
    ensures Reversible(log, ids, start)
  {
    hide EachExact, Equiv, Replay, CoreValid, StateOf, Prefixes;
    forall c: Core | CoreValid(c) && Prefixes(log, c.log) && Equiv(StateOf(c), Replay(log[..start + |ids|]))
      ensures Equiv(StateOf(UndoIds(c, ids).core), Replay(log[..start]))
    {
      ExactUndo(c, log, ids, start);
    }
  }

  // ----- redo -----

  lemma EquivSymmetric(a: State, b: State)
    requires Equiv(a, b)
    ensures Equiv(b, a)
  {
    hide Kids;
  }

  /** Re-applying one logged operation. */
  lemma RedoOne(c: Core, log: seq<Entry>, i: nat)
    requires CoreValid(c) && Prefixes(log, c.log) && i < |log|
    requires Equiv(StateOf(c), Replay(log[..i]))
    ensures Position(c.log, log[i].id) == i < |c.log|
    ensures Equiv(StateOf(ApplyAll(Tick(c), [Restamp(c.log[i].op, c.clock + 1)]).core), Replay(log[..i + 1]))
  {
    hide ComputeOperationId, Equiv, ApplyAll, Step, ValidLog, StateOf, Replay;
    PositionInExtension(log, c.log, i);
    RedoRound(c, i);
    var op := Restamp(log[i].op, c.clock + 1);
    assert log[..i + 1] == log[..i] + [log[i]];
    ReplayOneMore(log[..i], log[i]);
    NewEntryOp(op);
    hide NewEntry, CoreValid, Restamp;
    EquivSymmetric(StateOf(c), Replay(log[..i]));
    StepCongruent(Replay(log[..i]), StateOf(c), log[i], NewEntry(op));
    EquivSymmetric(Step(Replay(log[..i]), log[i]), Step(StateOf(c), NewEntry(op)));
  }

  lemma RedoIdsRound(c: Core, ids: seq<OperationId>, i: nat)
    requires CoreValid(c) && ids != [] && i < |c.log| && Position(c.log, ids[0]) == i
    ensures RedoIds(c, ids) == RedoIds(ApplyAll(Tick(c), [Restamp(c.log[i].op, c.clock + 1)]).core, ids[1..])
  {
    hide ComputeOperationId, CoreValid, ApplyAll, Tick, StateOf, Extends, Position, Restamp, Step, NewEntry;
    RedoRound(c, i);
  }

  /** The first round of a redo leaves the group's first operation done and the rest to do. */
  lemma RedoFirst(c: Core, log: seq<Entry>, ids: seq<OperationId>, start: nat) returns (c1: Core)
    requires CoreValid(c) && Prefixes(log, c.log) && Logged(log, ids, start) && ids != []
    requires Equiv(StateOf(c), Replay(log[..start]))
    ensures RedoIds(c, ids) == RedoIds(c1, ids[1..])
    ensures CoreValid(c1) && Prefixes(log, c1.log) && Logged(log, ids[1..], start + 1)
    ensures Equiv(StateOf(c1), Replay(log[..start + 1]))
  {
    hide ComputeOperationId, Replay, Equiv, CoreValid, StateOf, ApplyAll, RedoIds, Restamp, Tick, Step, NewEntry;
    RestLogged(log, ids, start);
    hide Logged;
    InExtension(log, c, start);
    RedoOne(c, log, start);
    RedoRound(c, start);
    RedoIdsRound(c, ids, start);
    c1 := ApplyAll(Tick(c), [Restamp(c.log[start].op, c.clock + 1)]).core;
    PrefixesTransitive(log, c, c1);
    hide Prefixes;
  }

  lemma {:induction false} RedoRepeats(c: Core, log: seq<Entry>, ids: seq<OperationId>, start: nat)
    requires CoreValid(c) && Prefixes(log, c.log) && Logged(log, ids, start)
    requires Equiv(StateOf(c), Replay(log[..start]))
    ensures Equiv(StateOf(RedoIds(c, ids).core), Replay(log[..start + |ids|]))
    decreases |ids|
  {
    hide ComputeOperationId, Replay, Equiv, CoreValid, StateOf, RedoIds, Prefixes;
    if ids == [] {
      RedoNothing(c);
    } else {
      var c1 := RedoFirst(c, log, ids, start);
      var rest := ids[1..];
      assert start + 1 + |rest| == start + |ids|;
      RedoRepeats(c1, log, rest, start + 1);
    }
  }

  lemma RedoNothing(c: Core)
    ensures RedoIds(c, []).core == c
  {
    hide ComputeOperationId, ApplyAll;
  }

  lemma RestLogged(log: seq<Entry>, ids: seq<OperationId>, start: nat)
    requires Logged(log, ids, start) && ids != []
    ensures start < |log| && log[start].id == ids[0] && Logged(log, ids[1..], start + 1)
  {
    assert log[start + 0].id == ids[0];
    forall j | 0 <= j < |ids| - 1 ensures log[start + 1 + j].id == ids[1..][j] {
      assert log[start + (j + 1)].id == ids[j + 1];
    }
  }

  // ----- sessions -----

  /** The part of a GraphDB that undo depends on. */
  datatype Session = Session(core: Core, undo: Undo)

  /** An operation as a lens issues it: stamped now, without parents, by the principal. */
  function Stamp(op: Operation, now: Time, who: string): (r: Operation)
    ensures SameAction(op, r) && r.timestamp == now && r.parentOps == [] && r.principal == Some(who)
  {
    op.(timestamp := now, parentOps := [], principal := Some(who))
  }

  /** The body of an action group: each operation is applied and recorded. */
  function DoActions(d: Session, key: StackKey, actions: seq<Operation>): Session
    decreases |actions|
  {
    if actions == [] then d
    else
      var op := Stamp(actions[0], d.core.clock + 1, key.0);
      var o := ApplyAll(Tick(d.core), [op]);
      if o.error.Some? then Session(o.core, d.undo)
      else DoActions(Session(o.core, RecordOp(d.undo, ComputeOperationId(op), key.0, Some(key.1), "")), key,
        actions[1..])
  }

  datatype Move = Do(groupId: string, actions: seq<Operation>) | Back | Forward

  /** One command of a single principal on a single artifact. */
  function Perform(d: Session, key: StackKey, m: Move): Session {
    match m
    case Do(groupId, actions) =>
      var d1 := DoActions(Session(d.core, BeginGroup(d.undo, key.0, key.1, groupId)), key, actions);
      Session(d1.core, EndGroup(d1.undo))
    case Back =>
      var (u, g) := PopUndo(d.undo, key);
      Session(if g.Some? then UndoIds(d.core, g.value.opIds).core else d.core, u)
    case Forward =>
      var (u, g) := PopRedo(d.undo, key);
      Session(if g.Some? then RedoIds(d.core, g.value.opIds).core else d.core, u)
  }

  /** Applying one stamped operation appends one entry. */
  lemma DoOne(c: Core, op: Operation)
    requires CoreValid(c) && op.timestamp == c.clock + 1 && op.parentOps == []
    ensures var o := ApplyAll(Tick(c), [op]);
      o.error.None? && CoreValid(o.core) && o.core.log == c.log + [NewEntry(op)]
  {
    hide ComputeOperationId, NewEntry, ValidLog, Ids;
    LaterIsNew(c, op);
    assert CoreValid(Tick(c));
    var c1 := Accept(Tick(c), op);
    assert Rejection(c.log, op).None?;
    assert ApplyAll(Tick(c), [op]) == ApplyAll(c1, []) by { assert [op][1..] == []; }
    AcceptOne(Tick(c), op);
    hide CoreValid;
  }

  /** What an action group has done so far. */
  ghost predicate Acted(d: Session, key: StackKey, o: OpenGroup, n: nat, d': Session) {
    && CoreValid(d'.core)
    && |d'.core.log| == |d.core.log| + n && Prefixes(d.core.log, d'.core.log)
    && d'.undo.open == Some(o.(opIds := o.opIds + IdsFrom(d'.core.log, |d.core.log|)))
    && d'.undo.undo == d.undo.undo
    && StackAt(d'.undo.redo, key) == if n == 0 then StackAt(d.undo.redo, key) else []
  }

  lemma ActedChain(d: Session, key: StackKey, o: OpenGroup, d1: Session, n: nat, d2: Session)
    requires Acted(d, key, o, 1, d1) && Acted(d1, key, d1.undo.open.value, n, d2)
    ensures Acted(d, key, o, n + 1, d2)
  {
    hide CoreValid, ComputeOperationId;
    var k, k1 := |d.core.log|, |d1.core.log|;
    assert d2.core.log[..k] == d2.core.log[..k1][..k];
    assert IdsFrom(d1.core.log, k) + IdsFrom(d2.core.log, k1) == IdsFrom(d2.core.log, k) by {
      assert d2.core.log[..k1][k] == d1.core.log[k];
    }
    assert o.opIds + IdsFrom(d1.core.log, k) + IdsFrom(d2.core.log, k1) == o.opIds + IdsFrom(d2.core.log, k);
  }

  lemma ActOne(d: Session, key: StackKey, o: OpenGroup, op: Operation)
    requires CoreValid(d.core) && d.undo.open == Some(o) && o.artifact == key.1
    requires op.timestamp == d.core.clock + 1 && op.parentOps == []
    ensures ApplyAll(Tick(d.core), [op]).error.None?
    ensures Acted(d, key, o, 1,
      Session(ApplyAll(Tick(d.core), [op]).core, RecordOp(d.undo, ComputeOperationId(op), key.0, Some(key.1), "")))
  {
    hide ComputeOperationId, CoreValid, ApplyAll;
    DoOne(d.core, op);
    var log := d.core.log + [NewEntry(op)];
    assert log[|d.core.log|].id == ComputeOperationId(op);
    assert IdsFrom(log, |d.core.log|) == [ComputeOperationId(op)];
    assert log[..|d.core.log|] == d.core.log;
    hide IdsFrom;
  }

  lemma {:induction false} DoActionsActs(d: Session, key: StackKey, o: OpenGroup, actions: seq<Operation>)
    requires CoreValid(d.core) && d.undo.open == Some(o) && o.artifact == key.1
    ensures Acted(d, key, o, |actions|, DoActions(d, key, actions))
    decreases |actions|
  {
    hide ComputeOperationId, CoreValid, ApplyAll, RecordOp, Stamp;
    if actions == [] {
      assert o.opIds + IdsFrom(d.core.log, |d.core.log|) == o.opIds;
    } else {
      var op := Stamp(actions[0], d.core.clock + 1, key.0);
      ActOne(d, key, o, op);
      var d1 := Session(ApplyAll(Tick(d.core), [op]).core,
        RecordOp(d.undo, ComputeOperationId(op), key.0, Some(key.1), ""));
      DoActionsActs(d1, key, d1.undo.open.value, actions[1..]);
      ActedChain(d, key, o, d1, |actions| - 1, DoActions(d, key, actions));
      hide Acted, Prefixes;
    }
  }

  // ----- one history, one cursor -----

  /** The graph states between the groups, and which of them is current. */
  datatype History = History(states: seq<State>, at: nat)

  /** A new group forgets the states ahead of the cursor; undo and redo move it. */
  function Track(h: History, m: Move, after: State): History {
    match m
    case Do(_, actions) =>
      if actions == [] || h.at >= |h.states| then h else History(h.states[..h.at + 1] + [after], h.at + 1)
    case Back => if h.at > 0 then h.(at := h.at - 1) else h
    case Forward => if h.at + 1 < |h.states| then h.(at := h.at + 1) else h
  }

  function RunMoves(d: Session, key: StackKey, h: History, moves: seq<Move>): (Session, History)
    decreases |moves|
  {
    if moves == [] then (d, h)
    else
      var d1 := Perform(d, key, moves[0]);
      RunMoves(d1, key, Track(h, moves[0], StateOf(d1.core)), moves[1..])
  }

  /** A group and the position of its first operation in the log. */
  datatype Past = Past(group: UndoGroup, start: nat)

  ghost predicate LinkedAt(log: seq<Entry>, p: Past, before: State, after: State) {
    && Logged(log, p.group.opIds, p.start)
    && Reversible(log, p.group.opIds, p.start)
    && Equiv(before, Replay(log[..p.start]))
    && Equiv(after, Replay(log[..p.start + |p.group.opIds|]))
  }

  /** The stacks are the groups before and after the cursor, newest on top. */
  ghost predicate StacksFollow(u: Undo, key: StackKey, past: seq<Past>, at: nat) {
    && at <= |past| && u.open.None?
    && |StackAt(u.undo, key)| == at
    && |StackAt(u.redo, key)| == |past| - at
    && (forall i :: 0 <= i < at ==> StackAt(u.undo, key)[i] == past[i].group)
    && (forall i :: at <= i < |past| ==> StackAt(u.redo, key)[|past| - 1 - i] == past[i].group)
  }

  ghost predicate Linked(d: Session, key: StackKey, h: History, past: seq<Past>) {
    && |h.states| == |past| + 1
    && CoreValid(d.core)
    && StacksFollow(d.undo, key, past, h.at)
    && Equiv(StateOf(d.core), h.states[h.at])
    && forall i :: 0 <= i < |past| ==> LinkedAt(d.core.log, past[i], h.states[i], h.states[i + 1])
  }

  lemma LinkedAtLater(log: seq<Entry>, log': seq<Entry>, p: Past, before: State, after: State)
    requires LinkedAt(log, p, before, after) && Prefixes(log, log')
    ensures LinkedAt(log', p, before, after)
  {
    hide ComputeOperationId, CoreValid, StateOf, Replay, Equiv;
    var ids, start := p.group.opIds, p.start;
    forall j | 0 <= j < |ids| ensures log'[start + j].id == ids[j] {
      assert log'[..|log|][start + j] == log[start + j];
    }
    assert log'[..start] == log[..start] by { assert log'[..|log|][..start] == log'[..start]; }
    assert log'[..start + |ids|] == log[..start + |ids|] by {
      assert log'[..|log|][..start + |ids|] == log'[..start + |ids|];
    }
    forall c: Core | CoreValid(c) && Prefixes(log', c.log) && Equiv(StateOf(c), Replay(log'[..start + |ids|]))
      ensures Equiv(StateOf(UndoIds(c, ids).core), Replay(log'[..start]))
    {
      assert c.log[..|log|] == c.log[..|log'|][..|log|];
      assert Prefixes(log, c.log);
      hide UndoIds;
    }
  }

  /** Undo at a cursor with a group behind it. */
  lemma UndoMovesBack(d: Session, key: StackKey, h: History, past: seq<Past>)
    requires Linked(d, key, h, past) && h.at > 0
    ensures Linked(Perform(d, key, Back), key, h.(at := h.at - 1), past)
  {
    hide ComputeOperationId, CoreValid, StateOf, Replay, Equiv, UndoIds, LinkedAt;
    var p := past[h.at - 1];
    var c' := UndoIds(d.core, p.group.opIds).core;
    assert Perform(d, key, Back) == Session(c', PopUndo(d.undo, key).0);
    UndoAccepted(d.core, p.group.opIds);
    UndoReaches(d.core, p, h.states[h.at - 1], h.states[h.at]);
    forall i | 0 <= i < |past| ensures LinkedAt(c'.log, past[i], h.states[i], h.states[i + 1]) {
      assert LinkedAt(d.core.log, past[i], h.states[i], h.states[i + 1]);
      LinkedAtLater(d.core.log, c'.log, past[i], h.states[i], h.states[i + 1]);
    }
    PopUndoFollows(d.undo, key, past, h.at);
    hide StacksFollow, PopUndo;
  }

  lemma UndoReaches(c: Core, p: Past, before: State, after: State)
    requires CoreValid(c) && LinkedAt(c.log, p, before, after) && Equiv(StateOf(c), after)
    ensures Equiv(StateOf(UndoIds(c, p.group.opIds).core), before)
  {
    hide ComputeOperationId, CoreValid, StateOf, Replay, Equiv, UndoIds;
    var ids := p.group.opIds;
    assert Prefixes(c.log, c.log);
    EquivTransitive(StateOf(c), after, Replay(c.log[..p.start + |ids|]));
    EquivSymmetric(before, Replay(c.log[..p.start]));
    EquivTransitive(StateOf(UndoIds(c, ids).core), Replay(c.log[..p.start]), before);
  }

  lemma PopUndoFollows(u: Undo, key: StackKey, past: seq<Past>, at: nat)
    requires StacksFollow(u, key, past, at) && at > 0
    ensures PopUndo(u, key).1 == Some(past[at - 1].group) && StacksFollow(PopUndo(u, key).0, key, past, at - 1)
  {
  }

  lemma PopRedoFollows(u: Undo, key: StackKey, past: seq<Past>, at: nat)
    requires StacksFollow(u, key, past, at) && at < |past|
    ensures PopRedo(u, key).1 == Some(past[at].group) && StacksFollow(PopRedo(u, key).0, key, past, at + 1)
  {
  }

  /** Redo at a cursor with a group ahead of it. */
  lemma RedoMovesOn(d: Session, key: StackKey, h: History, past: seq<Past>)
    requires Linked(d, key, h, past) && h.at < |past|
    ensures Linked(Perform(d, key, Forward), key, h.(at := h.at + 1), past)
  {
    hide ComputeOperationId, CoreValid, StateOf, Replay, Equiv, RedoIds, LinkedAt;
    var p := past[h.at];
    var c' := RedoIds(d.core, p.group.opIds).core;
    PopRedoFollows(d.undo, key, past, h.at);
    assert Perform(d, key, Forward) == Session(c', PopRedo(d.undo, key).0);
    RedoAccepted(d.core, p.group.opIds);
    RedoReaches(d.core, p, h.states[h.at], h.states[h.at + 1]);
    forall i | 0 <= i < |past| ensures LinkedAt(c'.log, past[i], h.states[i], h.states[i + 1]) {
      assert LinkedAt(d.core.log, past[i], h.states[i], h.states[i + 1]);
      LinkedAtLater(d.core.log, c'.log, past[i], h.states[i], h.states[i + 1]);
    }
    hide StacksFollow, PopRedo;
  }

  lemma RedoReaches(c: Core, p: Past, before: State, after: State)
    requires CoreValid(c) && LinkedAt(c.log, p, before, after) && Equiv(StateOf(c), before)
    ensures Equiv(StateOf(RedoIds(c, p.group.opIds).core), after)
  {
    hide ComputeOperationId, CoreValid, StateOf, Replay, Equiv, RedoIds, Reversible;
    var ids := p.group.opIds;
    assert Prefixes(c.log, c.log);
    EquivTransitive(StateOf(c), before, Replay(c.log[..p.start]));
    RedoRepeats(c, c.log, ids, p.start);
    EquivSymmetric(after, Replay(c.log[..p.start + |ids|]));
    EquivTransitive(StateOf(RedoIds(c, ids).core), Replay(c.log[..p.start + |ids|]), after);
  }

  /** The group a Do move pushes. */
  function GroupOf(d: Session, key: StackKey, m: Move, after: Core): UndoGroup
    requires m.Do? && |d.core.log| <= |after.log|
  {
    UndoGroup(m.groupId, IdsFrom(after.log, |d.core.log|), key.0, key.1)
  }

  /** What a Do move with operations leaves behind. */
  ghost predicate MadeGroup(d: Session, key: StackKey, m: Move, d': Session)
    requires m.Do?
  {
    && CoreValid(d'.core)
    && |d'.core.log| == |d.core.log| + |m.actions| && Prefixes(d.core.log, d'.core.log)
    && d'.undo.open.None?
    && StackAt(d'.undo.undo, key) ==
      StackAt(d.undo.undo, key) + (if m.actions == [] then [] else [GroupOf(d, key, m, d'.core)])
    && StackAt(d'.undo.redo, key) == if m.actions == [] then StackAt(d.undo.redo, key) else []
  }

  lemma DoMakesGroup(d: Session, key: StackKey, m: Move)
    requires CoreValid(d.core) && d.undo.open.None? && m.Do?
    ensures MadeGroup(d, key, m, Perform(d, key, m))
  {
    hide ComputeOperationId, CoreValid, DoActions;
    var o := OpenGroup(m.groupId, [], key.0, key.1, 1);
    var d0 := Session(d.core, BeginGroup(d.undo, key.0, key.1, m.groupId));
    DoActionsActs(d0, key, o, m.actions);
    var d1 := DoActions(d0, key, m.actions);
    var ids := IdsFrom(d1.core.log, |d.core.log|);
    assert [] + ids == ids;
    OutermostEnd(d1.undo, o.(opIds := ids));
    assert StackAt(d.undo.undo, key) + [] == StackAt(d.undo.undo, key);
    hide IdsFrom, Prefixes;
  }

  /** The group just pushed is reversible. */
  ghost predicate PushedReversible(d: Session, d': Session) {
    && |d.core.log| <= |d'.core.log|
    && Reversible(d'.core.log, IdsFrom(d'.core.log, |d.core.log|), |d.core.log|)
  }

  lemma EquivReflexive(a: State)
    ensures Equiv(a, a)
  {
  }

  lemma DoPushes(d: Session, key: StackKey, h: History, past: seq<Past>, m: Move) returns (past': seq<Past>)
    requires Linked(d, key, h, past) && m.Do? && m.actions != []
    requires PushedReversible(d, Perform(d, key, m))
    ensures Linked(Perform(d, key, m), key, Track(h, m, StateOf(Perform(d, key, m).core)), past')
  {
    hide ComputeOperationId, CoreValid, StateOf, Replay, Equiv, Perform, LinkedAt;
    DoMakesGroup(d, key, m);
    var d' := Perform(d, key, m);
    var start := |d.core.log|;
    var p := Past(GroupOf(d, key, m, d'.core), start);
    past' := past[..h.at] + [p];
    var h' := Track(h, m, StateOf(d'.core));
    EquivReflexive(StateOf(d'.core));
    NewLink(d, d', p, h.states[h.at]);
    forall i | 0 <= i < |past'| ensures LinkedAt(d'.core.log, past'[i], h'.states[i], h'.states[i + 1]) {
      if i < h.at {
        assert LinkedAt(d.core.log, past[i], h.states[i], h.states[i + 1]);
        LinkedAtLater(d.core.log, d'.core.log, past[i], h.states[i], h.states[i + 1]);
      }
    }
    hide GroupOf, PushedReversible, Prefixes;
  }

  lemma NewLink(d: Session, d': Session, p: Past, before: State)
    requires PushedReversible(d, d') && Prefixes(d.core.log, d'.core.log)
    requires p.start == |d.core.log| && p.group.opIds == IdsFrom(d'.core.log, p.start)
    requires Equiv(StateOf(d.core), before)
    ensures LinkedAt(d'.core.log, p, before, StateOf(d'.core))
  {
    hide ComputeOperationId, Replay, Equiv, Reversible;
    EquivSymmetric(StateOf(d.core), before);
    EquivReflexive(StateOf(d'.core));
    assert d'.core.log[..|d'.core.log|] == d'.core.log;
  }

  // ----- the theorem -----

  /** Every group of the run is reversible when it is made. */
  ghost predicate AllReversible(d: Session, key: StackKey, moves: seq<Move>)
    decreases |moves|
  {
    moves == [] || (
      var d' := Perform(d, key, moves[0]);
      && (moves[0].Do? && moves[0].actions != [] ==> PushedReversible(d, d'))
      && AllReversible(d', key, moves[1..]))
  }

  lemma MoveKeepsLinked(d: Session, key: StackKey, h: History, past: seq<Past>, m: Move) returns (past': seq<Past>)
    requires Linked(d, key, h, past)
    requires m.Do? && m.actions != [] ==> PushedReversible(d, Perform(d, key, m))
    ensures Linked(Perform(d, key, m), key, Track(h, m, StateOf(Perform(d, key, m).core)), past')
  {
    past' := past;
    if m.Do? && m.actions != [] {
      past' := DoPushes(d, key, h, past, m);
    } else {
      IdleMoves(d, key, h, past, m);
    }
    hide *;
  }

  /** The moves that make no group. */
  lemma IdleMoves(d: Session, key: StackKey, h: History, past: seq<Past>, m: Move)
    requires Linked(d, key, h, past) && !(m.Do? && m.actions != [])
    ensures Linked(Perform(d, key, m), key, Track(h, m, StateOf(Perform(d, key, m).core)), past)
  {
    hide ComputeOperationId, CoreValid, Replay, Equiv, LinkedAt, UndoIds, RedoIds;
    match m
    case Do(_, _) =>
      DoNothing(d, key, m);
    case Back =>
      if h.at > 0 { UndoMovesBack(d, key, h, past); }
    case Forward =>
      if h.at < |past| { RedoMovesOn(d, key, h, past); }
  }

  lemma DoNothing(d: Session, key: StackKey, m: Move)
    requires m.Do? && m.actions == [] && d.undo.open.None?
    ensures Perform(d, key, m) == d
  {
    hide ComputeOperationId;
  }

  /** Undo and redo are exact over whole runs: from any valid database whose stacks for this
      principal and artifact are empty, after any sequence of reversible groups, undos and redos
      of that principal on that artifact, the graph is the recorded state under the cursor. */
  lemma {:induction false} UndoRedoFollowsHistory(d: Session, key: StackKey, h: History, past: seq<Past>,
                                                  moves: seq<Move>)
    requires Linked(d, key, h, past) && AllReversible(d, key, moves)
    ensures var (d', h') := RunMoves(d, key, h, moves);
      h'.at < |h'.states| && Equiv(StateOf(d'.core), h'.states[h'.at])
    decreases |moves|
  {
    hide ComputeOperationId, StateOf, Equiv, Perform, Track, PushedReversible, CoreValid, LinkedAt;
    if moves != [] {
      var past' := MoveKeepsLinked(d, key, h, past, moves[0]);
      hide Linked;
      var d1 := Perform(d, key, moves[0]);
      UndoRedoFollowsHistory(d1, key, Track(h, moves[0], StateOf(d1.core)), past', moves[1..]);
    }
  }

  /** Every operation of every group meets the exact condition of its kind when applied. */
  ghost predicate AllExact(d: Session, key: StackKey, moves: seq<Move>)
    decreases |moves|
  {
    moves == [] || (
      var d' := Perform(d, key, moves[0]);
      && (moves[0].Do? && |d.core.log| <= |d'.core.log| ==>
            EachExact(d'.core.log, |d.core.log|, |d'.core.log| - |d.core.log|))
      && AllExact(d', key, moves[1..]))
  }

  lemma PushedExact(d: Session, d': Session)
    requires |d.core.log| <= |d'.core.log|
    requires EachExact(d'.core.log, |d.core.log|, |d'.core.log| - |d.core.log|)
    ensures PushedReversible(d, d')
  {
    hide ComputeOperationId, EachExact, Reversible;
    EachExactIsReversible(d'.core.log, IdsFrom(d'.core.log, |d.core.log|), |d.core.log|);
  }

  lemma {:induction false} ExactRunsAreReversible(d: Session, key: StackKey, moves: seq<Move>)
    requires CoreValid(d.core) && d.undo.open.None? && AllExact(d, key, moves)
    ensures AllReversible(d, key, moves)
    decreases |moves|
  {
    hide ComputeOperationId, CoreValid, EachExact, PushedReversible, UndoIds, RedoIds, DoActions;
    if moves != [] {
      var m := moves[0];
      var d' := Perform(d, key, m);
      PerformKeepsValid(d, key, m);
      if m.Do? && m.actions != [] { PushedExact(d, d'); }
      hide Perform;
      ExactRunsAreReversible(d', key, moves[1..]);
    }
  }

  lemma PerformKeepsValid(d: Session, key: StackKey, m: Move)
    requires CoreValid(d.core) && d.undo.open.None?
    ensures var d' := Perform(d, key, m);
      CoreValid(d'.core) && d'.undo.open.None? && |d.core.log| <= |d'.core.log|
  {
    hide ComputeOperationId, CoreValid, UndoIds, RedoIds, DoActions;
    match m
    case Do(_, _) => DoMakesGroup(d, key, m);
    case Back =>
      var g := PopUndo(d.undo, key).1;
      if g.Some? { UndoAccepted(d.core, g.value.opIds); }
    case Forward =>
      var g := PopRedo(d.undo, key).1;
      if g.Some? { RedoAccepted(d.core, g.value.opIds); }
  }

  /** The run theorem with its condition read off the operations alone. */
  lemma ExactUndoRedo(d: Session, key: StackKey, moves: seq<Move>)
    requires CoreValid(d.core) && d.undo.open.None?
    requires StackAt(d.undo.undo, key) == [] && StackAt(d.undo.redo, key) == []
    requires AllExact(d, key, moves)
    ensures var (d', h') := RunMoves(d, key, History([StateOf(d.core)], 0), moves);
      h'.at < |h'.states| && Equiv(StateOf(d'.core), h'.states[h'.at])
  {
    hide ComputeOperationId, CoreValid, AllExact, AllReversible, RunMoves, StateOf, LinkedAt;
    EquivReflexive(StateOf(d.core));
    ExactRunsAreReversible(d, key, moves);
    hide Equiv;
    UndoRedoFollowsHistory(d, key, History([StateOf(d.core)], 0), [], moves);
  }
}
