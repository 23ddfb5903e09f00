/** Per-principal, per-artifact undo and redo stacks: UndoManager of src/uaf/db/undo.py. */
module UndoManagers {
  import opened Collections
  import opened JsonValues

  type StackKey = (string, string)

  datatype UndoGroup = UndoGroup(groupId: string, opIds: seq<OperationId>, principal: string, artifact: string) {
    function Key(): StackKey { (principal, artifact) }
  }

  datatype EventType = Created | Undone | Redone | RedoCleared

  /** `to_event`: an event carries the whole group. */
  datatype UndoEvent = UndoEvent(kind: EventType, group: UndoGroup)

  datatype OpenGroup = OpenGroup(groupId: string, opIds: seq<OperationId>, principal: string, artifact: string,
                                 depth: nat)

  type Stacks = map<StackKey, seq<UndoGroup>>

  /** Value of an UndoManager; `events` is what the callback has been given so far. */
  datatype Undo = Undo(undo: Stacks, redo: Stacks, open: Option<OpenGroup>, events: seq<UndoEvent>)

  const NO_UNDO := Undo(map[], map[], None, [])

  /** `stacks.get(key, [])` */
  function StackAt(stacks: Stacks, key: StackKey): seq<UndoGroup> {
    if key in stacks then stacks[key] else []
  }

  function Push(stacks: Stacks, g: UndoGroup): (r: Stacks)
    ensures forall k :: StackAt(r, k) == if k == g.Key() then StackAt(stacks, k) + [g] else StackAt(stacks, k)
  {
    stacks[g.Key() := StackAt(stacks, g.Key()) + [g]]
  }

  // ----- the operations on values -----

  function BeginGroup(u: Undo, principal: string, artifact: string, freshId: string): Undo {
    if u.open.Some? then u.(open := Some(u.open.value.(depth := u.open.value.depth + 1)))
    else u.(open := Some(OpenGroup(freshId, [], principal, artifact, 1)))
  }

  function EndGroup(u: Undo): Undo {
    if u.open.None? then u
    else
      var o := u.open.value;
      if o.depth > 1 then u.(open := Some(o.(depth := o.depth - 1)))
      else if o.opIds == [] then u.(open := None)
      else
        var g := UndoGroup(o.groupId, o.opIds, o.principal, o.artifact);
        u.(undo := Push(u.undo, g), open := None, events := u.events + [UndoEvent(Created, g)])
  }

  function Cleared(gs: seq<UndoGroup>): (r: seq<UndoEvent>)
    ensures |r| == |gs| && forall i :: 0 <= i < |gs| ==> r[i] == UndoEvent(RedoCleared, gs[i])
  {
    seq(|gs|, i requires 0 <= i < |gs| => UndoEvent(RedoCleared, gs[i]))
  }

  /** `_redo_stacks.pop(key)` with one event per dropped group. */
  function ClearRedo(u: Undo, key: StackKey): Undo {
    u.(redo := u.redo - {key}, events := u.events + Cleared(StackAt(u.redo, key)))
  }

  function RecordOp(u: Undo, id: OperationId, principal: string, artifact: Option<string>, freshId: string): Undo {
    if u.open.Some? then
      var o := u.open.value;
      ClearRedo(u.(open := Some(o.(opIds := o.opIds + [id]))), (principal, o.artifact))
    else if artifact.None? then u
    else
      var g := UndoGroup(freshId, [id], principal, artifact.value);
      ClearRedo(u.(undo := Push(u.undo, g), events := u.events + [UndoEvent(Created, g)]), g.Key())
  }

  function PopUndo(u: Undo, key: StackKey): (Undo, Option<UndoGroup>) {
    var stack := StackAt(u.undo, key);
    if stack == [] then (u, None)
    else
      var g := Last(stack);
      (u.(undo := u.undo[key := Init(stack)], redo := u.redo[key := StackAt(u.redo, key) + [g]],
          events := u.events + [UndoEvent(Undone, g)]), Some(g))
  }

  function PopRedo(u: Undo, key: StackKey): (Undo, Option<UndoGroup>) {
    var stack := StackAt(u.redo, key);
    if stack == [] then (u, None)
    else
      var g := Last(stack);
      (u.(redo := u.redo[key := Init(stack)], undo := u.undo[key := StackAt(u.undo, key) + [g]],
          events := u.events + [UndoEvent(Redone, g)]), Some(g))
  }

  /** `after` is `before` with the group put on top of its stack. */
  ghost predicate OnTop(before: Stacks, g: UndoGroup, key: StackKey, after: Stacks) {
    forall k :: StackAt(after, k) == StackAt(before, k) + if k == key then [g] else []
  }

  /** What recording does to the stacks of every principal and artifact.  Inside a group the operation
      joins it; outside one it makes a group of its own, or nothing when there is no artifact.  Whatever
      the principal had undone in that artifact can no longer be redone, and nothing else is lost. */
  lemma RecordMeaning(u: Undo, id: OperationId, principal: string, artifact: Option<string>, freshId: string)
    ensures var r := RecordOp(u, id, principal, artifact, freshId);
      var at := if u.open.Some? then Some(u.open.value.artifact) else artifact;
      forall k :: StackAt(r.redo, k) == if at.Some? && k == (principal, at.value) then [] else StackAt(u.redo, k)
    ensures var r := RecordOp(u, id, principal, artifact, freshId);
      match u.open
      case Some(o) =>
        r.undo == u.undo && r.open == Some(OpenGroup(o.groupId, o.opIds + [id], o.principal, o.artifact, o.depth))
      case None =>
        && r.open.None? && (artifact.None? ==> r == u)
        && (artifact.Some? ==>
              var key := (principal, artifact.value);
              OnTop(u.undo, UndoGroup(freshId, [id], key.0, key.1), key, r.undo))
  {
    hide Cleared;
    assert forall k :: StackAt(u.undo, k) + [] == StackAt(u.undo, k);
  }

  /** Undoing takes the newest group of the key from its undo stack to its redo stack, and no other
      stack changes. */
  lemma PopUndoMeaning(u: Undo, key: StackKey)
    ensures var (r, g) := PopUndo(u, key);
      if StackAt(u.undo, key) == [] then g.None? && r == u
      else g.Some? && r.open == u.open && OnTop(r.undo, g.value, key, u.undo) && OnTop(u.redo, g.value, key, r.redo)
  {
    assert forall k :: StackAt(u.undo, k) + [] == StackAt(u.undo, k);
  }

  /** Redoing takes it back. */
  lemma PopRedoMeaning(u: Undo, key: StackKey)
    ensures var (r, g) := PopRedo(u, key);
      if StackAt(u.redo, key) == [] then g.None? && r == u
      else g.Some? && r.open == u.open && OnTop(r.redo, g.value, key, u.redo) && OnTop(u.undo, g.value, key, r.undo)
  {
    assert forall k :: StackAt(u.redo, k) + [] == StackAt(u.redo, k);
  }

  // ----- rebuilding from events -----

  datatype Rebuilt = Rebuilt(undo: Stacks, redo: Stacks)

  function DropLast(s: seq<UndoGroup>): seq<UndoGroup> {
    if s == [] then [] else Init(s)
  }

  function OtherGroups(s: seq<UndoGroup>, groupId: string): seq<UndoGroup> {
    if s == [] then []
    else (if s[0].groupId == groupId then [] else [s[0]]) + OtherGroups(s[1..], groupId)
  }

  /** One step of replay_events. */
  function ReplayEvent(r: Rebuilt, e: UndoEvent): Rebuilt {
    var g, key := e.group, e.group.Key();
    match e.kind
    case Created => r.(undo := Push(r.undo, g))
    case Undone =>
      Rebuilt(if key in r.undo then r.undo[key := DropLast(r.undo[key])] else r.undo, Push(r.redo, g))
    case Redone =>
      Rebuilt(Push(r.undo, g), if key in r.redo then r.redo[key := DropLast(r.redo[key])] else r.redo)
    case RedoCleared =>
      var rest := OtherGroups(StackAt(r.redo, key), g.groupId);
      if StackAt(r.redo, key) == [] then r
      else r.(redo := if rest == [] then r.redo - {key} else r.redo[key := rest])
  }

  function ReplayEvents(r: Rebuilt, events: seq<UndoEvent>): Rebuilt
    decreases |events|
  {
    if events == [] then r else ReplayEvents(ReplayEvent(r, events[0]), events[1..])
  }

  const NOTHING := Rebuilt(map[], map[])

  lemma {:induction false} ReplayAppend(r: Rebuilt, a: seq<UndoEvent>, b: seq<UndoEvent>)
    ensures ReplayEvents(r, a + b) == ReplayEvents(ReplayEvents(r, a), b)
    decreases |a|
  {
    if a == [] {
      assert a + b == b;
    } else {
      assert (a + b)[1..] == a[1..] + b;
      ReplayAppend(ReplayEvent(r, a[0]), a[1..], b);
    }
  }

  // ----- the stacks are event-sourced -----

  /** The rebuilt stacks are those of the manager, for every key. */
  ghost predicate SameStacks(r: Rebuilt, u: Undo) {
    forall k :: StackAt(r.undo, k) == StackAt(u.undo, k) && StackAt(r.redo, k) == StackAt(u.redo, k)
  }

  /** Every group lies on the stack of its own principal and artifact. */
  ghost predicate KeyedStacks(m: Stacks) {
    forall k, i {:trigger m[k][i]} :: k in m && 0 <= i < |m[k]| ==> m[k][i].Key() == k
  }

  ghost predicate Keyed(u: Undo) {
    KeyedStacks(u.undo) && KeyedStacks(u.redo)
  }

  /** The stacks are keyed, an open group has a positive depth, and replaying the emitted
      events gives the stacks. */
  ghost predicate Sourced(u: Undo) {
    && Keyed(u)
    && (u.open.Some? ==> u.open.value.depth >= 1)
    && SameStacks(ReplayEvents(NOTHING, u.events), u)
  }

  lemma ReplayEventsOneMore(events: seq<UndoEvent>, e: UndoEvent)
    ensures ReplayEvents(NOTHING, events + [e]) == ReplayEvent(ReplayEvents(NOTHING, events), e)
  {
    var r := ReplayEvents(NOTHING, events);
    ReplayAppend(NOTHING, events, [e]);
    assert [e][1..] == [];
    assert ReplayEvents(r, [e]) == ReplayEvents(ReplayEvent(r, e), []);
  }

  lemma {:induction false} OtherGroupsMembers(s: seq<UndoGroup>, groupId: string, g: UndoGroup)
    requires g in OtherGroups(s, groupId)
    ensures g in s && g.groupId != groupId
  {
    if g !in OtherGroups(s[1..], groupId) {
      assert g == s[0];
    } else {
      OtherGroupsMembers(s[1..], groupId, g);
    }
  }

  lemma FirstIsMember(s: seq<UndoGroup>)
    ensures s == [] || s[0] in s
  {
  }

  /** Dropping every listed group empties a stack that holds no other. */
  lemma {:induction false} ReplayCleared(r: Rebuilt, key: StackKey, gs: seq<UndoGroup>)
    requires forall g :: g in gs ==> g.Key() == key
    requires forall g :: g in StackAt(r.redo, key) ==> exists h :: h in gs && h.groupId == g.groupId
    ensures var r' := ReplayEvents(r, Cleared(gs));
      r'.undo == r.undo && forall k :: StackAt(r'.redo, k) == if k == key then [] else StackAt(r.redo, k)
    decreases |gs|
  {
    if gs == [] {
      FirstIsMember(StackAt(r.redo, key));
    } else {
      var r1 := ReplayEvent(r, UndoEvent(RedoCleared, gs[0]));
      assert gs[0].Key() == key;
      assert StackAt(r1.redo, key) == OtherGroups(StackAt(r.redo, key), gs[0].groupId);
      assert Cleared(gs)[1..] == Cleared(gs[1..]);
      forall g | g in StackAt(r1.redo, key) ensures exists h :: h in gs[1..] && h.groupId == g.groupId {
        OtherGroupsMembers(StackAt(r.redo, key), gs[0].groupId, g);
        var h :| h in gs && h.groupId == g.groupId;
        assert h in gs[1..];
      }
      ReplayCleared(r1, key, gs[1..]);
    }
  }

  lemma PushKeepsSourced(u: Undo, g: UndoGroup, open: Option<OpenGroup>)
    requires Sourced(u) && (open.Some? ==> open.value.depth >= 1)
    ensures Sourced(u.(undo := Push(u.undo, g), open := open, events := u.events + [UndoEvent(Created, g)]))
  {
    hide ReplayEvents;
    ReplayEventsOneMore(u.events, UndoEvent(Created, g));

  }

  lemma ClearKeepsSourced(u: Undo, key: StackKey)
    requires Sourced(u)
    ensures Sourced(ClearRedo(u, key))
  {
    var r, gs := ReplayEvents(NOTHING, u.events), StackAt(u.redo, key);
    ReplayAppend(NOTHING, u.events, Cleared(gs));
    hide ReplayEvents, Cleared;
    forall g | g in StackAt(r.redo, key) ensures exists h :: h in gs && h.groupId == g.groupId { assert g in gs; }
    ReplayCleared(r, key, gs);
    assert Keyed(ClearRedo(u, key));
    hide Keyed;
  }

  lemma RecordKeepsSourced(u: Undo, id: OperationId, principal: string, artifact: Option<string>, freshId: string)
    requires Sourced(u)
    ensures Sourced(RecordOp(u, id, principal, artifact, freshId))
  {
    if u.open.Some? {
      hide ReplayEvents, ClearRedo;
      var o := u.open.value;
      ClearKeepsSourced(u.(open := Some(o.(opIds := o.opIds + [id]))), (principal, o.artifact));
    } else if artifact.Some? {
      hide Sourced, ClearRedo;
      var g := UndoGroup(freshId, [id], principal, artifact.value);
      PushKeepsSourced(u, g, None);
      ClearKeepsSourced(u.(undo := Push(u.undo, g), open := None, events := u.events + [UndoEvent(Created, g)]),
        g.Key());
    }
  }

  lemma PopKeepsKeyed(u: Undo, key: StackKey)
    requires Keyed(u)
    ensures Keyed(PopUndo(u, key).0) && Keyed(PopRedo(u, key).0)
  {
  }

  lemma TopHasKey(u: Undo, key: StackKey)
    requires Keyed(u)
    ensures StackAt(u.undo, key) != [] ==> Last(StackAt(u.undo, key)).Key() == key
    ensures StackAt(u.redo, key) != [] ==> Last(StackAt(u.redo, key)).Key() == key
  {
  }

  lemma PopUndoKeepsSourced(u: Undo, key: StackKey)
    requires Sourced(u)
    ensures Sourced(PopUndo(u, key).0)
  {
    var stack := StackAt(u.undo, key);
    PopKeepsKeyed(u, key);
    TopHasKey(u, key);
    hide ReplayEvents, Keyed;
    if stack != [] {
      ReplayEventsOneMore(u.events, UndoEvent(Undone, Last(stack)));
      var r, u' := ReplayEvents(NOTHING, u.events), PopUndo(u, key).0;
      forall k ensures StackAt(ReplayEvents(NOTHING, u'.events).undo, k) == StackAt(u'.undo, k) {
        assert StackAt(r.undo, k) == StackAt(u.undo, k);
      }
      forall k ensures StackAt(ReplayEvents(NOTHING, u'.events).redo, k) == StackAt(u'.redo, k) {
        assert StackAt(r.redo, k) == StackAt(u.redo, k);
      }
    }
  }

  lemma PopRedoKeepsSourced(u: Undo, key: StackKey)
    requires Sourced(u)
    ensures Sourced(PopRedo(u, key).0)
  {
    var stack := StackAt(u.redo, key);
    PopKeepsKeyed(u, key);
    TopHasKey(u, key);
    hide ReplayEvents, Keyed;
    if stack != [] {
      ReplayEventsOneMore(u.events, UndoEvent(Redone, Last(stack)));
      var r, u' := ReplayEvents(NOTHING, u.events), PopRedo(u, key).0;
      forall k ensures StackAt(ReplayEvents(NOTHING, u'.events).redo, k) == StackAt(u'.redo, k) {
        assert StackAt(r.redo, k) == StackAt(u.redo, k);
      }
      forall k ensures StackAt(ReplayEvents(NOTHING, u'.events).undo, k) == StackAt(u'.undo, k) {
        assert StackAt(r.undo, k) == StackAt(u.undo, k);
      }
    }
  }

  lemma EndKeepsSourced(u: Undo)
    requires Sourced(u)
    ensures Sourced(EndGroup(u))
  {
    if u.open.Some? {
      var o := u.open.value;
      if o.depth == 1 && o.opIds != [] {
        PushKeepsSourced(u, UndoGroup(o.groupId, o.opIds, o.principal, o.artifact), None);
        hide Sourced;
      }
    }
  }

  datatype Command =
    | Begin(principal: string, artifact: string, freshId: string)
    | End
    | Record(id: OperationId, author: string, within: Option<string>, newId: string)
    | UndoLast(key: StackKey)
    | RedoLast(key: StackKey)

  function Exec(u: Undo, c: Command): Undo {
    match c
    case Begin(principal, artifact, freshId) => BeginGroup(u, principal, artifact, freshId)
    case End => EndGroup(u)
    case Record(id, author, within, newId) => RecordOp(u, id, author, within, newId)
    case UndoLast(key) => PopUndo(u, key).0
    case RedoLast(key) => PopRedo(u, key).0
  }

  function ExecAll(u: Undo, cs: seq<Command>): Undo
    decreases |cs|
  {
    if cs == [] then u else ExecAll(Exec(u, cs[0]), cs[1..])
  }

  lemma ExecKeepsSourced(u: Undo, c: Command)
    requires Sourced(u)
    ensures Sourced(Exec(u, c))
  {
    match c
    case Begin(principal, artifact, freshId) => hide ReplayEvents;
    case End => EndKeepsSourced(u);
    case Record(id, author, within, newId) => RecordKeepsSourced(u, id, author, within, newId);
    case UndoLast(key) => PopUndoKeepsSourced(u, key);
    case RedoLast(key) => PopRedoKeepsSourced(u, key);
  }

  /** After any run of commands, replaying the emitted events from nothing gives the undo and
      the redo stack of every key. */
  lemma {:induction false} StacksAreEventSourced(u: Undo, cs: seq<Command>)
    requires Sourced(u)
    ensures Sourced(ExecAll(u, cs))
    ensures forall k :: StackAt(ReplayEvents(NOTHING, ExecAll(u, cs).events).undo, k) == StackAt(ExecAll(u, cs).undo, k)
    ensures forall k :: StackAt(ReplayEvents(NOTHING, ExecAll(u, cs).events).redo, k) == StackAt(ExecAll(u, cs).redo, k)
    decreases |cs|
  {
    hide Exec, ReplayEvents;
    if cs != [] {
      ExecKeepsSourced(u, cs[0]);
      StacksAreEventSourced(Exec(u, cs[0]), cs[1..]);
    }
  }

  // ----- brackets -----

  /** Commands inside an open bracket at nesting depth d that leave it at depth 1. */
  predicate Inside(cs: seq<Command>, d: nat)
    decreases |cs|
  {
    if cs == [] then d == 1
    else match cs[0]
      case Begin(_, _, _) => Inside(cs[1..], d + 1)
      case End => d > 1 && Inside(cs[1..], d - 1)
      case Record(_, _, _, _) => Inside(cs[1..], d)
      case _ => false
  }

  function Recorded(cs: seq<Command>): seq<OperationId>
    decreases |cs|
  {
    if cs == [] then [] else (if cs[0].Record? then [cs[0].id] else []) + Recorded(cs[1..])
  }

  /** The groups announced as created, in order. */
  function CreatedGroups(events: seq<UndoEvent>): seq<UndoGroup> {
    if events == [] then []
    else CreatedGroups(Init(events)) + (if Last(events).kind.Created? then [Last(events).group] else [])
  }

  lemma {:induction false} ClearingCreatesNothing(events: seq<UndoEvent>, gs: seq<UndoGroup>)
    ensures CreatedGroups(events + Cleared(gs)) == CreatedGroups(events)
    decreases |gs|
  {
    if gs == [] {
      assert events + Cleared(gs) == events;
    } else {
      var all := events + Cleared(gs);
      assert Init(all) == events + Cleared(Init(gs));
      ClearingCreatesNothing(events, Init(gs));
    }
  }

  lemma {:induction false} InsideBracket(u: Undo, cs: seq<Command>, o: OpenGroup)
    requires u.open == Some(o) && Inside(cs, o.depth)
    ensures var u' := ExecAll(u, cs);
      && u'.open == Some(o.(opIds := o.opIds + Recorded(cs), depth := 1))
      && u'.undo == u.undo
      && CreatedGroups(u'.events) == CreatedGroups(u.events)
    decreases |cs|
  {
    if cs == [] {
      assert o.opIds + Recorded(cs) == o.opIds;
    } else {
      var u1 := Exec(u, cs[0]);
      hide CreatedGroups, Cleared;
      if cs[0].Record? {
        ClearingCreatesNothing(u.events, StackAt(u.redo, (cs[0].author, o.artifact)));
        assert o.opIds + [cs[0].id] + Recorded(cs[1..]) == o.opIds + Recorded(cs);
      } else {
        assert Recorded(cs) == [] + Recorded(cs[1..]) == Recorded(cs[1..]);
      }
      InsideBracket(u1, cs[1..], u1.open.value);
    }
  }

  /** An outermost bracket, however nested inside, makes one group of the operations recorded in
      it, in order, and none when nothing was recorded. */
  lemma BracketMakesOneGroup(u: Undo, principal: string, artifact: string, freshId: string, cs: seq<Command>)
    requires u.open.None? && Inside(cs, 1)
    ensures var u' := EndGroup(ExecAll(BeginGroup(u, principal, artifact, freshId), cs));
      var made := if Recorded(cs) == [] then [] else [UndoGroup(freshId, Recorded(cs), principal, artifact)];
      && u'.open.None?
      && CreatedGroups(u'.events) == CreatedGroups(u.events) + made
      && (forall k :: StackAt(u'.undo, k) == StackAt(u.undo, k) + if k == (principal, artifact) then made else [])
  {
    var o := OpenGroup(freshId, [], principal, artifact, 1);
    var u1 := BeginGroup(u, principal, artifact, freshId);
    InsideBracket(u1, cs, o);
    hide ExecAll, Recorded, Inside, CreatedGroups;
    var u2 := ExecAll(u1, cs);
    assert [] + Recorded(cs) == Recorded(cs);
    OutermostEnd(u2, OpenGroup(freshId, Recorded(cs), principal, artifact, 1));
  }

  lemma OutermostEnd(u: Undo, o: OpenGroup)
    requires u.open == Some(o) && o.depth == 1
    ensures var u' := EndGroup(u);
      var made := if o.opIds == [] then [] else [UndoGroup(o.groupId, o.opIds, o.principal, o.artifact)];
      && u'.open.None?
      && CreatedGroups(u'.events) == CreatedGroups(u.events) + made
      && (forall k :: StackAt(u'.undo, k) == StackAt(u.undo, k) + if k == (o.principal, o.artifact) then made else [])
  {
    if o.opIds == [] {
      assert CreatedGroups(u.events) + [] == CreatedGroups(u.events);
      assert forall k :: StackAt(u.undo, k) + [] == StackAt(u.undo, k);
    } else {
      var e := UndoEvent(Created, UndoGroup(o.groupId, o.opIds, o.principal, o.artifact));
      assert Init(u.events + [e]) == u.events;
    }
  }

  // ----- the object -----

  class UndoManager {
    var undoStacks: Stacks
    var redoStacks: Stacks
    var currentGroup: Option<string>
    var currentGroupOps: seq<OperationId>
    var currentGroupPrincipal: Option<string>
    var currentGroupArtifact: Option<string>
    var groupDepth: int
    var delivered: seq<UndoEvent>  // everything the callback's journal holds

    ghost predicate Valid()
      reads this
    {
      currentGroup.Some? ==> currentGroupPrincipal.Some? && currentGroupArtifact.Some? && groupDepth >= 1
    }

    function View(): Undo
      reads this
    {
      Undo(undoStacks, redoStacks,
           if currentGroup.Some? && currentGroupPrincipal.Some? && currentGroupArtifact.Some? && groupDepth >= 1
           then Some(OpenGroup(currentGroup.value, currentGroupOps, currentGroupPrincipal.value,
             currentGroupArtifact.value, groupDepth))
           else None,
           delivered)
    }

    /** `sink` is what the callback's journal already holds. */
    constructor (sink: seq<UndoEvent>)
      ensures Valid() && View() == NO_UNDO.(events := sink)
    {
      undoStacks, redoStacks, delivered := map[], map[], sink;
      currentGroup, currentGroupOps, currentGroupPrincipal, currentGroupArtifact, groupDepth := None, [], None, None, 0;
    }

    method Emit(e: UndoEvent)
      modifies this`delivered
      ensures delivered == old(delivered) + [e]
    {
      delivered := delivered + [e];
    }

    method Begin(principal: string, artifact: string, freshId: string) returns (groupId: string)
      requires Valid()
      modifies this
      ensures Valid() && View() == BeginGroup(old(View()), principal, artifact, freshId)
      ensures groupId == View().open.value.groupId
    {
      if currentGroup.Some? {
        groupDepth := groupDepth + 1;
        return currentGroup.value;
      }
      groupId := freshId;
      currentGroup, currentGroupOps := Some(groupId), [];
      currentGroupPrincipal, currentGroupArtifact := Some(principal), Some(artifact);
      groupDepth := 1;
    }

    method End()
      requires Valid()
      modifies this
      ensures Valid() && View() == EndGroup(old(View()))
    {
      if currentGroup.None? {
        return;
      }
      groupDepth := groupDepth - 1;
      if groupDepth > 0 {
        return;
      }
      if currentGroupOps != [] {
        var g := UndoGroup(currentGroup.value, currentGroupOps, currentGroupPrincipal.value,
          currentGroupArtifact.value);
        undoStacks := Push(undoStacks, g);
        Emit(UndoEvent(Created, g));
      }
      currentGroup, currentGroupOps, currentGroupPrincipal, currentGroupArtifact := None, [], None, None;
    }

    method Record(id: OperationId, principal: string, artifact: Option<string>, freshId: string)
      requires Valid()
      modifies this
      ensures Valid() && View() == RecordOp(old(View()), id, principal, artifact, freshId)
    {
      if currentGroup.Some? {
        currentGroupOps := currentGroupOps + [id];
        DropRedo((principal, currentGroupArtifact.value));
      } else {
        if artifact.None? {
          return;
        }
        var g := UndoGroup(freshId, [id], principal, artifact.value);
        undoStacks := Push(undoStacks, g);
        Emit(UndoEvent(Created, g));
        DropRedo((principal, artifact.value));
      }
    }

    method DropRedo(key: StackKey)
      requires Valid()
      modifies this`redoStacks, this`delivered
      ensures Valid() && View() == ClearRedo(old(View()), key)
    {
      var cleared := StackAt(redoStacks, key);
      redoStacks := redoStacks - {key};
      ghost var before := delivered;
      assert Cleared([]) == [];
      for i := 0 to |cleared|
        invariant delivered == before + Cleared(cleared[..i])
        invariant redoStacks == old(redoStacks) - {key}
      {
        assert Cleared(cleared[..i + 1]) == Cleared(cleared[..i]) + [UndoEvent(RedoCleared, cleared[i])];
        Emit(UndoEvent(RedoCleared, cleared[i]));
      }
      assert cleared[..|cleared|] == cleared;
    }

    method PopUndoGroup(key: StackKey) returns (r: Option<UndoGroup>)
      requires Valid()
      modifies this
      ensures Valid() && (View(), r) == PopUndo(old(View()), key)
    {
      var stack := StackAt(undoStacks, key);
      if stack == [] {
        return None;
      }
      var g := Last(stack);
      undoStacks := undoStacks[key := Init(stack)];
      redoStacks := redoStacks[key := StackAt(redoStacks, key) + [g]];
      Emit(UndoEvent(Undone, g));
      r := Some(g);
    }

    method PopRedoGroup(key: StackKey) returns (r: Option<UndoGroup>)
      requires Valid()
      modifies this
      ensures Valid() && (View(), r) == PopRedo(old(View()), key)
    {
      var stack := StackAt(redoStacks, key);
      if stack == [] {
        return None;
      }
      var g := Last(stack);
      redoStacks := redoStacks[key := Init(stack)];
      undoStacks := undoStacks[key := StackAt(undoStacks, key) + [g]];
      Emit(UndoEvent(Redone, g));
      r := Some(g);
    }

    /** replay_events: emits nothing. */
    method Rebuild(events: seq<UndoEvent>)
      requires Valid()
      modifies this`undoStacks, this`redoStacks
      ensures Valid()
      ensures Rebuilt(undoStacks, redoStacks) == ReplayEvents(old(Rebuilt(undoStacks, redoStacks)), events)
    {
      for i := 0 to |events|
        invariant ReplayEvents(Rebuilt(undoStacks, redoStacks), events[i..]) ==
          ReplayEvents(old(Rebuilt(undoStacks, redoStacks)), events)
      {
        var r := ReplayEvent(Rebuilt(undoStacks, redoStacks), events[i]);
        undoStacks, redoStacks := r.undo, r.redo;
      }
    }
  }

  // ----- ids on the stacks -----

  ghost predicate StackIdsIn(m: Stacks, known: set<OperationId>) {
    forall k, i, j {:trigger m[k][i].opIds[j]} ::
      k in m && 0 <= i < |m[k]| && 0 <= j < |m[k][i].opIds| ==> m[k][i].opIds[j] in known
  }

  /** Every operation id on a stack, or waiting in the open group, is a known one. */
  ghost predicate UndoIdsIn(u: Undo, known: set<OperationId>) {
    && StackIdsIn(u.undo, known) && StackIdsIn(u.redo, known)
    && (u.open.Some? ==> forall j :: 0 <= j < |u.open.value.opIds| ==> u.open.value.opIds[j] in known)
  }

  lemma MoreKnown(u: Undo, known: set<OperationId>, more: set<OperationId>)
    requires UndoIdsIn(u, known) && known <= more
    ensures UndoIdsIn(u, more)
  {
  }

  lemma PushKnown(m: Stacks, g: UndoGroup, known: set<OperationId>)
    requires StackIdsIn(m, known) && forall j :: 0 <= j < |g.opIds| ==> g.opIds[j] in known
    ensures StackIdsIn(Push(m, g), known)
  {
  }

  lemma RecordKnown(u: Undo, id: OperationId, principal: string, artifact: Option<string>, freshId: string,
                    known: set<OperationId>)
    requires UndoIdsIn(u, known) && id in known
    ensures UndoIdsIn(RecordOp(u, id, principal, artifact, freshId), known)
  {
    if u.open.None? && artifact.Some? {
      var g := UndoGroup(freshId, [id], principal, artifact.value);
      PushKnown(u.undo, g, known);
      hide Push;
    }
  }

  lemma EndKnown(u: Undo, known: set<OperationId>)
    requires UndoIdsIn(u, known)
    ensures UndoIdsIn(EndGroup(u), known)
  {
    if u.open.Some? {
      var o := u.open.value;
      PushKnown(u.undo, UndoGroup(o.groupId, o.opIds, o.principal, o.artifact), known);
      hide Push;
    }
  }

  lemma PopKnown(u: Undo, key: StackKey, known: set<OperationId>)
    requires UndoIdsIn(u, known)
    ensures UndoIdsIn(PopUndo(u, key).0, known) && UndoIdsIn(PopRedo(u, key).0, known)
  {
  }
}
