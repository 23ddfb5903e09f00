/** The append-only, content-addressed log: src/uaf/db/operation_log.py. */
module OperationLogs {
  import opened Collections
  import opened JsonValues
  import opened Operations
  import opened Graphs

  datatype Entry = Entry(id: OperationId, op: Operation)

  datatype LogError = InvalidParent | DuplicateOperation

  function Ids(log: seq<Entry>): set<OperationId> {
    set i | 0 <= i < |log| :: log[i].id
  }

  function NewEntry(op: Operation): Entry {
    Entry(ComputeOperationId(op), op)
  }

  function IdsFrom(log: seq<Entry>, start: nat): (r: seq<OperationId>)
    requires start <= |log|
    ensures |r| == |log| - start
    ensures forall j :: 0 <= j < |r| ==> r[j] == log[start + j].id
  {
    seq(|log| - start, j requires 0 <= j < |log| - start => log[start + j].id)
  }

  /** The log has grown by the entries with these ids. */
  ghost predicate Appended(before: seq<Entry>, log: seq<Entry>, ids: seq<OperationId>) {
    |before| <= |log| && log[..|before|] == before && ids == IdsFrom(log, |before|)
  }

  lemma AppendedNone(log: seq<Entry>)
    ensures Appended(log, log, [])
  {
  }

  lemma AppendedNext(before: seq<Entry>, log: seq<Entry>, ids: seq<OperationId>, e: Entry)
    requires Appended(before, log, ids)
    ensures Appended(before, log + [e], ids + [e.id])
  {
  }

  lemma AppendedChain(a: seq<Entry>, b: seq<Entry>, c: seq<Entry>, ids: seq<OperationId>, more: seq<OperationId>)
    requires Appended(a, b, ids) && Appended(b, c, more)
    ensures Appended(a, c, ids + more)
  {
    assert c[..|a|] == c[..|b|][..|a|];
    assert forall j :: |a| <= j < |b| ==> c[j] == c[..|b|][j];
  }

  /** The two validations of append, in its order. */
  function Rejection(log: seq<Entry>, op: Operation): Option<LogError> {
    if exists p :: p in op.parentOps && p !in Ids(log) then Some(InvalidParent)
    else if ComputeOperationId(op) in Ids(log) then Some(DuplicateOperation)
    else None
  }

  /** An unknown parent is reported first, whatever the id; a present id is reported next; anything
      else is taken. */
  lemma RejectionMeaning(log: seq<Entry>, op: Operation)
    ensures var orphan := exists p :: p in op.parentOps && forall i :: 0 <= i < |log| ==> log[i].id != p;
      var twice := exists i :: 0 <= i < |log| && log[i].id == ComputeOperationId(op);
      && (Rejection(log, op) == Some(InvalidParent) <==> orphan)
      && (Rejection(log, op) == Some(DuplicateOperation) <==> !orphan && twice)
      && (Rejection(log, op) == None <==> !orphan && !twice)
  {
    hide ComputeOperationId;
    forall p ensures p in Ids(log) <==> exists i :: 0 <= i < |log| && log[i].id == p {}
  }

  /** Everything append establishes: ids are content hashes, no entry occurs twice, and every
      parent reference points to a strictly earlier entry. */
  ghost predicate ValidLog(log: seq<Entry>) {
    && (forall i :: 0 <= i < |log| ==> log[i].id == ComputeOperationId(log[i].op))
    && (forall i, j :: 0 <= i < j < |log| ==> log[i].id != log[j].id)
    && (forall i, p :: 0 <= i < |log| && p in log[i].op.parentOps ==> p in Ids(log[..i]))
  }

  lemma AppendKeepsValid(log: seq<Entry>, op: Operation)
    requires ValidLog(log) && Rejection(log, op).None?
    ensures ValidLog(log + [NewEntry(op)])
  {
    hide ComputeOperationId;
    var log' := log + [NewEntry(op)];
    forall i, p | 0 <= i < |log'| && p in log'[i].op.parentOps ensures p in Ids(log'[..i]) {
      assert log'[..i] == log[..i];
      assert log[..|log|] == log;
    }
  }

  /** Position of an entry by id, |log| when absent. */
  function Position(log: seq<Entry>, id: OperationId): (i: nat)
    ensures i <= |log|
    ensures i < |log| <==> id in Ids(log)
    ensures i < |log| ==> log[i].id == id
  {
    if log == [] then 0
    else if log[0].id == id then 0
    else
      assert forall j :: 0 <= j < |log| - 1 ==> log[1..][j] == log[j + 1];
      1 + Position(log[1..], id)
  }

  function Lookup(log: seq<Entry>, id: OperationId): Option<Entry> {
    var i := Position(log, id);
    if i < |log| then Some(log[i]) else None
  }

  /** The edges of the operation DAG, from an operation to its parents. */
  function ParentGraph(log: seq<Entry>): Graph<OperationId> {
    map id | id in Ids(log) :: log[Position(log, id)].op.parentOps
  }

  lemma PositionOfEntry(log: seq<Entry>, i: nat)
    requires ValidLog(log) && i < |log|
    ensures Position(log, log[i].id) == i
  {
    hide ComputeOperationId;
    assert log[i].id in Ids(log);
  }

  /** Operations that some operation names as a parent. */
  function Referenced(log: seq<Entry>): set<OperationId> {
    set i, p | 0 <= i < |log| && p in log[i].op.parentOps :: p
  }

  function Heads(log: seq<Entry>): set<OperationId> {
    Ids(log) - Referenced(log)
  }

  /** Parents are strictly earlier: the reference from an entry leads to a smaller position. */
  lemma ParentIsEarlier(log: seq<Entry>, i: nat, p: OperationId)
    requires ValidLog(log) && i < |log| && p in log[i].op.parentOps
    ensures p in Ids(log) && Position(log, p) < i
  {
    hide ComputeOperationId;
    assert p in Ids(log[..i]);
    var j :| 0 <= j < i && log[..i][j].id == p;
    PositionOfEntry(log, j);
  }

  /** The log is a DAG. */
  lemma LogIsAcyclic(log: seq<Entry>)
    requires ValidLog(log)
    ensures Acyclic(ParentGraph(log))
  {
    hide ComputeOperationId;
    var g := ParentGraph(log);
    forall p | IsPath(g, p) && |p| >= 2 ensures p[0] != Last(p) {
      WalkGoesBack(log, p);
    }
  }

  lemma {:induction false} WalkGoesBack(log: seq<Entry>, p: seq<OperationId>)
    requires ValidLog(log) && IsPath(ParentGraph(log), p) && |p| >= 2
    ensures Last(p) in Ids(log) && Position(log, Last(p)) < Position(log, p[0])
    decreases |p|
  {
    hide ComputeOperationId;
    var g := ParentGraph(log);
    var a, b := p[|p| - 2], p[|p| - 1];
    assert b in Succ(g, a);
    ParentIsEarlier(log, Position(log, a), b);
    if |p| > 2 {
      var q := Init(p);
      assert IsPath(g, q) by {
        forall i | 0 <= i < |q| - 1 ensures q[i + 1] in Succ(g, q[i]) { assert p[i + 1] in Succ(g, p[i]); }
      }
      WalkGoesBack(log, q);
    }
  }

  /** The operation appended last is always a head. */
  lemma NewestIsHead(log: seq<Entry>)
    requires ValidLog(log) && log != []
    ensures Last(log).id in Heads(log)
  {
    hide ComputeOperationId;
    var id := Last(log).id;
    assert log[|log| - 1].id in Ids(log);
    PositionOfEntry(log, |log| - 1);
    if id in Referenced(log) {
      var i :| 0 <= i < |log| && id in log[i].op.parentOps;
      ParentIsEarlier(log, i, id);
    }
  }

  /** Following children forward from any entry ends at a head: together the heads' ancestors
      are the whole log. */
  lemma {:induction false} HeadsCoverLog(log: seq<Entry>, i: nat) returns (head: OperationId)
    requires ValidLog(log) && i < |log|
    ensures head in Heads(log) && Reaches(ParentGraph(log), head, log[i].id)
    decreases |log| - i
  {
    hide ComputeOperationId;
    var g, id := ParentGraph(log), log[i].id;
    if id in Referenced(log) {
      var j :| 0 <= j < |log| && id in log[j].op.parentOps;
      ParentIsEarlier(log, j, id);
      PositionOfEntry(log, i);
      PositionOfEntry(log, j);
      head := HeadsCoverLog(log, j);
      ReachesStep(g, head, log[j].id, id);
    } else {
      head := id;
      ReachesSelf(g, id);
    }
  }

  class OperationLog {
    var entries: seq<Entry>
    var index: map<OperationId, Entry>
    var referencedAsParent: set<OperationId>

    ghost predicate Valid()
      reads this
    {
      && ValidLog(entries)
      && index.Keys == Ids(entries)
      && (forall i :: 0 <= i < |entries| ==> index[entries[i].id] == entries[i])
      && referencedAsParent == Referenced(entries)
    }

    constructor ()
      ensures Valid() && entries == []
    {
      entries, index, referencedAsParent := [], map[], {};
    }

    method Append(op: Operation) returns (r: Result<OperationId, LogError>)
      requires Valid()
      modifies this
      ensures Valid()
      ensures r == match Rejection(old(entries), op) case Some(e) => Err(e) case None => Ok(ComputeOperationId(op))
      ensures entries == if r.Ok? then old(entries) + [NewEntry(op)] else old(entries)
    {
      hide ComputeOperationId, ValidLog, Referenced;
      for i := 0 to |op.parentOps|
        invariant forall j :: 0 <= j < i ==> op.parentOps[j] in index
      {
        if op.parentOps[i] !in index {
          return Err(InvalidParent);
        }
      }
      var opId := ComputeOperationId(op);
      if opId in index {
        return Err(DuplicateOperation);
      }
      AppendKeepsValid(entries, op);
      IdsAppend(entries, Entry(opId, op));
      ReferencedAppend(entries, Entry(opId, op));
      entries := entries + [Entry(opId, op)];
      index := index[opId := Entry(opId, op)];
      referencedAsParent := referencedAsParent + set p | p in op.parentOps;
      r := Ok(opId);
    }

    function GetEntry(id: OperationId): (r: Option<Entry>)
      requires Valid()
      reads this
      ensures r == Lookup(entries, id)
    {
      if id in index then
        assert index[id] == entries[Position(entries, id)];
        Some(index[id])
      else None
    }

    function HeadIds(): (r: set<OperationId>)
      requires Valid()
      reads this
      ensures r == Heads(entries)
    {
      index.Keys - referencedAsParent
    }

    /** Everything the entry can reach through parent references, each exactly once. */
    method Ancestors(id: OperationId) returns (result: seq<Entry>)
      requires Valid()
      ensures forall i, j :: 0 <= i < j < |result| ==> result[i].id != result[j].id
      ensures forall e :: e in result ==> e in entries
      ensures forall n :: n in Ids(result) <==> n in Ids(entries) && Reaches(ParentGraph(entries), id, n)
    {
      hide ComputeOperationId, ValidLog;
      ghost var g := ParentGraph(entries);
      result := [];
      var visited: set<OperationId> := {};
      var stack := [id];
      WalkStart(g, id);
      while stack != []
        invariant WalkInvariant(g, id, visited, stack)
        invariant Collected(entries, visited, result)
        decreases Vertices(g) + {id} - visited, |stack|
      {
        hide ComputeOperationId, WalkInvariant, Reaches, ParentGraph, Vertices, Lookup, ValidLog, Collected, Ids,
          Unvisited;
        var current := Last(stack);
        if current in visited {
          WalkSkip(g, id, visited, stack);
          stack := Init(stack);
        } else {
          WalkStackInside(g, id, visited, stack);
          var entry := GetEntry(current);
          var pushed := [];
          if entry.Some? {
            EntryOf(entries, current);
            CollectNew(entries, visited, result, entry.value);
            pushed := Unvisited(entry.value.op.parentOps, visited + {current});
            result := result + [entry.value];
          } else {
            NotLogged(entries, current);
            CollectNothing(entries, visited, result, current);
          }
          WalkVisit(g, id, visited, stack, pushed);
          visited := visited + {current};
          stack := Init(stack) + pushed;
        }
      }
      WalkEnd(g, id, visited);
    }
  }

  /** `[p for p in parents if p not in visited]`: what the inner loop of ancestors pushes. */
  function Unvisited(parents: seq<OperationId>, visited: set<OperationId>): (r: seq<OperationId>)
    ensures forall p :: p in r <==> p in parents && p !in visited
  {
    if parents == [] then []
    else (if parents[0] in visited then [] else [parents[0]]) + Unvisited(parents[1..], visited)
  }

  /** The result lists, once each, the logged entries among the visited ids. */
  ghost predicate Collected(log: seq<Entry>, visited: set<OperationId>, result: seq<Entry>) {
    && Ids(result) == visited * Ids(log)
    && (forall i, j :: 0 <= i < j < |result| ==> result[i].id != result[j].id)
    && (forall e :: e in result ==> e in log)
  }

  lemma CollectNew(log: seq<Entry>, visited: set<OperationId>, result: seq<Entry>, e: Entry)
    requires Collected(log, visited, result) && e in log && e.id in Ids(log) && e.id !in visited
    ensures Collected(log, visited + {e.id}, result + [e])
  {
    IdsAppend(result, e);
    forall i | 0 <= i < |result| ensures result[i].id != e.id { assert result[i].id in Ids(result); }
  }

  lemma CollectNothing(log: seq<Entry>, visited: set<OperationId>, result: seq<Entry>, id: OperationId)
    requires Collected(log, visited, result) && id !in Ids(log)
    ensures Collected(log, visited + {id}, result)
  {
  }

  lemma IdsAppend(log: seq<Entry>, e: Entry)
    ensures Ids(log + [e]) == Ids(log) + {e.id}
  {
    var log' := log + [e];
    assert forall i :: 0 <= i < |log| ==> log'[i] == log[i];
    assert log'[|log|].id in Ids(log');
    forall id | id in Ids(log) ensures id in Ids(log') {
      var i :| 0 <= i < |log| && log[i].id == id;
      assert log'[i].id in Ids(log');
    }
  }

  lemma ReferencedAppend(log: seq<Entry>, e: Entry)
    ensures Referenced(log + [e]) == Referenced(log) + set p | p in e.op.parentOps
  {
    var log' := log + [e];
    forall p | p in Referenced(log) ensures p in Referenced(log') {
      var i :| 0 <= i < |log| && p in log[i].op.parentOps;
      assert p in log'[i].op.parentOps;
    }
    forall p | p in e.op.parentOps ensures p in Referenced(log') {
      assert p in log'[|log|].op.parentOps;
    }
  }

  lemma EntryOf(log: seq<Entry>, id: OperationId)
    requires Lookup(log, id).Some?
    ensures var e := Lookup(log, id).value;
      e in log && e.id == id && id in Ids(log) && Succ(ParentGraph(log), id) == e.op.parentOps
  {
  }

  lemma NotLogged(log: seq<Entry>, id: OperationId)
    requires Lookup(log, id).None?
    ensures id !in Ids(log) && Succ(ParentGraph(log), id) == []
  {
  }
}
