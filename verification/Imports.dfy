/** What importing a journal does to any log, line by line: src/uaf/db/bundle.py. */
module Imports {
  import opened Collections
  import opened JsonValues
  import opened Operations
  import opened OperationLogs
  import opened Bundles

  /** The log has the operation: its parents and itself are known. */
  ghost predicate Known(log: seq<Entry>, op: Operation) {
    && (forall p :: p in op.parentOps ==> exists i :: 0 <= i < |log| && log[i].id == p)
    && exists i :: 0 <= i < |log| && log[i].id == ComputeOperationId(op)
  }

  /** Every line is an operation the log has. */
  ghost predicate AllKnown(log: seq<Entry>, lines: seq<Json>) {
    forall i :: 0 <= i < |lines| ==> OperationFromJson(lines[i]).Some? && Known(log, OperationFromJson(lines[i]).value)
  }

  lemma KnownLonger(log: seq<Entry>, more: seq<Entry>, op: Operation)
    requires log <= more && Known(log, op)
    ensures Known(more, op)
  {
    hide ComputeOperationId;
    forall p | p in op.parentOps ensures exists i :: 0 <= i < |more| && more[i].id == p {
      var i :| 0 <= i < |log| && log[i].id == p;
      assert more[i].id == p;
    }
    var i :| 0 <= i < |log| && log[i].id == ComputeOperationId(op);
    assert more[i].id == ComputeOperationId(op);
  }

  lemma KnownIffDuplicate(log: seq<Entry>, op: Operation)
    ensures Known(log, op) <==> Rejection(log, op) == Some(DuplicateOperation)
  {
    RejectionMeaning(log, op);
    hide ComputeOperationId, Rejection;
  }

  lemma TakenIsKnown(log: seq<Entry>, op: Operation)
    requires Rejection(log, op).None?
    ensures Known(log + [NewEntry(op)], op)
  {
    RejectionMeaning(log, op);
    hide ComputeOperationId, Rejection;
    var more := log + [NewEntry(op)];
    forall p | p in op.parentOps ensures exists i :: 0 <= i < |more| && more[i].id == p {
      var i :| 0 <= i < |log| && log[i].id == p;
      assert more[i].id == p;
    }
    assert more[|log|].id == ComputeOperationId(op);
  }

  /** One line: taken when new, skipped when known, otherwise the end of the import. */
  lemma ImportLine(log: seq<Entry>, lines: seq<Json>)
    requires lines != []
    ensures var op, r := OperationFromJson(lines[0]), Import(log, lines);
      if op.None? then r == Imported(log, Some(Malformed))
      else if Rejection(log, op.value).None? then r == Import(log + [NewEntry(op.value)], lines[1..])
      else if Rejection(log, op.value) == Some(DuplicateOperation) then r == Import(log, lines[1..])
      else r == Imported(log, Some(Rejected(InvalidParent)))
  {
    hide OperationFromJson, Rejection, NewEntry, ComputeOperationId;
    match OperationFromJson(lines[0])
    case None =>
    case Some(op) =>
      match Rejection(log, op)
      case None =>
      case Some(DuplicateOperation) =>
      case Some(InvalidParent) =>
  }

  /** The entry was made from some line. */
  ghost predicate FromLine(e: Entry, lines: seq<Json>) {
    exists i :: 0 <= i < |lines| && OperationFromJson(lines[i]) == Some(e.op)
  }

  /** An import only appends entries made from its lines; when it ends without an error the log has
      every line's operation, each once. */
  lemma {:induction false} ImportAppends(log: seq<Entry>, lines: seq<Json>)
    requires ValidLog(log)
    ensures var r := Import(log, lines);
      && log <= r.log && ValidLog(r.log)
      && (forall j :: |log| <= j < |r.log| ==> FromLine(r.log[j], lines))
      && (r.error.None? ==> AllKnown(r.log, lines))
    decreases |lines|
  {
    hide OperationFromJson, Rejection, ComputeOperationId, ValidLog, Known, FromLine, Import;
    if lines == [] {
      assert Import(log, lines) == Imported(log, None) by { ImportNothing(log); }
    } else {
      ImportLine(log, lines);
      var op, rest, r := OperationFromJson(lines[0]), lines[1..], Import(log, lines);
      if op.Some? && (Rejection(log, op.value).None? || Rejection(log, op.value) == Some(DuplicateOperation)) {
        var next := if Rejection(log, op.value).None? then log + [NewEntry(op.value)] else log;
        NextKnown(log, op.value, next);
        ImportAppends(next, rest);
        KnownLonger(next, r.log, op.value);
        KnownFirst(r.log, lines);
        forall j | |log| <= j < |r.log| ensures FromLine(r.log[j], lines) {
          if j < |next| { NewFromLine(op.value, lines); } else { FromLaterLine(r.log[j], lines); }
        }
      }
    }
  }

  lemma ImportNothing(log: seq<Entry>)
    ensures Import(log, []) == Imported(log, None)
  {
  }

  lemma NextKnown(log: seq<Entry>, op: Operation, next: seq<Entry>)
    requires ValidLog(log)
    requires (Rejection(log, op).None? && next == log + [NewEntry(op)])
      || (Rejection(log, op) == Some(DuplicateOperation) && next == log)
    ensures ValidLog(next) && Known(next, op)
  {
    hide Rejection, ComputeOperationId, ValidLog, Known;
    if Rejection(log, op).None? {
      AppendKeepsValid(log, op);
      TakenIsKnown(log, op);
    } else {
      KnownIffDuplicate(log, op);
    }
  }

  lemma KnownFirst(log: seq<Entry>, lines: seq<Json>)
    requires lines != [] && OperationFromJson(lines[0]).Some? && Known(log, OperationFromJson(lines[0]).value)
    ensures AllKnown(log, lines) <==> AllKnown(log, lines[1..])
  {
    hide OperationFromJson, Known;
    var rest := lines[1..];
    if AllKnown(log, rest) {
      forall i | 0 <= i < |lines|
        ensures OperationFromJson(lines[i]).Some? && Known(log, OperationFromJson(lines[i]).value)
      {
        assert i > 0 ==> lines[i] == rest[i - 1];
      }
    }
    if AllKnown(log, lines) {
      forall i | 0 <= i < |rest|
        ensures OperationFromJson(rest[i]).Some? && Known(log, OperationFromJson(rest[i]).value)
      {
        assert rest[i] == lines[i + 1];
      }
    }
  }

  lemma NewFromLine(op: Operation, lines: seq<Json>)
    requires lines != [] && OperationFromJson(lines[0]) == Some(op)
    ensures FromLine(NewEntry(op), lines)
  {
    hide OperationFromJson, ComputeOperationId;
  }

  lemma FromLaterLine(e: Entry, lines: seq<Json>)
    requires lines != [] && FromLine(e, lines[1..])
    ensures FromLine(e, lines)
  {
    hide OperationFromJson;
    var i :| 0 <= i < |lines[1..]| && OperationFromJson(lines[1..][i]) == Some(e.op);
    assert lines[1..][i] == lines[i + 1];
  }

  /** Lines the log already has change nothing. */
  lemma {:induction false} KnownLinesAreSkipped(log: seq<Entry>, lines: seq<Json>)
    ensures Import(log, lines) == Imported(log, None) <== AllKnown(log, lines)
    decreases |lines|
  {
    hide OperationFromJson, Rejection, ComputeOperationId, Known;
    if AllKnown(log, lines) && lines != [] {
      ImportLine(log, lines);
      KnownIffDuplicate(log, OperationFromJson(lines[0]).value);
      KnownFirst(log, lines);
      KnownLinesAreSkipped(log, lines[1..]);
    }
  }

  /** Importing the same journal again changes nothing and reports nothing. */
  lemma ImportTwice(log: seq<Entry>, lines: seq<Json>)
    requires ValidLog(log) && Import(log, lines).error.None?
    ensures Import(Import(log, lines).log, lines) == Imported(Import(log, lines).log, None)
  {
    hide OperationFromJson, ComputeOperationId, ValidLog, AllKnown, Import;
    ImportAppends(log, lines);
    KnownLinesAreSkipped(Import(log, lines).log, lines);
  }

  /** Some parent of the operation is unknown. */
  ghost predicate Orphan(log: seq<Entry>, op: Operation) {
    exists p :: p in op.parentOps && forall k :: 0 <= k < |log| ==> log[k].id != p
  }

  /** An import fails at its first line that is no operation or names an unknown parent, keeping what
      came before. */
  lemma {:induction false} ImportFailsAt(log: seq<Entry>, lines: seq<Json>) returns (i: nat)
    requires Import(log, lines).error.Some?
    ensures i < |lines| && Import(log, lines[..i]) == Imported(Import(log, lines).log, None)
    ensures var r, op := Import(log, lines), OperationFromJson(lines[i]);
      && (op.None? ==> r.error == Some(Malformed))
      && (op.Some? ==> r.error == Some(Rejected(InvalidParent)) && Orphan(r.log, op.value))
    decreases |lines|
  {
    hide OperationFromJson, Rejection, ComputeOperationId, Import;
    if lines == [] {
      ImportNothing(log);
    } else {
      ImportLine(log, lines);
      ImportNothing(log);
      var op := OperationFromJson(lines[0]);
      if op.Some? { RejectionMeaning(log, op.value); }
      if op.Some? && (Rejection(log, op.value).None? || Rejection(log, op.value) == Some(DuplicateOperation)) {
        var next := if Rejection(log, op.value).None? then log + [NewEntry(op.value)] else log;
        var j := ImportFailsAt(next, lines[1..]);
        i := j + 1;
        ImportLine(log, lines[..i]);
        assert lines[..i][1..] == lines[1..][..j] && lines[1..][j] == lines[i];
      } else {
        i := 0;
        assert lines[..0] == [];
      }
    }
  }
}
