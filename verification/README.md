# Verified model of UAF's graph database and lenses

UAF keeps documents, sheets and task lists in one graph. Every change is an operation in an append-only,
content-addressed log; everything else (nodes, edges, ordered child lists, four sorted indexes, undo stacks) is
derived from it. These Dafny modules model that machinery and the lens code that depends on it, and prove that the
fast or derived forms agree with simpler ones.

`dafny verify dfyconfig.toml` checks the whole project.

## Reading guide

- `JsonValues`, `Nodes`, `Serialization`, `Operations`, `Documents`: values, their encoding key by key, and
  content-derived operation ids.
- `Graphs`, `OperationLogs`: reachability, and the log as a directed acyclic graph.
- `Materializer`, `Inverses`, `UndoManagers`, `Eavt`, `Indexing`, `NodeAttributes`, `Queries`: state, compensating
  operations, undo stacks, the index and its queries. Each object that changes in place is a class whose methods are
  proved against a function on values; the theorems are about those functions, and what such a function is to mean is
  stated apart from it: by log index, by key, by row and column, by stored edge or by box.
- `GraphDbs`, `UndoHistory`, `JournaledGraphDbs`: the database, undo and redo over whole runs, crash recovery.
- `Bundles`, `Imports`, `FullBundles`, `Reverts`: export and import, and revert to a point in time.
- `DocEdits`, `FlowLens`, `FlowEffects`, `TaskOrders`, `Grids`, `GridLens`, `SheetEdits`, `Recalculation`: compound
  edits of the lenses; `Stamps`: when and by whom operations are issued.
- `PdfText`, `DocText`, `DisplayText`: character offsets from a PDF block to the rendered lines.
- `Witnesses`: small concrete histories on which the properties below fail.

Conventions. An operation id is an injective image of the encoded operation. `utc_now` is a counter that increases
with every call. Ids drawn from a random generator are parameters. Child lists are compared with a missing list read
as empty. A set that Python iterates in an unspecified order is either a sequence parameter (any enumeration) or is
taken apart by nondeterministic choice. Lens actions are treated as permitted. A lens that computes all its operations
from the state it starts in is modelled as a plan followed by a run of that plan.

## What the proofs found

The code does not always keep what one would expect; each case has its exact condition.

- Undo of the first move of a node looks up the parent that lists it now, so it does not move it back. Undo of a bare
  node deletion does not restore list membership (`Inverses.UndoIsExactIff`, `Witnesses.FirstMoveStays`,
  `Witnesses.DeletedIsNotListedAgain`).
- `CreateNode` on a live id leaves the old node's datoms in the index (`Indexing.StepKeepsAgreementIff`).
- `find_by_type` for artifacts also returns artifact_acl nodes, because the range scan is a prefix scan
  (`Queries.FindByType`, `Witnesses.AccessListMatchesArtifact`).
- An operation is journalled before the log can reject it; after a rejection the next start fails
  (`JournaledGraphDbs.RejectedOperationBlocksRecovery`).
- A node moved away leaves its containment edge; a snapshot lists it again under a parent without live children
  (`Bundles.SnapshotRoundTrip`).
- A full export leaves out an edge deleted before it, and with the deletion what that did to the child list
  (`FullBundles.ListsFollowIff`, `Witnesses.FullExportRelists`).
- Revert deletes edges at a deleted node even if the target has them, never updates a changed edge, and restores a
  child list only as far as deleting and creating edges does (`Reverts.RevertIsCompleteIff`,
  `Witnesses.RevertLosesEdge`, `Witnesses.RevertKeepsChangedEdge`, `Witnesses.SwapStays`).
- A dependency set twice has to be removed twice (`FlowLens.RemovedIffRecordedOnce`, `Witnesses.SetTwiceRemovedOnce`),
  and undo and redo can close a cycle that the guard would refuse (`FlowLens.UndoneRemovalAcyclicIff`,
  `FlowLens.RedoneDependencyAcyclicIff`, `Witnesses.UndoneRemovalClosesCycle`).
- Deleting a task leaves the edges of the tasks that depend on it (`FlowEffects.DeleteEffect`).
- The display text of a PDF block is stripped but its annotation offsets are not
  (`PdfText.StripKeepsAlignmentIff`, `PdfText.LeadingSpaceMisaligns`), although the documentation at
  `src/uaf/app/formats/pdf_format.py:910-911` promises perfect alignment.

## Model

| member | source | states |
|---|---|---|
| Serialization.SpanRoundTrip | src/uaf/core/serialization.py:76-102 | decoding an encoded text span gives the span back |
| Serialization.AnnotRoundTrip | src/uaf/core/serialization.py:148-178 | decoding an encoded font annotation gives it back |
| Serialization.LayoutRoundTrip | src/uaf/core/serialization.py:105-145 | decoding an encoded layout hint gives it back except for `line_lefts`, which is not written |
| Serialization.MetaRoundTrip | src/uaf/core/serialization.py:221-244 | decoding encoded metadata gives it back up to the layout hint |
| Serialization.NodeRoundTrip | src/uaf/core/serialization.py:252-461 | for all 19 node kinds decoding after encoding is the identity except for `Paragraph.content_format` and `line_lefts` |
| Serialization.NodeNormalEncodesAlike | src/uaf/core/serialization.py:252-343 | what is lost does not show in the encoding: a node and its decoded form encode alike |
| Documents.NodeSurvivesIff | src/uaf/core/serialization.py:252-461 | a node comes back from its document unchanged if and only if its layout has no line offsets and, being a paragraph, it is in plain format |
| Documents.BodyDocument | src/uaf/core/serialization.py:264-341 | the document under every key: which kinds of node write it, and which field |
| Documents.NodeDocument | src/uaf/core/serialization.py:252-264 | a document holds class name, schema version, metadata and that body |
| Documents.TypeNames | src/uaf/core/serialization.py:45-65 | each kind of node is written under the name of its own class |
| Documents.EdgeDocument | src/uaf/core/serialization.py:469-480 | the document of an edge, key by key, its properties in order |
| Documents.UnknownTypeIsKept | src/uaf/core/serialization.py:346-372 | a document of an unknown type becomes a raw node that keeps the whole document, also after writing and reading that node; without readable metadata it is refused |
| Documents.MissingFieldDefaults | src/uaf/core/serialization.py:374-461 | fields that a document lacks are read as their defaults |
| Documents.MissingListDefaults | src/uaf/core/serialization.py:438-453 | the same for list items and quotations |
| Documents.MissingTaskDefaults | src/uaf/core/serialization.py:401-412 | the same for tasks |
| Serialization.EdgeRoundTrip | src/uaf/core/serialization.py:469-495 | decoding an encoded edge, properties included, gives it back |
| Operations.OperationRoundTrip | src/uaf/core/operations.py:121-226 | each of the seven operations decodes to itself with its node in decoded form |
| Operations.EncodingIsStable | src/uaf/core/operations.py:121-231 | encode after decode after encode is encode, so an operation keeps its id across a restart |
| Operations.IdDeterminesOp | src/uaf/core/operations.py:229-231 | operations with one id are the same operation up to encoding |
| Documents.OperationDocument | src/uaf/core/operations.py:121-153 | the document whose hash is the id of an operation, key by key |
| Documents.OperationSurvivesIff | src/uaf/core/operations.py:121-226 | an operation comes back unchanged if and only if the node it carries, if any, does |
| OperationLogs.AppendKeepsValid | src/uaf/db/operation_log.py:38-64 | an accepted append keeps: ids are content hashes, none occurs twice, every parent is strictly earlier |
| OperationLogs.RejectionMeaning | src/uaf/db/operation_log.py:38-64 | by log index: an unknown parent is reported first, then a present id, and everything else is taken |
| OperationLogs.LogIsAcyclic | src/uaf/db/operation_log.py:38-64 | the parent graph of any valid log has no cycle |
| OperationLogs.NewestIsHead | src/uaf/db/operation_log.py:71-74 | the entry appended last is a head |
| OperationLogs.HeadsCoverLog | src/uaf/db/operation_log.py:71-74 | every entry is an ancestor of some head |
| OperationLogs.OperationLog.Append | src/uaf/db/operation_log.py:38-64 | rejects an unknown parent first, then a duplicate id, and otherwise appends exactly one entry; index and head bookkeeping stay right |
| OperationLogs.OperationLog.GetEntry | src/uaf/db/operation_log.py:66-68 | the index lookup is the search of the entry list |
| OperationLogs.OperationLog.HeadIds | src/uaf/db/operation_log.py:71-74 | the maintained bookkeeping gives exactly the entries no entry names as a parent |
| OperationLogs.OperationLog.Ancestors | src/uaf/db/operation_log.py:86-107 | terminates and returns each logged entry reachable by parent references, the start included, exactly once |
| Materializer.StepKeepsWf | src/uaf/db/materializer.py:41-58 | every handler keeps the two insertion-ordered dictionaries consistent |
| Materializer.StepParts | src/uaf/db/materializer.py:82-126 | the effect of each operation on the node and the edge map |
| Materializer.StepKids | src/uaf/db/materializer.py:82-131 | the effect of each operation on each child list, a missing list read as empty |
| Materializer.StepEffects | src/uaf/db/materializer.py:82-131 | the same by positions and keys alone: which node and edge is stored under each key, and which occurrence of which child leaves or joins each list |
| Materializer.StepCongruent | src/uaf/db/materializer.py:41-58 | operations that differ only in time, parents and author act alike on states with equal nodes, edges and lists |
| Materializer.StateMaterializer.Apply | src/uaf/db/materializer.py:41-58 | the in-place handlers compute the step function on all four dictionaries |
| Materializer.StateMaterializer.HandleDeleteNode | src/uaf/db/materializer.py:92-101 | removes the node, its first occurrence in every list, and its own list |
| Materializer.StateMaterializer.HandleCreateEdge | src/uaf/db/materializer.py:103-109 | stores the edge and, for CONTAINS, lists the target once |
| Materializer.StateMaterializer.HandleDeleteEdge | src/uaf/db/materializer.py:111-116 | drops a present edge and, for CONTAINS, unlists the target |
| Materializer.StateMaterializer.HandleMoveNode | src/uaf/db/materializer.py:118-126 | unlists the node everywhere and appends it to the new parent |
| Inverses.BackwardSearchNode | src/uaf/db/undo.py:260-281 | the backward search over a log prefix finds exactly the value a forward replay gives a present node |
| Inverses.BackwardSearchEdge | src/uaf/db/undo.py:284-305 | the same for a present edge |
| Inverses.LastNodeIsLatest | src/uaf/db/undo.py:260-281 | the search gives the node of the entry of greatest index that creates or updates it, and nothing exactly when no entry does |
| Inverses.LastEdgeIsLatest | src/uaf/db/undo.py:284-305 | the same for the creations of an edge |
| Inverses.LastMoveIsLatest | src/uaf/db/undo.py:308-329 | the same for the moves of a node |
| Inverses.LastOrderIsLatest | src/uaf/db/undo.py:341-362 | the same for the reorderings of a parent: an order is found exactly when some entry records it and no later entry reorders that parent |
| Inverses.SearchSpaceAt | src/uaf/db/undo.py:341-362 | the search stops short of the entry it is given, and finds nothing for an unknown one |
| Inverses.FirstParentIsFirst | src/uaf/db/undo.py:330-338 | the parent found is the first key whose list holds the node |
| Inverses.FindPreviousNode | src/uaf/db/undo.py:260-281 | the flag-driven reverse loop finds, by log index, the node written by the latest creation or update before the given entry, and nothing exactly when there is none |
| Inverses.FindPreviousEdge | src/uaf/db/undo.py:284-305 | the same loop finds the edge written by the latest creation before the entry |
| Inverses.FindPreviousMove | src/uaf/db/undo.py:308-329 | the same loop finds the destination of the latest move before the entry |
| Inverses.FindListingParent | src/uaf/db/undo.py:330-338 | the fallback takes the first parent, in dictionary order, that lists the node now, and none exactly when no parent lists it |
| Inverses.FindPreviousOrder | src/uaf/db/undo.py:341-362 | the same loop finds the order recorded by the latest reordering of the parent before the entry, not an older one |
| Inverses.ComputeInverse | src/uaf/db/undo.py:365-467 | the compensating operations, case by case, for an entry of the log |
| Inverses.UndoIsExactIff | src/uaf/db/undo.py:365-467 | for each of the seven operations: applying the inverse restores every node, edge and child list if and only if a condition on the log and graph before it holds |
| Witnesses.FirstMoveStays | src/uaf/db/undo.py:330-338 | how that fails: a first move, undone, leaves the list it came from empty |
| Witnesses.DeletedIsNotListedAgain | src/uaf/db/undo.py:400-409 | a contained node, deleted and brought back by undo, is listed nowhere |
| UndoManagers.StacksAreEventSourced | src/uaf/db/undo.py:79-252 | after any run of begin, end, record, undo and redo, replaying the emitted events from empty gives the undo and redo stack of every key |
| UndoManagers.BracketMakesOneGroup | src/uaf/db/undo.py:95-141 | an outermost bracket, nested ones inside included, emits one group holding its operations in order, and none if it recorded nothing |
| UndoManagers.RecordKeepsSourced | src/uaf/db/undo.py:143-174 | recording, with its clearing of the redo stack, keeps the stacks equal to their events |
| UndoManagers.RecordMeaning | src/uaf/db/undo.py:143-174 | stack by stack: an operation joins the open group or makes its own, what that principal had undone in that artifact can no longer be redone, and no other stack changes |
| UndoManagers.PopUndoMeaning | src/uaf/db/undo.py:176-186 | the top group of the key goes from its undo to its redo stack, and no other stack changes |
| UndoManagers.PopRedoMeaning | src/uaf/db/undo.py:188-198 | and back |
| UndoManagers.UndoManager.Begin | src/uaf/db/undo.py:95-111 | opens a group or deepens the open one |
| UndoManagers.UndoManager.End | src/uaf/db/undo.py:113-141 | closes one level; the outermost close pushes and emits a nonempty group |
| UndoManagers.UndoManager.Record | src/uaf/db/undo.py:143-174 | adds to the open group, or makes a group of its own when an artifact is known, and clears redo |
| UndoManagers.UndoManager.PopUndoGroup | src/uaf/db/undo.py:176-186 | moves the newest group of the key to its redo stack |
| UndoManagers.UndoManager.PopRedoGroup | src/uaf/db/undo.py:188-198 | moves it back |
| UndoManagers.UndoManager.Rebuild | src/uaf/db/undo.py:218-252 | the loop over the event types computes the replay function |
| Eavt.InsertSorted | src/uaf/db/eavt.py:61-76 | insertion keeps each list sorted |
| Eavt.KeyOrder | src/uaf/db/eavt.py:10-48 | rows are compared field by field, and fields where the two strings part |
| Eavt.MatchesMeaning | src/uaf/db/eavt.py:96-124 | the half-open range from v to v followed by U+FFFF holds exactly v and its extensions by a character below U+FFFF, so every exact match is hit and every hit has v as a prefix |
| Eavt.AttrValueRange | src/uaf/db/eavt.py:114-118 | a row is in the attr_value range exactly when its attribute is equal and its value matches |
| Eavt.FirstFieldRange | src/uaf/db/eavt.py:96-112 | a row is in a one-field range exactly when that field matches |
| Eavt.FixedLengthExact | src/uaf/db/eavt.py:96-100 | among strings of one length, as the UUID text form of section 4 of RFC 9562 is, the range is exact |
| Eavt.EntityAttrsExact | src/uaf/db/eavt.py:96-100 | over entity names of one length entity_attrs returns exactly the rows of that entity |
| Eavt.AddAgrees | src/uaf/db/eavt.py:61-76 | adding a datom keeps each of the four sorted lists equal, as a multiset, to the per-entity lists |
| Eavt.RetractAgrees | src/uaf/db/eavt.py:78-94 | so does retracting an entity |
| Eavt.EAVTIndex.Add | src/uaf/db/eavt.py:61-76 | the object keeps all four lists and the per-entity list in agreement |
| Eavt.EAVTIndex.RetractEntity | src/uaf/db/eavt.py:78-94 | the same for retraction, list by list |
| Eavt.EAVTIndex.Scans | src/uaf/db/eavt.py:96-124 | each of the five scans returns exactly the stored facts it asks for, with entity, attribute and value in the order of its index |
| Indexing.StepKeepsAgreementIff | src/uaf/db/graph_db.py:57-93 | one apply keeps the index equal to the datoms of the live nodes if and only if it does not create a node on a live id |
| Indexing.IndexAgreement | src/uaf/db/graph_db.py:57-93 | over any run creating nodes on non-live ids only, the per-entity lists are exactly the datoms of the live nodes tagged with node_last_op |
| Indexing.IndexesHoldLive | src/uaf/db/graph_db.py:57-93 | each of the four sorted lists then holds exactly the datoms of the live nodes, each as often as a scan of the live nodes finds it |
| NodeAttributes.AttributeTable | src/uaf/db/graph_db.py:308-405 | the attributes of a node by name: which kinds of node carry it and which field it gives |
| NodeAttributes.WritesIff | src/uaf/db/graph_db.py:358-386 | a number is written as its one decimal text without leading zeros |
| Queries.ScanFindsMatches | src/uaf/db/query.py:69-80 | with an agreeing index a row of the range scan stands for a live node exactly when the node has a matching attribute: lookup is a scan of the live nodes |
| Queries.MatchMeaning | src/uaf/db/query.py:69-80 | to match is to carry an attribute of that name, read from the fields, whose value is v or goes on after it |
| Queries.FindByAttribute | src/uaf/db/query.py:69-80 | with an agreeing index, returns exactly the live nodes whose field of that name has the value or extends it by a character below U+FFFF, each once, in the order in which the scan first meets them |
| Queries.TypeMatches | src/uaf/db/query.py:55-67 | a type value matches itself only, except that "artifact" also matches "artifact_acl" |
| Queries.FindByType | src/uaf/db/query.py:55-67 | returns exactly the live nodes of the type if and only if the type is not ARTIFACT or no artifact_acl node is live |
| Witnesses.AccessListMatchesArtifact | src/uaf/db/query.py:55-67 | a live access list matches the lookup of artifacts |
| GraphDbs.GraphDB.Apply | src/uaf/db/graph_db.py:57-93 | appends, records, materialises and indexes; the kept state and index stay equal to a replay of the log from genesis |
| GraphDbs.GraphDB.UndoLast | src/uaf/db/graph_db.py:148-183 | pops the newest group, applies, in reverse, the inverse of each operation computed in the state the previous ones left, and returns the ids so logged |
| GraphDbs.GraphDB.RedoLast | src/uaf/db/graph_db.py:185-221 | pops the group, applies its operations again, freshly stamped and without parents, and returns the new ids |
| GraphDbs.GraphDB.EnterGroup | src/uaf/db/graph_db.py:137-146 | opens a group and remembers the previous artifact |
| GraphDbs.GraphDB.LeaveGroup | src/uaf/db/graph_db.py:137-146 | closes it and restores the artifact |
| GraphDbs.UndoAccepted | src/uaf/db/graph_db.py:148-183 | the log never rejects a compensating operation: undo of any group succeeds and only appends |
| GraphDbs.RedoAccepted | src/uaf/db/graph_db.py:185-221 | the same for redo |
| GraphDbs.LaterIsNew | src/uaf/core/operations.py:229-231 | an operation stamped later than everything logged has a new id |
| UndoHistory.ExactUndo | src/uaf/db/graph_db.py:148-183 | undoing a group of operations that each met their exact condition restores the graph before the group, whatever was logged since |
| UndoHistory.RedoRepeats | src/uaf/db/graph_db.py:185-221 | redoing a group in a state equivalent to the one before it gives a state equivalent to the one after it |
| UndoHistory.UndoRedoFollowsHistory | src/uaf/db/graph_db.py:148-221 | over any interleaving of reversible groups, undos and redos of one principal on one artifact the graph is the recorded state under a history cursor |
| UndoHistory.ExactUndoRedo | src/uaf/db/graph_db.py:148-221 | the same with the condition read off the operations: k undos give the graph before the last k groups, k redos the graph after them |
| JournaledGraphDbs.ReplayCommutes | src/uaf/db/journaled_graph_db.py:208-223 | replaying the decoded log gives the decoded state and the very same index |
| JournaledGraphDbs.ReplaySucceedsIff | src/uaf/db/journaled_graph_db.py:208-223 | a restart succeeds if and only if no journalled operation had been rejected |
| JournaledGraphDbs.RecoveryRefinesLive | src/uaf/db/journaled_graph_db.py:208-228 | recovery then gives the same ids in order, the same index, the live state up to encoding, the same stacks for every key, and every stacked id resolves |
| JournaledGraphDbs.RejectedOperationBlocksRecovery | src/uaf/db/journaled_graph_db.py:58-63 | the failing case: an operation offered twice is in the journal twice and the next start cannot replay it |
| JournaledGraphDbs.JournaledGraphDB.Apply | src/uaf/db/journaled_graph_db.py:58-63 | writes the journal line first, then applies; journal, log and stacks stay in the correspondence recovery needs |
| JournaledGraphDbs.JournaledGraphDB.UndoLast | src/uaf/db/journaled_graph_db.py:130-134 | journals every compensating operation and keeps the correspondence |
| JournaledGraphDbs.JournaledGraphDB.RedoLast | src/uaf/db/journaled_graph_db.py:136-140 | the same for redo |
| JournaledGraphDbs.JournaledGraphDB.Recover | src/uaf/db/journaled_graph_db.py:208-223 | the replay loop computes that recovery, rebuilds the stacks from the event journal and leaves both journals as they were |
| JournaledGraphDbs.JournaledGraphDB.Restart | src/uaf/db/journaled_graph_db.py:208-228 | a restart over the journals of a live object starts if and only if no journalled operation had been rejected, and is then itself a valid live object with the same ids, index and stacks and the state up to encoding |
| Bundles.Descendants | src/uaf/db/graph_db.py:278-289 | terminates and returns exactly the ids reachable through child lists |
| Bundles.SubtreeIsClosed | src/uaf/db/graph_db.py:278-289 | the subtree holds every listed child of its members |
| Bundles.BuildSnapshot | src/uaf/db/bundle.py:147-180 | the three loops write the snapshot operations in their order |
| Bundles.ImportJournal | src/uaf/db/bundle.py:260-274 | offers each line, skips duplicates and stops at any other failure |
| Imports.ImportAppends | src/uaf/db/bundle.py:260-274 | an import only appends entries made from its lines, and when it ends without an error the log has every line once |
| Imports.ImportTwice | src/uaf/db/bundle.py:260-274 | importing the same journal again changes nothing and reports nothing |
| Imports.ImportFailsAt | src/uaf/db/bundle.py:260-274 | a failing import stops at its first line that is no operation or names an unknown parent, and keeps what came before |
| Bundles.SnapshotRoundTrip | src/uaf/db/bundle.py:147-180 | importing a snapshot into an empty database gives each node up to encoding and each outgoing edge list in order; a child list comes back if and only if it shows a live child or no containment edge leads to a live exported node |
| Bundles.MoveLeavesEdgeBehind | src/uaf/db/materializer.py:118-126 | how that fails: moving an only child away leaves its containment edge |
| FullBundles.BuildFull | src/uaf/db/bundle.py:130-144 | filters the log to the subtree and strips parents |
| FullBundles.FilteredRun | src/uaf/db/bundle.py:183-203 | the filtered operations rebuild exactly the nodes of the subtree and its edges in dictionary order |
| FullBundles.FullRoundTrip | src/uaf/db/bundle.py:130-144 | importing a full-history bundle gives each node up to encoding and each outgoing edge list, when stripping parents makes no two exported operations alike |
| FullBundles.FreshIffNoneAlike | src/uaf/db/bundle.py:130-144 | an empty database takes every exported operation if and only if no two are alike without their parents |
| FullBundles.StampsTellApart | src/uaf/db/bundle.py:130-144 | operations stamped at different times are not alike |
| FullBundles.ListsFollowIff | src/uaf/db/bundle.py:183-203 | the exported history shows the right child lists at every point if and only if each operation left out had changed none of them |
| FullBundles.FullRoundTripLists | src/uaf/db/bundle.py:130-144 | under that condition every node of a closed subtree shows its children again, in order |
| FullBundles.SelfContainedIsHarmless | src/uaf/db/bundle.py:183-203 | no operation left out changes a list when, in the log, members create only exported containment edges, what is deleted or moved while a member lists it is a member, and only members are moved into members; orders recorded for members need no excuse |
| FullBundles.FullRoundTripWhole | src/uaf/db/bundle.py:130-144 | under that condition on the log alone importing a full-history bundle of a closed subtree gives its nodes, its outgoing edges and the children of every member in order |
| Witnesses.FullExportRelists | src/uaf/db/bundle.py:183-203 | how that fails: the deletion of a second containment edge is left out with the edge, and the parent lists the child again |
| Reverts.TargetIsPastState | src/uaf/db/undo.py:486-494 | the target is a prefix of the log if and only if nothing stamped later than t precedes something that is not; non-decreasing stamps ensure it |
| Reverts.TargetState | src/uaf/db/undo.py:488-494 | the filtering replay loop computes the target |
| Reverts.ComputeRevertOps | src/uaf/db/undo.py:475-557 | issues exactly the deletions, creations and updates by which the two states differ, each stamped now |
| Reverts.RevertReachesTarget | src/uaf/db/undo.py:475-557 | applying them, repeats skipped, gives the target nodes; it gives the target edges if and only if shared edges are equal and touch no deleted node |
| Reverts.RevertedLists | src/uaf/db/undo.py:475-557 | what becomes of every child list: it loses the deleted nodes and the targets of deleted containment edges, then gains the targets of created ones in order; it comes back if and only if that is the target list |
| Reverts.StrikeCounts | src/uaf/db/materializer.py:92-116 | a list so cut down holds each child as often as before less the deletions that struck it |
| Reverts.RevertIsCompleteIff | src/uaf/db/undo.py:475-557 | the whole graph comes back if and only if shared edges are settled and every list so computed is the target list |
| Reverts.OrderIsNotReverted | src/uaf/db/undo.py:475-557 | when no node or edge is created or deleted lists stay as they are, so the graph comes back if and only if edges and lists were equal already |
| Witnesses.SwapStays | src/uaf/db/undo.py:475-557 | children swapped after the time reverted to stay swapped |
| Witnesses.RevertLosesEdge | src/uaf/db/undo.py:498-514 | reverting to a time when an edge named a node not yet created loses the edge |
| Witnesses.RevertKeepsChangedEdge | src/uaf/db/undo.py:535-555 | an edge id that stood for another edge then keeps the present one |
| Reverts.ReorderIsNotReverted | src/uaf/db/undo.py:475-557 | child order is not reverted: a later reordering stays and nothing is issued |
| DocEdits.InsertText | src/uaf/app/lenses/doc_lens.py:480-522 | logs create, contain and reorder, the new node standing at the position asked for among the children that were live before (clamped to the end, counted from the end when negative), all by the author, and pushes exactly these as one undo group |
| DocEdits.InsertUndoneIff | src/uaf/app/lenses/doc_lens.py:480-522 | undoing an insertion restores the graph if and only if the list was its last recorded order or, if never ordered, all live |
| DocEdits.DeleteText | src/uaf/app/lenses/doc_lens.py:524-534 | logs the deletion of the containment edges found at the start, then of the node, all by the author, and pushes exactly these as one undo group |
| DocEdits.CollectedIsLeaf | src/uaf/app/lenses/doc_lens.py:529-533 | the edges the edit collects are exactly the containment edges of the node, each once |
| DocEdits.DeleteUndone | src/uaf/app/lenses/doc_lens.py:524-534 | undoing the deletion of a leaf restores all nodes and edges, and each list up to moving the child to the end where an edge contains it |
| DocEdits.DeleteUndoneIff | src/uaf/app/lenses/doc_lens.py:524-534 | it restores the whole graph if and only if the node stood last where an edge contains it and nowhere else |
| DocEdits.InsertIsReversible | src/uaf/app/lenses/doc_lens.py:480-522 | under its condition an insertion is a reversible group for the run theorem |
| DocEdits.DeleteIsReversible | src/uaf/app/lenses/doc_lens.py:524-534 | so is a deletion under its condition |
| DocEdits.InsertThenUndo | src/uaf/app/lenses/doc_lens.py:480-522 | inserting and then undoing the last group gives the graph back if and only if that condition held |
| DocEdits.DeleteThenUndo | src/uaf/app/lenses/doc_lens.py:524-534 | so do deleting a leaf and undoing it, under its condition |
| FlowLens.WouldCreateCycle | src/uaf/app/lenses/flow_lens.py:879-902 | terminates and answers true exactly when source is target or target reaches source by DEPENDS_ON edges |
| FlowLens.PlanAction | src/uaf/app/lenses/flow_lens.py:684-873 | the operations each action issues in a state, or its refusal |
| FlowEffects.EditEffect | src/uaf/app/lenses/flow_lens.py:753-787 | each edit of a task sets its own fields and no others and nothing else in the graph; status and completion go together, and toggling goes round |
| FlowEffects.EditRefused | src/uaf/app/lenses/flow_lens.py:753-837 | an edit is refused exactly when the id is no task or the status is none of the five |
| FlowEffects.CreateEffect | src/uaf/app/lenses/flow_lens.py:730-751 | a new task is open, has the title and dates asked for, and stands last in its parent, held there by one edge |
| FlowEffects.DependencyEffect | src/uaf/app/lenses/flow_lens.py:789-805 | an accepted dependency is there afterwards and no other has come or gone |
| FlowEffects.RemovalEffect | src/uaf/app/lenses/flow_lens.py:807-815 | a removal deletes the first edge in dictionary order that records the dependency, and nothing when there is none |
| FlowEffects.DeleteEffect | src/uaf/app/lenses/flow_lens.py:860-871 | deleting a task removes the node and what it depends on, but not the edges of what depends on it |
| FlowEffects.ReorderEffect | src/uaf/app/lenses/flow_lens.py:839-849 | reordering sets one list |
| FlowEffects.RenameEffect | src/uaf/app/lenses/flow_lens.py:851-858 | renaming sets the title of an artifact and does nothing when there is none |
| FlowEffects.RunsKeepCompletion | src/uaf/app/lenses/flow_lens.py:684-873 | over any run of lens actions a task stays completed if and only if its status is done |
| FlowLens.RunsStayAcyclic | src/uaf/app/lenses/flow_lens.py:684-873 | no run of lens actions from an acyclic dependency graph closes a cycle |
| FlowLens.RefusedIffCyclic | src/uaf/app/lenses/flow_lens.py:789-805 | a dependency is refused if and only if storing it would close a cycle |
| FlowLens.UndoneRemovalAcyclicIff | src/uaf/db/undo.py:433-441 | undo bypasses the guard: undoing a logged removal closes a cycle exactly when the target has come to reach the source |
| FlowLens.RedoneDependencyAcyclicIff | src/uaf/db/graph_db.py:185-221 | so does redo of a logged dependency |
| Witnesses.UndoneRemovalClosesCycle | src/uaf/db/undo.py:433-441 | three actions that pass the guard, after which one undo closes a cycle |
| FlowLens.RemovedIffRecordedOnce | src/uaf/app/lenses/flow_lens.py:807-815 | removing a dependency removes it if and only if a single edge records it |
| Witnesses.SetTwiceRemovedOnce | src/uaf/app/lenses/flow_lens.py:789-815 | a dependency set twice and removed once is still there |
| TaskOrders.Kahn | src/uaf/app/lenses/flow_lens.py:929-940 | the loop terminates, emits each task at most once after all it depends on, and emits every task when there is no cycle |
| TaskOrders.TaskGraphIsDependsOn | src/uaf/app/lenses/flow_lens.py:913-922 | the graph the sort works on has an edge exactly where a stored DEPENDS_ON edge joins two of the given tasks |
| TaskOrders.LongestAgree | src/uaf/app/lenses/flow_lens.py:547-552 | so its longest paths are the longest chains of stored dependencies among the tasks |
| TaskOrders.TopologicalSort | src/uaf/app/lenses/flow_lens.py:905-948 | for distinct ids the result is a permutation, cycles or not, and stands in the order of the stored dependencies if and only if they have no cycle; the predecessors of a task are the given tasks it depends on |
| TaskOrders.OrderedMeansAcyclic | src/uaf/app/lenses/flow_lens.py:905-948 | an order in which dependencies come first excludes cycles |
| TaskOrders.LayerIsLongest | src/uaf/app/lenses/flow_lens.py:547-552 | one above the greatest correct layer of the predecessors is the longest dependency path |
| TaskOrders.Layers | src/uaf/app/lenses/flow_lens.py:547-552 | over a list in dependency order every layer is the length of the longest dependency path from the task |
| TaskOrders.PlaceTasks | src/uaf/app/lenses/flow_lens.py:545-552 | the two composed: when the stored dependencies among the tasks have no cycle the rows are a permutation in dependency order and each layer is the length of the longest chain of dependencies |
| TaskOrders.RunsCanBeLaidOut | src/uaf/app/lenses/flow_lens.py:545-552 | after any run of lens actions from an acyclic graph the stored dependencies among any set of tasks have no cycle, so that they can be laid out so |
| Grids.InsertShows | src/uaf/app/lenses/grid_lens.py:326-381 | after an insertion every value and formula is found at its shifted place and the new line shows empty cells only |
| Grids.DeleteShows | src/uaf/app/lenses/grid_lens.py:440-489 | after a deletion every value and formula behind the line is found one place nearer |
| Grids.InsertKeepsDenseIff | src/uaf/app/lenses/grid_lens.py:326-438 | cells in bijection with rows times columns stay so if and only if the position is one of the lines or just behind them |
| Grids.DeleteKeepsDenseIff | src/uaf/app/lenses/grid_lens.py:440-540 | the same for deletion if and only if the position is one of the lines |
| Grids.DeleteAfterInsert | src/uaf/app/lenses/grid_lens.py:326-540 | deleting the line just inserted gives the very same cells in the same order, at any position |
| Grids.DenseSwaps | src/uaf/app/lenses/grid_lens.py:326-540 | density read by rows and by columns is the same |
| GridLens.PlanInsert | src/uaf/app/lenses/grid_lens.py:326-438 | the updates, creations and the resize that an insertion issues |
| GridLens.PlanDelete | src/uaf/app/lenses/grid_lens.py:440-540 | the edge and node deletions, updates and the resize that a deletion issues |
| GridLens.InsertedChildren | src/uaf/app/lenses/grid_lens.py:326-438 | applied to the database they give exactly the shifted children followed by the new ones, and the larger sheet |
| GridLens.DeletedChildren | src/uaf/app/lenses/grid_lens.py:440-540 | applied to the database they give exactly the remaining children moved back, and the smaller sheet |
| SheetEdits.RowInserted | src/uaf/app/lenses/grid_lens.py:326-381 | inserting a row moves exactly the cells from that row on one row down, appends one empty cell for each column and adds one to the row count only |
| SheetEdits.ColumnInserted | src/uaf/app/lenses/grid_lens.py:383-438 | inserting a column moves exactly the cells from that column on one column right, appends one empty cell for each row and adds one to the column count only |
| SheetEdits.RowDeleted | src/uaf/app/lenses/grid_lens.py:440-489 | deleting a row keeps, in order, exactly the children not on it, moves those below one row up, and takes one from a positive row count |
| SheetEdits.ColumnDeleted | src/uaf/app/lenses/grid_lens.py:491-540 | the same for a column |
| SheetEdits.EdgesDropped | src/uaf/app/lenses/grid_lens.py:440-540 | every edge that contains a deleted cell is dropped, and no other edge |
| GridLens.DeleteUndoesInsert | src/uaf/app/lenses/grid_lens.py:326-540 | deleting the line just inserted restores the child list, every child and the dimensions |
| GridLens.InsertStaysDenseIff | src/uaf/app/lenses/grid_lens.py:326-438 | a dense sheet in the database stays dense if and only if the position is in range (or its lines are empty) |
| GridLens.SheetDenseEitherAxis | src/uaf/app/lenses/grid_lens.py:326-540 | a sheet dense by rows is dense by columns, so row and column edits combine |
| GridLens.DeleteStaysDenseIff | src/uaf/app/lenses/grid_lens.py:440-540 | the same for deletion |
| Recalculation.Recalculate | src/uaf/app/lenses/grid_lens.py:258-299 | the two loops issue one update for each formula whose value changes, later formulas seeing earlier results |
| Recalculation.LaterOverrides | src/uaf/app/lenses/grid_lens.py:269-277 | the value of a row and column is that of the last cell there |
| Recalculation.PassTurns | src/uaf/app/lenses/grid_lens.py:279-299 | whatever formulas refer to: each is evaluated once, over the values of all cells as overridden by the formulas before it, and is cached anew exactly when the result differs |
| Recalculation.UpdatesAre | src/uaf/app/lenses/grid_lens.py:279-299 | the updates write exactly the formulas so changed |
| Recalculation.RecalculatedChildren | src/uaf/app/lenses/grid_lens.py:258-299 | applied to the database the updates give the recalculated children in place |
| Recalculation.OnePassSettles | src/uaf/app/lenses/grid_lens.py:258-299 | when cells stand apart and formulas refer to plain cells or earlier formulas only, after one pass every cached value is its formula over the table, by row and column, of the final sheet, nothing else has changed, and a second pass writes nothing |
| Recalculation.IdleIffFresh | src/uaf/app/lenses/grid_lens.py:278-299 | a pass writes nothing if and only if every cached value already agrees |
| PdfText.GroupsHoldLines | src/uaf/app/formats/pdf_format.py:336-383 | grouping by baseline loses and reorders no line |
| PdfText.MergeVisualLines | src/uaf/app/formats/pdf_format.py:336-403 | the merger writes one text per visual line; from the boxes alone: lines of one height give a single text, lines at disjoint heights one each, and two lines a single one if and only if twice the overlap exceeds the lesser height |
| PdfText.SameBaselineIff | src/uaf/app/formats/pdf_format.py:386-403 | two boxes share a baseline if and only if the lesser height is positive and twice the overlap exceeds it |
| PdfText.LineJoinsIff | src/uaf/app/formats/pdf_format.py:353-383 | in general, a line joins the visual line before it if and only if twice its overlap with the heights that one spans exceeds the lesser of the two |
| PdfText.GroupTextJoins | src/uaf/app/formats/pdf_format.py:353-383 | the text of a visual line is its lines joined by single spaces, each the texts of its spans |
| PdfText.ComputeLineLefts | src/uaf/app/formats/pdf_format.py:527-576 | one left offset per visual line, from the same grouping, or nothing when no line is indented |
| PdfText.BuildFontAnnotations | src/uaf/app/formats/pdf_format.py:894-1047 | the second loop, with its pending spans and running offset, computes the annotations of the same groups |
| PdfText.GroupSpansText | src/uaf/app/formats/pdf_format.py:968-1043 | the spans of a visual line spell the text the merger writes for it |
| PdfText.AnnotationsAligned | src/uaf/app/formats/pdf_format.py:894-1047 | the two loops agree: annotations are in order, disjoint, in range, and each reads on the merged text exactly the span it was made for |
| DisplayText.AnnotationsReadSpans | src/uaf/app/formats/pdf_format.py:917-1047 | there is one annotation for each span with text that stands out from the block, in the order of the spans of the block |
| DisplayText.StandingOutCounts | src/uaf/app/formats/pdf_format.py:985-1016 | the spans annotated are exactly those in a math font, a family of their own or another weight, as often as they occur |
| PdfText.StripShifts | src/uaf/app/formats/pdf_format.py:319-333 | stripping shifts every offset by the leading white space |
| DisplayText.StripMeaning | src/uaf/app/formats/pdf_format.py:319-333 | only white space is stripped, and all of it at both ends |
| PdfText.StripKeepsAlignmentIff | src/uaf/app/formats/pdf_format.py:319-333 | for any block: the annotations fit the stripped text if and only if each ends inside it and covers characters that repeat as far further on as leading white space was stripped |
| PdfText.UnindentedFits | src/uaf/app/formats/pdf_format.py:319-333 | without leading white space: if and only if none reaches into the trailing white space |
| PdfText.LeadingSpaceMisaligns | src/uaf/app/formats/pdf_format.py:319-333 | how that fails: behind any white-space character the annotation made for one span reads the next |
| DocText.FormatPerLine | src/uaf/app/lenses/doc_lens.py:784-868 | the nested loops emit, line by line, the fragments of the running offset |
| DocText.LineConservedIff | src/uaf/app/lenses/doc_lens.py:810-848 | a line comes out as exactly its escaped text if and only if of any two annotations on it the first ends no later than the second starts, or the line is empty; then each character carries the annotation covering it |
| DocText.LineStands | src/uaf/app/lenses/doc_lens.py:810-866 | the running offset is right: each line stands at its offset in the text |
| DisplayText.SplitJoins | src/uaf/app/lenses/doc_lens.py:797-808 | splitting cuts at every newline and nowhere else |
| DisplayText.JoinSplits | src/uaf/app/lenses/doc_lens.py:797-808 | splitting joined lines gives them back |
| DisplayText.EscapeReads | src/uaf/app/lenses/doc_lens.py:815-845 | escaped text holds none of the characters that markup is made of and reads as the text it was made from |
| DisplayText.SortMeaning | src/uaf/app/lenses/doc_lens.py:798-815 | the sort puts starts in order, keeps every annotation and is stable |
| DocText.PerLineConserves | src/uaf/app/lenses/doc_lens.py:784-868 | for annotations in order and disjoint, in range or not, every line is conserved and marked exactly |
| DocText.BlockRendersFaithfully | src/uaf/app/lenses/doc_lens.py:784-868 | from any block to markup: lines of the stripped text are conserved, characters are styled exactly in the annotated ranges, and these read their spans if and only if they fit the stripped text |
| Stamps.InverseIssued | src/uaf/db/undo.py:365-467 | compensating operations are stamped now, for the principal of the operation undone, without parents |
| Stamps.SnapshotIssued | src/uaf/db/bundle.py:147-180 | a snapshot is written as of now, by nobody |
| Stamps.FullKeepsStamps | src/uaf/db/bundle.py:130-144 | an operation of a full bundle keeps the time and the principal of the logged one and loses its parents |
| Stamps.PlanIssued | src/uaf/app/lenses/flow_lens.py:684-873 | task actions bear the time and the principal of the request; a reordering bears no principal |
| Stamps.GridIssued | src/uaf/app/lenses/grid_lens.py:326-540 | so do row and column edits |
| Stamps.RefreshIssued | src/uaf/app/lenses/grid_lens.py:258-299 | and recalculation |

## Left out

- HTTP routes, templates, scripts, the MCP server, authentication, access control, audit records and blob storage.
- File handles, zip archives and JSON text: a journal is a sequence of decoded lines, and a line of the wrong shape is
  one that does not decode; Python's coercions of ill-typed JSON are not modelled.
- SHA-256 collisions: the id carries the encoded operation.
- Floating point: layout numbers are reals, a float cell value is its decimal text, and rounding of line offsets is a
  parameter; `NaN` is excluded by asking that the equality test be reflexive.
- Strings are sequences of characters compared by code point; no normalisation.
- Eavt.InsertSorted: rows equal in their first three fields keep insertion order, whereas the source also orders them by
  transaction id; no query depends on that order.
- UndoHistory.ExactUndoRedo: speaks of one principal on one artifact with nothing interleaved; other users' undos are
  covered only by the acceptance and recovery theorems.
- UndoManagers.UndoManager.Begin: the callback is the sequence of delivered events, with no failure of the undo journal.
- FullBundles.FullRoundTripLists: the condition on child lists is exact for the history as a whole; lists that go wrong
  on the way and come right again at the end are not characterised.
- Recalculation.OnePassSettles: formula parsing and evaluation are an abstract engine that depends on the cells it
  refers to and nothing else; formula text is not rewritten when cells shift, as in the source.
- PdfText.AnnotationsAligned: font-name mapping, math-font detection and the vertical shift of a span are given with the
  span.
- DocText.LineConservedIff: style strings, baselines and the first-line weight wrapper are markup around the text and
  are reduced to which annotation a fragment carries; the single-flow renderer is not modelled.
- `get_parent`, `get_references_to`, `entries_since`, `get_history` and the counts: single expressions.
- Gantt, list and Kanban views, the Markdown, LaTeX, DOCX, GDoc and CSV handlers, PDF font maps, rotation, shapes and
  header heuristics.
