/** The layout of the dependency view of src/uaf/app/lenses/flow_lens.py: Kahn's sort and the
    longest-path layers. */
module TaskOrders {
  import opened Collections
  import opened Graphs
  import opened Nodes
  import opened Materializer
  import opened Queries
  import opened FlowLens

  function TaskIds(tasks: seq<Node>): (r: seq<NodeId>)
    ensures |r| == |tasks| && forall i :: 0 <= i < |tasks| ==> r[i] == tasks[i].meta.id
  {
    seq(|tasks|, i requires 0 <= i < |tasks| => tasks[i].meta.id)
  }

  function OnlyWithin(targets: seq<NodeId>, ids: set<NodeId>): (r: seq<NodeId>)
    ensures forall t :: t in r <==> t in targets && t in ids
  {
    if targets == [] then [] else (if targets[0] in ids then [targets[0]] else []) + OnlyWithin(targets[1..], ids)
  }

  /** The dependencies between the given tasks only. */
  function TaskGraph(s: State, ids: set<NodeId>): Graph<NodeId> {
    map id | id in ids :: OnlyWithin(DependencyTargets(GetEdgesFrom(s, id)), ids)
  }

  // What the stored edges say, apart from any graph built from them.

  /** The first task depends on the second, and so on; all are among the given ids. */
  ghost predicate DependencyPath(s: State, ids: set<NodeId>, p: seq<NodeId>) {
    && p != [] && (forall i :: 0 <= i < |p| ==> p[i] in ids)
    && forall i :: 0 <= i < |p| - 1 ==> DependsOn(s.edges.vals, p[i], p[i + 1])
  }

  ghost predicate NoCycle(s: State, ids: set<NodeId>) {
    forall p :: DependencyPath(s, ids, p) && |p| >= 2 ==> p[0] != Last(p)
  }

  /** Whatever a listed task depends on, if it is listed, comes before it. */
  ghost predicate InDependencyOrder(s: State, order: seq<NodeId>) {
    forall i, j :: 0 <= i < |order| && 0 <= j < |order| && DependsOn(s.edges.vals, order[i], order[j]) ==> j < i
  }

  /** n edges is the longest that a chain of dependencies from id can be. */
  ghost predicate LongestDependency(s: State, ids: set<NodeId>, id: NodeId, n: nat) {
    && (exists p :: DependencyPath(s, ids, p) && p[0] == id && |p| == n + 1)
    && (forall p :: DependencyPath(s, ids, p) && p[0] == id ==> |p| <= n + 1)
  }

  /** The graph holds exactly the stored dependencies between the given tasks. */
  lemma TaskGraphIsDependsOn(s: State, ids: set<NodeId>, a: NodeId, b: NodeId)
    requires Wf(s)
    ensures b in Succ(TaskGraph(s, ids), a) <==> a in ids && b in ids && DependsOn(s.edges.vals, a, b)
  {
    SuccIsTargets(s, a);
    SuccIsDependsOn(s, a, b);
    hide Deps, DependencyTargets, GetEdgesFrom, DependsOn, Wf;
  }

  lemma PathsAgree(s: State, ids: set<NodeId>, p: seq<NodeId>)
    requires Wf(s)
    ensures p != [] && p[0] in ids ==> (IsPath(TaskGraph(s, ids), p) <==> DependencyPath(s, ids, p))
    ensures |p| >= 2 && IsPath(TaskGraph(s, ids), p) ==> p[0] in ids
  {
    var g := TaskGraph(s, ids);
    hide TaskGraph, DependsOn, Wf, Succ;
    forall a, b ensures b in Succ(g, a) <==> a in ids && b in ids && DependsOn(s.edges.vals, a, b) {
      TaskGraphIsDependsOn(s, ids, a, b);
    }
    if |p| >= 2 && IsPath(g, p) {
      assert p[0 + 1] in Succ(g, p[0]);
      TaskGraphIsDependsOn(s, ids, p[0], p[1]);
    }
    if p != [] && p[0] in ids && IsPath(g, p) {
      forall i | 0 <= i < |p| ensures p[i] in ids {
        if i > 0 { assert p[i - 1 + 1] in Succ(g, p[i - 1]); }
      }
    }
  }

  lemma CyclesAgree(s: State, ids: set<NodeId>)
    requires Wf(s)
    ensures Acyclic(TaskGraph(s, ids)) <==> NoCycle(s, ids)
  {
    hide TaskGraph, DependencyPath, IsPath, Wf;
    forall p: seq<NodeId> | |p| >= 2
      ensures IsPath(TaskGraph(s, ids), p) <==> DependencyPath(s, ids, p)
    {
      PathsAgree(s, ids, p);
      PathStartsInside(s, ids, p);
    }
  }

  lemma PathStartsInside(s: State, ids: set<NodeId>, p: seq<NodeId>)
    ensures DependencyPath(s, ids, p) ==> p != [] && p[0] in ids
  {
  }

  lemma LongestAgree(s: State, ids: set<NodeId>, id: NodeId, n: nat)
    requires Wf(s) && id in ids
    ensures IsLongest(TaskGraph(s, ids), id, n) <==> LongestDependency(s, ids, id, n)
  {
    hide TaskGraph, DependencyPath, IsPath, Wf;
    forall p: seq<NodeId> | p != [] && p[0] == id
      ensures IsPath(TaskGraph(s, ids), p) <==> DependencyPath(s, ids, p)
    {
      PathsAgree(s, ids, p);
    }
    forall p ensures (DependencyPath(s, ids, p) ==> p != []) && (IsPath(TaskGraph(s, ids), p) ==> p != []) {
      PathStartsInside(s, ids, p);
      PathNotEmpty(TaskGraph(s, ids), p);
    }
  }

  lemma PathNotEmpty(g: Graph<NodeId>, p: seq<NodeId>)
    ensures IsPath(g, p) ==> p != []
  {
  }

  lemma OrdersAgree(s: State, order: seq<NodeId>)
    requires Wf(s) && Distinct(order)
    ensures Ordered(TaskGraph(s, Elements(order)), order) <==> InDependencyOrder(s, order)
  {
    var ids, g := Elements(order), TaskGraph(s, Elements(order));
    hide TaskGraph, DependsOn, Wf, Succ;
    forall a, b ensures b in Succ(g, a) <==> a in ids && b in ids && DependsOn(s.edges.vals, a, b) {
      TaskGraphIsDependsOn(s, ids, a, b);
    }
    if Ordered(g, order) {
      forall i, j | 0 <= i < |order| && 0 <= j < |order| && DependsOn(s.edges.vals, order[i], order[j]) ensures j < i {
        assert order[j] in Elements(Succ(g, order[i]));
        var k :| 0 <= k < i && order[..i][k] == order[j];
        assert order[k] == order[j];
      }
    }
    if InDependencyOrder(s, order) {
      forall i | 0 <= i < |order| ensures Elements(Succ(g, order[i])) <= Elements(order[..i]) {
        forall b | b in Succ(g, order[i]) ensures b in order[..i] {
          assert b in ids;
          var j :| 0 <= j < |order| && order[j] == b;
          assert order[..i][j] == b;
        }
      }
    }
  }

  /** For each task, the tasks it depends on. */
  type Preds = map<NodeId, set<NodeId>>

  function PredsOf(g: Graph<NodeId>): Preds {
    map id | id in g :: Elements(g[id])
  }

  /** No edge leads out of the graph. */
  ghost predicate NoWayOut(g: Graph<NodeId>) {
    forall x, y :: x in g && y in g[x] ==> y in g
  }

  /** Each element comes after everything it depends on. */
  ghost predicate Ordered(g: Graph<NodeId>, order: seq<NodeId>) {
    forall i :: 0 <= i < |order| ==> Elements(Succ(g, order[i])) <= Elements(order[..i])
  }

  // ----- Kahn's loop -----

  /** Every remaining set lacks exactly the finished tasks, what is ready waits for nothing more,
      and each finished task came after everything it depends on. */
  ghost predicate KahnInvariant(g: Graph<NodeId>, preds: Preds, finished: seq<NodeId>, ready: seq<NodeId>) {
    && preds.Keys == g.Keys
    && (forall x :: x in g ==> preds[x] == Elements(g[x]) - Elements(finished))
    && Distinct(finished + ready)
    && (forall x :: x in g && preds[x] == {} <==> x in finished + ready)
    && Ordered(g, finished)
  }

  /** The loop over all tasks that strikes out a finished one. */
  method Discharge(preds: Preds, order: seq<NodeId>, tid: NodeId) returns (preds': Preds, woken: seq<NodeId>)
    requires Distinct(order) && Elements(order) == preds.Keys
    ensures preds'.Keys == preds.Keys && forall x :: x in preds ==> preds'[x] == preds[x] - {tid}
    ensures Distinct(woken) && forall x :: x in woken <==> x in preds && preds[x] == {tid}
  {
    preds', woken := preds, [];
    for k := 0 to |order|
      invariant preds'.Keys == preds.Keys
      invariant forall x :: x in preds ==> preds'[x] == if x in order[..k] then preds[x] - {tid} else preds[x]
      invariant Distinct(woken) && forall x :: x in woken <==> x in order[..k] && preds[x] == {tid}
    {
      var other := order[k];
      assert other in Elements(order);
      assert other !in order[..k];
      assert order[..k + 1] == order[..k] + [other];
      if tid in preds'[other] {
        preds' := preds'[other := preds'[other] - {tid}];
        if preds'[other] == {} {
          woken := woken + [other];
        }
      }
    }
    assert order[..|order|] == order;
    forall x | x in preds ensures x in order { assert x in Elements(order); }
  }

  lemma FinishOne(g: Graph<NodeId>, finished: seq<NodeId>, x: NodeId)
    requires Ordered(g, finished) && Elements(Succ(g, x)) <= Elements(finished)
    ensures Ordered(g, finished + [x])
  {
    var order := finished + [x];
    forall i | 0 <= i < |order| ensures Elements(Succ(g, order[i])) <= Elements(order[..i]) {
      assert order[..i] == finished[..i];
      assert finished[..|finished|] == finished;
    }
  }

  lemma ElementsAppend<T(!new)>(s: seq<T>, x: T)
    ensures Elements(s + [x]) == Elements(s) + {x}
  {
  }

  /** What is ready waits for nothing: all it depends on is finished. */
  lemma ReadyIsFree(g: Graph<NodeId>, preds: Preds, finished: seq<NodeId>, ready: seq<NodeId>)
    requires KahnInvariant(g, preds, finished, ready) && ready != []
    ensures var tid := ready[0];
      tid in g && preds.Keys == g.Keys && tid !in finished && Elements(Succ(g, tid)) <= Elements(finished)
  {
    hide Ordered;
    var all := finished + ready;
    var tid := ready[0];
    assert all[|finished|] == tid;
    assert tid in all;
    forall k | 0 <= k < |finished| ensures finished[k] != tid { assert all[k] == finished[k]; }
    forall y | y in g[tid] ensures y in Elements(finished) { assert y !in preds[tid]; }
  }

  lemma KahnWaiting(g: Graph<NodeId>, preds: Preds, before: seq<NodeId>, tid: NodeId, preds': Preds, woken: seq<NodeId>)
    requires preds.Keys == g.Keys && preds'.Keys == preds.Keys && tid in before
    requires forall x :: x in g && preds[x] == {} <==> x in before
    requires forall x :: x in preds ==> preds'[x] == preds[x] - {tid}
    requires forall x :: x in woken <==> x in preds && preds[x] == {tid}
    ensures forall x :: x in g && preds'[x] == {} <==> x in before + woken
    ensures forall x :: x in before ==> x !in woken
  {
    forall x ensures x in g && preds'[x] == {} <==> x in before + woken {
      assert x in before + woken <==> x in before || x in woken;
    }
  }

  lemma KahnStep(g: Graph<NodeId>, preds: Preds, finished: seq<NodeId>, ready: seq<NodeId>, preds': Preds,
                 woken: seq<NodeId>)
    requires KahnInvariant(g, preds, finished, ready) && ready != []
    requires preds'.Keys == preds.Keys && forall x :: x in preds ==> preds'[x] == preds[x] - {ready[0]}
    requires Distinct(woken) && forall x :: x in woken <==> x in preds && preds[x] == {ready[0]}
    ensures KahnInvariant(g, preds', finished + [ready[0]], ready[1..] + woken)
  {
    var tid := ready[0];
    var before, after := finished + ready, (finished + [tid]) + (ready[1..] + woken);
    ReadyIsFree(g, preds, finished, ready);
    assert after == before + woken;
    assert tid in before by { assert before[|finished|] == tid; }
    hide Ordered, Distinct, Elements, Succ;
    ElementsAppend(finished, tid);
    FinishOne(g, finished, tid);
    KahnWaiting(g, preds, before, tid, preds', woken);
    DistinctAppend(before, woken);
  }

  /** When nothing is ready and the graph has no cycle, every task is finished. */
  lemma KahnEnd(g: Graph<NodeId>, preds: Preds, finished: seq<NodeId>)
    requires KahnInvariant(g, preds, finished, []) && NoWayOut(g) && Acyclic(g)
    ensures forall x :: x in g ==> x in finished
  {
    var left := set x | x in g && x !in finished;
    if left != {} {
      var next := NextLeft(g, preds, finished, left);
      NoExitMeansCycle(g, next);
    }
  }

  /** An unfinished task waits for an unfinished task. */
  lemma WaitsForLeft(g: Graph<NodeId>, preds: Preds, finished: seq<NodeId>, left: set<NodeId>, x: NodeId)
    requires KahnInvariant(g, preds, finished, []) && NoWayOut(g)
    requires (forall y :: y in left <==> y in g && y !in finished) && x in left
    ensures HasNext(g, x, left)
  {
    hide Ordered, Distinct;
    assert finished + [] == finished;
    assert preds[x] != {};
    var y :| y in preds[x];
    assert y in g[x];
  }

  lemma NextLeft(g: Graph<NodeId>, preds: Preds, finished: seq<NodeId>, left: set<NodeId>)
    returns (next: map<NodeId, NodeId>)
    requires KahnInvariant(g, preds, finished, []) && NoWayOut(g)
    requires left != {} && forall x :: x in left <==> x in g && x !in finished
    ensures next != map[] && StaysInside(g, next)
  {
    hide KahnInvariant, NoWayOut, Succ, HasNext;
    forall x | x in left ensures HasNext(g, x, left) {
      WaitsForLeft(g, preds, finished, left, x);
    }
    next := map x | x in left :: PickFrom(g, x, left);
    assert next.Keys == left;
  }

  ghost predicate HasNext(g: Graph<NodeId>, x: NodeId, left: set<NodeId>) {
    exists y :: y in left && y in Succ(g, x)
  }

  ghost function PickFrom(g: Graph<NodeId>, x: NodeId, left: set<NodeId>): (y: NodeId)
    requires HasNext(g, x, left)
    ensures y in left && y in Succ(g, x)
  {
    var y :| y in left && y in Succ(g, x); y
  }

  /** The ids in the order the loop emits them. */
  method Kahn(g: Graph<NodeId>, order: seq<NodeId>) returns (finished: seq<NodeId>)
    requires Distinct(order) && Elements(order) == g.Keys && NoWayOut(g)
    ensures Distinct(finished) && (forall x :: x in finished ==> x in g) && Ordered(g, finished)
    ensures Acyclic(g) ==> forall x :: x in g ==> x in finished
  {
    var preds := PredsOf(g);
    finished := [];
    var ready := Unblocked(preds, order);
    assert KahnInvariant(g, preds, finished, ready) by {
      assert [] + ready == ready;
      hide Distinct;
    }
    while ready != []
      invariant KahnInvariant(g, preds, finished, ready)
      decreases g.Keys - Elements(finished)
    {
      var tid := ready[0];
      ReadyIsFree(g, preds, finished, ready);
      var preds', woken := Discharge(preds, order, tid);
      KahnStep(g, preds, finished, ready, preds', woken);
      ElementsAppend(finished, tid);
      hide KahnInvariant, Elements, Distinct;
      preds, finished, ready := preds', finished + [tid], ready[1..] + woken;
    }
    KahnResult(g, preds, finished);
  }

  lemma KahnResult(g: Graph<NodeId>, preds: Preds, finished: seq<NodeId>)
    requires KahnInvariant(g, preds, finished, []) && NoWayOut(g)
    ensures Distinct(finished) && (forall x :: x in finished ==> x in g) && Ordered(g, finished)
    ensures Acyclic(g) ==> forall x :: x in g ==> x in finished
  {
    assert finished + [] == finished;
    hide Acyclic, Ordered, Elements, Distinct;
    if Acyclic(g) {
      KahnEnd(g, preds, finished);
    }
  }

  /** `[tid for tid, preds in predecessors.items() if not preds]` */
  method Unblocked(preds: Preds, order: seq<NodeId>) returns (ready: seq<NodeId>)
    requires Distinct(order) && Elements(order) == preds.Keys
    ensures Distinct(ready) && forall x :: x in ready <==> x in preds && preds[x] == {}
  {
    ready := [];
    for k := 0 to |order|
      invariant Distinct(ready) && forall x :: x in ready <==> x in order[..k] && x in preds && preds[x] == {}
    {
      assert order[k] in Elements(order) && order[k] !in order[..k];
      assert order[..k + 1] == order[..k] + [order[k]];
      if preds[order[k]] == {} {
        ready := ready + [order[k]];
      }
    }
    assert order[..|order|] == order;
    forall x | x in preds ensures x in order { assert x in Elements(order); }
  }

  // ----- _topological_sort -----

  lemma TaskGraphInside(s: State, ids: set<NodeId>)
    ensures NoWayOut(TaskGraph(s, ids))
  {
    hide DependencyTargets, GetEdgesFrom;
  }

  /** `{t.meta.id: t for t in tasks}` */
  method TaskMap(tasks: seq<Node>) returns (m: map<NodeId, Node>)
    ensures m.Keys == Elements(TaskIds(tasks))
    ensures forall id :: id in m ==> m[id] in tasks && m[id].meta.id == id
  {
    m := map[];
    for i := 0 to |tasks|
      invariant m.Keys == Elements(TaskIds(tasks)[..i])
      invariant forall id :: id in m ==> m[id] in tasks && m[id].meta.id == id
    {
      m := m[tasks[i].meta.id := tasks[i]];
    }
    assert TaskIds(tasks)[..|tasks|] == TaskIds(tasks);
  }

  /** Sets are listed in some order; so is the dictionary made from one. */
  method Enumerate(ids: set<NodeId>) returns (order: seq<NodeId>)
    ensures Distinct(order) && Elements(order) == ids
  {
    order := [];
    var todo := ids;
    while todo != {}
      invariant Distinct(order) && Elements(order) + todo == ids && Elements(order) !! todo
    {
      var id :| id in todo;
      DistinctAppend(order, [id]);
      ElementsAppend(order, id);
      assert id !in Elements(order);
      order := order + [id];
      todo := todo - {id};
    }
  }

  method BuildGraph(s: State, order: seq<NodeId>) returns (g: Graph<NodeId>)
    ensures g == TaskGraph(s, Elements(order)) && g.Keys == Elements(order)
  {
    hide DependencyTargets, GetEdgesFrom;
    var ids := set x | x in order;
    g := map[];
    for k := 0 to |order|
      invariant g == map id | id in order[..k] :: OnlyWithin(DependencyTargets(GetEdgesFrom(s, id)), ids)
    {
      assert order[..k + 1] == order[..k] + [order[k]];
      g := g[order[k] := OnlyWithin(DependencyTargets(GetEdgesFrom(s, order[k])), ids)];
    }
    assert order[..|order|] == order;
  }

  /** The unfinished tasks, in their given order. */
  function Rest(tasks: seq<Node>, finished: set<NodeId>): (r: seq<Node>)
    ensures forall t :: t in r <==> t in tasks && t.meta.id !in finished
  {
    if tasks == [] then [] else (if tasks[0].meta.id in finished then [] else [tasks[0]]) + Rest(tasks[1..], finished)
  }

  lemma {:induction false} RestDistinct(tasks: seq<Node>, finished: set<NodeId>)
    requires Distinct(tasks)
    ensures Distinct(Rest(tasks, finished))
  {
    if tasks != [] {
      RestDistinct(tasks[1..], finished);
      assert tasks[0] !in tasks[1..];
      DistinctAppend([tasks[0]], Rest(tasks[1..], finished));
      hide Distinct;
    }
  }

  lemma {:induction false} SameElements<T(!new)>(a: seq<T>, b: seq<T>)
    requires Distinct(a) && Distinct(b) && forall x :: x in a <==> x in b
    ensures multiset(a) == multiset(b)
  {
    OnceEach(a);
    OnceEach(b);
    hide Distinct;
    forall x ensures multiset(a)[x] == multiset(b)[x] { assert x in a <==> x in b; }
  }

  lemma {:induction false} OnceEach<T(!new)>(a: seq<T>)
    requires Distinct(a)
    ensures forall x :: multiset(a)[x] == if x in a then 1 else 0
  {
    if a != [] {
      OnceEach(a[1..]);
      assert a[0] !in a[1..];
      assert a == [a[0]] + a[1..];
      hide Distinct;
      forall x ensures multiset(a)[x] == if x in a then 1 else 0 { assert x in a <==> x == a[0] || x in a[1..]; }
    }
  }

  /** The emitted tasks and the rest are the given tasks again. */
  lemma SortPermutes(tasks: seq<Node>, m: map<NodeId, Node>, finished: seq<NodeId>, emitted: seq<Node>)
    requires Distinct(TaskIds(tasks)) && Distinct(finished)
    requires m.Keys == Elements(TaskIds(tasks))
    requires forall id :: id in m ==> m[id] in tasks && m[id].meta.id == id
    requires (forall id :: id in finished ==> id in m) && |emitted| == |finished|
    requires forall i :: 0 <= i < |finished| ==> emitted[i] == m[finished[i]]
    ensures multiset(emitted + Rest(tasks, Elements(finished))) == multiset(tasks)
  {
    var rest := Rest(tasks, Elements(finished));
    assert Distinct(tasks) by {
      forall i, j | 0 <= i < j < |tasks| ensures tasks[i] != tasks[j] { assert TaskIds(tasks)[i] != TaskIds(tasks)[j]; }
    }
    RestDistinct(tasks, Elements(finished));
    EmittedTasks(tasks, m, finished, emitted);
    hide Distinct;
    DistinctAppend(emitted, rest);
    forall t ensures t in emitted + rest <==> t in tasks {
      assert t in emitted + rest <==> t in emitted || t in rest;
    }
    SameElements(emitted + rest, tasks);
  }

  lemma EmittedTasks(tasks: seq<Node>, m: map<NodeId, Node>, finished: seq<NodeId>, emitted: seq<Node>)
    requires Distinct(TaskIds(tasks)) && Distinct(finished)
    requires m.Keys == Elements(TaskIds(tasks))
    requires forall id :: id in m ==> m[id] in tasks && m[id].meta.id == id
    requires (forall id :: id in finished ==> id in m) && |emitted| == |finished|
    requires forall i :: 0 <= i < |finished| ==> emitted[i] == m[finished[i]]
    ensures Distinct(emitted) && forall t :: t in emitted <==> t in tasks && t.meta.id in Elements(finished)
  {
    forall i, j | 0 <= i < j < |emitted| ensures emitted[i] != emitted[j] {
      assert emitted[i].meta.id == finished[i] && emitted[j].meta.id == finished[j];
    }
    forall t | t in emitted ensures t in tasks && t.meta.id in Elements(finished) {
      var i :| 0 <= i < |emitted| && emitted[i] == t;
      assert finished[i] in finished;
    }
    forall t | t in tasks && t.meta.id in Elements(finished) ensures t in emitted {
      var i :| 0 <= i < |finished| && finished[i] == t.meta.id;
      OneTaskPerId(tasks, t, m[finished[i]]);
    }
  }

  lemma OneTaskPerId(tasks: seq<Node>, t: Node, u: Node)
    requires Distinct(TaskIds(tasks)) && t in tasks && u in tasks && t.meta.id == u.meta.id
    ensures t == u
  {
    var i :| 0 <= i < |tasks| && tasks[i] == t;
    var j :| 0 <= j < |tasks| && tasks[j] == u;
    assert TaskIds(tasks)[i] == TaskIds(tasks)[j];
  }

  /** An order in which dependencies come first excludes cycles. */
  lemma OrderedMeansAcyclic(g: Graph<NodeId>, order: seq<NodeId>)
    requires Ordered(g, order) && forall x :: x in g ==> x in order
    ensures Acyclic(g)
  {
    hide Ordered;
    forall p | IsPath(g, p) && |p| >= 2 ensures p[0] != Last(p) {
      PathGoesBack(g, order, p);
    }
  }

  /** First position of x. */
  function PlaceIn(order: seq<NodeId>, x: NodeId): (i: nat)
    ensures i <= |order| && (i < |order| <==> x in order) && (i < |order| ==> order[i] == x)
    ensures forall j :: 0 <= j < i ==> order[j] != x
  {
    if order == [] || order[0] == x then 0 else 1 + PlaceIn(order[1..], x)
  }

  lemma DependencyIsEarlier(g: Graph<NodeId>, order: seq<NodeId>, a: NodeId, b: NodeId)
    requires Ordered(g, order) && a in order && b in Succ(g, a)
    ensures b in order && PlaceIn(order, b) < PlaceIn(order, a)
  {
    hide Succ;
    var i := PlaceIn(order, a);
    assert b in Elements(order[..i]);
    var j :| 0 <= j < i && order[..i][j] == b;
    assert order[j] == b;
  }

  lemma {:induction false} PathGoesBack(g: Graph<NodeId>, order: seq<NodeId>, p: seq<NodeId>)
    requires Ordered(g, order) && (forall x :: x in g ==> x in order) && IsPath(g, p) && |p| >= 2
    ensures Last(p) in order && PlaceIn(order, Last(p)) < PlaceIn(order, p[0])
    decreases |p|
  {
    hide Ordered, PlaceIn;
    var a, b := p[|p| - 2], p[|p| - 1];
    assert b in Succ(g, a);
    DependencyIsEarlier(g, order, a, b);
    if |p| > 2 {
      var q := Init(p);
      assert IsPath(g, q) by {
        forall i | 0 <= i < |q| - 1 ensures q[i + 1] in Succ(g, q[i]) { assert p[i + 1] in Succ(g, p[i]); }
      }
      PathGoesBack(g, order, q);
    }
  }

  lemma SortOrders(g: Graph<NodeId>, tasks: seq<Node>, finished: seq<NodeId>, emitted: seq<Node>, result: seq<Node>)
    requires g.Keys == Elements(TaskIds(tasks)) && Ordered(g, finished)
    requires Acyclic(g) ==> forall x :: x in g ==> x in finished
    requires |emitted| == |finished| && forall i :: 0 <= i < |finished| ==> emitted[i].meta.id == finished[i]
    requires result == emitted + Rest(tasks, Elements(finished)) && multiset(result) == multiset(tasks)
    ensures Ordered(g, TaskIds(result)) <==> Acyclic(g)
  {
    hide Ordered, Acyclic, Rest;
    if Ordered(g, TaskIds(result)) {
      forall x | x in g ensures x in TaskIds(result) {
        assert x in Elements(TaskIds(tasks));
        var i :| 0 <= i < |tasks| && TaskIds(tasks)[i] == x;
        assert tasks[i] in multiset(tasks);
        var j :| 0 <= j < |result| && result[j] == tasks[i];
        assert TaskIds(result)[j] == x;
      }
      OrderedMeansAcyclic(g, TaskIds(result));
    }
    if Acyclic(g) {
      NothingLeft(g, tasks, finished);
      assert TaskIds(result) == finished;
    }
  }

  lemma NothingLeft(g: Graph<NodeId>, tasks: seq<Node>, finished: seq<NodeId>)
    requires g.Keys == Elements(TaskIds(tasks)) && forall x :: x in g ==> x in finished
    ensures Rest(tasks, Elements(finished)) == []
  {
    forall i | 0 <= i < |tasks| ensures tasks[i].meta.id in Elements(finished) {
      assert TaskIds(tasks)[i] in Elements(TaskIds(tasks));
    }
    hide Elements;
    RestEmpty(tasks, Elements(finished));
  }

  lemma {:induction false} RestEmpty(tasks: seq<Node>, finished: set<NodeId>)
    requires forall i :: 0 <= i < |tasks| ==> tasks[i].meta.id in finished
    ensures Rest(tasks, finished) == []
  {
    if tasks != [] {
      RestEmpty(tasks[1..], finished);
    }
  }

  /** `result.append(task_map[tid])` for each finished id. */
  method Emit(m: map<NodeId, Node>, finished: seq<NodeId>) returns (emitted: seq<Node>)
    requires forall id :: id in finished ==> id in m
    ensures |emitted| == |finished| && forall i :: 0 <= i < |finished| ==> emitted[i] == m[finished[i]]
  {
    emitted := [];
    for i := 0 to |finished|
      invariant |emitted| == i && forall j :: 0 <= j < i ==> emitted[j] == m[finished[j]]
    {
      emitted := emitted + [m[finished[i]]];
    }
  }

  lemma RestFirst(tasks: seq<Node>, visited: set<NodeId>)
    requires tasks != []
    ensures Rest(tasks, visited) == (if tasks[0].meta.id in visited then [] else [tasks[0]]) + Rest(tasks[1..], visited)
  {
  }

  lemma RestRound(tasks: seq<Node>, visited: set<NodeId>, i: nat, rest: seq<Node>)
    requires i < |tasks|
    ensures rest + Rest(tasks[i..], visited) ==
            (if tasks[i].meta.id in visited then rest else rest + [tasks[i]]) + Rest(tasks[i + 1..], visited)
  {
    hide Rest;
    assert tasks[i..][1..] == tasks[i + 1..];
    RestFirst(tasks[i..], visited);
  }

  method CollectRest(tasks: seq<Node>, visited: set<NodeId>) returns (rest: seq<Node>)
    ensures rest == Rest(tasks, visited)
  {
    rest := [];
    for i := 0 to |tasks|
      invariant rest + Rest(tasks[i..], visited) == Rest(tasks, visited)
    {
      hide Rest;
      RestRound(tasks, visited, i, rest);
      if tasks[i].meta.id !in visited {
        rest := rest + [tasks[i]];
      }
    }
  }

  lemma SortKeepsIds(tasks: seq<Node>, finished: seq<NodeId>, emitted: seq<Node>)
    requires (forall id :: id in finished ==> id in Elements(TaskIds(tasks))) && |emitted| == |finished|
    requires forall i :: 0 <= i < |finished| ==> emitted[i].meta.id == finished[i]
    ensures Elements(TaskIds(emitted + Rest(tasks, Elements(finished)))) == Elements(TaskIds(tasks))
  {
    var result := emitted + Rest(tasks, Elements(finished));
    HasId(tasks);
    HasId(result);
    hide TaskIds, Rest;
    forall id ensures id in Elements(TaskIds(result)) <==> id in Elements(TaskIds(tasks)) {
      if i :| 0 <= i < |finished| && finished[i] == id {
        assert emitted[i] in result;
      } else {
        assert forall t :: t in result && t.meta.id == id ==> t in Rest(tasks, Elements(finished));
        assert forall t :: t in Rest(tasks, Elements(finished)) ==> t in result;
      }
    }
  }

  lemma HasId(tasks: seq<Node>)
    ensures forall id :: id in Elements(TaskIds(tasks)) <==> exists t :: t in tasks && t.meta.id == id
  {
    forall id | id in TaskIds(tasks) ensures exists t :: t in tasks && t.meta.id == id {
      var i :| 0 <= i < |tasks| && TaskIds(tasks)[i] == id;
      assert tasks[i] in tasks;
    }
    forall t | t in tasks ensures t.meta.id in TaskIds(tasks) {
      var i :| 0 <= i < |tasks| && tasks[i] == t;
      assert TaskIds(tasks)[i] == t.meta.id;
    }
  }

  /** _topological_sort.  For tasks with distinct ids the result is a permutation of them, cycles
      or not; and it puts every task after all it depends on if and only if there is no cycle. */
  method TopologicalSort(s: State, tasks: seq<Node>) returns (result: seq<Node>, preds: Preds)
    ensures preds == PredsOf(TaskGraph(s, Elements(TaskIds(tasks))))
    ensures Wf(s) ==> forall a, b {:trigger b in preds[a]} ::
      a in preds ==> (b in preds[a] <==> b in Elements(TaskIds(tasks)) && DependsOn(s.edges.vals, a, b))
    ensures Elements(TaskIds(result)) == Elements(TaskIds(tasks))
    ensures Distinct(TaskIds(tasks)) ==> multiset(result) == multiset(tasks)
    ensures Distinct(TaskIds(tasks)) ==>
      var g := TaskGraph(s, Elements(TaskIds(tasks)));
      Ordered(g, TaskIds(result)) <==> Acyclic(g)
    ensures Wf(s) && Distinct(TaskIds(tasks)) ==>
      (InDependencyOrder(s, TaskIds(result)) <==> NoCycle(s, Elements(TaskIds(tasks))))
  {
    var m := TaskMap(tasks);
    var order := Enumerate(m.Keys);
    var g := BuildGraph(s, order);
    TaskGraphInside(s, m.Keys);
    hide TaskGraph, Acyclic, Ordered, NoWayOut;
    preds := PredsOf(g);
    var finished := Kahn(g, order);
    forall id | id in finished ensures id in m { assert id in m.Keys; }
    var emitted := Emit(m, finished);
    var rest := CollectRest(tasks, set x | x in finished);
    result := emitted + rest;
    SortKeepsIds(tasks, finished, emitted);
    if Distinct(TaskIds(tasks)) {
      hide Distinct;
      SortPermutes(tasks, m, finished, emitted);
      SortOrders(g, tasks, finished, emitted, result);
    }
    if Wf(s) { SortMeans(s, tasks, result); }
  }

  /** The result of the sort, in terms of the stored dependencies. */
  lemma SortMeans(s: State, tasks: seq<Node>, result: seq<Node>)
    requires Wf(s)
    requires Elements(TaskIds(result)) == Elements(TaskIds(tasks))
    requires Distinct(TaskIds(tasks)) ==> multiset(result) == multiset(tasks)
    requires var g := TaskGraph(s, Elements(TaskIds(tasks)));
      Distinct(TaskIds(tasks)) ==> (Ordered(g, TaskIds(result)) <==> Acyclic(g))
    ensures var preds := PredsOf(TaskGraph(s, Elements(TaskIds(tasks))));
      forall a, b {:trigger b in preds[a]} ::
        a in preds ==> (b in preds[a] <==> b in Elements(TaskIds(tasks)) && DependsOn(s.edges.vals, a, b))
    ensures Distinct(TaskIds(tasks)) ==>
      (InDependencyOrder(s, TaskIds(result)) <==> NoCycle(s, Elements(TaskIds(tasks))))
  {
    PredsMean(s, Elements(TaskIds(tasks)));
    CyclesAgree(s, Elements(TaskIds(tasks)));
    hide TaskGraph, Acyclic, Ordered, Wf, InDependencyOrder, NoCycle, DependsOn, PredsOf;
    if Distinct(TaskIds(tasks)) {
      PermutedIds(tasks, result);
      OrdersAgree(s, TaskIds(result));
    }
  }

  lemma PredsMean(s: State, ids: set<NodeId>)
    requires Wf(s)
    ensures var preds := PredsOf(TaskGraph(s, ids));
      forall a, b {:trigger b in preds[a]} :: a in preds
        ==> (b in preds[a] <==> b in ids && DependsOn(s.edges.vals, a, b))
  {
    var g := TaskGraph(s, ids);
    TaskGraphKeys(s, ids);
    hide TaskGraph, DependsOn, Wf;
    forall a, b ensures b in Succ(g, a) <==> a in ids && b in ids && DependsOn(s.edges.vals, a, b) {
      TaskGraphIsDependsOn(s, ids, a, b);
    }
  }

  /** A permutation of tasks with distinct ids has distinct ids. */
  lemma PermutedIds(tasks: seq<Node>, result: seq<Node>)
    requires Distinct(TaskIds(tasks)) && multiset(result) == multiset(tasks)
    ensures Distinct(TaskIds(result))
  {
    forall i, j | 0 <= i < j < |result| ensures result[i].meta.id != result[j].meta.id {
      assert result[i] in multiset(result) && result[j] in multiset(result);
      if result[i].meta.id == result[j].meta.id {
        OneTaskPerId(tasks, result[i], result[j]);
        TwiceCounted(result, i, j);
        assert Distinct(tasks) by {
          forall k, l | 0 <= k < l < |tasks| ensures tasks[k] != tasks[l] {
            assert TaskIds(tasks)[k] != TaskIds(tasks)[l];
          }
        }
        OnceEach(tasks);
      }
    }
  }

  lemma TwiceCounted<T(!new)>(a: seq<T>, i: nat, j: nat)
    requires i < j < |a| && a[i] == a[j]
    ensures multiset(a)[a[i]] >= 2
  {
    assert a == a[..j] + [a[j]] + a[j + 1..];
    assert a[..j][i] in multiset(a[..j]);
  }

  // ----- the layers of _render_dag -----

  /** n edges is the longest that a dependency path from id can be. */
  ghost predicate IsLongest(g: Graph<NodeId>, id: NodeId, n: nat) {
    && (exists p :: IsPath(g, p) && p[0] == id && |p| == n + 1)
    && (forall p :: IsPath(g, p) && p[0] == id ==> |p| <= n + 1)
  }

  /** n is one more than the greatest layer among those already placed, or 0 when there is none. */
  ghost predicate OneAbove(layer: map<NodeId, nat>, preds: set<NodeId>, n: nat) {
    && (forall p :: p in preds && p in layer ==> layer[p] < n)
    && (n > 0 ==> exists p :: p in preds && p in layer && layer[p] == n - 1)
  }

  method NextLayer(layer: map<NodeId, nat>, preds: set<NodeId>) returns (n: nat)
    ensures OneAbove(layer, preds, n)
  {
    n := 0;
    var todo := preds;
    while todo != {}
      invariant todo <= preds
      invariant forall p :: p in preds && p !in todo && p in layer ==> layer[p] < n
      invariant n > 0 ==> exists p :: p in preds && p in layer && layer[p] == n - 1
    {
      var p :| p in todo;
      if p in layer && n <= layer[p] {
        n := layer[p] + 1;
      }
      todo := todo - {p};
    }
  }

  lemma TailPath(g: Graph<NodeId>, p: seq<NodeId>)
    requires IsPath(g, p) && |p| >= 2
    ensures IsPath(g, p[1..]) && p[1] in Succ(g, p[0])
  {
    forall i | 0 <= i < |p[1..]| - 1 ensures p[1..][i + 1] in Succ(g, p[1..][i]) {
      assert p[i + 1 + 1] in Succ(g, p[i + 1]);
    }
  }

  lemma HeadPath(g: Graph<NodeId>, id: NodeId, p: seq<NodeId>)
    requires IsPath(g, p) && p[0] in Succ(g, id)
    ensures IsPath(g, [id] + p)
  {
    var q := [id] + p;
    forall i | 0 <= i < |q| - 1 ensures q[i + 1] in Succ(g, q[i]) {
      if i > 0 { assert p[i - 1 + 1] in Succ(g, p[i - 1]); }
    }
  }

  /** One above correct layers is a correct layer. */
  lemma LayerIsLongest(g: Graph<NodeId>, layer: map<NodeId, nat>, id: NodeId, n: nat)
    requires forall m :: m in Succ(g, id) ==> m in layer && IsLongest(g, m, layer[m])
    requires OneAbove(layer, Elements(Succ(g, id)), n)
    ensures IsLongest(g, id, n)
  {
    forall p | IsPath(g, p) && p[0] == id ensures |p| <= n + 1 {
      PathIsShort(g, layer, id, n, p);
    }
    SomePathIsLong(g, layer, id, n);
  }

  lemma PathIsShort(g: Graph<NodeId>, layer: map<NodeId, nat>, id: NodeId, n: nat, p: seq<NodeId>)
    requires forall m :: m in Succ(g, id) ==> m in layer && IsLongest(g, m, layer[m])
    requires OneAbove(layer, Elements(Succ(g, id)), n) && IsPath(g, p) && p[0] == id
    ensures |p| <= n + 1
  {
    hide IsPath;
    if |p| >= 2 {
      TailPath(g, p);
      var m := p[1];
      assert m in Elements(Succ(g, id)) && IsLongest(g, m, layer[m]);
      assert p[1..][0] == m;
    }
  }

  lemma SomePathIsLong(g: Graph<NodeId>, layer: map<NodeId, nat>, id: NodeId, n: nat)
    requires forall m :: m in Succ(g, id) ==> m in layer && IsLongest(g, m, layer[m])
    requires OneAbove(layer, Elements(Succ(g, id)), n)
    ensures exists p :: IsPath(g, p) && p[0] == id && |p| == n + 1
  {
    hide IsPath;
    if n == 0 {
      SinglePath(g, id);
      assert [id][0] == id && |[id]| == 1;
    } else {
      var m :| m in Elements(Succ(g, id)) && m in layer && layer[m] == n - 1;
      var p :| |p| == n && IsPath(g, p) && p[0] == m;
      HeadPath(g, id, p);
      assert ([id] + p)[0] == id && |[id] + p| == n + 1;
    }
  }

  lemma LayerRound(g: Graph<NodeId>, order: seq<NodeId>, i: nat, layer: map<NodeId, nat>, n: nat)
    requires Ordered(g, order) && i < |order| && order[i] in g && layer.Keys == Elements(order[..i])
    requires forall id :: id in layer ==> IsLongest(g, id, layer[id])
    requires OneAbove(layer, Elements(g[order[i]]), n)
    ensures IsLongest(g, order[i], n)
  {
    hide IsLongest, OneAbove;
    forall m | m in Succ(g, order[i]) ensures m in layer {
      assert m in Elements(Succ(g, order[i]));
      assert m in layer.Keys;
    }
    LayerIsLongest(g, layer, order[i], n);
  }

  /** The layers of the first i tasks are right, provided the tasks are in order. */
  ghost predicate LayersRight(g: Graph<NodeId>, order: seq<NodeId>, i: nat, layer: map<NodeId, nat>) {
    && i <= |order| && layer.Keys == Elements(order[..i])
    && (Ordered(g, order) ==> forall id :: id in layer ==> IsLongest(g, id, layer[id]))
  }

  lemma PlaceNext(g: Graph<NodeId>, order: seq<NodeId>, i: nat, layer: map<NodeId, nat>, n: nat)
    requires LayersRight(g, order, i, layer) && i < |order| && order[i] in g
    requires OneAbove(layer, Elements(g[order[i]]), n)
    ensures LayersRight(g, order, i + 1, layer[order[i] := n])
  {
    hide IsLongest, OneAbove, Ordered;
    assert order[..i + 1] == order[..i] + [order[i]];
    ElementsAppend(order[..i], order[i]);
    if Ordered(g, order) {
      LayerRound(g, order, i, layer, n);
    }
  }

  /** The loop over the sorted tasks: when they are in order, the layer of every task is the
      length of its longest dependency path. */
  method Layers(g: Graph<NodeId>, sorted: seq<Node>, preds: Preds) returns (layer: map<NodeId, nat>)
    requires preds == PredsOf(g) && Elements(TaskIds(sorted)) == g.Keys
    ensures layer.Keys == g.Keys
    ensures Ordered(g, TaskIds(sorted)) ==> forall id :: id in layer ==> IsLongest(g, id, layer[id])
  {
    ghost var order := TaskIds(sorted);
    layer := map[];
    for i := 0 to |sorted|
      invariant LayersRight(g, order, i, layer)
    {
      hide LayersRight, OneAbove;
      assert sorted[i].meta.id == order[i] && order[i] in Elements(order);
      assert order[i] in g.Keys;
      var n := NextLayer(layer, preds[sorted[i].meta.id]);
      PlaceNext(g, order, i, layer, n);
      layer := layer[sorted[i].meta.id := n];
    }
    assert order[..|sorted|] == order;
  }

  /** The two together, as the dependency view calls them: without a cycle the rows are the tasks in
      dependency order and each is placed as far in as its longest chain of dependencies is long. */
  method PlaceTasks(s: State, tasks: seq<Node>) returns (sorted: seq<Node>, layer: map<NodeId, nat>)
    requires Distinct(TaskIds(tasks))
    ensures multiset(sorted) == multiset(tasks) && layer.Keys == Elements(TaskIds(tasks))
    ensures var g := TaskGraph(s, Elements(TaskIds(tasks)));
      && (Acyclic(g) <==> Ordered(g, TaskIds(sorted)))
      && (Acyclic(g) ==> forall id :: id in layer ==> IsLongest(g, id, layer[id]))
    ensures Wf(s) ==> (NoCycle(s, Elements(TaskIds(tasks))) <==> InDependencyOrder(s, TaskIds(sorted)))
    ensures Wf(s) && NoCycle(s, Elements(TaskIds(tasks))) ==>
      forall id :: id in layer ==> LongestDependency(s, Elements(TaskIds(tasks)), id, layer[id])
  {
    hide TaskGraph, Acyclic, Ordered, IsLongest, TaskIds, PredsOf, Distinct, NoCycle, InDependencyOrder,
      LongestDependency, Wf, DependsOn;
    var preds;
    sorted, preds := TopologicalSort(s, tasks);
    var ids := set id | id in TaskIds(tasks);
    assert ids == Elements(TaskIds(tasks));
    TaskGraphKeys(s, ids);
    layer := Layers(TaskGraph(s, ids), sorted, preds);
    if Wf(s) {
      CyclesAgree(s, ids);
      forall id | id in layer
        ensures IsLongest(TaskGraph(s, ids), id, layer[id]) <==> LongestDependency(s, ids, id, layer[id])
      {
        LongestAgree(s, ids, id, layer[id]);
      }
    }
  }

  lemma TaskGraphKeys(s: State, ids: set<NodeId>)
    ensures TaskGraph(s, ids).Keys == ids
  {
    hide OnlyWithin, DependencyTargets, GetEdgesFrom;
  }

  lemma TaskGraphAcyclic(s: State, ids: set<NodeId>)
    requires Wf(s) && Acyclic(Deps(s))
    ensures Acyclic(TaskGraph(s, ids))
  {
    var g := TaskGraph(s, ids);
    hide Deps, DependencyTargets, GetEdgesFrom, Acyclic, Wf;
    forall x, y | y in Succ(g, x) ensures y in Succ(Deps(s), x) { SuccIsTargets(s, x); }
    FewerEdgesKeepAcyclic(Deps(s), g);
  }

  /** Whatever the lens has done since an acyclic state, every set of tasks can be laid out so. */
  lemma RunsCanBeLaidOut(s: State, actions: seq<(FlowAction, Request)>, ids: set<NodeId>)
    requires Wf(s) && Acyclic(Deps(s))
    ensures Acyclic(TaskGraph(ActAll(s, actions), ids)) && NoCycle(ActAll(s, actions), ids)
  {
    hide Acyclic, Deps, Wf, TaskGraph, ActAll, NoCycle;
    RunsStayAcyclic(s, actions);
    TaskGraphAcyclic(ActAll(s, actions), ids);
    CyclesAgree(ActAll(s, actions), ids);
  }
}
