/** Reachability and acyclicity in finite directed graphs, and the stack-driven walks that the
    log, the containment tree and the dependency graph all use. */
module Graphs {
  import opened Collections

  /** Successor lists; a vertex without an entry has no successors. */
  type Graph<!N(!new, ==)> = map<N, seq<N>>

  function Succ<N(!new, ==)>(g: Graph<N>, n: N): seq<N> {
    if n in g then g[n] else []
  }

  /** A nonempty walk along edges. */
  ghost predicate IsPath<N(!new)>(g: Graph<N>, p: seq<N>) {
    && |p| >= 1
    && forall i {:trigger Succ(g, p[i])} :: 0 <= i < |p| - 1 ==> p[i + 1] in Succ(g, p[i])
  }

  ghost predicate PathFromTo<N(!new)>(g: Graph<N>, p: seq<N>, a: N, b: N) {
    IsPath(g, p) && p[0] == a && Last(p) == b
  }

  ghost predicate Reaches<N(!new)>(g: Graph<N>, a: N, b: N) {
    exists p :: PathFromTo(g, p, a, b)
  }

  /** No walk of one edge or more returns to its start. */
  ghost predicate Acyclic<N(!new)>(g: Graph<N>) {
    forall p :: IsPath(g, p) && |p| >= 2 ==> p[0] != Last(p)
  }

  lemma SinglePath<N(!new)>(g: Graph<N>, a: N)
    ensures IsPath(g, [a])
  {
  }

  lemma ReachesSelf<N(!new)>(g: Graph<N>, a: N)
    ensures Reaches(g, a, a)
  {
    assert PathFromTo(g, [a], a, a);
  }

  lemma JoinPaths<N(!new)>(g: Graph<N>, p: seq<N>, q: seq<N>)
    requires IsPath(g, p) && IsPath(g, q) && Last(p) == q[0]
    ensures PathFromTo(g, p + q[1..], p[0], Last(q))
  {
    var r := p + q[1..];
    forall i | 0 <= i < |r| - 1 ensures r[i + 1] in Succ(g, r[i]) {
      if i >= |p| - 1 {
        assert r[i] == q[i - (|p| - 1)] && r[i + 1] == q[i - (|p| - 1) + 1];
      }
    }
  }

  lemma ReachesTransitive<N(!new)>(g: Graph<N>, a: N, b: N, c: N)
    requires Reaches(g, a, b) && Reaches(g, b, c)
    ensures Reaches(g, a, c)
  {
    var p :| PathFromTo(g, p, a, b);
    var q :| PathFromTo(g, q, b, c);
    JoinPaths(g, p, q);
  }

  lemma ReachesStep<N(!new)>(g: Graph<N>, a: N, b: N, c: N)
    requires Reaches(g, a, b) && c in Succ(g, b)
    ensures Reaches(g, a, c)
  {
    assert PathFromTo(g, [b, c], b, c);
    ReachesTransitive(g, a, b, c);
  }

  /** A set holding `a` and closed under successors holds everything `a` reaches. */
  lemma ClosedHoldsReachable<N(!new)>(g: Graph<N>, s: set<N>, a: N, b: N)
    requires a in s && Reaches(g, a, b)
    requires forall n, m :: n in s && m in Succ(g, n) ==> m in s
    ensures b in s
  {
    var p :| PathFromTo(g, p, a, b);
    for i := 0 to |p| - 1
      invariant p[i] in s
    {
    }
  }

  // ----- adding an edge -----

  ghost predicate Adds<N(!new)>(g: Graph<N>, g': Graph<N>, s: N, t: N) {
    forall n, m :: m in Succ(g', n) ==> m in Succ(g, n) || (n == s && m == t)
  }

  /** A walk in the larger graph either avoids the new edge or reaches its source first and
      leaves from its target last. */
  lemma {:induction false} WalkThroughNewEdge<N(!new)>(g: Graph<N>, g': Graph<N>, s: N, t: N, p: seq<N>)
    requires Adds(g, g', s, t) && IsPath(g', p)
    ensures IsPath(g, p) || (Reaches(g, p[0], s) && Reaches(g, t, Last(p)))
    decreases |p|
  {
    if |p| > 1 {
      var q := Init(p);
      var a, b := Last(q), Last(p);
      assert p[|p| - 2 + 1] in Succ(g', p[|p| - 2]);
      assert IsPath(g', q) by {
        forall i | 0 <= i < |q| - 1 ensures q[i + 1] in Succ(g', q[i]) { assert p[i + 1] in Succ(g', p[i]); }
      }
      WalkThroughNewEdge(g, g', s, t, q);
      if b in Succ(g, a) {
        if IsPath(g, q) {
          ExtendPath(g, q, b);
          assert q + [b] == p;
        } else {
          ReachesStep(g, t, a, b);
        }
      } else {
        ReachesSelf(g, t);
        if IsPath(g, q) {
          assert PathFromTo(g, q, p[0], s);
        }
      }
    }
  }

  lemma ExtendPath<N(!new)>(g: Graph<N>, q: seq<N>, b: N)
    requires IsPath(g, q) && b in Succ(g, Last(q))
    ensures IsPath(g, q + [b])
  {
    var r := q + [b];
    forall i | 0 <= i < |r| - 1 ensures r[i + 1] in Succ(g, r[i]) {
      if i < |q| - 1 {
        assert q[i + 1] in Succ(g, q[i]);
      }
    }
  }

  lemma AddEdgeKeepsAcyclic<N(!new)>(g: Graph<N>, g': Graph<N>, s: N, t: N)
    requires Acyclic(g) && Adds(g, g', s, t) && !Reaches(g, t, s)
    ensures Acyclic(g')
  {
    forall p | IsPath(g', p) && |p| >= 2 ensures p[0] != Last(p) {
      WalkThroughNewEdge(g, g', s, t, p);
      if p[0] == Last(p) && !IsPath(g, p) {
        ReachesTransitive(g, t, p[0], s);
      }
    }
  }

  lemma FewerEdgesKeepAcyclic<N(!new)>(g: Graph<N>, g': Graph<N>)
    requires Acyclic(g) && forall n, m :: m in Succ(g', n) ==> m in Succ(g, n)
    ensures Acyclic(g')
  {
    forall p | IsPath(g', p) && |p| >= 2 ensures p[0] != Last(p) {
      assert IsPath(g, p);
    }
  }

  /** An edge closing a walk back makes a cycle: the guard refuses nothing it need not. */
  lemma ClosingEdgeMakesCycle<N(!new)>(g: Graph<N>, g': Graph<N>, s: N, t: N)
    requires Reaches(g, t, s) && t in Succ(g', s)
    requires forall n, m :: m in Succ(g, n) ==> m in Succ(g', n)
    ensures !Acyclic(g')
  {
    var p :| PathFromTo(g, p, t, s);
    assert IsPath(g', p);
    ExtendPath(g', p, t);
    assert Last(p + [t]) == (p + [t])[0];
  }

  /** The two together: the larger graph is acyclic exactly when t does not reach s. */
  lemma AcyclicIff<N(!new)>(g: Graph<N>, g': Graph<N>, s: N, t: N)
    requires Acyclic(g) && Adds(g, g', s, t) && t in Succ(g', s)
    requires forall n, m :: m in Succ(g, n) ==> m in Succ(g', n)
    ensures Acyclic(g') <==> s != t && !Reaches(g, t, s)
  {
    ReachesSelf(g, s);
    hide Acyclic, Reaches, Succ, Adds;
    if Reaches(g, t, s) {
      ClosingEdgeMakesCycle(g, g', s, t);
    } else {
      AddEdgeKeepsAcyclic(g, g', s, t);
    }
  }

  // ----- infinite descent -----

  lemma {:induction false} DistinctFits<N(!new)>(p: seq<N>, s: set<N>)
    requires Distinct(p) && forall x :: x in p ==> x in s
    ensures |p| <= |s|
  {
    if p != [] {
      DistinctFits(p[1..], s - {p[0]});
    }
  }

  /** Each vertex of the map has the mapped vertex as a successor, and that one is a key too. */
  ghost predicate StaysInside<N(!new)>(g: Graph<N>, next: map<N, N>) {
    forall n {:trigger next[n]} :: n in next ==> next[n] in next && next[n] in Succ(g, n)
  }

  lemma {:induction false} LongWalk<N(!new)>(g: Graph<N>, next: map<N, N>, a: N, k: nat) returns (p: seq<N>)
    requires a in next && StaysInside(g, next)
    ensures IsPath(g, p) && |p| == k + 1
    ensures forall i :: 0 <= i < |p| ==> p[i] in next
  {
    hide IsPath, Succ;
    if k == 0 {
      SinglePath(g, a);
      p := [a];
    } else {
      var q := LongWalk(g, next, a, k - 1);
      ExtendPath(g, q, next[Last(q)]);
      p := q + [next[Last(q)]];
    }
  }

  lemma RepeatMeansCycle<N(!new)>(g: Graph<N>, p: seq<N>, i: nat, j: nat)
    requires IsPath(g, p) && i < j < |p| && p[i] == p[j]
    ensures !Acyclic(g)
  {
    var c := p[i..j + 1];
    forall k | 0 <= k < |c| - 1 ensures c[k + 1] in Succ(g, c[k]) {
      assert p[i + k + 1] in Succ(g, p[i + k]);
    }
    assert IsPath(g, c) && |c| >= 2 && c[0] == Last(c);
  }

  /** When every member of a nonempty finite set has a successor in it, there is a cycle. */
  lemma NoExitMeansCycle<N(!new)>(g: Graph<N>, next: map<N, N>)
    requires next != map[] && StaysInside(g, next)
    ensures !Acyclic(g)
  {
    var a :| a in next;
    var p := LongWalk(g, next, a, |next.Keys|);
    hide IsPath, Acyclic, StaysInside;
    if Distinct(p) {
      DistinctFits(p, next.Keys);
    } else {
      var i, j :| 0 <= i < j < |p| && p[i] == p[j];
      RepeatMeansCycle(g, p, i, j);
    }
  }

  // ----- stack-driven walks -----

  /** Every vertex that occurs in the graph. */
  ghost function Vertices<N(!new)>(g: Graph<N>): set<N> {
    set n, m | n in g.Keys && m in g[n] :: m
  }

  /** What a walk with a stack and a visited set keeps true: the visited vertices and the stack
      are reachable, and every successor of a visited vertex is visited or waiting. */
  ghost predicate WalkInvariant<N(!new)>(g: Graph<N>, a: N, visited: set<N>, stack: seq<N>) {
    && (a in visited || a in stack)
    && (forall n :: n in visited || n in stack ==> Reaches(g, a, n))
    && (forall n, m :: n in visited && m in Succ(g, n) ==> m in visited || m in stack)
    && (forall n :: n in visited || n in stack ==> n in Vertices(g) + {a})
  }

  lemma WalkStart<N(!new)>(g: Graph<N>, a: N)
    ensures WalkInvariant(g, a, {}, [a])
  {
    ReachesSelf(g, a);
  }

  lemma WalkStackInside<N(!new)>(g: Graph<N>, a: N, visited: set<N>, stack: seq<N>)
    requires WalkInvariant(g, a, visited, stack) && stack != []
    ensures Last(stack) in Vertices(g) + {a} && Reaches(g, a, Last(stack))
  {
    assert Last(stack) in stack;
  }

  /** Skipping a vertex met before. */
  lemma WalkSkip<N(!new)>(g: Graph<N>, a: N, visited: set<N>, stack: seq<N>)
    requires WalkInvariant(g, a, visited, stack) && stack != [] && Last(stack) in visited
    ensures WalkInvariant(g, a, visited, Init(stack))
  {
    assert forall n :: n in stack ==> n in Init(stack) || n == Last(stack);
  }

  /** Visiting a new vertex and pushing at least its unvisited successors. */
  lemma WalkVisit<N(!new)>(g: Graph<N>, a: N, visited: set<N>, stack: seq<N>, pushed: seq<N>)
    requires WalkInvariant(g, a, visited, stack) && stack != []
    requires forall m :: m in pushed ==> m in Succ(g, Last(stack))
    requires forall m :: m in Succ(g, Last(stack)) ==> m in pushed || m in visited || m == Last(stack)
    ensures WalkInvariant(g, a, visited + {Last(stack)}, Init(stack) + pushed)
  {
    var c := Last(stack);
    assert c in stack;
    assert forall n :: n in stack <==> n in Init(stack) || n == c;
    forall m | m in pushed ensures Reaches(g, a, m) && m in Vertices(g) {
      ReachesStep(g, a, c, m);
    }
  }

  lemma WalkEnd<N(!new)>(g: Graph<N>, a: N, visited: set<N>)
    requires WalkInvariant(g, a, visited, [])
    ensures forall n :: n in visited <==> Reaches(g, a, n)
  {
    forall n | Reaches(g, a, n) ensures n in visited {
      ClosedHoldsReachable(g, visited, a, n);
    }
  }
}
