/**
 Dependency graphs of tasks: walks, directed cycles, topological sequences, and the facts that
 tie them together.  A graph maps each task id to the list of ids it depends on; a dependency on
 an id outside the graph is no edge, as in the source.
 */
module DependencyGraphs {
  type TaskId = string

  /** What the executor returns or raises; the source only stores it. */
  type Value(==, !new)

  datatype TaskError = ExecutorRaised(message: Value) | HandlerRaised | CircularDependency | TaskNotFound
  type Graph = map<TaskId, seq<TaskId>>

  /** `t` depends on `d`, and both are tasks of the graph. */
  ghost predicate Edge(g: Graph, d: TaskId, t: TaskId) {
    t in g && d in g && d in g[t]
  }

  /** Every element of `p` is followed by a task that depends on it. */
  ghost predicate IsWalk(g: Graph, p: seq<TaskId>) {
    forall i :: 0 <= i < |p| - 1 ==> Edge(g, p[i], p[i + 1])
  }

  ghost predicate IsCycle(g: Graph, p: seq<TaskId>) {
    |p| >= 2 && p[0] == p[|p| - 1] && IsWalk(g, p)
  }

  ghost predicate Cyclic(g: Graph) {
    exists p :: IsCycle(g, p)
  }

  ghost predicate NoDuplicates<T>(s: seq<T>) {
    forall i, j :: 0 <= i < j < |s| ==> s[i] != s[j]
  }

  ghost function Elements<T(!new)>(s: seq<T>): (r: set<T>)
    ensures forall x :: x in r <==> x in s
  {
    set x | x in s
  }

  /** A duplicate-free list of tasks in which every in-graph dependency comes earlier. */
  ghost predicate Topological(g: Graph, s: seq<TaskId>) {
    && NoDuplicates(s)
    && (forall k :: 0 <= k < |s| ==> s[k] in g)
    && (forall k, d :: 0 <= k < |s| && Edge(g, d, s[k]) ==> d in s[..k])
  }

  /** All in-graph dependencies of `t` are in `s`. */
  ghost predicate DependenciesIn(g: Graph, s: seq<TaskId>, t: TaskId) {
    forall d :: Edge(g, d, t) ==> d in s
  }

  /** Nothing can be added to `s`: a task whose in-graph dependencies are all in `s` is in `s`. */
  ghost predicate Saturated(g: Graph, s: seq<TaskId>) {
    forall t {:trigger DependenciesIn(g, s, t)} :: t in g && DependenciesIn(g, s, t) ==> t in s
  }

  ghost predicate HasPredecessorIn(g: Graph, u: set<TaskId>, t: TaskId) {
    exists d :: d in u && Edge(g, d, t)
  }

  /** Every member of `u` waits for another member of `u`. */
  ghost predicate Stuck(g: Graph, u: set<TaskId>) {
    forall t {:trigger HasPredecessorIn(g, u, t)} :: t in u ==> HasPredecessorIn(g, u, t)
  }

  // ---------------------------------------------------------------- sequences and their sets

  lemma AppendOne<T>(a: seq<T>, s: seq<T>, j: nat)
    requires j < |s|
    ensures a + s[..j + 1] == a + s[..j] + [s[j]]
  {
  }

  lemma {:induction false} DistinctCardinality<T(!new)>(s: seq<T>)
    requires NoDuplicates(s)
    ensures |Elements(s)| == |s|
  {
    if s == [] {
      assert Elements(s) == {};
    } else {
      var rest := s[..|s| - 1];
      DistinctCardinality(rest);
      assert s[|s| - 1] !in rest;
      assert Elements(s) == Elements(rest) + {s[|s| - 1]};
    }
  }

  lemma SubsetCardinality<T>(a: set<T>, b: set<T>)
    requires a <= b
    ensures |a| <= |b|
    ensures |a| == |b| ==> a == b
  {
    assert b == a + (b - a);
    assert |b| == |a| + |b - a|;
  }

  // ---------------------------------------------------------------- cycles

  /** A rank that grows along every edge rules out cycles. */
  lemma {:induction false} RankedWalk(g: Graph, rank: map<TaskId, int>, p: seq<TaskId>)
    requires |p| >= 2 && IsWalk(g, p)
    requires forall t :: t in g ==> t in rank
    requires forall d, t :: Edge(g, d, t) ==> rank[d] < rank[t]
    ensures p[0] in rank && p[|p| - 1] in rank && rank[p[0]] < rank[p[|p| - 1]]
  {
    assert Edge(g, p[|p| - 2], p[|p| - 1]);
    if |p| > 2 {
      RankedWalk(g, rank, p[..|p| - 1]);
    }
  }

  lemma RankedIsAcyclic(g: Graph, rank: map<TaskId, int>)
    requires forall t :: t in g ==> t in rank
    requires forall d, t :: Edge(g, d, t) ==> rank[d] < rank[t]
    ensures !Cyclic(g)
  {
    if Cyclic(g) {
      var p :| IsCycle(g, p);
      RankedWalk(g, rank, p);
      assert false;
    }
  }

  ghost function FirstIndex(s: seq<TaskId>, x: TaskId): (i: nat)
    requires x in s
    ensures i < |s| && s[i] == x && forall j :: 0 <= j < i ==> s[j] != x
  {
    if s[0] == x then 0 else 1 + FirstIndex(s[1..], x)
  }

  ghost function IndexMap(s: seq<TaskId>): (m: map<TaskId, int>)
    ensures forall x :: x in m <==> x in s
    ensures forall x :: x in m ==> 0 <= m[x] < |s| && s[m[x]] == x
    ensures forall x, j :: x in m && 0 <= j < m[x] ==> s[j] != x
  {
    map x | x in s :: FirstIndex(s, x)
  }

  /** A topological list of the whole graph exists only when there is no cycle. */
  lemma TopologicalIsAcyclic(g: Graph, s: seq<TaskId>)
    requires Topological(g, s) && forall t :: t in g ==> t in s
    ensures !Cyclic(g)
  {
    var rank := IndexMap(s);
    forall d, t | Edge(g, d, t) ensures rank[d] < rank[t] {
      var k := rank[t];
      assert d in s[..k];
      var j :| 0 <= j < k && s[j] == d;
    }
    RankedIsAcyclic(g, rank);
  }

  /** A list in which every successor comes earlier (a DFS finishing order) also rules out cycles. */
  lemma FinishingOrderIsAcyclic(g: Graph, s: seq<TaskId>)
    requires forall t :: t in g ==> t in s
    requires forall k, t :: 0 <= k < |s| && Edge(g, s[k], t) ==> t in s[..k]
    ensures !Cyclic(g)
  {
    var index := IndexMap(s);
    var rank := map x | x in index :: -index[x];
    forall d, t | Edge(g, d, t) ensures rank[d] < rank[t] {
      var k := index[d];
      assert s[k] == d;
      assert t in s[..k];
      var j :| 0 <= j < k && s[j] == t;
    }
    RankedIsAcyclic(g, rank);
  }

  /** Walking backwards inside a finite set in which everyone has a predecessor closes a cycle. */
  lemma {:induction false} BackwardWalk(g: Graph, u: set<TaskId>, p: seq<TaskId>)
    requires |p| >= 1 && NoDuplicates(p) && IsWalk(g, p) && Elements(p) <= u
    requires Stuck(g, u)
    ensures exists c :: IsCycle(g, c) && Elements(c) <= u
    decreases |u| - |p|
  {
    assert p[0] in u;
    assert HasPredecessorIn(g, u, p[0]);
    var d :| d in u && Edge(g, d, p[0]);
    var q := [d] + p;
    if d in p {
      var i :| 0 <= i < |p| && p[i] == d;
      var c := [d] + p[..i + 1];
      assert forall k :: 0 <= k < |c| - 1 ==> Edge(g, c[k], c[k + 1]);
      assert IsCycle(g, c);
      assert forall x :: x in c ==> x in p || x == d;
    } else {
      assert Elements(q) <= u;
      DistinctCardinality(q);
      SubsetCardinality(Elements(q), u);
      assert forall k :: 0 <= k < |q| - 1 ==> Edge(g, q[k], q[k + 1]);
      BackwardWalk(g, u, q);
    }
  }

  lemma StuckSetHasCycle(g: Graph, u: set<TaskId>)
    requires u != {}
    requires Stuck(g, u)
    ensures exists c :: IsCycle(g, c) && Elements(c) <= u
    ensures Cyclic(g)
  {
    var t :| t in u;
    BackwardWalk(g, u, [t]);
  }

  // ---------------------------------------------------------------- what a saturated list says

  /** A saturated topological list covers the graph exactly when the graph has no cycle. */
  lemma SaturatedCoversIffAcyclic(g: Graph, s: seq<TaskId>)
    requires Topological(g, s) && Saturated(g, s)
    ensures Elements(s) == g.Keys <==> !Cyclic(g)
  {
    if Elements(s) == g.Keys {
      TopologicalIsAcyclic(g, s);
    } else {
      assert Elements(s) <= g.Keys;
      var u := g.Keys - Elements(s);
      assert g.Keys == Elements(s) + u;
      forall t | t in u ensures HasPredecessorIn(g, u, t) {
        assert !DependenciesIn(g, s, t);
      }
      StuckSetHasCycle(g, u);
    }
  }

  /** A saturated topological list holds every task that any topological list holds. */
  lemma {:induction false} SaturatedIsMaximal(g: Graph, s: seq<TaskId>, other: seq<TaskId>)
    requires Saturated(g, s) && Topological(g, other)
    ensures Elements(other) <= Elements(s)
    decreases |other|
  {
    if other != [] {
      var n := |other| - 1;
      var init := other[..n];
      forall k, d | 0 <= k < |init| && Edge(g, d, init[k]) ensures d in init[..k] {
        assert d in other[..k];
        assert other[..k] == init[..k];
      }
      SaturatedIsMaximal(g, s, init);
      assert DependenciesIn(g, s, other[n]);
      assert forall x :: x in other ==> x in init || x == other[n];
    }
  }

  /** Cycles depend on the edge relation alone. */
  lemma SameEdgesSameCycles(g: Graph, h: Graph)
    requires forall d, t :: Edge(g, d, t) <==> Edge(h, d, t)
    ensures Cyclic(g) <==> Cyclic(h)
  {
    if Cyclic(g) {
      var p :| IsCycle(g, p);
      assert IsCycle(h, p);
    }
    if Cyclic(h) {
      var p :| IsCycle(h, p);
      assert IsCycle(g, p);
    }
  }
}
