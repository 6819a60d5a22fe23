/**
 Task graphs of a goal (src/ai/goal_task_graph.py): Kahn's ordering and the depth-first cycle
 check.  Both read the same list of task nodes and must agree about the same dependency relation.
 */
module TaskOrdering {
  import opened Options
  import opened DependencyGraphs

  datatype TaskStatus = Pending | Ready | Running | Completed | Failed | Skipped

  datatype TaskNode = TaskNode(
    id: TaskId,
    dependsOn: seq<TaskId>,
    status: TaskStatus,
    assignedAgent: Option<nat>,
    result: Option<Value>,
    error: Option<TaskError>)

  function Ids(nodes: seq<TaskNode>): (r: seq<TaskId>)
    ensures |r| == |nodes| && forall k :: 0 <= k < |r| ==> r[k] == nodes[k].id
  {
    seq(|nodes|, k requires 0 <= k < |nodes| => nodes[k].id)
  }

  ghost predicate DistinctIds(nodes: seq<TaskNode>) {
    NoDuplicates(Ids(nodes))
  }

  /** All dependencies listed under the id `t`, in the order the loops meet them. */
  ghost function DependenciesOf(nodes: seq<TaskNode>, t: TaskId): seq<TaskId> {
    if nodes == [] then []
    else
      var last := nodes[|nodes| - 1];
      DependenciesOf(nodes[..|nodes| - 1], t) + if last.id == t then last.dependsOn else []
  }

  ghost function GraphOf(nodes: seq<TaskNode>): (g: Graph)
    ensures g.Keys == Elements(Ids(nodes))
  {
    map t | t in Elements(Ids(nodes)) :: DependenciesOf(nodes, t)
  }

  lemma {:induction false} DependenciesOfMember(nodes: seq<TaskNode>, t: TaskId, d: TaskId)
    ensures d in DependenciesOf(nodes, t) <==>
            exists k :: 0 <= k < |nodes| && nodes[k].id == t && d in nodes[k].dependsOn
  {
    if nodes != [] {
      var n := |nodes| - 1;
      DependenciesOfMember(nodes[..n], t, d);
      if k :| 0 <= k < |nodes| && nodes[k].id == t && d in nodes[k].dependsOn {
        assert k < n ==> nodes[..n][k] == nodes[k];
      }
    }
  }

  lemma IdsMember(nodes: seq<TaskNode>, t: TaskId)
    ensures t in Ids(nodes) <==> exists n :: n in nodes && n.id == t
  {
    if t in Ids(nodes) {
      var k :| 0 <= k < |nodes| && Ids(nodes)[k] == t;
      assert nodes[k] in nodes;
    }
    if n :| n in nodes && n.id == t {
      var k :| 0 <= k < |nodes| && nodes[k] == n;
      assert Ids(nodes)[k] == t;
    }
  }

  /** The edges of the graph are the dependencies written in the nodes. */
  lemma GraphOfEdge(nodes: seq<TaskNode>, d: TaskId, t: TaskId)
    ensures Edge(GraphOf(nodes), d, t) <==>
            d in Ids(nodes) && exists n :: n in nodes && n.id == t && d in n.dependsOn
  {
    DependenciesOfMember(nodes, t, d);
    IdsMember(nodes, t);
    if k :| 0 <= k < |nodes| && nodes[k].id == t && d in nodes[k].dependsOn {
      assert nodes[k] in nodes;
    }
    if n :| n in nodes && n.id == t && d in n.dependsOn {
      var k :| 0 <= k < |nodes| && nodes[k] == n;
    }
  }

  // ---------------------------------------------------------------- adjacency lists

  /** The number of positions of `s` that hold a member of `u`. */
  ghost function CountIn(s: seq<TaskId>, u: set<TaskId>): nat {
    if s == [] then 0
    else CountIn(s[..|s| - 1], u) + if s[|s| - 1] in u then 1 else 0
  }

  lemma CountInAppend(s: seq<TaskId>, x: TaskId, u: set<TaskId>)
    ensures CountIn(s + [x], u) == CountIn(s, u) + if x in u then 1 else 0
  {
    assert (s + [x])[..|s|] == s;
  }

  lemma {:induction false} CountInZero(s: seq<TaskId>, u: set<TaskId>)
    ensures CountIn(s, u) == 0 <==> forall x :: x in s ==> x !in u
  {
    if s != [] {
      var n := |s| - 1;
      CountInZero(s[..n], u);
      assert forall x :: x in s <==> x in s[..n] || x == s[n];
    }
  }

  lemma {:induction false} CountInRemove(s: seq<TaskId>, u: set<TaskId>, c: TaskId)
    requires c in u
    ensures CountIn(s, u) == CountIn(s, u - {c}) + multiset(s)[c]
  {
    if s != [] {
      var n := |s| - 1;
      CountInRemove(s[..n], u, c);
      assert s == s[..n] + [s[n]];
    }
  }

  /** `t` occurs in the successor list of `d` as often as `t` names `d` as a dependency. */
  ghost predicate Tallied(g: Graph, adj: map<TaskId, seq<TaskId>>, d: TaskId, t: TaskId)
    requires d in adj && t in g
  {
    multiset(adj[d])[t] == multiset(g[t])[d]
  }

  ghost predicate Within(s: seq<TaskId>, u: set<TaskId>) {
    forall k :: 0 <= k < |s| ==> s[k] in u
  }

  /** `adj[d]` lists each task once for every time that task names `d` as a dependency. */
  ghost predicate IsAdjacency(g: Graph, adj: map<TaskId, seq<TaskId>>) {
    && adj.Keys == g.Keys
    && (forall d {:trigger adj[d]} :: d in adj ==> Within(adj[d], g.Keys))
    && (forall d, t {:trigger Tallied(g, adj, d, t)} :: d in g && t in g ==> Tallied(g, adj, d, t))
  }

  lemma AdjacencyEdges(g: Graph, adj: map<TaskId, seq<TaskId>>, d: TaskId, t: TaskId)
    requires IsAdjacency(g, adj) && d in g
    ensures t in adj[d] <==> Edge(g, d, t)
  {
    if t in g {
      assert Tallied(g, adj, d, t);
      assert t in multiset(adj[d]) <==> d in multiset(g[t]);
    }
  }

  /** `deps` lists, for every task, the dependencies the two loops have met so far. */
  ghost predicate Counted(adj: map<TaskId, seq<TaskId>>, inDegree: map<TaskId, int>, deps: Graph, ids: set<TaskId>) {
    && IsAdjacency(deps, adj)
    && inDegree.Keys == deps.Keys == ids
    && (forall t :: t in ids ==> inDegree[t] == CountIn(deps[t], ids))
  }

  lemma TallyStep(deps: Graph, adj: map<TaskId, seq<TaskId>>, dep: TaskId, t: TaskId, d: TaskId, u: TaskId)
    requires d in adj && u in deps && dep in adj && t in deps && Tallied(deps, adj, d, u)
    ensures Tallied(deps[t := deps[t] + [dep]], adj[dep := adj[dep] + [t]], d, u)
  {
    assert multiset(adj[dep] + [t]) == multiset(adj[dep]) + multiset{t};
    assert multiset(deps[t] + [dep]) == multiset(deps[t]) + multiset{dep};
  }

  lemma TallyElsewhere(deps: Graph, adj: map<TaskId, seq<TaskId>>, dep: TaskId, t: TaskId, d: TaskId, u: TaskId)
    requires d in adj && u in deps && t in deps && dep != d && Tallied(deps, adj, d, u)
    ensures Tallied(deps[t := deps[t] + [dep]], adj, d, u)
  {
    assert multiset(deps[t] + [dep]) == multiset(deps[t]) + multiset{dep};
  }

  /** One more dependency `dep` of the task `t`, a task of the list: both tables record it. */
  lemma CountedInside(adj: map<TaskId, seq<TaskId>>, inDegree: map<TaskId, int>, deps: Graph,
                      ids: set<TaskId>, dep: TaskId, t: TaskId)
    requires Counted(adj, inDegree, deps, ids) && t in ids && dep in ids
    ensures Counted(adj[dep := adj[dep] + [t]], inDegree[t := inDegree[t] + 1],
                    deps[t := deps[t] + [dep]], ids)
  {
    CountInAppend(deps[t], dep, ids);
    var deps' := deps[t := deps[t] + [dep]];
    var adj' := adj[dep := adj[dep] + [t]];
    assert adj'.Keys == deps'.Keys == ids;
    forall d, u | d in ids && u in ids ensures Tallied(deps', adj', d, u) {
      assert Tallied(deps, adj, d, u);
      TallyStep(deps, adj, dep, t, d, u);
    }
  }

  /** A dependency on an id outside the list is recorded nowhere. */
  lemma CountedOutside(adj: map<TaskId, seq<TaskId>>, inDegree: map<TaskId, int>, deps: Graph,
                       ids: set<TaskId>, dep: TaskId, t: TaskId)
    requires Counted(adj, inDegree, deps, ids) && t in ids && dep !in ids
    ensures Counted(adj, inDegree, deps[t := deps[t] + [dep]], ids)
  {
    CountInAppend(deps[t], dep, ids);
    var deps' := deps[t := deps[t] + [dep]];
    assert deps'.Keys == ids;
    forall d, u | d in ids && u in ids ensures Tallied(deps', adj, d, u) {
      assert Tallied(deps, adj, d, u);
      TallyElsewhere(deps, adj, dep, t, d, u);
    }
  }

  /** The graph of the whole list, restricted to what its first `i` nodes say. */
  ghost function PartialGraph(nodes: seq<TaskNode>, i: nat): (g: Graph)
    requires i <= |nodes|
    ensures g.Keys == Elements(Ids(nodes))
  {
    map t | t in Elements(Ids(nodes)) :: DependenciesOf(nodes[..i], t)
  }

  lemma PartialGraphStep(nodes: seq<TaskNode>, i: nat)
    requires i < |nodes|
    ensures nodes[i].id in Ids(nodes)
    ensures var g := PartialGraph(nodes, i);
            PartialGraph(nodes, i + 1) == Extended(g, nodes[i].id, nodes[i].dependsOn)
  {
    assert Ids(nodes)[i] == nodes[i].id;
    assert nodes[..i + 1][..i] == nodes[..i];
    var g, h := PartialGraph(nodes, i), PartialGraph(nodes, i + 1);
    forall t | t in g ensures h[t] == if t == nodes[i].id then g[t] + nodes[i].dependsOn else g[t] {}
  }

  ghost function Extended(g: Graph, t: TaskId, more: seq<TaskId>): Graph
    requires t in g
  {
    g[t := g[t] + more]
  }

  lemma ExtendedEnds(g: Graph, t: TaskId, s: seq<TaskId>)
    requires t in g
    ensures Extended(g, t, s[..0]) == g
    ensures Extended(g, t, s[..|s|]) == Extended(g, t, s)
  {
    assert s[..|s|] == s;
    assert g[t] + s[..0] == g[t];
  }

  lemma ExtendedStep(g: Graph, t: TaskId, s: seq<TaskId>, j: nat)
    requires t in g && j < |s|
    ensures Extended(g, t, s[..j + 1]) == Extended(Extended(g, t, s[..j]), t, [s[j]])
  {
    AppendOne(g[t], s, j);
  }

  /** The body of the inner loop. */
  method AddDependency(t: TaskId, dep: TaskId, adj0: map<TaskId, seq<TaskId>>, inDegree0: map<TaskId, int>,
                       ghost deps: Graph, ghost ids: set<TaskId>)
      returns (adj: map<TaskId, seq<TaskId>>, inDegree: map<TaskId, int>)
    requires Counted(adj0, inDegree0, deps, ids) && t in ids
    ensures Counted(adj, inDegree, Extended(deps, t, [dep]), ids)
  {
    adj, inDegree := adj0, inDegree0;
    if dep in inDegree {
      CountedInside(adj, inDegree, deps, ids, dep, t);
      adj := adj[dep := adj[dep] + [t]];
      inDegree := inDegree[t := inDegree[t] + 1];
    } else {
      CountedOutside(adj, inDegree, deps, ids, dep, t);
    }
  }

  /** The inner loop: the dependencies of one task. */
  method AddDependencies(task: TaskNode, adj0: map<TaskId, seq<TaskId>>, inDegree0: map<TaskId, int>,
                         ghost deps: Graph, ghost ids: set<TaskId>)
      returns (adj: map<TaskId, seq<TaskId>>, inDegree: map<TaskId, int>)
    requires Counted(adj0, inDegree0, deps, ids) && task.id in ids
    ensures Counted(adj, inDegree, Extended(deps, task.id, task.dependsOn), ids)
  {
    adj, inDegree := adj0, inDegree0;
    ExtendedEnds(deps, task.id, task.dependsOn);
    for j := 0 to |task.dependsOn|
      invariant Counted(adj, inDegree, Extended(deps, task.id, task.dependsOn[..j]), ids)
    {
      ghost var now := Extended(deps, task.id, task.dependsOn[..j]);
      adj, inDegree := AddDependency(task.id, task.dependsOn[j], adj, inDegree, now, ids);
      ExtendedStep(deps, task.id, task.dependsOn, j);
    }
  }

  lemma CountedStart(nodes: seq<TaskNode>, adj: map<TaskId, seq<TaskId>>, inDegree: map<TaskId, int>)
    requires adj.Keys == inDegree.Keys == Elements(Ids(nodes))
    requires forall t :: t in adj ==> adj[t] == [] && inDegree[t] == 0
    ensures Counted(adj, inDegree, PartialGraph(nodes, 0), adj.Keys)
  {
  }

  /** The loops that open both algorithms: successor lists and in-degrees. */
  method BuildAdjacency(nodes: seq<TaskNode>)
      returns (adj: map<TaskId, seq<TaskId>>, inDegree: map<TaskId, int>)
    ensures Counted(adj, inDegree, GraphOf(nodes), GraphOf(nodes).Keys)
  {
    ghost var ids := Elements(Ids(nodes));
    var taskIds := Ids(nodes);
    adj := map t | t in taskIds :: [];
    inDegree := map t | t in taskIds :: 0;
    assert adj.Keys == ids && inDegree.Keys == ids;
    CountedStart(nodes, adj, inDegree);
    for i := 0 to |nodes|
      invariant Counted(adj, inDegree, PartialGraph(nodes, i), ids)
    {
      PartialGraphStep(nodes, i);
      adj, inDegree := AddDependencies(nodes[i], adj, inDegree, PartialGraph(nodes, i), ids);
    }
    assert nodes[..|nodes|] == nodes;
  }

  // ---------------------------------------------------------------- Kahn's algorithm

  function Positive(inDegree: map<TaskId, int>): (r: set<TaskId>) {
    set t | t in inDegree && inDegree[t] > 0
  }

  /** The loop over the successors of one emitted task: each in-degree falls by one per listing,
      and a task is queued at the moment its in-degree reaches zero. */
  method Relax(successors: seq<TaskId>, inDegree0: map<TaskId, int>)
      returns (inDegree: map<TaskId, int>, freed: seq<TaskId>)
    requires Within(successors, inDegree0.Keys)
    ensures inDegree.Keys == inDegree0.Keys
    ensures forall t :: t in inDegree ==> inDegree[t] == inDegree0[t] - multiset(successors)[t]
    ensures NoDuplicates(freed)
    ensures forall t :: t in freed <==> t in inDegree && inDegree0[t] > 0 && inDegree[t] <= 0
  {
    inDegree, freed := inDegree0, [];
    for k := 0 to |successors|
      invariant inDegree.Keys == inDegree0.Keys
      invariant forall t :: t in inDegree ==> inDegree[t] == inDegree0[t] - multiset(successors[..k])[t]
      invariant NoDuplicates(freed)
      invariant forall t :: t in freed <==> t in inDegree && inDegree0[t] > 0 && inDegree[t] <= 0
    {
      var neighbor := successors[k];
      assert successors[..k + 1] == successors[..k] + [neighbor];
      inDegree := inDegree[neighbor := inDegree[neighbor] - 1];
      if inDegree[neighbor] == 0 {
        freed := freed + [neighbor];
      }
    }
    assert successors[..|successors|] == successors;
  }

  lemma RelaxMeasure(inDegree0: map<TaskId, int>, inDegree: map<TaskId, int>, freed: seq<TaskId>)
    requires inDegree.Keys == inDegree0.Keys && NoDuplicates(freed)
    requires forall t :: t in inDegree ==> inDegree[t] <= inDegree0[t]
    requires forall t :: t in freed <==> t in inDegree && inDegree0[t] > 0 && inDegree[t] <= 0
    ensures |Positive(inDegree0)| == |Positive(inDegree)| + |freed|
  {
    DistinctCardinality(freed);
    assert Positive(inDegree0) == Positive(inDegree) + Elements(freed);
    assert Positive(inDegree) !! Elements(freed);
  }

  /** What holds between two rounds of Kahn's loop when the ids are distinct. */
  ghost predicate KahnState(g: Graph, order: seq<TaskId>, queue: seq<TaskId>, inDegree: map<TaskId, int>) {
    && inDegree.Keys == g.Keys
    && NoDuplicates(order + queue)
    && (forall t :: t in order + queue <==> t in g && inDegree[t] == 0)
    && (forall t :: t in g ==> inDegree[t] == CountIn(g[t], g.Keys - Elements(order)))
    && Topological(g, order)
  }

  /** Emitting the head of the queue adds a task whose dependencies are all emitted. */
  lemma EmitIsTopological(g: Graph, order: seq<TaskId>, queue: seq<TaskId>, inDegree: map<TaskId, int>)
    requires KahnState(g, order, queue, inDegree) && queue != []
    ensures queue[0] in g && queue[0] !in order
    ensures Topological(g, order + [queue[0]])
  {
    var c := queue[0];
    assert (order + queue)[|order|] == c;
    assert forall i :: 0 <= i < |order| ==> order[i] == (order + queue)[i];
    CountInZero(g[c], g.Keys - Elements(order));
    var next := order + [c];
    forall i, j | 0 <= i < j < |next| ensures next[i] != next[j] {
      assert next[i] == (order + queue)[i] && next[j] == (order + queue)[j];
    }
    forall k, d | 0 <= k < |next| && Edge(g, d, next[k]) ensures d in next[..k] {
      if k < |order| {
        assert next[..k] == order[..k];
      } else {
        assert next[..k] == order;
      }
    }
  }

  lemma KahnStep(g: Graph, adj: map<TaskId, seq<TaskId>>, order: seq<TaskId>, queue: seq<TaskId>,
                 inDegree0: map<TaskId, int>, inDegree: map<TaskId, int>, freed: seq<TaskId>)
    requires IsAdjacency(g, adj) && KahnState(g, order, queue, inDegree0) && queue != []
    requires queue[0] in adj && inDegree.Keys == inDegree0.Keys
    requires forall t :: t in inDegree ==> inDegree[t] == inDegree0[t] - multiset(adj[queue[0]])[t]
    requires NoDuplicates(freed)
    requires forall t :: t in freed <==> t in inDegree && inDegree0[t] > 0 && inDegree[t] <= 0
    ensures KahnState(g, order + [queue[0]], queue[1..] + freed, inDegree)
  {
    var c := queue[0];
    EmitIsTopological(g, order, queue, inDegree0);
    var order', queue' := order + [c], queue[1..] + freed;
    var rest := g.Keys - Elements(order);
    assert g.Keys - Elements(order') == rest - {c};
    forall t | t in g ensures inDegree[t] == CountIn(g[t], rest - {c}) {
      CountInRemove(g[t], rest, c);
      assert Tallied(g, adj, c, t);
    }
    assert order' + queue' == (order + queue) + freed by {
      assert queue == [c] + queue[1..];
    }
    forall t | t in g ensures t in order' + queue' <==> inDegree[t] == 0 {
      assert t in order' + queue' <==> t in order + queue || t in freed;
    }
    DistinctTogether(order + queue, freed);
  }

  lemma DistinctTogether<T>(a: seq<T>, b: seq<T>)
    requires NoDuplicates(a) && NoDuplicates(b) && forall x :: x in a ==> x !in b
    ensures NoDuplicates(a + b)
  {
    forall i, j | 0 <= i < j < |a + b| ensures (a + b)[i] != (a + b)[j] {
      if i < |a| <= j {
        assert a[i] in a && b[j - |a|] in b;
      }
    }
  }

  lemma KahnDone(g: Graph, order: seq<TaskId>, inDegree: map<TaskId, int>)
    requires KahnState(g, order, [], inDegree)
    ensures Topological(g, order) && Saturated(g, order)
  {
    assert order + [] == order;
    forall t | t in g && DependenciesIn(g, order, t) ensures t in order {
      forall d | d in g[t] ensures d !in g.Keys - Elements(order) {
        assert d in g ==> Edge(g, d, t);
      }
      CountInZero(g[t], g.Keys - Elements(order));
    }
  }

  /** The bookkeeping that needs no distinct ids: nothing is emitted more often than it is listed. */
  ghost predicate Bounded(ids: seq<TaskId>, emitted: seq<TaskId>, inDegree: map<TaskId, int>) {
    && multiset(emitted) <= multiset(ids)
    && forall t :: t in emitted ==> t in inDegree && inDegree[t] <= 0
  }

  lemma BoundedStep(ids: seq<TaskId>, emitted: seq<TaskId>, emitted': seq<TaskId>,
                    inDegree0: map<TaskId, int>, inDegree: map<TaskId, int>, freed: seq<TaskId>)
    requires Bounded(ids, emitted, inDegree0) && inDegree.Keys == inDegree0.Keys == Elements(ids)
    requires forall t :: t in inDegree ==> inDegree[t] <= inDegree0[t]
    requires forall t :: t in freed <==> t in inDegree && inDegree0[t] > 0 && inDegree[t] <= 0
    requires NoDuplicates(freed) && emitted' == emitted + freed
    ensures Bounded(ids, emitted', inDegree)
  {
    NoDuplicatesCount(freed);
    forall t ensures multiset(emitted')[t] <= multiset(ids)[t] {
      assert multiset(emitted')[t] == multiset(emitted)[t] + multiset(freed)[t];
      if t in freed {
        assert t in ids && t !in emitted;
      }
    }
  }

  lemma {:induction false} NoDuplicatesCount(s: seq<TaskId>)
    requires NoDuplicates(s)
    ensures forall t :: multiset(s)[t] <= 1
  {
    if s != [] {
      var n := |s| - 1;
      NoDuplicatesCount(s[..n]);
      assert s == s[..n] + [s[n]];
      assert s[n] !in s[..n];
    }
  }

  /** The ids with in-degree zero, in list order. */
  method InitialQueue(ids: seq<TaskId>, inDegree: map<TaskId, int>) returns (queue: seq<TaskId>)
    requires Within(ids, inDegree.Keys)
    ensures multiset(queue) <= multiset(ids)
    ensures forall t :: t in queue <==> t in ids && inDegree[t] == 0
    ensures NoDuplicates(ids) ==> NoDuplicates(queue)
  {
    queue := [];
    for i := 0 to |ids|
      invariant multiset(queue) <= multiset(ids[..i])
      invariant forall t :: t in queue <==> t in ids[..i] && inDegree[t] == 0
      invariant NoDuplicates(ids) ==> NoDuplicates(queue)
    {
      assert ids[..i + 1] == ids[..i] + [ids[i]];
      if inDegree[ids[i]] == 0 {
        queue := queue + [ids[i]];
      }
    }
    assert ids[..|ids|] == ids;
  }

  ghost predicate KahnInvariant(nodes: seq<TaskNode>, adj: map<TaskId, seq<TaskId>>, order: seq<TaskId>,
                                queue: seq<TaskId>, inDegree: map<TaskId, int>)
  {
    && inDegree.Keys == GraphOf(nodes).Keys
    && IsAdjacency(GraphOf(nodes), adj)
    && Bounded(Ids(nodes), order + queue, inDegree)
    && (DistinctIds(nodes) ==> KahnState(GraphOf(nodes), order, queue, inDegree))
  }

  /** The head of the queue has a successor list inside the graph. */
  lemma QueueHead(nodes: seq<TaskNode>, adj: map<TaskId, seq<TaskId>>, order: seq<TaskId>,
                  queue: seq<TaskId>, inDegree: map<TaskId, int>)
    requires KahnInvariant(nodes, adj, order, queue, inDegree) && queue != []
    ensures queue[0] in adj && Within(adj[queue[0]], inDegree.Keys)
  {
    assert (order + queue)[|order|] == queue[0];
    assert queue[0] in order + queue;
  }

  lemma KahnRound(nodes: seq<TaskNode>, adj: map<TaskId, seq<TaskId>>, order: seq<TaskId>, queue: seq<TaskId>,
                  inDegree0: map<TaskId, int>, inDegree: map<TaskId, int>, freed: seq<TaskId>)
    requires KahnInvariant(nodes, adj, order, queue, inDegree0) && queue != []
    requires queue[0] in adj && inDegree.Keys == inDegree0.Keys
    requires forall t :: t in inDegree ==> inDegree[t] == inDegree0[t] - multiset(adj[queue[0]])[t]
    requires NoDuplicates(freed)
    requires forall t :: t in freed <==> t in inDegree && inDegree0[t] > 0 && inDegree[t] <= 0
    ensures KahnInvariant(nodes, adj, order + [queue[0]], queue[1..] + freed, inDegree)
    ensures |queue[1..] + freed| + |Positive(inDegree)| < |queue| + |Positive(inDegree0)|
  {
    var c := queue[0];
    assert |queue[1..] + freed| + |Positive(inDegree)| < |queue| + |Positive(inDegree0)| by {
      RelaxMeasure(inDegree0, inDegree, freed);
    }
    assert Bounded(Ids(nodes), order + [c] + (queue[1..] + freed), inDegree) by {
      RoundIsBounded(Ids(nodes), order, queue, inDegree0, inDegree, freed);
    }
    assert DistinctIds(nodes) ==> KahnState(GraphOf(nodes), order + [c], queue[1..] + freed, inDegree) by {
      if DistinctIds(nodes) {
        KahnStep(GraphOf(nodes), adj, order, queue, inDegree0, inDegree, freed);
      }
    }
  }

  lemma RoundIsBounded(ids: seq<TaskId>, order: seq<TaskId>, queue: seq<TaskId>,
                       inDegree0: map<TaskId, int>, inDegree: map<TaskId, int>, freed: seq<TaskId>)
    requires Bounded(ids, order + queue, inDegree0) && queue != []
    requires inDegree.Keys == inDegree0.Keys == Elements(ids)
    requires forall t :: t in inDegree ==> inDegree[t] <= inDegree0[t]
    requires NoDuplicates(freed)
    requires forall t :: t in freed <==> t in inDegree && inDegree0[t] > 0 && inDegree[t] <= 0
    ensures Bounded(ids, order + [queue[0]] + (queue[1..] + freed), inDegree)
  {
    var next := order + [queue[0]] + (queue[1..] + freed);
    assert next == (order + queue) + freed by {
      assert queue == [queue[0]] + queue[1..];
    }
    BoundedStep(ids, order + queue, next, inDegree0, inDegree, freed);
  }

  lemma KahnEnd(nodes: seq<TaskNode>, adj: map<TaskId, seq<TaskId>>, order: seq<TaskId>, inDegree: map<TaskId, int>)
    requires KahnInvariant(nodes, adj, order, [], inDegree)
    ensures multiset(order) <= multiset(Ids(nodes))
    ensures DistinctIds(nodes) ==> Topological(GraphOf(nodes), order) && Saturated(GraphOf(nodes), order)
  {
    assert order + [] == order;
    if DistinctIds(nodes) {
      KahnDone(GraphOf(nodes), order, inDegree);
    }
  }

  /** The queue loop.  With distinct ids it emits exactly the largest topological list. */
  method KahnOrder(nodes: seq<TaskNode>) returns (order: seq<TaskId>)
    ensures multiset(order) <= multiset(Ids(nodes))
    ensures DistinctIds(nodes) ==> Topological(GraphOf(nodes), order) && Saturated(GraphOf(nodes), order)
  {
    var adj, inDegree := BuildAdjacency(nodes);
    var queue := InitialQueue(Ids(nodes), inDegree);
    order := [];
    KahnStart(nodes, adj, inDegree, queue);
    while queue != []
      invariant KahnInvariant(nodes, adj, order, queue, inDegree)
      decreases |queue| + |Positive(inDegree)|
    {
      QueueHead(nodes, adj, order, queue, inDegree);
      var current := queue[0];
      var next, freed := Relax(adj[current], inDegree);
      KahnRound(nodes, adj, order, queue, inDegree, next, freed);
      order, queue, inDegree := order + [current], queue[1..] + freed, next;
    }
    KahnEnd(nodes, adj, order, inDegree);
  }

  lemma KahnStart(nodes: seq<TaskNode>, adj: map<TaskId, seq<TaskId>>, inDegree: map<TaskId, int>, queue: seq<TaskId>)
    requires Counted(adj, inDegree, GraphOf(nodes), GraphOf(nodes).Keys)
    requires multiset(queue) <= multiset(Ids(nodes))
    requires forall t :: t in queue <==> t in Ids(nodes) && inDegree[t] == 0
    requires DistinctIds(nodes) ==> NoDuplicates(queue)
    ensures KahnInvariant(nodes, adj, [], queue, inDegree)
  {
    var g := GraphOf(nodes);
    assert [] + queue == queue;
    assert g.Keys - Elements([]) == g.Keys;
  }

  // ---------------------------------------------------------------- depth-first cycle check

  /** Every successor of a finished task finished earlier. */
  ghost predicate FinishingOrder(g: Graph, finished: seq<TaskId>) {
    forall k, t :: 0 <= k < |finished| && Edge(g, finished[k], t) ==> t in finished[..k]
  }

  /** The visited tasks are the recursion stack, which is a walk, and the finished tasks. */
  ghost predicate DfsState(g: Graph, visited: set<TaskId>, stack: set<TaskId>,
                           path: seq<TaskId>, finished: seq<TaskId>)
  {
    && stack <= visited <= g.Keys
    && Elements(path) == stack && IsWalk(g, path)
    && Elements(finished) == visited - stack
    && FinishingOrder(g, finished)
  }

  /** An edge from the top of the stack back into the stack closes a cycle. */
  lemma BackEdgeClosesCycle(g: Graph, path: seq<TaskId>, neighbor: TaskId)
    requires path != [] && IsWalk(g, path) && neighbor in path
    requires Edge(g, path[|path| - 1], neighbor)
    ensures Cyclic(g)
  {
    var i :| 0 <= i < |path| && path[i] == neighbor;
    var c := path[i..] + [neighbor];
    assert forall k :: 0 <= k < |c| - 1 ==> Edge(g, c[k], c[k + 1]);
    assert IsCycle(g, c);
  }

  lemma Finish(g: Graph, adj: map<TaskId, seq<TaskId>>, visited: set<TaskId>, stack: set<TaskId>,
               path: seq<TaskId>, finished: seq<TaskId>, node: TaskId)
    requires IsAdjacency(g, adj) && node in g && node !in path
    requires DfsState(g, visited, stack, path + [node], finished)
    requires forall k :: 0 <= k < |adj[node]| ==> adj[node][k] in finished
    ensures DfsState(g, visited, stack - {node}, path, finished + [node])
  {
    var next := finished + [node];
    forall k, t | 0 <= k < |next| && Edge(g, next[k], t) ensures t in next[..k] {
      if k < |finished| {
        assert next[..k] == finished[..k];
      } else {
        AdjacencyEdges(g, adj, node, t);
        assert next[..k] == finished;
      }
    }
    forall i | 0 <= i < |path| - 1 ensures Edge(g, path[i], path[i + 1]) {
      assert (path + [node])[i] == path[i] && (path + [node])[i + 1] == path[i + 1];
    }
    assert forall x :: x in path + [node] <==> x in path || x == node;
    assert Elements(path) == stack - {node};
    assert Elements(next) == Elements(finished) + {node};
  }

  /** Entering a task reached from the top of the stack. */
  lemma Enter(g: Graph, visited: set<TaskId>, stack: set<TaskId>,
              path: seq<TaskId>, finished: seq<TaskId>, node: TaskId)
    requires DfsState(g, visited, stack, path, finished) && node in g && node !in visited
    requires path != [] ==> Edge(g, path[|path| - 1], node)
    ensures DfsState(g, visited + {node}, stack + {node}, path + [node], finished)
  {
    assert Elements(path + [node]) == stack + {node};
  }

  method Dfs(ghost g: Graph, adj: map<TaskId, seq<TaskId>>, node: TaskId, visited0: set<TaskId>,
             stack0: set<TaskId>, ghost path: seq<TaskId>, ghost finished0: seq<TaskId>)
      returns (found: bool, visited: set<TaskId>, stack: set<TaskId>, ghost finished: seq<TaskId>)
    requires IsAdjacency(g, adj) && node in g && node !in visited0
    requires DfsState(g, visited0, stack0, path, finished0)
    requires path != [] ==> Edge(g, path[|path| - 1], node)
    ensures found ==> Cyclic(g)
    ensures !found ==> DfsState(g, visited, stack, path, finished)
    ensures !found ==> stack == stack0 && node in visited && visited0 <= visited
    decreases g.Keys - visited0
  {
    found, visited, stack, finished := false, visited0 + {node}, stack0 + {node}, finished0;
    Enter(g, visited0, stack0, path, finished0, node);
    for k := 0 to |adj[node]|
      invariant DfsState(g, visited, stack, path + [node], finished)
      invariant stack == stack0 + {node} && visited0 + {node} <= visited
      invariant forall i :: 0 <= i < k ==> adj[node][i] in finished
    {
      var neighbor := adj[node][k];
      AdjacencyEdges(g, adj, node, neighbor);
      if neighbor !in visited {
        ghost var before := finished;
        found, visited, stack, finished := Dfs(g, adj, neighbor, visited, stack, path + [node], finished);
        if found {
          return;
        }
        forall x | x in Elements(before) ensures x in Elements(finished) {}
      } else if neighbor in stack {
        BackEdgeClosesCycle(g, path + [node], neighbor);
        found := true;
        return;
      }
    }
    Finish(g, adj, visited, stack, path, finished, node);
    stack, finished := stack - {node}, finished + [node];
  }

  /** The outer loop: a search from every task not yet visited. */
  method DfsFromAll(ghost g: Graph, adj: map<TaskId, seq<TaskId>>, ids: seq<TaskId>)
      returns (found: bool, visited: set<TaskId>, ghost finished: seq<TaskId>)
    requires IsAdjacency(g, adj) && Within(ids, g.Keys)
    ensures found ==> Cyclic(g)
    ensures !found ==> DfsState(g, visited, {}, [], finished) && Within(ids, visited)
  {
    var stack: set<TaskId> := {};
    found, visited, finished := false, {}, [];
    for k := 0 to |ids|
      invariant stack == {} && DfsState(g, visited, stack, [], finished)
      invariant forall i :: 0 <= i < k ==> ids[i] in visited
    {
      if ids[k] !in visited {
        found, visited, stack, finished := Dfs(g, adj, ids[k], visited, stack, [], finished);
        if found {
          return;
        }
      }
    }
  }

  /** The cycle check is exact, for every list of nodes, repeated ids included. */
  method HasCycle(nodes: seq<TaskNode>) returns (found: bool)
    ensures found <==> Cyclic(GraphOf(nodes))
  {
    var adj, _ := BuildAdjacency(nodes);
    var visited;
    ghost var finished;
    found, visited, finished := DfsFromAll(GraphOf(nodes), adj, Ids(nodes));
    if !found {
      AllFinished(nodes, visited, finished);
    }
  }

  /** With every task visited and the stack empty, every task is finished: no cycle. */
  lemma AllFinished(nodes: seq<TaskNode>, visited: set<TaskId>, finished: seq<TaskId>)
    requires Within(Ids(nodes), visited)
    requires DfsState(GraphOf(nodes), visited, {}, [], finished)
    ensures !Cyclic(GraphOf(nodes))
  {
    forall t | t in GraphOf(nodes) ensures t in finished {
      var i :| 0 <= i < |nodes| && Ids(nodes)[i] == t;
      assert t in Elements(finished);
    }
    FinishingOrderIsAcyclic(GraphOf(nodes), finished);
  }
}
