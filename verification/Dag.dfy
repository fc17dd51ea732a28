/** Cycle detection of the task board by Kahn's algorithm (`tools/dag.py`). */
module Dag {

  datatype Option<+T> = None | Some(value: T)

  // A task, by its id
  datatype Node = Node(id: string)

  // ---------- the dependency relation and its cycles ----------

  // `deps` gives the dependencies of each node; those that are not nodes themselves are ignored.
  type Graph = map<Node, set<Node>>

  function Inner(g: Graph, v: Node): set<Node>
    requires v in g
  {
    g[v] * g.Keys
  }

  // Each node of `c` depends on the next, and the last on the first.
  ghost predicate IsCycle(g: Graph, c: seq<Node>) {
    && c != [] && (forall k :: 0 <= k < |c| ==> c[k] in g)
    && (forall k :: 0 <= k < |c| - 1 ==> c[k + 1] in g[c[k]])
    && c[0] in g[c[|c| - 1]]
  }

  ghost predicate Cyclic(g: Graph) { exists c :: IsCycle(g, c) }

  function Elems(s: seq<Node>): set<Node> { set v | v in s }

  // Every node stands once, behind its dependencies.
  ghost predicate Topological(g: Graph, order: seq<Node>) {
    order == [] ||
    (var init, last := order[..|order| - 1], order[|order| - 1];
     Topological(g, init) && last in g && last !in init && Inner(g, last) <= Elems(init))
  }

  function Position(order: seq<Node>, v: Node): (k: nat)
    ensures k < |order| <==> v in order
  {
    if order == [] then 0
    else if order[|order| - 1] == v then |order| - 1
    else
      var k := Position(order[..|order| - 1], v);
      if k < |order| - 1 then k else |order|
  }

  lemma {:induction false} EarlierDependency(g: Graph, order: seq<Node>, v: Node, d: Node)
    requires Topological(g, order) && v in order && v in g && d in Inner(g, v)
    ensures d in order && Position(order, d) < Position(order, v)
  {
    var init, last := order[..|order| - 1], order[|order| - 1];
    if v == last {
      assert d in Elems(init);
    } else {
      assert v in init;
      EarlierDependency(g, init, v, d);
      assert d != last;
    }
  }

  // Going round a cycle, positions fall at every step.
  lemma {:induction false} PositionsFall(g: Graph, order: seq<Node>, c: seq<Node>, k: nat)
    requires Topological(g, order) && IsCycle(g, c) && k < |c| && forall v :: v in g ==> v in order
    ensures Position(order, c[k]) + k <= Position(order, c[0])
  {
    if k > 0 {
      PositionsFall(g, order, c, k - 1);
      EarlierDependency(g, order, c[k - 1], c[k - 1 + 1]);
    }
  }

  /** A topological order of all nodes leaves no room for a cycle. */
  lemma OrderedAcyclic(g: Graph, order: seq<Node>)
    requires Topological(g, order) && forall v :: v in g ==> v in order
    ensures !Cyclic(g)
  {
    forall c | IsCycle(g, c) ensures false {
      PositionsFall(g, order, c, |c| - 1);
      EarlierDependency(g, order, c[|c| - 1], c[0]);
    }
  }

  // A path inside `r` in which each node depends on the next
  ghost predicate IsPath(g: Graph, r: set<Node>, p: seq<Node>) {
    && r <= g.Keys && (forall k :: 0 <= k < |p| ==> p[k] in r)
    && forall k :: 0 <= k < |p| - 1 ==> p[k + 1] in g[p[k]]
  }

  ghost predicate DependsInside(g: Graph, r: set<Node>, v: Node) {
    v in g && exists d :: d in g[v] && d in r
  }

  // Each node of the set depends on a node of the set.
  ghost predicate Stuck(g: Graph, r: set<Node>) {
    r <= g.Keys && forall v {:trigger DependsInside(g, r, v)} :: v in r ==> DependsInside(g, r, v)
  }

  lemma {:induction false} LongPath(g: Graph, r: set<Node>, n: nat) returns (p: seq<Node>)
    requires Stuck(g, r) && r != {}
    ensures |p| == n + 1 && IsPath(g, r, p)
  {
    if n == 0 {
      var v :| v in r;
      p := [v];
    } else {
      var q := LongPath(g, r, n - 1);
      assert DependsInside(g, r, q[n - 1]);
      var d :| d in g[q[n - 1]] && d in r;
      p := q + [d];
    }
  }

  lemma {:induction false} Pigeonhole(r: set<Node>, p: seq<Node>) returns (i: nat, j: nat)
    requires |p| > |r| && forall k :: 0 <= k < |p| ==> p[k] in r
    ensures i < j < |p| && p[i] == p[j]
  {
    var last := p[|p| - 1];
    if k :| 0 <= k < |p| - 1 && p[k] == last {
      i, j := k, |p| - 1;
    } else {
      i, j := Pigeonhole(r - {last}, p[..|p| - 1]);
    }
  }

  /** Nodes each of which depends on one of them contain a cycle. */
  lemma StuckHasCycle(g: Graph, r: set<Node>)
    requires Stuck(g, r) && r != {}
    ensures Cyclic(g)
  {
    var p := LongPath(g, r, |r|);
    var i, j := Pigeonhole(r, p);
    var c := p[i..j];
    assert p[j] in g[p[j - 1]];
    assert IsCycle(g, c);
  }

  // ---------- the algorithm ----------

  // Dependencies not yet taken off
  function Waiting(g: Graph, done: set<Node>, v: Node): set<Node>
    requires v in g
  {
    Inner(g, v) - done
  }

  // The in-degrees count the dependencies not in `done`.
  ghost predicate Counted(g: Graph, done: set<Node>, indeg: map<Node, int>) {
    indeg.Keys == g.Keys && forall v {:trigger indeg[v]} :: v in g ==> indeg[v] == |Waiting(g, done, v)|
  }

  // The queue holds the nodes that wait for nothing and have not been taken off.
  ghost predicate Queued(g: Graph, done: set<Node>, queue: seq<Node>, indeg: map<Node, int>) {
    && indeg.Keys == g.Keys && done <= g.Keys && Distinct(queue)
    && (forall v :: v in queue <==> v in g && v !in done && indeg[v] == 0)
    && (forall v :: v in done ==> indeg[v] == 0)
  }

  // The nodes of the graph, each once
  ghost predicate Listing(g: Graph, nodes: seq<Node>) { Distinct(nodes) && forall v :: v in nodes <==> v in g }

  ghost predicate Distinct(s: seq<Node>) { forall j, k :: 0 <= j < k < |s| ==> s[j] != s[k] }

  method StartQueue(g: Graph, nodes: seq<Node>, indeg: map<Node, int>) returns (queue: seq<Node>)
    requires Listing(g, nodes) && indeg.Keys == g.Keys
    ensures Queued(g, {}, queue, indeg)
  {
    queue := [];
    for k := 0 to |nodes|
      invariant forall v :: v in queue <==> v in nodes[..k] && indeg[v] == 0
      invariant Distinct(queue)
    {
      assert nodes[..k + 1] == nodes[..k] + [nodes[k]] && nodes[k] !in nodes[..k];
      if indeg[nodes[k]] == 0 { queue := queue + [nodes[k]]; }
    }
    assert nodes[..|nodes|] == nodes;
  }

  // The inner loop: one node taken off the in-degrees of those that depend on it
  method TakeOff(g: Graph, nodes: seq<Node>, node: Node, queue: seq<Node>, indeg: map<Node, int>)
    returns (after: map<Node, int>, more: seq<Node>)
    requires Listing(g, nodes) && indeg.Keys == g.Keys && Distinct(queue)
    requires forall v :: v in queue ==> v in g && node !in g[v]
    ensures after.Keys == g.Keys && forall v :: v in g ==> after[v] == indeg[v] - if node in g[v] then 1 else 0
    ensures forall v :: v in more <==> v in queue || (v in g && node in g[v] && after[v] == 0)
    ensures Distinct(more)
  {
    after, more := indeg, queue;
    TakenNone(g, node, queue, indeg);
    for k := 0 to |nodes|
      invariant Distinct(more) && TakenOff(g, nodes[..k], node, queue, indeg, after, more)
    {
      NextNode(nodes, k);
      assert nodes[k] in g;
      after, more := TakeOne(g, nodes[..k], nodes[k], node, queue, indeg, after, more);
    }
    assert nodes[..|nodes|] == nodes;
    WholeMet(g, nodes, node, queue, indeg, after, more);
  }

  lemma NextNode(nodes: seq<Node>, k: nat)
    requires k < |nodes| && Distinct(nodes)
    ensures nodes[k] in nodes && nodes[..k + 1] == nodes[..k] + [nodes[k]] && nodes[k] !in nodes[..k]
  {
  }

  lemma TakenNone(g: Graph, node: Node, queue: seq<Node>, indeg: map<Node, int>)
    requires indeg.Keys == g.Keys
    ensures forall nodes: seq<Node> :: TakenOff(g, nodes[..0], node, queue, indeg, indeg, queue)
  {
  }

  lemma WholeMet(g: Graph, nodes: seq<Node>, node: Node, queue: seq<Node>, indeg: map<Node, int>,
                 after: map<Node, int>, more: seq<Node>)
    requires TakenOff(g, nodes, node, queue, indeg, after, more) && forall v :: v in nodes <==> v in g
    ensures after.Keys == g.Keys && forall v :: v in g ==> after[v] == indeg[v] - if node in g[v] then 1 else 0
    ensures forall v :: v in more <==> v in queue || (v in g && node in g[v] && after[v] == 0)
  {
  }

  method TakeOne(g: Graph, ghost met: seq<Node>, t: Node, node: Node, ghost queue: seq<Node>,
                 ghost indeg: map<Node, int>,
                 was: map<Node, int>, before: seq<Node>) returns (after: map<Node, int>, more: seq<Node>)
    requires TakenOff(g, met, node, queue, indeg, was, before) && Distinct(before) && t in g && t !in met
    requires t in queue ==> node !in g[t]
    ensures TakenOff(g, met + [t], node, queue, indeg, after, more) && Distinct(more)
  {
    after, more := was, before;
    if node in g[t] {
      assert t !in before;
      after := after[t := after[t] - 1];
      if after[t] == 0 { more := more + [t]; }
    }
    TakenMore(g, met, t, node, queue, indeg, was, before, after, more);
  }

  // What the inner loop has done when it has met `met`
  ghost predicate TakenOff(g: Graph, met: seq<Node>, node: Node, queue: seq<Node>, indeg: map<Node, int>,
                           after: map<Node, int>, more: seq<Node>) {
    && indeg.Keys == g.Keys && after.Keys == g.Keys
    && (forall v :: v in g ==> after[v] == indeg[v] - if v in met && node in g[v] then 1 else 0)
    && forall v :: v in more <==> v in queue || (v in met && v in g && node in g[v] && after[v] == 0)
  }

  lemma TakenMore(g: Graph, met: seq<Node>, t: Node, node: Node, queue: seq<Node>, indeg: map<Node, int>,
                  was: map<Node, int>, before: seq<Node>, after: map<Node, int>, more: seq<Node>)
    requires TakenOff(g, met, node, queue, indeg, was, before) && t in g && t !in met
    requires after == if node in g[t] then was[t := was[t] - 1] else was
    requires more == if node in g[t] && after[t] == 0 then before + [t] else before
    requires t in queue ==> node !in g[t]
    ensures TakenOff(g, met + [t], node, queue, indeg, after, more)
  {
  }

  lemma NothingWaits(g: Graph, done: set<Node>, v: Node)
    requires v in g
    ensures |Waiting(g, done, v)| == 0 <==> Inner(g, v) <= done
  {
    var w := Waiting(g, done, v);
    assert forall d :: d in Inner(g, v) && d !in done ==> d in w;
    if |w| > 0 { var d :| d in w; }
  }

  lemma WaitingLess(g: Graph, done: set<Node>, node: Node, v: Node)
    requires v in g && node in g && node !in done
    ensures |Waiting(g, done + {node}, v)| == |Waiting(g, done, v)| - if node in g[v] then 1 else 0
    ensures node in g[v] ==> |Waiting(g, done, v)| > 0
  {
    assert Waiting(g, done + {node}, v) == Waiting(g, done, v) - {node};
    if node in g[v] { assert node in Waiting(g, done, v); }
  }

  lemma CountedMore(g: Graph, done: set<Node>, node: Node, indeg: map<Node, int>, after: map<Node, int>)
    requires Counted(g, done, indeg) && node in g && node !in done && after.Keys == g.Keys
    requires forall v :: v in g ==> after[v] == indeg[v] - if node in g[v] then 1 else 0
    ensures Counted(g, done + {node}, after)
    ensures forall v :: v in g && node in g[v] ==> indeg[v] > 0
  {
    forall v | v in g
      ensures after[v] == |Waiting(g, done + {node}, v)| && (node in g[v] ==> indeg[v] > 0)
    {
      WaitingLess(g, done, node, v);
    }
  }

  lemma CountedStart(g: Graph, indeg: map<Node, int>)
    requires indeg.Keys == g.Keys && forall v {:trigger indeg[v]} :: v in g ==> indeg[v] == |Inner(g, v)|
    ensures Counted(g, {}, indeg)
  {
    forall v {:trigger indeg[v]} | v in g ensures indeg[v] == |Waiting(g, {}, v)| {
      assert Waiting(g, {}, v) == Inner(g, v);
    }
  }

  lemma ElemsMore(order: seq<Node>, node: Node)
    ensures Elems(order + [node]) == Elems(order) + {node}
  {
  }

  lemma LessLeft(all: set<Node>, done: set<Node>, node: Node)
    requires node in all && node !in done
    ensures |all - (done + {node})| < |all - done|
  {
    assert all - (done + {node}) == (all - done) - {node};
  }

  // A node that waits for nothing may stand next in the order.
  lemma TopologicalMore(g: Graph, order: seq<Node>, node: Node)
    requires Topological(g, order) && node in g && node !in Elems(order) && Inner(g, node) <= Elems(order)
    ensures Topological(g, order + [node]) && Elems(order + [node]) == Elems(order) + {node}
    ensures |g.Keys - Elems(order + [node])| < |g.Keys - Elems(order)|
  {
    assert (order + [node])[..|order|] == order;
    ElemsMore(order, node);
    LessLeft(g.Keys, Elems(order), node);
  }

  // What is left when the queue is empty waits for itself.
  lemma StillWaiting(g: Graph, done: set<Node>, indeg: map<Node, int>, v: Node)
    requires Counted(g, done, indeg) && Queued(g, done, [], indeg) && v in g && v !in done
    ensures DependsInside(g, g.Keys - done, v)
  {
    NothingWaits(g, done, v);
    assert indeg[v] != 0;
    var d :| d in Inner(g, v) && d !in done;
    assert d in g.Keys - done;
  }

  lemma AllStuck(g: Graph, done: set<Node>, indeg: map<Node, int>)
    requires Counted(g, done, indeg) && Queued(g, done, [], indeg)
    ensures Stuck(g, g.Keys - done)
  {
    var r := g.Keys - done;
    forall v {:trigger DependsInside(g, r, v)} | v in r
      ensures DependsInside(g, r, v)
    {
      StillWaiting(g, done, indeg, v);
    }
  }

  lemma StuckLeft(g: Graph, done: set<Node>, indeg: map<Node, int>)
    requires Counted(g, done, indeg) && Queued(g, done, [], indeg) && g.Keys - done != {}
    ensures Cyclic(g)
  {
    AllStuck(g, done, indeg);
    StuckHasCycle(g, g.Keys - done);
  }

  lemma {:induction false} OrderSize(order: seq<Node>)
    requires forall j, k :: 0 <= j < k < |order| ==> order[j] != order[k]
    ensures |Elems(order)| == |order|
  {
    if order != [] {
      var init, last := order[..|order| - 1], order[|order| - 1];
      OrderSize(init);
      assert Elems(order) == Elems(init) + {last} && last !in Elems(init);
    }
  }

  lemma NothingLeft(a: set<Node>, b: set<Node>)
    requires a <= b
    ensures |a| == |b| <==> b - a == {}
    ensures b - a == {} ==> a == b
  {
    assert |b - a| == |b| - |a|;
    assert b <= a + (b - a);
  }

  // One turn of the loop
  method Turn(g: Graph, nodes: seq<Node>, ghost done: set<Node>, queue: seq<Node>, indeg: map<Node, int>)
    returns (node: Node, more: seq<Node>, after: map<Node, int>)
    requires Listing(g, nodes) && queue != []
    requires Counted(g, done, indeg) && Queued(g, done, queue, indeg)
    ensures node in g && node !in done && Inner(g, node) <= done
    ensures Counted(g, done + {node}, after) && Queued(g, done + {node}, more, after)
  {
    node := queue[|queue| - 1];
    var rest := queue[..|queue| - 1];
    PopLast(queue);
    NothingWaits(g, done, node);
    ZeroDependsOnDone(g, done, indeg, node);
    after, more := TakeOff(g, nodes, node, rest, indeg);
    CountedMore(g, done, node, indeg, after);
    QueuedMore(g, done, queue, indeg, node, more, after);
  }

  lemma PopLast(queue: seq<Node>)
    requires queue != [] && Distinct(queue)
    ensures var node, rest := queue[|queue| - 1], queue[..|queue| - 1];
            node in queue && Distinct(rest) && node !in rest && forall v :: v in queue <==> v in rest || v == node
  {
    assert queue == queue[..|queue| - 1] + [queue[|queue| - 1]];
  }

  lemma ZeroDependsOnDone(g: Graph, done: set<Node>, indeg: map<Node, int>, node: Node)
    requires Counted(g, done, indeg) && node in g && node !in done
    ensures forall v :: v in g && indeg[v] == 0 ==> node !in g[v]
  {
    forall v | v in g && indeg[v] == 0 ensures node !in g[v] { NothingWaits(g, done, v); }
  }

  lemma QueuedMore(g: Graph, done: set<Node>, queue: seq<Node>, indeg: map<Node, int>, node: Node,
                   more: seq<Node>, after: map<Node, int>)
    requires Queued(g, done, queue, indeg) && node in queue && after.Keys == g.Keys && Distinct(more)
    requires forall v :: v in g && indeg[v] == 0 ==> node !in g[v]
    requires forall v :: v in g ==> after[v] == indeg[v] - if node in g[v] then 1 else 0
    requires forall v :: v in more <==> (v in queue && v != node) || (v in g && node in g[v] && after[v] == 0)
    ensures Queued(g, done + {node}, more, after)
  {
  }

  // What the loop keeps: what has been taken off stands in topological order, and the counts and the queue fit it.
  ghost predicate Draining(g: Graph, order: seq<Node>, queue: seq<Node>, indeg: map<Node, int>) {
    Topological(g, order) && Counted(g, Elems(order), indeg) && Queued(g, Elems(order), queue, indeg)
  }

  method Begin(g: Graph, nodes: seq<Node>) returns (queue: seq<Node>, indeg: map<Node, int>)
    requires Listing(g, nodes)
    ensures Draining(g, [], queue, indeg)
  {
    indeg := map v | v in g :: |Inner(g, v)|;
    CountedStart(g, indeg);
    queue := StartQueue(g, nodes, indeg);
    assert Elems([]) == {};
  }

  method DrainOne(g: Graph, nodes: seq<Node>, ghost order: seq<Node>, queue: seq<Node>, indeg: map<Node, int>)
    returns (more: seq<Node>, after: map<Node, int>, ghost next: seq<Node>)
    requires Listing(g, nodes) && Draining(g, order, queue, indeg) && queue != []
    ensures Draining(g, next, more, after) && |next| == |order| + 1
    ensures |g.Keys - Elems(next)| < |g.Keys - Elems(order)|
  {
    var node;
    node, more, after := Turn(g, nodes, Elems(order), queue, indeg);
    next := order + [node];
    TopologicalMore(g, order, node);
  }

  // The loop
  method Drain(g: Graph, nodes: seq<Node>) returns (seen: nat, ghost order: seq<Node>, ghost indeg: map<Node, int>)
    requires Listing(g, nodes)
    ensures Draining(g, order, [], indeg) && seen == |order|
  {
    var queue, degrees := Begin(g, nodes);
    order, seen := [], 0;
    while queue != []
      invariant Draining(g, order, queue, degrees) && seen == |order|
      decreases |g.Keys - Elems(order)|
    {
      queue, degrees, order := DrainOne(g, nodes, order, queue, degrees);
      seen := seen + 1;
    }
    indeg := degrees;
  }

  lemma NodesCounted(g: Graph, nodes: seq<Node>)
    requires Listing(g, nodes)
    ensures |g.Keys| == |nodes|
  {
    OrderSize(nodes);
    assert Elems(nodes) == g.Keys;
  }

  lemma AllTakenOff(g: Graph, order: seq<Node>)
    requires Topological(g, order) && Elems(order) == g.Keys
    ensures !Cyclic(g)
  {
    forall v | v in g ensures v in order { assert v in Elems(order); }
    OrderedAcyclic(g, order);
  }

  /** The Kahn loop: all nodes are taken off exactly when there is no cycle. */
  method Kahn(g: Graph, nodes: seq<Node>) returns (acyclic: bool)
    requires Listing(g, nodes)
    ensures acyclic <==> !Cyclic(g)
  {
    var seen;
    ghost var order, indeg;
    seen, order, indeg := Drain(g, nodes);
    acyclic := seen == |nodes|;
    TopologicalSize(g, order);
    NodesCounted(g, nodes);
    NothingLeft(Elems(order), g.Keys);
    if acyclic {
      AllTakenOff(g, order);
    } else {
      StuckLeft(g, Elems(order), indeg);
    }
  }

  lemma {:induction false} TopologicalSize(g: Graph, order: seq<Node>)
    requires Topological(g, order)
    ensures |Elems(order)| == |order| && Elems(order) <= g.Keys
  {
    if order != [] {
      var init, last := order[..|order| - 1], order[|order| - 1];
      TopologicalSize(g, init);
      assert Elems(order) == Elems(init) + {last};
    }
  }
}
