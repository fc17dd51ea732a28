/** The keyed queue layer on the heap (`server/jobs_idempotency.py`): deep snapshots that keep the identity of
    every container, the walk that finds shared containers, and what an untrusted fingerprinter can do between. */
module JobsHeap {
  import opened WalHeap
  import Wal

  // ---------- containers ----------

  datatype Content = Fields(fields: map<string, Value>) | Items(items: seq<Value>) | Nothing

  predicate IsContainer(v: Value) { v.Obj? || v.Arr? }

  function Held(v: Value): Content
    reads *
  {
    match v
    case Obj(d) => Fields(d.items)
    case Arr(l) => Items(l.items)
    case _ => Nothing
  }

  function Children(v: Value): set<Value>
    reads *
  {
    match v
    case Obj(d) => d.items.Values
    case Arr(l) => set x | x in l.items
    case _ => {}
  }

  // The container `c` can be reached from `v` in at most `n` steps.
  ghost predicate Reaches(v: Value, c: Value, n: nat)
    reads *
    decreases n
  {
    IsContainer(c) && (c == v || (n > 0 && exists x :: x in Children(v) && Reaches(x, c, n - 1)))
  }

  ghost predicate Reachable(v: Value, c: Value)
    reads *
  {
    exists n: nat :: Reaches(v, c, n)
  }

  // No path from `v` is longer than `n`: the graph is finite and has no cycle.
  ghost predicate Shallow(v: Value, n: nat)
    reads *
    decreases n
  {
    IsContainer(v) ==> n > 0 && forall x :: x in Children(v) ==> Shallow(x, n - 1)
  }

  // All that is in a container of the world is in the world.
  ghost predicate ClosedWorld(world: set<Value>)
    reads *
  {
    forall v, x :: v in world && x in Children(v) && IsContainer(x) ==> x in world
  }

  // ---------- snapshots ----------

  datatype Snap = Leaf(v: Value) | DictSnap(d: Dict, fields: map<string, Snap>) | ListSnap(l: List, items: seq<Snap>)

  function Head(s: Snap): Value {
    match s case Leaf(v) => v case DictSnap(d, _) => Obj(d) case ListSnap(l, _) => Arr(l)
  }

  function Heads(s: Snap): Content {
    match s
    case Leaf(_) => Nothing
    case DictSnap(_, fields) => Fields(map k | k in fields :: Head(fields[k]))
    case ListSnap(_, items) => Items(HeadsOf(items))
  }

  function HeadsOf(items: seq<Snap>): (heads: seq<Value>)
    ensures |heads| == |items| && forall k :: 0 <= k < |items| ==> heads[k] == Head(items[k])
  {
    if items == [] then [] else HeadsOf(items[..|items| - 1]) + [Head(items[|items| - 1])]
  }

  type Memory = map<Value, Content>

  // The snapshot says of every container in it what the memory says.
  ghost predicate Agrees(s: Snap, was: Memory)
    decreases s
  {
    match s
    case Leaf(v) => !IsContainer(v)
    case DictSnap(d, fields) =>
      Obj(d) in was && was[Obj(d)] == Heads(s) && forall k :: k in fields ==> Agrees(fields[k], was)
    case ListSnap(l, items) =>
      Arr(l) in was && was[Arr(l)] == Heads(s) && forall k :: 0 <= k < |items| ==> Agrees(items[k], was)
  }

  ghost predicate Occurs(s: Snap, c: Value)
    decreases s
  {
    match s
    case Leaf(_) => false
    case DictSnap(d, fields) => c == Obj(d) || exists k :: k in fields && Occurs(fields[k], c)
    case ListSnap(l, items) => c == Arr(l) || exists k :: 0 <= k < |items| && Occurs(items[k], c)
  }

  // The memory is what the containers of the world hold now.
  ghost predicate Current(was: Memory)
    reads *
  {
    forall v :: v in was ==> IsContainer(v) && was[v] == Held(v)
  }

  method TakeSnapshot(v: Value, ghost n: nat, ghost was: Memory) returns (s: Snap)
    requires Shallow(v, n) && Current(was) && ClosedWorld(was.Keys) && (IsContainer(v) ==> v in was)
    ensures Head(s) == v && Agrees(s, was)
    decreases n
  {
    match v {
      case Obj(d) =>
        var fields: map<string, Snap> := map[];
        var keys := d.items.Keys;
        while keys != {}
          invariant keys <= d.items.Keys && fields.Keys == d.items.Keys - keys
          invariant forall k :: k in fields ==> Head(fields[k]) == d.items[k] && Agrees(fields[k], was)
        {
          var k :| k in keys;
          assert d.items[k] in Children(v);
          var inner := TakeSnapshot(d.items[k], n - 1, was);
          fields, keys := fields[k := inner], keys - {k};
        }
        s := DictSnap(d, fields);
        assert Heads(s).fields == d.items;
      case Arr(l) =>
        var items: seq<Snap> := [];
        for k := 0 to |l.items|
          invariant |items| == k
          invariant forall j :: 0 <= j < k ==> Head(items[j]) == l.items[j] && Agrees(items[j], was)
        {
          assert l.items[k] in Children(v);
          var inner := TakeSnapshot(l.items[k], n - 1, was);
          items := items + [inner];
        }
        s := ListSnap(l, items);
        assert Heads(s).items == l.items;
      case _ =>
        s := Leaf(v);
    }
  }

  lemma FirstStep(v: Value, c: Value, n: nat) returns (x: Value)
    requires Reaches(v, c, n) && c != v
    ensures n > 0 && x in Children(v) && Reaches(x, c, n - 1)
  {
    x :| x in Children(v) && Reaches(x, c, n - 1);
  }

  lemma DictChild(s: Snap, was: Memory, x: Value) returns (k: string)
    requires s.DictSnap? && Agrees(s, was) && Current(was) && x in Children(Head(s))
    ensures k in s.fields && Head(s.fields[k]) == x && Agrees(s.fields[k], was)
  {
    k :| k in s.d.items && s.d.items[k] == x;
    assert Held(Obj(s.d)) == Heads(s);
    assert Heads(s).fields[k] == Head(s.fields[k]);
  }

  lemma ListChild(s: Snap, was: Memory, x: Value) returns (k: nat)
    requires s.ListSnap? && Agrees(s, was) && Current(was) && x in Children(Head(s))
    ensures k < |s.items| && Head(s.items[k]) == x && Agrees(s.items[k], was)
  {
    k :| 0 <= k < |s.l.items| && s.l.items[k] == x;
    assert Held(Arr(s.l)) == Heads(s);
    assert Heads(s).items[k] == Head(s.items[k]);
  }

  /** All that could be reached when the snapshot was taken is in it. */
  lemma {:induction false} ReachedOccurs(s: Snap, was: Memory, c: Value, n: nat)
    requires Agrees(s, was) && Current(was) && Reaches(Head(s), c, n)
    ensures Occurs(s, c)
    decreases n
  {
    if c != Head(s) {
      var x := FirstStep(Head(s), c, n);
      match s {
        case DictSnap(d, fields) =>
          var k := DictChild(s, was, x);
          ReachedOccurs(fields[k], was, c, n - 1);
        case ListSnap(l, items) =>
          var k := ListChild(s, was, x);
          ReachedOccurs(items[k], was, c, n - 1);
      }
    }
  }

  // Every container holds what it held before, or what the memory says.
  twostate predicate OnlyRestored(was: Memory)
    reads *
  {
    forall c :: c in was ==> Held(c) == old(Held(c)) || Held(c) == was[c]
  }

  ghost predicate Objects(was: Memory, world: set<object>) {
    forall c :: c in was ==> match c case Obj(d) => d in world case Arr(l) => l in world case _ => true
  }

  ghost function Covered(s: Snap, was: Memory): set<Value> { set c | c in was && Occurs(s, c) }

  lemma DictCovered(s: Snap, was: Memory, done: set<Value>)
    requires s.DictSnap? && forall k :: k in s.fields ==> Covered(s.fields[k], was) <= done
    ensures Covered(s, was) <= done + {Obj(s.d)}
  {
    forall c | c in Covered(s, was) && c != Obj(s.d) ensures c in done {
      var k :| k in s.fields && Occurs(s.fields[k], c);
      assert c in Covered(s.fields[k], was);
    }
  }

  lemma ListCovered(s: Snap, was: Memory, done: set<Value>)
    requires s.ListSnap? && forall k :: 0 <= k < |s.items| ==> Covered(s.items[k], was) <= done
    ensures Covered(s, was) <= done + {Arr(s.l)}
  {
    forall c | c in Covered(s, was) && c != Arr(s.l) ensures c in done {
      var k :| 0 <= k < |s.items| && Occurs(s.items[k], c);
      assert c in Covered(s.items[k], was);
    }
  }

  /** Clears and refills every container of the snapshot; returns its head. */
  method Restore(s: Snap, ghost was: Memory, ghost world: set<object>) returns (v: Value)
    requires Agrees(s, was) && Objects(was, world)
    modifies world
    ensures v == Head(s) && OnlyRestored(was)
    ensures forall c :: c in Covered(s, was) ==> Held(c) == was[c]
    decreases s, 1
  {
    v := Head(s);
    match s {
      case DictSnap(_, _) => RestoreDict(s, was, world);
      case ListSnap(_, _) => RestoreList(s, was, world);
      case Leaf(_) =>
    }
  }

  method RestoreDict(s: Snap, ghost was: Memory, ghost world: set<object>)
    requires s.DictSnap? && Agrees(s, was) && Objects(was, world)
    modifies world
    ensures OnlyRestored(was)
    ensures forall c :: c in Covered(s, was) ==> Held(c) == was[c]
    decreases s, 0
  {
    var d, fields := s.d, s.fields;
    ghost var me, full := Obj(d), Heads(s).fields;
    ghost var done: set<Value> := {};
    d.items := map[];
    var keys := fields.Keys;
    while keys != {}
      invariant keys <= fields.Keys && me !in done && done <= was.Keys && Partly(d.items, full, keys)
      invariant OthersRestored(me, was)
      invariant forall c :: c in done ==> Held(c) == was[c]
      invariant forall k :: k in fields && k !in keys ==> Covered(fields[k], was) <= done + {me}
    {
      var k :| k in keys;
      RefillOne(d, k, fields[k], full, keys, done, was, world);
      keys := keys - {k};
      done := done + (Covered(fields[k], was) - {me});
    }
    DictCovered(s, was, done + {me});
    assert d.items == full;
  }

  // The map holds only right values, and all but those still to be put back.
  ghost predicate Partly(m: map<string, Value>, full: map<string, Value>, keys: set<string>) {
    (forall k :: k in m ==> k in full && m[k] == full[k]) && full.Keys - keys <= m.Keys
  }

  twostate predicate OthersRestored(me: Value, was: Memory)
    reads *
  {
    forall c :: c in was && c != me ==> Held(c) == old(Held(c)) || Held(c) == was[c]
  }

  // One value back, while its dict is being refilled
  method RefillOne(d: Dict, k: string, s: Snap, ghost full: map<string, Value>, ghost keys: set<string>,
                   ghost done: set<Value>, ghost was: Memory, ghost world: set<object>)
    requires Agrees(s, was) && Objects(was, world) && Obj(d) in was && was[Obj(d)] == Fields(full)
    requires k in full && full[k] == Head(s) && Partly(d.items, full, keys) && Obj(d) !in done && done <= was.Keys
    requires forall c :: c in done ==> Held(c) == was[c]
    modifies world
    ensures Partly(d.items, full, keys - {k}) && OthersRestored(Obj(d), was)
    ensures forall c :: c in done + (Covered(s, was) - {Obj(d)}) ==> Held(c) == was[c]
    decreases s, 2
  {
    var inner := Restore(s, was, world);
    assert Held(Obj(d)) == Fields(d.items);
    d.items := d.items[k := inner];
    assert forall c :: c in was && c != Obj(d) ==> Held(c) == old(Held(c)) || Held(c) == was[c];
  }

  method RestoreList(s: Snap, ghost was: Memory, ghost world: set<object>)
    requires s.ListSnap? && Agrees(s, was) && Objects(was, world)
    modifies world
    ensures OnlyRestored(was)
    ensures forall c :: c in Covered(s, was) ==> Held(c) == was[c]
    decreases s, 0
  {
    var values := RestoreItems(s, was, world);
    s.l.items := values;
    assert s.l.items == Heads(s).items;
  }

  method RestoreItems(s: Snap, ghost was: Memory, ghost world: set<object>) returns (values: seq<Value>)
    requires s.ListSnap? && Agrees(s, was) && Objects(was, world)
    modifies world
    ensures values == Heads(s).items && OnlyRestored(was)
    ensures forall c :: c in Covered(s, was) - {Arr(s.l)} ==> Held(c) == was[c]
    decreases s, 0, 0
  {
    var items := s.items;
    values := [];
    ghost var done: set<Value> := {};
    for k := 0 to |items|
      invariant |values| == k && forall j :: 0 <= j < k ==> values[j] == Head(items[j])
      invariant done <= was.Keys && OnlyRestored(was)
      invariant forall c :: c in done ==> Held(c) == was[c]
      invariant forall j :: 0 <= j < k ==> Covered(items[j], was) <= done
    {
      var inner := Restore(items[k], was, world);
      values := values + [inner];
      done := done + Covered(items[k], was);
    }
    ListCovered(s, was, done);
    assert values == Heads(s).items;
  }

  // ---------- shared containers ----------

  lemma {:induction false} ReachMore(v: Value, p: Value, c: Value, n: nat)
    requires Reaches(v, p, n) && c in Children(p) && IsContainer(c)
    ensures Reaches(v, c, n + 1)
    decreases n
  {
    if p == v {
      assert Reaches(c, c, n);
    } else {
      var x :| x in Children(v) && Reaches(x, p, n - 1);
      ReachMore(x, p, c, n - 1);
    }
  }

  // A set that holds what its members hold holds all that can be reached from them.
  lemma {:induction false} ClosedReach(seen: set<Value>, v: Value, c: Value, n: nat)
    requires forall x, y :: x in seen && y in Children(x) && IsContainer(y) ==> y in seen
    requires v in seen && Reaches(v, c, n)
    ensures c in seen
    decreases n
  {
    if c != v {
      var x :| x in Children(v) && Reaches(x, c, n - 1);
      if IsContainer(x) { ClosedReach(seen, x, c, n - 1); } else { LeafReach(x, c, n - 1); }
    }
  }

  lemma LeafReach(v: Value, c: Value, n: nat)
    requires !IsContainer(v)
    ensures !Reaches(v, c, n)
  {
  }

  method PushAll(stack: seq<Value>, more: set<Value>) returns (all: seq<Value>)
    ensures forall x :: x in all <==> x in stack || x in more
  {
    all := stack;
    var left := more;
    while left != {}
      invariant left <= more && forall x :: x in all <==> x in stack || (x in more && x !in left)
    {
      var x :| x in left;
      all, left := all + [x], left - {x};
    }
  }

  // Every container seen has its own containers seen or waiting.
  ghost predicate Explored(seen: set<Value>, stack: seq<Value>)
    reads *
  {
    forall x, y :: x in seen && y in Children(x) && IsContainer(y) ==> y in seen || y in stack
  }

  ghost function AllReached(root: Value, was: Memory): set<Value>
    reads *
  {
    set c | c in was && Reachable(root, c)
  }

  lemma ReachedClosed(root: Value, was: Memory)
    requires ClosedWorld(was.Keys) && (IsContainer(root) ==> root in was)
    ensures IsContainer(root) ==> root in AllReached(root, was)
    ensures ClosedWorld(AllReached(root, was))
  {
    if IsContainer(root) { assert Reaches(root, root, 0); }
    var all := AllReached(root, was);
    forall v, x | v in all && x in Children(v) && IsContainer(x) ensures x in all {
      var n: nat :| Reaches(root, v, n);
      ReachMore(root, v, x, n);
    }
  }

  lemma ExploredAll(root: Value, was: Memory, seen: set<Value>)
    requires Explored(seen, []) && (IsContainer(root) ==> root in seen)
    ensures AllReached(root, was) <= seen
  {
    forall c | c in was && Reachable(root, c) ensures c in seen {
      var n: nat :| Reaches(root, c, n);
      if IsContainer(root) { ClosedReach(seen, root, c, n); } else { LeafReach(root, c, n); }
    }
  }

  ghost predicate Waiting(stack: seq<Value>, all: set<Value>) {
    forall x :: x in stack && IsContainer(x) ==> x in all
  }

  lemma ExploredLess(seen: set<Value>, rest: seq<Value>, node: Value)
    requires Explored(seen, rest + [node]) && (!IsContainer(node) || node in seen)
    ensures Explored(seen, rest)
  {
  }

  method Visit(node: Value, rest: seq<Value>, seen: set<Value>, ghost all: set<Value>) returns (stack: seq<Value>)
    requires node in all && ClosedWorld(all) && Explored(seen, rest + [node]) && Waiting(rest, all)
    ensures Explored(seen + {node}, stack) && Waiting(stack, all) && forall x :: x in rest ==> x in stack
  {
    stack := PushAll(rest, Children(node));
    forall x, y | x in seen + {node} && y in Children(x) && IsContainer(y) ensures y in seen + {node} || y in stack {
      if x in seen { assert y in seen || y in rest + [node]; }
    }
  }

  method Walk(root: Value, ghost all: set<Value>) returns (seen: set<Value>)
    requires ClosedWorld(all) && (IsContainer(root) ==> root in all)
    ensures seen <= all && Explored(seen, []) && (IsContainer(root) ==> root in seen)
  {
    seen := {};
    var stack := [root];
    while stack != []
      invariant seen <= all && Explored(seen, stack) && Waiting(stack, all)
      invariant IsContainer(root) ==> root in seen || root in stack
      decreases |all - seen|, |stack|
    {
      var node, rest := stack[|stack| - 1], stack[..|stack| - 1];
      assert stack == rest + [node];
      if !IsContainer(node) || node in seen {
        ExploredLess(seen, rest, node);
        stack := rest;
      } else {
        assert node in all;
        stack := Visit(node, rest, seen, all);
        assert all - (seen + {node}) == (all - seen) - {node};
        seen := seen + {node};
      }
    }
  }

  /** The walk over a graph of containers finds exactly those that can be reached. */
  method ContainerIds(root: Value, ghost was: Memory) returns (seen: set<Value>)
    requires ClosedWorld(was.Keys) && (IsContainer(root) ==> root in was)
    ensures seen == AllReached(root, was)
  {
    ReachedClosed(root, was);
    seen := Walk(root, AllReached(root, was));
    ExploredAll(root, was, seen);
  }

  // ---------- the call ----------

  ghost predicate HeldByAny(state: Dict, ledger: List, request: Dict, c: Value)
    reads *
  {
    Reachable(Obj(state), c) || Reachable(Arr(ledger), c) || Reachable(Obj(request), c)
  }

  ghost predicate Input(v: Value, was: Memory)
    reads *
  {
    v in was && exists n: nat :: Shallow(v, n)
  }

  method Remember(v: Value, ghost was: Memory) returns (s: Snap)
    requires Current(was) && ClosedWorld(was.Keys) && Input(v, was)
    ensures Agrees(s, was) && forall c :: c in was && Reachable(v, c) ==> c in Covered(s, was)
  {
    ghost var n: nat :| Shallow(v, n);
    s := TakeSnapshot(v, n, was);
    forall c | c in was && Reachable(v, c) ensures c in Covered(s, was) {
      var m: nat :| Reaches(v, c, m);
      ReachedOccurs(s, was, c, m);
    }
  }

  // One call of the untrusted fingerprinter: it may rewrite anything in the world, and raises or answers as prepared.
  method Fingerprint(prepared: Wal.Option<string>, ghost world: set<object>) returns (answer: Wal.Option<string>)
    modifies world
    ensures answer == prepared
  {
    modify world;
    answer := prepared;
  }

  /** Whatever the fingerprinter does, everything held by the state, the ledger or the request is put back. */
  method Guarded(state: Dict, ledger: List, request: Dict, prepared: Wal.Option<string>, ghost was: Memory,
                 ghost world: set<object>)
    returns (answer: Wal.Option<string>)
    requires Current(was) && ClosedWorld(was.Keys) && Objects(was, world)
    requires Input(Obj(state), was) && Input(Arr(ledger), was) && Input(Obj(request), was)
    modifies world
    ensures answer == prepared
    ensures forall c :: c in was && old(HeldByAny(state, ledger, request, c)) ==> Held(c) == was[c]
  {
    var a := Remember(Obj(state), was);
    var b := Remember(Arr(ledger), was);
    var d := Remember(Obj(request), was);
    answer := Fingerprint(prepared, world);
    var _ := Restore(a, was, world);
    var _ := Restore(b, was, world);
    var _ := Restore(d, was, world);
  }

  datatype Outcome = Rejected | Repeated | Applied

  // What the keyed layer makes of the frozen copies and an honest answer
  datatype Decision = Refuse | Repeat | Commit(fields: map<string, Value>, receipt: map<string, Value>)

  // No container can be reached both from the request and from the state or the ledger.
  ghost predicate Separate(state: Dict, ledger: List, request: Dict, was: Memory)
    reads *
  {
    forall c :: c in was && Reachable(Obj(request), c) ==> !Reachable(Obj(state), c) && !Reachable(Arr(ledger), c)
  }

  method CheckSeparate(state: Dict, ledger: List, request: Dict, ghost was: Memory) returns (ok: bool)
    requires Current(was) && ClosedWorld(was.Keys) && Obj(state) in was && Arr(ledger) in was && Obj(request) in was
    ensures ok <==> Separate(state, ledger, request, was)
  {
    var mine := ContainerIds(Obj(request), was);
    var theirs := ContainerIds(Obj(state), was);
    var receipts := ContainerIds(Arr(ledger), was);
    ok := mine * theirs == {} && mine * receipts == {};
    if !ok {
      var c :| c in mine && (c in theirs || c in receipts);
      assert c in was;
    } else {
      forall c | c in was && Reachable(Obj(request), c)
        ensures !Reachable(Obj(state), c) && !Reachable(Arr(ledger), c)
      {
        assert c in mine && c !in mine * theirs && c !in mine * receipts;
      }
    }
  }

  lemma NotOfRequest(state: Dict, ledger: List, request: Dict, was: Memory)
    requires Separate(state, ledger, request, was)
    ensures forall c :: c in was && Reachable(Obj(request), c) ==> c != Obj(state) && c != Arr(ledger)
  {
    assert Reaches(Obj(state), Obj(state), 0) && Reaches(Arr(ledger), Arr(ledger), 0);
  }

  // State and ledger take the staged transition and its receipt together.
  method CommitBoth(state: Dict, ledger: List, fields: map<string, Value>, receipt: map<string, Value>)
    modifies state, ledger
    ensures state.items == fields && |ledger.items| == |old(ledger.items)| + 1
    ensures ledger.items[..|old(ledger.items)|] == old(ledger.items)
    ensures Fresh(ledger.items[|old(ledger.items)|], receipt)
  {
    var entry := new Dict(receipt);
    state.items := fields;
    ledger.items := ledger.items + [Obj(entry)];
  }

  twostate predicate Fresh(new v: Value, new receipt: map<string, Value>)
    reads *
  {
    v.Obj? && fresh(v.d) && v.d.items == receipt
  }

  /** On a refusal or a replay every container is left as found; on success only the state and the ledger
      change, and the ledger by one fresh receipt; the request never does, sharing no container with them. */
  method Apply(state: Dict, ledger: List, request: Dict, decision: Decision,
               prepared: Wal.Option<string>, ghost was: Memory, ghost world: set<object>) returns (outcome: Outcome)
    requires Current(was) && ClosedWorld(was.Keys) && Objects(was, world)
    requires Input(Obj(state), was) && Input(Arr(ledger), was) && Input(Obj(request), was)
    modifies world
    ensures forall c :: c in was && old(Reachable(Obj(request), c)) ==> Held(c) == was[c]
    ensures forall c :: c in was && old(HeldByAny(state, ledger, request, c))
              ==> Held(c) == was[c] || (outcome.Applied? && c in {Obj(state), Arr(ledger)})
    ensures outcome.Rejected? <==> !old(Separate(state, ledger, request, was)) || prepared.None? || decision.Refuse?
    ensures outcome.Applied? <==> old(Separate(state, ledger, request, was)) && prepared.Some? && decision.Commit?
    ensures outcome.Applied? ==>
              decision.Commit? && state.items == decision.fields && |ledger.items| == |old(ledger.items)| + 1
    ensures outcome.Applied? ==> ledger.items[..|old(ledger.items)|] == old(ledger.items)
    ensures outcome.Applied? ==> Fresh(ledger.items[|old(ledger.items)|], decision.receipt)
  {
    var separate := CheckSeparate(state, ledger, request, was);
    if !separate { return Rejected; }
    NotOfRequest(state, ledger, request, was);
    assert Reaches(Arr(ledger), Arr(ledger), 0);
    var answer := Guarded(state, ledger, request, prepared, was, world);
    if answer.None? || decision.Refuse? { return Rejected; }
    if decision.Repeat? { return Repeated; }
    assert Held(Arr(ledger)) == was[Arr(ledger)];
    CommitBoth(state, ledger, decision.fields, decision.receipt);
    outcome := Applied;
  }
}
