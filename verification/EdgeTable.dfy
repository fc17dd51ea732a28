/** Edges bucketed by the digest of their origin and their move: one target for each origin identity and move
    (`graph/route_edge.py`). */
module EdgeTable {
  import opened Chess
  import opened PositionIdentity
  import opened NodeTable
  import Fen

  datatype Edge = Edge(variant: string, move: string, origin: string, target: string)

  // An edge is decided by where it starts, what is played and where it ends.
  datatype Key = Key(origin: Identity, move: string)

  type Routes = map<Key, Identity>

  predicate MoveOk(move: string) {
    && (|move| == 4 || |move| == 5)
    && 'a' <= move[0] <= 'h' && '1' <= move[1] <= '8' && 'a' <= move[2] <= 'h' && '1' <= move[3] <= '8'
    && move[..2] != move[2..4] && (|move| == 5 ==> move[4] in {'q', 'r', 'b', 'n'})
  }

  // How a move is written: origin, target and the letter of a promotion
  function MoveText(from: Square, to: Square, promotion: string): string
    requires OnBoard(from) && OnBoard(to)
  {
    Fen.SquareName(from) + Fen.SquareName(to) + promotion
  }

  function SquareAt(file: char, rank: char): Square { Square(file as int - 'a' as int, rank as int - '0' as int) }

  /** A move passes exactly when it is written from one square of the board to another. */
  lemma MoveOkMeans(move: string)
    ensures MoveOk(move) <==> exists from, to, promotion ::
              && OnBoard(from) && OnBoard(to) && from != to && promotion in {"", "q", "r", "b", "n"}
              && move == MoveText(from, to, promotion)
  {
    if MoveOk(move) {
      var from, to, promotion := SquareAt(move[0], move[1]), SquareAt(move[2], move[3]), move[4..];
      assert Fen.SquareName(from) == move[..2] && Fen.SquareName(to) == move[2..4];
      assert promotion == "" || promotion == [move[4]];
      assert move == MoveText(from, to, promotion);
    }
    if from, to, promotion :|
      && OnBoard(from) && OnBoard(to) && from != to && promotion in {"", "q", "r", "b", "n"}
      && move == MoveText(from, to, promotion)
    {
      assert move[..2] == Fen.SquareName(from) && move[2..4] == Fen.SquareName(to) && move[4..] == promotion;
      assert move[0] == Fen.SquareName(from)[0] && move[1] == Fen.SquareName(from)[1];
      assert move[2] == Fen.SquareName(to)[0] && move[3] == Fen.SquareName(to)[1];
      if promotion != "" { assert move[4] == promotion[0]; }
    }
  }

  function EdgeOf(k: Key, target: Identity): Edge {
    Edge(k.origin.variant, k.move, SnapshotText(k.origin), SnapshotText(target))
  }

  // What the records of a table spell
  ghost predicate Spelled(read: Reader, k: Key, target: Identity) {
    && k.origin.variant in VARIANTS && target.variant == k.origin.variant && MoveOk(k.move)
    && read(k.origin.variant, SnapshotText(k.origin)) == Some(k.origin)
    && read(target.variant, SnapshotText(target)) == Some(target)
  }

  // ---------- the table ----------

  datatype Bucket = Bucket(digest: string, move: string)

  type Buckets = map<Bucket, seq<Edge>>

  ghost predicate Holds(read: Reader, d: Oracle, buckets: Buckets, routes: Routes) {
    && (forall k :: k in routes ==> Spelled(read, k, routes[k]) && d(k.origin).Some?)
    && (forall k :: k in routes ==> InBucket(buckets, Bucket(d(k.origin).value, k.move), EdgeOf(k, routes[k])))
    && forall b, n {:trigger IsEdge(d, buckets[b][n], b, routes)} ::
         b in buckets && 0 <= n < |buckets[b]| ==> IsEdge(d, buckets[b][n], b, routes)
  }

  ghost predicate InBucket(buckets: Buckets, b: Bucket, e: Edge) { b in buckets && e in buckets[b] }

  ghost predicate IsEdge(d: Oracle, e: Edge, b: Bucket, routes: Routes) {
    exists k :: k in routes && d(k.origin) == Some(b.digest) && k.move == b.move && e == EdgeOf(k, routes[k])
  }

  // The key and the target that a stored edge spells
  lemma StoredEdge(read: Reader, d: Oracle, buckets: Buckets, routes: Routes, e: Edge, b: Bucket)
    requires Holds(read, d, buckets, routes) && IsEdge(d, e, b, routes)
    ensures read(e.variant, e.origin).Some? && read(e.variant, e.target).Some?
    ensures var k := Key(read(e.variant, e.origin).value, e.move);
            && k in routes && routes[k] == read(e.variant, e.target).value
            && e == EdgeOf(k, routes[k]) && k.origin.variant == e.variant
  {
    var k :| k in routes && d(k.origin) == Some(b.digest) && k.move == b.move && e == EdgeOf(k, routes[k]);
    assert Spelled(read, k, routes[k]);
  }

  lemma HoldsMore(read: Reader, d: Oracle, buckets: Buckets, routes: Routes, k: Key, target: Identity,
                  bucket: seq<Edge>)
    requires Holds(read, d, buckets, routes) && Spelled(read, k, target) && d(k.origin).Some? && k !in routes
    requires var b := Bucket(d(k.origin).value, k.move); bucket == if b in buckets then buckets[b] else []
    ensures Holds(read, d, buckets[Bucket(d(k.origin).value, k.move) := bucket + [EdgeOf(k, target)]],
                  routes[k := target])
  {
    var b, e := Bucket(d(k.origin).value, k.move), EdgeOf(k, target);
    var more, all := buckets[b := bucket + [e]], routes[k := target];
    forall c, n | c in more && 0 <= n < |more[c]| ensures IsEdge(d, more[c][n], c, all) {
      if c in buckets && n < |buckets[c]| {
        assert IsEdge(d, buckets[c][n], c, routes);
        var j :|
          && j in routes && d(j.origin) == Some(c.digest) && j.move == c.move
          && buckets[c][n] == EdgeOf(j, routes[j]);
        assert j in all && all[j] == routes[j];
      } else {
        assert k in all && more[c][n] == e;
      }
    }
    forall j | j in all ensures InBucket(more, Bucket(d(j.origin).value, j.move), EdgeOf(j, all[j])) {
      if j == k {
        assert more[b][|bucket|] == e;
      } else {
        assert InBucket(buckets, Bucket(d(j.origin).value, j.move), EdgeOf(j, routes[j]));
      }
    }
  }

  ghost predicate IsBucket(d: Oracle, buckets: Buckets, k: Key, bucket: seq<Edge>) {
    d(k.origin).Some? &&
    (var b := Bucket(d(k.origin).value, k.move); bucket == if b in buckets then buckets[b] else [])
  }

  // An edge of the bucket has the move, and with the same origin also the key.
  lemma BucketEdge(read: Reader, d: Oracle, buckets: Buckets, routes: Routes, k: Key, bucket: seq<Edge>, n: nat)
    requires Holds(read, d, buckets, routes) && IsBucket(d, buckets, k, bucket) && n < |bucket|
    ensures var e := bucket[n];
            read(e.variant, e.origin).Some? &&
            (read(e.variant, e.origin).value == k.origin ==>
             k in routes && e == EdgeOf(k, routes[k]) && read(e.variant, e.target) == Some(routes[k]))
  {
    var b := Bucket(d(k.origin).value, k.move);
    assert IsEdge(d, buckets[b][n], b, routes);
    StoredEdge(read, d, buckets, routes, bucket[n], b);
  }

  lemma NotRouted(read: Reader, d: Oracle, buckets: Buckets, routes: Routes, k: Key, bucket: seq<Edge>)
    requires Holds(read, d, buckets, routes) && IsBucket(d, buckets, k, bucket)
    requires forall m :: 0 <= m < |bucket| ==> read(bucket[m].variant, bucket[m].origin) != Some(k.origin)
    ensures k !in routes
  {
    assert k in routes ==> Spelled(read, k, routes[k]);
    assert k in routes ==> InBucket(buckets, Bucket(d(k.origin).value, k.move), EdgeOf(k, routes[k]));
  }

  datatype Reply = Kept(edge: Edge) | UnknownVariant | MalformedEdge | MalformedPosition | ConflictingEdge

  // The key and target of a request, once its texts parse
  ghost predicate Asks(read: Reader, variant: string, move: string, origin: string, target: string) {
    variant in VARIANTS && MoveOk(move) && read(variant, origin).Some? && read(variant, target).Some?
  }

  ghost function KeyAsked(read: Reader, variant: string, move: string, origin: string): Key
    requires read(variant, origin).Some?
  {
    Key(read(variant, origin).value, move)
  }

  ghost function EdgesOf(routes: Routes): set<Edge> { set k | k in routes :: EdgeOf(k, routes[k]) }

  lemma BucketEdges(read: Reader, d: Oracle, buckets: Buckets, routes: Routes, b: Bucket)
    requires Holds(read, d, buckets, routes) && b in buckets
    ensures forall e :: e in buckets[b] ==> e in EdgesOf(routes)
  {
    forall e | e in buckets[b] ensures e in EdgesOf(routes) {
      var n :| 0 <= n < |buckets[b]| && buckets[b][n] == e;
      assert IsEdge(d, buckets[b][n], b, routes);
    }
  }

  lemma AllInBuckets(read: Reader, d: Oracle, buckets: Buckets, routes: Routes)
    requires Holds(read, d, buckets, routes)
    ensures forall e :: e in EdgesOf(routes) ==> exists b :: InBucket(buckets, b, e)
  {
    forall e | e in EdgesOf(routes) ensures exists b :: InBucket(buckets, b, e) {
      var k :| k in routes && EdgeOf(k, routes[k]) == e;
      assert InBucket(buckets, Bucket(d(k.origin).value, k.move), EdgeOf(k, routes[k]));
    }
  }

  // The first edge from this origin, or none
  method FindOrigin(ghost read: Reader, bucket: seq<Edge>, origin: Identity) returns (n: nat)
    requires Faithful(read) && forall m :: 0 <= m < |bucket| ==> read(bucket[m].variant, bucket[m].origin).Some?
    ensures n <= |bucket|
    ensures n < |bucket| ==> read(bucket[n].variant, bucket[n].origin) == Some(origin)
    ensures forall m :: 0 <= m < n ==> read(bucket[m].variant, bucket[m].origin) != Some(origin)
  {
    for k := 0 to |bucket|
      invariant forall m :: 0 <= m < k ==> read(bucket[m].variant, bucket[m].origin) != Some(origin)
    {
      var x := Identify(read, bucket[k].variant, bucket[k].origin);
      if x.value == origin { return k; }
    }
    n := |bucket|;
  }

  class Table {
    const oracle: Oracle
    ghost const read: Reader
    var buckets: Buckets
    ghost var routes: Routes

    constructor (oracle: Oracle, ghost read: Reader)
      requires Faithful(read)
      ensures this.oracle == oracle && this.read == read && buckets == map[] && routes == map[] && Valid()
    {
      this.oracle := oracle;
      this.read := read;
      buckets, routes := map[], map[];
    }

    ghost predicate Valid()
      reads this
    {
      Faithful(read) && Holds(read, oracle, buckets, routes)
    }

    /** Inserts the edge, returns the one that is there, or refuses a second target; the refusal comes exactly
        when the origin's identity and the move lead elsewhere already. */
    method Insert(variant: string, move: string, origin: string, target: string) returns (reply: Reply)
      requires Valid()
      modifies this
      ensures Valid()
      ensures reply.UnknownVariant? <==> variant !in VARIANTS
      ensures variant in VARIANTS && !MoveOk(move) ==> reply == MalformedEdge
      ensures reply.MalformedPosition? <==>
              variant in VARIANTS && MoveOk(move) && (read(variant, origin).None? || read(variant, target).None?)
      ensures Asks(read, variant, move, origin, target) ==>
                var k, t := KeyAsked(read, variant, move, origin), read(variant, target).value;
                if oracle(k.origin).None? then reply == MalformedEdge
                else if k in old(routes) && old(routes)[k] != t then reply == ConflictingEdge
                else reply == Reply.Kept(EdgeOf(k, t)) && routes == old(routes)[k := t]
      ensures !reply.Kept? ==> routes == old(routes) && buckets == old(buckets)
    {
      if variant !in VARIANTS { return Reply.UnknownVariant; }
      if !MoveOk(move) { return MalformedEdge; }
      var a := Identify(read, variant, origin);
      var z := Identify(read, variant, target);
      if a.None? || z.None? { return Reply.MalformedPosition; }
      SnapshotIdentity(read, variant, origin);
      SnapshotIdentity(read, variant, target);
      reply := Put(Key(a.value, move), z.value);
    }

    // The stored edge with this key, if its bucket holds one
    method Lookup(k: Key, bucket: seq<Edge>) returns (found: Option<Edge>)
      requires Valid() && IsBucket(oracle, buckets, k, bucket)
      ensures found.Some? <==> k in routes
      ensures found.Some? ==> found.value == EdgeOf(k, routes[k])
      ensures found.Some? ==> read(found.value.variant, found.value.target) == Some(routes[k])
    {
      forall n | 0 <= n < |bucket| ensures read(bucket[n].variant, bucket[n].origin).Some? {
        BucketEdge(read, oracle, buckets, routes, k, bucket, n);
      }
      var n := FindOrigin(read, bucket, k.origin);
      if n == |bucket| {
        NotRouted(read, oracle, buckets, routes, k, bucket);
        return None;
      }
      BucketEdge(read, oracle, buckets, routes, k, bucket, n);
      found := Some(bucket[n]);
    }

    // The edge is known to be well-formed: what its digest and its bucket say
    method Put(k: Key, target: Identity) returns (reply: Reply)
      requires Valid() && Spelled(read, k, target)
      modifies this
      ensures Valid()
      ensures reply ==
              if oracle(k.origin).None? then MalformedEdge
              else if k in old(routes) && old(routes)[k] != target then ConflictingEdge
              else Reply.Kept(EdgeOf(k, target))
      ensures routes == if reply.Kept? then old(routes)[k := target] else old(routes)
      ensures !reply.Kept? ==> buckets == old(buckets)
    {
      if oracle(k.origin).None? { return MalformedEdge; }
      var b := Bucket(oracle(k.origin).value, k.move);
      var bucket := if b in buckets then buckets[b] else [];
      var found := Lookup(k, bucket);
      if found.Some? {
        var y := Identify(read, found.value.variant, found.value.target);
        return if y.value == target then Reply.Kept(found.value) else ConflictingEdge;
      }
      HoldsMore(read, oracle, buckets, routes, k, target, bucket);
      buckets, routes := buckets[b := bucket + [EdgeOf(k, target)]], routes[k := target];
      reply := Reply.Kept(EdgeOf(k, target));
    }

    /** The edges of all routes. */
    method Records() returns (edges: seq<Edge>)
      requires Valid()
      ensures forall e :: e in edges <==> e in EdgesOf(routes)
    {
      edges := [];
      var keys := buckets.Keys;
      while keys != {}
        invariant keys <= buckets.Keys
        invariant forall e :: e in edges ==> e in EdgesOf(routes)
        invariant forall b, e :: b in buckets && b !in keys && e in buckets[b] ==> e in edges
      {
        var b :| b in keys;
        BucketEdges(read, oracle, buckets, routes, b);
        edges, keys := edges + buckets[b], keys - {b};
      }
      AllInBuckets(read, oracle, buckets, routes);
    }

    // One record of a merge, on the staged table
    method MergeOne(e: Edge, ghost base: Routes, ghost before: seq<Edge>) returns (ok: bool)
      requires Valid() && AllFit(read, oracle, base, before) && routes == After(read, base, before)
      modifies this
      ensures Valid()
      ensures ok <==> AllFit(read, oracle, base, before + [e])
      ensures ok ==> routes == After(read, base, before + [e])
    {
      OneMore(read, oracle, base, before, e);
      ok := ValidateEdge(read, oracle, e);
      if ok {
        var reply := Insert(e.variant, e.move, e.origin, e.target);
        ok := reply.Kept?;
      }
    }

    /** All or nothing: the records are validated and staged one by one, and the first that fails decides. */
    method Merge(source: seq<Edge>) returns (ok: bool)
      requires Valid()
      modifies this
      ensures Valid()
      ensures ok <==> AllFit(read, oracle, old(routes), source)
      ensures ok ==> routes == After(read, old(routes), source)
      ensures !ok ==> routes == old(routes) && buckets == old(buckets)
    {
      var staged;
      ok, staged := Stage(source);
      if ok { buckets, routes := staged.buckets, staged.routes; }
    }

    method Stage(source: seq<Edge>) returns (ok: bool, staged: Table)
      requires Valid()
      ensures ok <==> AllFit(read, oracle, routes, source)
      ensures staged.oracle == oracle && staged.read == read
      ensures ok ==> staged.Valid() && staged.routes == After(read, routes, source)
    {
      staged := new Table(oracle, read);
      staged.buckets, staged.routes := buckets, routes;
      for n := 0 to |source|
        invariant staged.Valid() && AllFit(read, oracle, routes, source[..n])
        invariant staged.routes == After(read, routes, source[..n])
      {
        PrefixMore(read, oracle, routes, source, n);
        ok := staged.MergeOne(source[n], routes, source[..n]);
        if !ok { return; }
      }
      assert source[..|source|] == source;
      ok := true;
    }
  }

  // ---------- stored records ----------

  // Both ends are node records, and the move is well-formed.
  ghost predicate EdgeOk(read: Reader, d: Oracle, e: Edge) {
    && Asks(read, e.variant, e.move, e.origin, e.target)
    && d(read(e.variant, e.origin).value).Some? && d(read(e.variant, e.target).value).Some?
    && e == EdgeOf(KeyAsked(read, e.variant, e.move, e.origin), read(e.variant, e.target).value)
  }

  method ValidateEdge(ghost read: Reader, d: Oracle, e: Edge) returns (ok: bool)
    requires Faithful(read)
    ensures ok <==> EdgeOk(read, d, e)
  {
    if e.variant !in VARIANTS || !MoveOk(e.move) { return false; }
    ok := ValidateEnd(read, d, e.variant, e.origin);
    if !ok { return; }
    ok := ValidateEnd(read, d, e.variant, e.target);
  }

  // Through the node validator, with the digest that the oracle gives
  method ValidateEnd(ghost read: Reader, d: Oracle, variant: string, snapshot: string) returns (ok: bool)
    requires Faithful(read) && variant in VARIANTS
    ensures ok <==> read(variant, snapshot).Some? && d(read(variant, snapshot).value).Some?
                    && snapshot == SnapshotText(read(variant, snapshot).value)
    ensures ok ==> read(variant, snapshot).value.variant == variant
  {
    var i := Identify(read, variant, snapshot);
    if i.None? || d(i.value).None? { return false; }
    SnapshotIdentity(read, variant, snapshot);
    ok := ValidateNode(read, d, Node(variant, d(i.value).value, snapshot));
  }

  // ---------- what a merge comes to ----------

  // The routes with those of the source, in turn
  ghost function After(read: Reader, routes: Routes, source: seq<Edge>): Routes {
    if source == [] then routes
    else
      var e, r := source[|source| - 1], After(read, routes, source[..|source| - 1]);
      if read(e.variant, e.origin).Some? && read(e.variant, e.target).Some?
      then r[KeyAsked(read, e.variant, e.move, e.origin) := read(e.variant, e.target).value] else r
  }

  ghost predicate AllFit(read: Reader, d: Oracle, routes: Routes, source: seq<Edge>) {
    source == [] ||
    (var init, e := source[..|source| - 1], source[|source| - 1];
     && AllFit(read, d, routes, init) && EdgeOk(read, d, e)
     && Agrees(After(read, routes, init), KeyAsked(read, e.variant, e.move, e.origin), read(e.variant, e.target).value))
  }

  ghost predicate Agrees(routes: Routes, k: Key, target: Identity) { k in routes ==> routes[k] == target }

  lemma OneMore(read: Reader, d: Oracle, base: Routes, before: seq<Edge>, e: Edge)
    requires AllFit(read, d, base, before)
    ensures var r := After(read, base, before);
            && (AllFit(read, d, base, before + [e]) <==>
                && EdgeOk(read, d, e)
                && Agrees(r, KeyAsked(read, e.variant, e.move, e.origin), read(e.variant, e.target).value))
            && (EdgeOk(read, d, e) ==>
                After(read, base, before + [e]) ==
                r[KeyAsked(read, e.variant, e.move, e.origin) := read(e.variant, e.target).value])
  {
    assert (before + [e])[..|before|] == before;
  }

  lemma {:induction false} FitsPrefix(read: Reader, d: Oracle, routes: Routes, source: seq<Edge>, n: nat)
    requires n <= |source|
    ensures AllFit(read, d, routes, source) ==> AllFit(read, d, routes, source[..n])
  {
    if n < |source| {
      FitsPrefix(read, d, routes, source[..|source| - 1], n);
      assert source[..|source| - 1][..n] == source[..n];
    } else {
      assert source[..n] == source;
    }
  }

  lemma PrefixMore(read: Reader, d: Oracle, routes: Routes, source: seq<Edge>, n: nat)
    requires n < |source|
    ensures source[..n + 1] == source[..n] + [source[n]]
    ensures !AllFit(read, d, routes, source[..n] + [source[n]]) ==> !AllFit(read, d, routes, source)
  {
    assert source[..n + 1] == source[..n] + [source[n]];
    FitsPrefix(read, d, routes, source, n + 1);
  }

  // One function gives the target of every route, of the table and of the source.
  ghost predicate OneTarget(read: Reader, routes: Routes, source: seq<Edge>, all: Routes) {
    && (forall k :: k in routes ==> k in all && all[k] == routes[k])
    && forall n :: 0 <= n < |source| ==> var e := source[n];
         EdgeTargets(read, e, all)
  }

  ghost predicate EdgeTargets(read: Reader, e: Edge, all: Routes) {
    read(e.variant, e.origin).Some? && read(e.variant, e.target).Some?
    && (var k := KeyAsked(read, e.variant, e.move, e.origin); k in all && all[k] == read(e.variant, e.target).value)
  }

  lemma {:induction false} AfterInside(read: Reader, routes: Routes, source: seq<Edge>, all: Routes)
    requires OneTarget(read, routes, source, all)
    ensures forall k :: k in After(read, routes, source) ==> k in all && all[k] == After(read, routes, source)[k]
  {
    if source != [] {
      var init := source[..|source| - 1];
      assert OneTarget(read, routes, init, all) by {
        forall n | 0 <= n < |init| ensures EdgeTargets(read, init[n], all) { assert EdgeTargets(read, source[n], all); }
      }
      AfterInside(read, routes, init, all);
      assert EdgeTargets(read, source[|source| - 1], all);
    }
  }

  /** A merge goes through exactly when all records pass and no origin and move have two targets, in the table
      or the source; so its order does not matter. */
  lemma {:induction false} FitsWhenOneTarget(read: Reader, d: Oracle, routes: Routes, source: seq<Edge>, all: Routes)
    requires OneTarget(read, routes, source, all) && forall n :: 0 <= n < |source| ==> EdgeOk(read, d, source[n])
    ensures AllFit(read, d, routes, source)
  {
    if source != [] {
      var init := source[..|source| - 1];
      assert OneTarget(read, routes, init, all) by {
        forall n | 0 <= n < |init| ensures EdgeTargets(read, init[n], all) { assert EdgeTargets(read, source[n], all); }
      }
      forall n | 0 <= n < |init| ensures EdgeOk(read, d, init[n]) { assert EdgeOk(read, d, source[n]); }
      FitsWhenOneTarget(read, d, routes, init, all);
      AfterInside(read, routes, init, all);
      assert EdgeTargets(read, source[|source| - 1], all);
    }
  }

  lemma {:induction false} FittingHasOneTarget(read: Reader, d: Oracle, routes: Routes, source: seq<Edge>)
    requires AllFit(read, d, routes, source)
    ensures OneTarget(read, routes, source, After(read, routes, source))
    ensures forall n :: 0 <= n < |source| ==> EdgeOk(read, d, source[n])
  {
    if source != [] {
      var init, all := source[..|source| - 1], After(read, routes, source);
      var before := After(read, routes, init);
      FittingHasOneTarget(read, d, routes, init);
      forall n | 0 <= n < |source| ensures EdgeTargets(read, source[n], all) && EdgeOk(read, d, source[n]) {
        if n < |init| { assert EdgeTargets(read, init[n], before) && EdgeOk(read, d, init[n]) && init[n] == source[n]; }
      }
    }
  }

  // ---------- merging tables ----------

  /** When another table can be merged: the oracle answers for both ends of all its routes, and no route that both
      hold leads to two targets. */
  ghost predicate Mergeable(d: Oracle, routes: Routes, theirs: Routes) {
    && (forall k :: k in theirs ==> d(k.origin).Some? && d(theirs[k]).Some?)
    && forall k :: k in routes && k in theirs ==> routes[k] == theirs[k]
  }

  ghost predicate AllSpelled(read: Reader, routes: Routes) { forall k :: k in routes ==> Spelled(read, k, routes[k]) }

  // `source` lists the records of the routes `theirs`.
  ghost predicate Lists(source: seq<Edge>, theirs: Routes) { forall e :: e in source <==> e in EdgesOf(theirs) }

  // What the record of a route says to the validator and to the merge
  lemma RouteRecord(read: Reader, d: Oracle, k: Key, target: Identity, all: Routes)
    requires Spelled(read, k, target)
    ensures var e := EdgeOf(k, target);
            && (EdgeOk(read, d, e) <==> d(k.origin).Some? && d(target).Some?)
            && (EdgeTargets(read, e, all) <==> k in all && all[k] == target)
  {
  }

  lemma TheirsAt(read: Reader, source: seq<Edge>, theirs: Routes, n: nat) returns (k: Key)
    requires Lists(source, theirs) && n < |source|
    ensures k in theirs && source[n] == EdgeOf(k, theirs[k])
  {
    assert source[n] in source;
    k :| k in theirs && source[n] == EdgeOf(k, theirs[k]);
  }

  lemma SourceTargets(read: Reader, d: Oracle, routes: Routes, theirs: Routes, source: seq<Edge>)
    requires AllSpelled(read, theirs) && Lists(source, theirs) && Mergeable(d, routes, theirs)
    ensures OneTarget(read, routes, source, routes + theirs)
    ensures forall n :: 0 <= n < |source| ==> EdgeOk(read, d, source[n])
  {
    forall n | 0 <= n < |source| ensures EdgeTargets(read, source[n], routes + theirs) && EdgeOk(read, d, source[n]) {
      var k := TheirsAt(read, source, theirs, n);
      RouteRecord(read, d, k, theirs[k], routes + theirs);
    }
  }

  lemma FittingMergeable(read: Reader, d: Oracle, routes: Routes, theirs: Routes, source: seq<Edge>)
    requires AllSpelled(read, theirs) && Lists(source, theirs) && AllFit(read, d, routes, source)
    ensures Mergeable(d, routes, theirs)
    ensures forall k :: k in theirs ==> k in After(read, routes, source) && After(read, routes, source)[k] == theirs[k]
  {
    var all := After(read, routes, source);
    FittingHasOneTarget(read, d, routes, source);
    forall k | k in theirs ensures d(k.origin).Some? && d(theirs[k]).Some? && k in all && all[k] == theirs[k] {
      var e := EdgeOf(k, theirs[k]);
      assert e in EdgesOf(theirs);
      var n :| 0 <= n < |source| && source[n] == e;
      assert EdgeTargets(read, source[n], all) && EdgeOk(read, d, source[n]);
      RouteRecord(read, d, k, theirs[k], all);
    }
  }

  /** Merging the records of a table goes through exactly when the tables are mergeable, and is then the union. */
  lemma MergeIsUnion(read: Reader, d: Oracle, routes: Routes, theirs: Routes, source: seq<Edge>)
    requires AllSpelled(read, theirs) && Lists(source, theirs)
    ensures AllFit(read, d, routes, source) <==> Mergeable(d, routes, theirs)
    ensures AllFit(read, d, routes, source) ==> After(read, routes, source) == routes + theirs
  {
    if Mergeable(d, routes, theirs) {
      SourceTargets(read, d, routes, theirs, source);
      FitsWhenOneTarget(read, d, routes, source, routes + theirs);
    }
    if AllFit(read, d, routes, source) {
      FittingMergeable(read, d, routes, theirs, source);
      FittingHasOneTarget(read, d, routes, source);
      SourceTargets(read, d, routes, theirs, source);
      AfterInside(read, routes, source, routes + theirs);
      SameRoutes(After(read, routes, source), routes + theirs);
    }
  }

  lemma SameRoutes(a: Routes, b: Routes)
    requires forall k :: k in a ==> k in b && b[k] == a[k]
    requires forall k :: k in b ==> k in a
    ensures a == b
  {
  }

  lemma SpelledAlike(a: Reader, b: Reader, routes: Routes)
    requires Faithful(a) && Faithful(b) && AllSpelled(a, routes)
    ensures AllSpelled(b, routes)
  {
    forall k | k in routes ensures Spelled(b, k, routes[k]) {
      assert Spelled(a, k, routes[k]);
      OneReading(a, b, k.origin.variant, SnapshotText(k.origin));
      OneReading(a, b, routes[k].variant, SnapshotText(routes[k]));
    }
  }

  /** Merging another table: all or nothing, the union exactly when the two are mergeable. An insert asks the oracle
      about the origin alone and the merge about both ends, so even a table's own records may fail to come back. */
  method MergeTable(into: Table, other: Table) returns (ok: bool)
    requires into.Valid() && other.Valid()
    modifies into
    ensures into.Valid() && (ok <==> old(Mergeable(into.oracle, into.routes, other.routes)))
    ensures into.routes == if ok then old(into.routes) + old(other.routes) else old(into.routes)
  {
    var source := other.Records();
    SpelledAlike(other.read, into.read, other.routes);
    MergeIsUnion(into.read, into.oracle, into.routes, other.routes, source);
    ok := into.Merge(source);
  }

  /** An edge put into an empty table, and the table merged into itself: the insert goes through, and the merge exactly
      when the oracle answers for the target as well. */
  method MergeBack(table: Table, variant: string, move: string, origin: string, target: string)
    returns (reply: Reply, ok: bool)
    requires table.Valid() && table.routes == map[] && Asks(table.read, variant, move, origin, target)
    requires table.oracle(KeyAsked(table.read, variant, move, origin).origin).Some?
    modifies table
    ensures reply.Kept? && (ok <==> table.oracle(table.read(variant, target).value).Some?)
  {
    ghost var k := KeyAsked(table.read, variant, move, origin);
    reply := table.Insert(variant, move, origin, target);
    assert k in table.routes && forall j :: j in table.routes ==> j == k;
    ok := MergeTable(table, table);
  }
}
