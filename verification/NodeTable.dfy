/** Nodes bucketed by digest, one for each position identity (`graph/transposition_node.py`). */
module NodeTable {
  import opened Chess
  import opened Text
  import opened Fen
  import opened PositionIdentity

  const VARIANTS: set<string> := {"standard"}

  // The digest oracle, of which only this is known: it answers by the identity of the position, if at all.
  type Oracle = Identity -> Option<string>

  datatype Node = Node(variant: string, digest: string, snapshot: string)

  function SnapshotText(i: Identity): string {
    i.board + " " + i.side + " " + i.castling + " " + i.enPassant + " 0 1"
  }

  lemma NormalFields(variant: string, f: Fen)
    requires Accepted(f)
    ensures EpGrammar(EpIdentity(f))
    ensures var i := IdentityOf(variant, f); Fields(Normal(f)) == [i.board, i.side, i.castling, i.enPassant, "0", "1"]
  {
    EpIdentityGrammar(f);
    assert Dec(0) == "0" && Dec(1) == "1";
  }

  lemma SnapshotSpelled(variant: string, f: Fen)
    requires Accepted(f)
    ensures SnapshotText(IdentityOf(variant, f)) == Snapshot(f)
  {
    NormalFields(variant, f);
    var i := IdentityOf(variant, f);
    JoinSix(i.board, i.side, i.castling, i.enPassant, "0", "1");
    Tail(i.board + " " + i.side + " " + i.castling + " " + i.enPassant);
    assert Snapshot(f) == Emit(Normal(f)) == Join(Fields(Normal(f)), ' ');
  }

  lemma Tail(s: string)
    ensures s + " 0 1" == s + " " + "0" + " " + "1"
  {
  }

  lemma JoinSix(a: string, b: string, c: string, d: string, e: string, f: string)
    ensures Join([a, b, c, d, e, f], ' ') == a + " " + b + " " + c + " " + d + " " + e + " " + f
  {
    assert [a, b, c, d, e, f][1..] == [b, c, d, e, f] && [b, c, d, e, f][1..] == [c, d, e, f];
    assert [c, d, e, f][1..] == [d, e, f] && [d, e, f][1..] == [e, f] && [e, f][1..] == [f];
    assert Join([e, f], ' ') == e + [' '] + f;
    assert Join([d, e, f], ' ') == d + [' '] + (e + [' '] + f);
    assert Join([c, d, e, f], ' ') == c + [' '] + (d + [' '] + (e + [' '] + f));
    assert Join([b, c, d, e, f], ' ') == b + [' '] + (c + [' '] + (d + [' '] + (e + [' '] + f)));
  }

  // The identity of the position a text spells
  ghost function IdentityIn(variant: string, text: string): Option<Identity> {
    if Parse(text).Parsed? then
      EmitOfParse(text);
      Some(IdentityOf(variant, Parse(text).fen))
    else None
  }

  /** `IdentityIn` handed about as a value. Proofs about tables need to know only that a snapshot reads back to its
      identity, and with the value they need not unfold what parsing a position means; `Faithful` ties the two. */
  type Reader = (string, string) -> Option<Identity>

  ghost predicate Faithful(read: Reader) {
    forall variant, text {:trigger IdentityIn(variant, text)} :: read(variant, text) == IdentityIn(variant, text)
  }

  /** A snapshot spells the identity it was made from. */
  lemma SnapshotIdentity(read: Reader, variant: string, text: string)
    requires Faithful(read) && read(variant, text).Some?
    ensures var i := read(variant, text).value; i.variant == variant && read(variant, SnapshotText(i)) == Some(i)
  {
    assert read(variant, text) == IdentityIn(variant, text);
    EmitOfParse(text);
    var f := Parse(text).fen;
    SnapshotSpelled(variant, f);
    SnapshotFixedPoint(variant, f);
    assert IdentityIn(variant, Snapshot(f)) == Some(IdentityOf(variant, Normal(f)));
  }

  method Identify(ghost read: Reader, variant: string, text: string) returns (i: Option<Identity>)
    requires Faithful(read)
    ensures i == read(variant, text)
  {
    assert read(variant, text) == IdentityIn(variant, text);
    var parsed := ParseFen(text);
    if !parsed.Parsed? { return None; }
    EmitOfParse(text);
    var f := parsed.fen;
    var ep := EpIdentityOf(f);
    EpIdentityGrammar(f);
    i := Some(Identity(variant, EmitPlacement(f.board), ColorText(f.color), RightsText(f.rights), EpText(ep)));
  }

  function NodeOf(d: Oracle, i: Identity): Node
    requires d(i).Some?
  {
    Node(i.variant, d(i).value, SnapshotText(i))
  }

  // ---------- stored records ----------

  ghost predicate NodeOk(read: Reader, d: Oracle, n: Node) {
    n.variant in VARIANTS && read(n.variant, n.snapshot).Some?
    && (var i := read(n.variant, n.snapshot).value; d(i).Some? && n == NodeOf(d, i))
  }

  // A snapshot is its own snapshot exactly when its clocks and its en-passant field are normal.
  lemma NormalText(variant: string, text: string)
    requires Parse(text).Parsed?
    ensures var f := Parse(text).fen;
            IdentityIn(variant, text).Some?
            && (text == SnapshotText(IdentityIn(variant, text).value) <==>
                f.half == 0 && f.full == 1 && f.ep == EpIdentity(f))
  {
    EmitOfParse(text);
    var f := Parse(text).fen;
    SnapshotSpelled(variant, f);
    NormalAccepted(f);
    if text == Snapshot(f) {
      ParseOfEmit(Normal(f));
      assert f == Normal(f);
    }
  }

  // The position of a snapshot, if its text is normal
  method NormalPosition(ghost read: Reader, variant: string, text: string) returns (ok: bool)
    requires Faithful(read)
    ensures ok <==> read(variant, text).Some? && text == SnapshotText(read(variant, text).value)
  {
    assert read(variant, text) == IdentityIn(variant, text);
    var parsed := ParseFen(text);
    if !parsed.Parsed? { return false; }
    EmitOfParse(text);
    NormalText(variant, text);
    var f := parsed.fen;
    var ep := EpIdentityOf(f);
    ok := f.half == 0 && f.full == 1 && f.ep == ep;
  }

  /** A stored record passes exactly when it is the record of its own snapshot. */
  method ValidateNode(ghost read: Reader, d: Oracle, n: Node) returns (ok: bool)
    requires Faithful(read)
    ensures ok <==> NodeOk(read, d, n)
  {
    if n.variant !in VARIANTS { return false; }
    ok := NormalPosition(read, n.variant, n.snapshot);
    if !ok { return; }
    SnapshotIdentity(read, n.variant, n.snapshot);
    var i := Identify(read, n.variant, n.snapshot);
    ok := d(i.value) == Some(n.digest);
  }

  // ---------- the table ----------

  datatype Reply = Kept(node: Node) | UnknownVariant | MalformedPosition | MalformedNode

  type Buckets = map<string, seq<Node>>

  // The buckets hold the nodes of these identities, each once and under its digest.
  ghost predicate Stores(read: Reader, d: Oracle, buckets: Buckets, known: set<Identity>) {
    && (forall i :: i in known ==> i.variant in VARIANTS && read(i.variant, SnapshotText(i)) == Some(i) && d(i).Some?)
    && (forall i :: i in known ==> d(i).value in buckets && NodeOf(d, i) in buckets[d(i).value])
    && (forall key, k {:trigger IsNode(d, buckets[key][k], key, known)} ::
          key in buckets && 0 <= k < |buckets[key]| ==> IsNode(d, buckets[key][k], key, known))
    && forall key, j, k :: key in buckets && 0 <= j < k < |buckets[key]| ==> buckets[key][j] != buckets[key][k]
  }

  ghost predicate IsNode(d: Oracle, n: Node, key: string, known: set<Identity>) {
    n.digest == key && exists i :: i in known && d(i).Some? && n == NodeOf(d, i)
  }

  // The identity of a stored node is the one its snapshot spells.
  lemma StoredIdentity(read: Reader, d: Oracle, buckets: Buckets, known: set<Identity>, n: Node, key: string)
    requires Stores(read, d, buckets, known) && IsNode(d, n, key, known)
    ensures read(n.variant, n.snapshot).Some?
    ensures var i := read(n.variant, n.snapshot).value; i in known && d(i).Some? && n == NodeOf(d, i)
  {
  }

  // A node whose identity is new joins the bucket of its digest.
  lemma StoresMore(read: Reader, d: Oracle, buckets: Buckets, known: set<Identity>, i: Identity, bucket: seq<Node>)
    requires Stores(read, d, buckets, known) && d(i).Some? && i.variant in VARIANTS
    requires read(i.variant, SnapshotText(i)) == Some(i)
    requires i !in known && bucket == if d(i).value in buckets then buckets[d(i).value] else []
    ensures Stores(read, d, buckets[d(i).value := bucket + [NodeOf(d, i)]], known + {i})
  {
    var more, all, n := buckets[d(i).value := bucket + [NodeOf(d, i)]], known + {i}, NodeOf(d, i);
    forall key, k | key in more && 0 <= k < |more[key]| ensures IsNode(d, more[key][k], key, all) {
      if key in buckets && k < |buckets[key]| {
        assert IsNode(d, buckets[key][k], key, known);
        var j :| j in known && d(j).Some? && buckets[key][k] == NodeOf(d, j);
        assert j in all;
      } else {
        assert i in all && more[key][k] == n;
      }
    }
    forall k | 0 <= k < |bucket| ensures bucket[k] != n {
      assert IsNode(d, buckets[d(i).value][k], d(i).value, known);
      StoredIdentity(read, d, buckets, known, bucket[k], d(i).value);
    }
    forall j | j in all ensures d(j).value in more && NodeOf(d, j) in more[d(j).value] {
      if j == i { assert more[d(i).value][|bucket|] == n; }
    }
  }

  function NodesOf(d: Oracle, known: set<Identity>): set<Node> { set i | i in known && d(i).Some? :: NodeOf(d, i) }

  lemma BucketNodes(read: Reader, d: Oracle, buckets: Buckets, known: set<Identity>, key: string)
    requires Stores(read, d, buckets, known) && key in buckets
    ensures forall n :: n in buckets[key] ==> n in NodesOf(d, known)
  {
    forall n | n in buckets[key] ensures n in NodesOf(d, known) {
      var k :| 0 <= k < |buckets[key]| && buckets[key][k] == n;
      assert IsNode(d, buckets[key][k], key, known);
    }
  }

  class Table {
    const oracle: Oracle
    ghost const read: Reader
    var buckets: Buckets
    ghost var known: set<Identity>

    constructor (oracle: Oracle, ghost read: Reader)
      requires Faithful(read)
      ensures this.oracle == oracle && this.read == read && buckets == map[] && known == {} && Valid()
    {
      this.oracle := oracle;
      this.read := read;
      buckets, known := map[], {};
    }

    ghost predicate Valid()
      reads this
    {
      Faithful(read) && Stores(read, oracle, buckets, known)
    }

    /** Inserts the position, or returns the node its identity has already. */
    method Insert(variant: string, text: string) returns (reply: Reply)
      requires Valid()
      modifies this
      ensures Valid()
      ensures reply.UnknownVariant? <==> variant !in VARIANTS
      ensures reply.MalformedPosition? <==> variant in VARIANTS && read(variant, text).None?
      ensures reply.MalformedNode? <==>
              variant in VARIANTS && read(variant, text).Some? && oracle(read(variant, text).value).None?
      ensures reply.Kept? ==> reply.node == NodeOf(oracle, read(variant, text).value)
      ensures known == old(known) + if reply.Kept? then {read(variant, text).value} else {}
      ensures known == old(known) ==> buckets == old(buckets)
    {
      if variant !in VARIANTS { return UnknownVariant; }
      var found := Identify(read, variant, text);
      if found.None? { return MalformedPosition; }
      var i := found.value;
      SnapshotIdentity(read, variant, text);
      if oracle(i).None? { return MalformedNode; }
      var node := NodeOf(oracle, i);
      var bucket := if node.digest in buckets then buckets[node.digest] else [];
      for k := 0 to |bucket|
        invariant buckets == old(buckets) && known == old(known)
        invariant forall j :: 0 <= j < k ==> read(bucket[j].variant, bucket[j].snapshot) != Some(i)
      {
        assert IsNode(oracle, buckets[node.digest][k], node.digest, known);
        StoredIdentity(read, oracle, buckets, known, bucket[k], node.digest);
        var j := Identify(read, bucket[k].variant, bucket[k].snapshot);
        if j.value == i { return Kept(bucket[k]); }
      }
      assert i !in known;
      StoresMore(read, oracle, buckets, known, i, bucket);
      buckets, known := buckets[node.digest := bucket + [node]], known + {i};
      reply := Kept(node);
    }

    /** The nodes of all identities. */
    method Records() returns (nodes: seq<Node>)
      requires Valid()
      ensures forall n :: n in nodes <==> n in NodesOf(oracle, known)
    {
      nodes := [];
      var keys := buckets.Keys;
      while keys != {}
        invariant keys <= buckets.Keys
        invariant forall n :: n in nodes ==> n in NodesOf(oracle, known)
        invariant forall key, n :: key in buckets && key !in keys && n in buckets[key] ==> n in nodes
      {
        var key :| key in keys;
        BucketNodes(read, oracle, buckets, known, key);
        nodes, keys := nodes + buckets[key], keys - {key};
      }
    }

    /** All or nothing: the merge goes through exactly when every source record passes, and then adds just the
        identities of the source. */
    method Merge(source: seq<Node>) returns (ok: bool)
      requires Valid()
      modifies this
      ensures Valid()
      ensures ok <==> forall n :: n in source ==> NodeOk(read, oracle, n)
      ensures !ok ==> buckets == old(buckets) && known == old(known)
      ensures ok ==> known == old(known) + SourceIds(read, source)
    {
      for k := 0 to |source|
        invariant buckets == old(buckets) && known == old(known)
        invariant forall j :: 0 <= j < k ==> NodeOk(read, oracle, source[j])
      {
        ok := ValidateNode(read, oracle, source[k]);
        if !ok { return; }
      }
      var staged := new Table(oracle, read);
      staged.buckets, staged.known := buckets, known;
      for k := 0 to |source|
        invariant buckets == old(buckets) && known == old(known)
        invariant staged.Valid() && staged.known == known + SourceIds(read, source[..k])
      {
        assert NodeOk(read, oracle, source[k]);
        var reply := staged.Insert(source[k].variant, source[k].snapshot);
        assert source[..k + 1][..k] == source[..k];
      }
      assert source[..|source|] == source;
      buckets, known := staged.buckets, staged.known;
      ok := true;
    }
  }

  ghost function SourceIds(read: Reader, source: seq<Node>): set<Identity> {
    if source == [] then {}
    else
      var n := source[|source| - 1];
      SourceIds(read, source[..|source| - 1])
      + if read(n.variant, n.snapshot).Some? then {read(n.variant, n.snapshot).value} else {}
  }

  lemma {:induction false} SourceIdsAre(read: Reader, source: seq<Node>, i: Identity)
    ensures i in SourceIds(read, source) <==>
              exists k :: 0 <= k < |source| && read(source[k].variant, source[k].snapshot) == Some(i)
  {
    if source != [] {
      var init := source[..|source| - 1];
      SourceIdsAre(read, init, i);
      assert forall k :: 0 <= k < |init| ==> init[k] == source[k];
      if k :| 0 <= k < |source| && read(source[k].variant, source[k].snapshot) == Some(i) {
        assert k < |init| ==> read(init[k].variant, init[k].snapshot) == Some(i);
      }
    }
  }

  lemma OneReading(a: Reader, b: Reader, variant: string, text: string)
    requires Faithful(a) && Faithful(b)
    ensures a(variant, text) == b(variant, text)
  {
    assert a(variant, text) == IdentityIn(variant, text);
  }

  // The records of a table pass under every faithful reading, and spell its identities.
  lemma TableSource(read: Reader, theirs: Reader, d: Oracle, buckets: Buckets, known: set<Identity>, source: seq<Node>)
    requires Faithful(read) && Faithful(theirs) && Stores(theirs, d, buckets, known)
    requires forall n :: n in source <==> n in NodesOf(d, known)
    ensures (forall n :: n in source ==> NodeOk(read, d, n)) && SourceIds(read, source) == known
  {
    forall i | i in known
      ensures NodeOf(d, i) in source && NodeOk(read, d, NodeOf(d, i)) && read(i.variant, SnapshotText(i)) == Some(i)
    {
      OneReading(read, theirs, i.variant, SnapshotText(i));
      assert NodeOf(d, i) in NodesOf(d, known);
    }
    forall i ensures i in SourceIds(read, source) <==> i in known {
      SourceIdsAre(read, source, i);
      if i in known {
        var k :| 0 <= k < |source| && source[k] == NodeOf(d, i);
      }
      if k :| 0 <= k < |source| && read(source[k].variant, source[k].snapshot) == Some(i) {
        assert source[k] in source;
      }
    }
  }

  /** Merging another table under the same oracle always goes through, and is the union of the identities. */
  method MergeTable(into: Table, other: Table) returns (ok: bool)
    requires into.Valid() && other.Valid() && into.oracle == other.oracle
    modifies into
    ensures ok && into.Valid() && into.known == old(into.known) + old(other.known)
  {
    var source := other.Records();
    TableSource(into.read, other.read, into.oracle, other.buckets, other.known, source);
    ok := into.Merge(source);
  }
}
