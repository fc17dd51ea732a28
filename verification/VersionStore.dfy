/** The content-addressed store of graph versions (`graph/version_store.py`). */
module VersionStore {

  datatype Option<+T> = None | Some(value: T)

  /** A version id is known by the content it hashes: the parents, as a set, and the graph digest. */
  datatype Id = Of(parents: set<Id>, digest: string) | Foreign(text: string, wellFormed: bool)

  // `created` is the instant a valid timestamp spells; parents are kept sorted and without duplicates.
  datatype Record = Record(id: Id, parents: set<Id>, digest: string, created: Option<nat>, caption: string)

  datatype Failure = Malformed | Conflicting | RootViolation | UnknownParent | Nonmonotonic

  predicate IdOk(id: Id) { id.Foreign? ==> id.wellFormed }

  predicate DigestOk(s: string) {
    |s| == 69 && s[..5] == "gdv1:" && forall k :: 5 <= k < |s| ==> '0' <= s[k] <= '9' || 'a' <= s[k] <= 'f'
  }

  predicate LabelOk(s: string) { 1 <= |s| <= 120 && forall k :: 0 <= k < |s| ==> ' ' <= s[k] <= '~' }

  predicate RecordOk(r: Record) {
    && r.id == Of(r.parents, r.digest) && (forall p :: p in r.parents ==> IdOk(p))
    && DigestOk(r.digest) && r.created.Some? && LabelOk(r.caption)
  }

  type Records = map<Id, Record>

  // Its parents are stored and not younger.
  predicate ParentsOk(r: Record, records: Records) {
    r.created.Some? && forall p :: p in r.parents ==>
      p in records && records[p].created.Some? && records[p].created.value <= r.created.value
  }

  // The stored parent is later than the record.
  predicate Younger(parent: Record, r: Record) {
    r.created.Some? && (parent.created.None? || r.created.value < parent.created.value)
  }

  /** What every store keeps: ids are content, parents are stored and not younger, and there is one root. */
  ghost predicate Sound(records: Records, root: Option<Id>) {
    && (forall id :: id in records ==> records[id].id == id && RecordOk(records[id]) && ParentsOk(records[id], records))
    && (root.Some? ==> root.value in records)
    && forall id :: id in records && records[id].parents == {} ==> root == Some(id)
  }

  // Stored versions, each a parent of the one before it
  ghost predicate Lineage(records: Records, line: seq<Id>) {
    && (forall k :: 0 <= k < |line| ==> line[k] in records)
    && forall k :: 0 < k < |line| ==> line[k] in records[line[k - 1]].parents
  }

  /** From every version a line of parents leads down to the one root. */
  lemma {:induction false} RootBelow(records: Records, root: Option<Id>, id: Id) returns (line: seq<Id>)
    requires Sound(records, root) && id in records
    ensures Lineage(records, line) && line != [] && line[0] == id
    ensures root == Some(line[|line| - 1]) && records[line[|line| - 1]].parents == {}
    decreases id
  {
    if records[id].parents == {} {
      line := [id];
    } else {
      var p :| p in records[id].parents;
      assert ParentsOk(records[id], records);
      var rest := RootBelow(records, root, p);
      LineageFrom(records, id, rest);
      line := [id] + rest;
    }
  }

  lemma LineageFrom(records: Records, id: Id, rest: seq<Id>)
    requires Lineage(records, rest) && rest != [] && id in records && rest[0] in records[id].parents
    ensures Lineage(records, [id] + rest) && ([id] + rest)[|rest|] == rest[|rest| - 1]
  {
    var line := [id] + rest;
    assert forall k :: 0 < k < |line| ==> line[k] == rest[k - 1];
  }

  ghost predicate Agree(a: Records, b: Records) { forall id :: id in a && id in b ==> a[id] == b[id] }

  /** When two stores can be merged */
  ghost predicate Compatible(a: Records, aRoot: Option<Id>, b: Records, bRoot: Option<Id>) {
    Agree(a, b) && (a == map[] || b == map[] || aRoot == bRoot)
  }

  datatype Reply = Stored(record: Record) | Failed(failure: Failure)

  // What inserting `r` comes to
  ghost predicate Inserted(records: Records, root: Option<Id>, r: Record, reply: Reply, after: Records,
                           afterRoot: Option<Id>) {
    && (reply.Failed? ==> after == records && afterRoot == root)
    && if !RecordOk(r) then reply == Failed(Malformed)
       else if r.id in records then
         after == records && afterRoot == root && reply == if records[r.id] == r then Stored(r) else Failed(Conflicting)
       else if r.parents == {} && root.Some? then reply == Failed(RootViolation)
       else if !ParentsOk(r, records) then
         || (reply == Failed(UnknownParent) && !(r.parents <= records.Keys))
         || (reply == Failed(Nonmonotonic) && exists p :: p in r.parents && p in records && Younger(records[p], r))
       else
         && reply == Stored(r) && after == records[r.id := r]
         && afterRoot == if r.parents == {} then Some(r.id) else root
  }

  lemma InsertKeepsSound(records: Records, root: Option<Id>, r: Record, reply: Reply, after: Records,
                         afterRoot: Option<Id>)
    requires Sound(records, root) && Inserted(records, root, r, reply, after, afterRoot)
    ensures Sound(after, afterRoot)
  {
    if reply.Stored? && r.id !in records { StoredKeepsSound(records, root, r); }
  }

  lemma StoredKeepsSound(records: Records, root: Option<Id>, r: Record)
    requires Sound(records, root) && RecordOk(r) && r.id !in records && ParentsOk(r, records)
    requires (r.parents == {} ==> root.None?)
    ensures Sound(records[r.id := r], if r.parents == {} then Some(r.id) else root)
  {
    var after := records[r.id := r];
    forall id | id in after ensures after[id].id == id && RecordOk(after[id]) && ParentsOk(after[id], after) {
      if id != r.id { SoundAt(records, root, id); }
      ParentsStay(after[id], records, r);
    }
  }

  lemma ParentsStay(one: Record, records: Records, r: Record)
    requires ParentsOk(one, records) && r.id !in records
    ensures ParentsOk(one, records[r.id := r])
  {
  }

  // ---------- the merge on values ----------

  // `staged` is `a` with all of `b` but what is pending.
  ghost predicate Staging(a: Records, b: Records, pending: set<Id>, staged: Records) {
    && pending <= b.Keys
    && (forall id :: id in staged <==> id in a || (id in b && id !in pending))
    && (forall id :: id in a ==> staged[id] == a[id])
    && forall id :: id in b && id !in pending ==> staged[id] == b[id]
  }

  // Whatever is pending, one of it has all its parents staged.
  lemma {:induction false} SomeReady(b: Records, bRoot: Option<Id>, pending: set<Id>, staged: Records, id: Id)
    returns (ready: Id)
    requires Sound(b, bRoot) && pending <= b.Keys && id in pending
    requires forall x :: x in b && x !in pending ==> x in staged
    ensures ready in pending && b[ready].parents <= staged.Keys
    decreases id
  {
    if b[id].parents <= staged.Keys {
      ready := id;
    } else {
      var p :| p in b[id].parents && p !in staged;
      assert ParentsOk(b[id], b);
      ready := SomeReady(b, bRoot, pending, staged, p);
    }
  }

  // A pending record that cannot be inserted shows that the stores are not compatible.
  lemma RefusedIncompatible(a: Records, aRoot: Option<Id>, b: Records, bRoot: Option<Id>, pending: set<Id>,
                            staged: Records, root: Option<Id>, id: Id, reply: Reply)
    requires Sound(a, aRoot) && Sound(b, bRoot) && Sound(staged, root) && Staging(a, b, pending, staged)
    requires id in pending
    requires b[id].parents <= staged.Keys && reply.Failed? && Inserted(staged, root, b[id], reply, staged, root)
    ensures !Compatible(a, aRoot, b, bRoot)
  {
    var r := b[id];
    SoundAt(b, bRoot, id);
    RefusalCause(staged, root, r, reply);
    if id !in staged && r.parents == {} && root.Some? {
      RootsMet(a, aRoot, b, bRoot, pending, staged, root, id);
    } else {
      RecordsDiffer(a, b, pending, staged, id);
    }
  }

  lemma SoundAt(records: Records, root: Option<Id>, id: Id)
    requires Sound(records, root) && id in records
    ensures records[id].id == id && RecordOk(records[id]) && ParentsOk(records[id], records)
  {
  }

  lemma RefusalCause(records: Records, root: Option<Id>, r: Record, reply: Reply)
    requires RecordOk(r) && reply.Failed? && Inserted(records, root, r, reply, records, root)
    ensures if r.id in records then records[r.id] != r else (r.parents == {} && root.Some?) || !ParentsOk(r, records)
  {
  }

  lemma RecordsDiffer(a: Records, b: Records, pending: set<Id>, staged: Records, id: Id)
    requires Staging(a, b, pending, staged) && id in pending && b[id].id == id && ParentsOk(b[id], b)
    requires b[id].parents <= staged.Keys
    requires if id in staged then staged[id] != b[id] else !ParentsOk(b[id], staged)
    ensures !Agree(a, b)
  {
    if id in staged { assert a[id] != b[id]; } else { ParentDiffers(a, b, pending, staged, b[id]); }
  }

  lemma ParentDiffers(a: Records, b: Records, pending: set<Id>, staged: Records, r: Record)
    requires Staging(a, b, pending, staged) && ParentsOk(r, b) && r.parents <= staged.Keys && !ParentsOk(r, staged)
    ensures !Agree(a, b)
  {
    var p :| p in r.parents && !(staged[p].created.Some? && staged[p].created.value <= r.created.value);
    assert staged[p] != b[p];
  }

  lemma StagedMore(a: Records, b: Records, pending: set<Id>, staged: Records, id: Id, after: Records)
    requires Staging(a, b, pending, staged) && id in pending
    requires if id in staged then staged[id] == b[id] && after == staged else after == staged[id := b[id]]
    ensures Staging(a, b, pending - {id}, after)
  {
  }

  // The root already staged is the first store's own.
  lemma RootsMet(a: Records, aRoot: Option<Id>, b: Records, bRoot: Option<Id>, pending: set<Id>,
                 staged: Records, root: Option<Id>, id: Id)
    requires Sound(a, aRoot) && Sound(b, bRoot) && Sound(staged, root) && Staging(a, b, pending, staged)
    requires id in pending && id !in staged && b[id].parents == {} && root.Some?
    ensures !Compatible(a, aRoot, b, bRoot)
  {
    var _ := RootBelow(staged, root, root.value);
    assert bRoot == Some(id);
    var m := root.value;
    assert forall x :: x in b && b[x].parents == {} ==> x == id;
    assert a[m].parents == {} && aRoot == Some(m);
  }

  // A store inside another has the same root.
  lemma SameRoot(a: Records, aRoot: Option<Id>, all: Records, root: Option<Id>)
    requires Sound(a, aRoot) && Sound(all, root) && a != map[] && forall id :: id in a ==> id in all && all[id] == a[id]
    ensures aRoot.Some? && root == aRoot
  {
    var id :| id in a;
    var _ := RootBelow(a, aRoot, id);
    assert all[aRoot.value].parents == {};
  }

  lemma MergedUnion(a: Records, b: Records, staged: Records)
    requires Staging(a, b, {}, staged)
    ensures Agree(a, b) && staged == a + b
  {
    assert staged == a + b;
  }

  lemma MergedCompatible(a: Records, aRoot: Option<Id>, b: Records, bRoot: Option<Id>, staged: Records,
                         root: Option<Id>)
    requires Sound(a, aRoot) && Sound(b, bRoot) && Sound(staged, root) && Staging(a, b, {}, staged)
    ensures Compatible(a, aRoot, b, bRoot) && staged == a + b
    ensures root == MergedRoot(a, aRoot, bRoot)
  {
    MergedUnion(a, b, staged);
    if a != map[] { SameRoot(a, aRoot, staged, root); }
    if b != map[] { SameRoot(b, bRoot, staged, root); }
    if a == map[] && b == map[] { assert staged == map[]; }
  }

  // The root of a merged store
  function MergedRoot(a: Records, aRoot: Option<Id>,
                      bRoot: Option<Id>): Option<Id> { if a == map[] then bRoot else aRoot }

  lemma EmptyRoot(records: Records, root: Option<Id>)
    requires Sound(records, root) && records == map[]
    ensures root.None?
  {
  }

  lemma UnionCommutes(a: Records, b: Records)
    requires Agree(a, b)
    ensures a + b == b + a
  {
  }

  lemma CompatibleCommutes(a: Records, aRoot: Option<Id>, b: Records, bRoot: Option<Id>)
    requires Compatible(a, aRoot, b, bRoot)
    ensures Compatible(b, bRoot, a, aRoot) && a + b == b + a
  {
    UnionCommutes(a, b);
  }

  /** Which of two stores is merged into which does not matter: one merge goes through exactly when the other does,
      with the same records and the same root. */
  lemma MergeCommutes(a: Records, aRoot: Option<Id>, b: Records, bRoot: Option<Id>)
    requires Sound(a, aRoot) && Sound(b, bRoot)
    ensures Compatible(a, aRoot, b, bRoot) <==> Compatible(b, bRoot, a, aRoot)
    ensures Compatible(a, aRoot, b, bRoot) ==>
              a + b == b + a && MergedRoot(a, aRoot, bRoot) == MergedRoot(b, bRoot, aRoot)
  {
    if Compatible(b, bRoot, a, aRoot) { CompatibleCommutes(b, bRoot, a, aRoot); }
    if Compatible(a, aRoot, b, bRoot) { CompatibleCommutes(a, aRoot, b, bRoot); }
    if a == map[] { EmptyRoot(a, aRoot); }
    if b == map[] { EmptyRoot(b, bRoot); }
  }

  // These are the records of some store.
  ghost predicate IsStore(records: Records) { exists root :: Sound(records, root) }

  // All records of `a` are in `all`.
  ghost predicate Within(a: Records, all: Records) { forall id :: id in a ==> id in all && all[id] == a[id] }

  lemma WithinKeeps(a: Records, aRoot: Option<Id>, all: Records, id: Id)
    requires Sound(a, aRoot) && Within(a, all) && id in a
    ensures all[id].id == id && RecordOk(all[id]) && ParentsOk(all[id], all)
  {
    SoundAt(a, aRoot, id);
  }

  // What two stores hold together is a store when they have one root between them.
  lemma TogetherSound(a: Records, aRoot: Option<Id>, b: Records, bRoot: Option<Id>, all: Records, root: Option<Id>)
    requires Sound(a, aRoot) && Sound(b, bRoot) && Within(a, all) && Within(b, all) && all.Keys == a.Keys + b.Keys
    requires (aRoot.Some? ==> root == aRoot) && (bRoot.Some? ==> root == bRoot) && (root.Some? ==> root.value in all)
    ensures Sound(all, root)
  {
    forall id | id in all ensures all[id].id == id && RecordOk(all[id]) && ParentsOk(all[id], all) {
      if id in a { WithinKeeps(a, aRoot, all, id); } else { WithinKeeps(b, bRoot, all, id); }
    }
    forall id | id in all && all[id].parents == {} ensures root == Some(id) {
      if id in a { RootIs(a, aRoot, id); } else { RootIs(b, bRoot, id); }
    }
  }

  lemma RootIs(records: Records, root: Option<Id>, id: Id)
    requires Sound(records, root) && id in records && records[id].parents == {}
    ensures root == Some(id)
  {
  }

  lemma RootThere(records: Records, root: Option<Id>)
    requires Sound(records, root)
    ensures root.Some? <==> records != map[]
    ensures root.Some? ==> root.value in records && records[root.value].parents == {}
  {
    if id :| id in records { var _ := RootBelow(records, root, id); }
  }

  /** Stores are compatible exactly when they agree where they meet and their union is again a store. */
  lemma CompatibleMeans(a: Records, aRoot: Option<Id>, b: Records, bRoot: Option<Id>)
    requires Sound(a, aRoot) && Sound(b, bRoot)
    ensures Compatible(a, aRoot, b, bRoot) <==> Agree(a, b) && IsStore(a + b)
  {
    RootThere(a, aRoot);
    RootThere(b, bRoot);
    if Compatible(a, aRoot, b, bRoot) {
      TogetherSound(a, aRoot, b, bRoot, a + b, if aRoot.Some? then aRoot else bRoot);
    }
    if root :| Agree(a, b) && Sound(a + b, root) {
      if a != map[] && b != map[] {
        RootIs(a + b, root, aRoot.value);
        RootIs(a + b, root, bRoot.value);
      }
    }
  }

  /** A record is stored exactly when it is well-formed and the store with it, nothing replaced, is again a store. */
  lemma InsertExactly(records: Records, root: Option<Id>, r: Record, reply: Reply, after: Records,
                      afterRoot: Option<Id>)
    requires Sound(records, root) && Inserted(records, root, r, reply, after, afterRoot)
    ensures reply.Stored? <==> RecordOk(r) && (r.id in records ==> records[r.id] == r) && IsStore(records[r.id := r])
    ensures reply.Stored? ==> after == records[r.id := r] && reply.record == r
  {
    if r.id in records {
      assert records[r.id] == r ==> records[r.id := r] == records;
    } else if RecordOk(r) {
      if IsStore(records[r.id := r]) { InsertMeans(records, root, r); }
      if reply.Stored? { InsertKeepsSound(records, root, r, reply, after, afterRoot); }
    }
  }

  lemma InsertMeans(records: Records, root: Option<Id>, r: Record)
    requires Sound(records, root) && RecordOk(r) && r.id !in records && IsStore(records[r.id := r])
    ensures ParentsOk(r, records) && (r.parents == {} ==> root.None?)
  {
    var next :| Sound(records[r.id := r], next);
    SoundAt(records[r.id := r], next, r.id);
    NotOwnParent(r);
    if root.Some? {
      RootStays(records, root, r);
      RootIs(records[r.id := r], next, root.value);
    }
    if r.parents == {} { RootIs(records[r.id := r], next, r.id); }
  }

  lemma RootStays(records: Records, root: Option<Id>, r: Record)
    requires Sound(records, root) && root.Some? && r.id !in records
    ensures root.value in records && root.value != r.id && records[r.id := r][root.value].parents == {}
  {
    var _ := RootBelow(records, root, root.value);
  }

  // An id is content, so no version is its own parent.
  lemma NotOwnParent(r: Record)
    requires RecordOk(r)
    ensures r.id !in r.parents
  {
  }

  // ---------- the store ----------

  class Store {
    var records: Records
    var root: Option<Id>

    constructor ()
      ensures records == map[] && root.None? && Sound(records, root)
    {
      records, root := map[], None;
    }

    method Insert(r: Record) returns (reply: Reply)
      modifies this
      ensures Inserted(old(records), old(root), r, reply, records, root)
      ensures old(Sound(records, root)) ==> Sound(records, root)
    {
      ghost var was, wasRoot := records, root;
      if !RecordOk(r) { return Failed(Malformed); }
      if r.id in records { return if records[r.id] == r then Stored(r) else Failed(Conflicting); }
      if r.parents == {} {
        if root.Some? { return Failed(RootViolation); }
      } else {
        var left := r.parents;
        while left != {}
          invariant left <= r.parents && records == was && root == wasRoot
          invariant forall p :: p in r.parents && p !in left ==>
            p in records && records[p].created.Some? && records[p].created.value <= r.created.value
        {
          var p :| p in left;
          if p !in records { return Failed(UnknownParent); }
          if Younger(records[p], r) { return Failed(Nonmonotonic); }
          left := left - {p};
        }
      }
      records := records[r.id := r];
      if r.parents == {} { root := Some(r.id); }
      reply := Stored(r);
      if Sound(was, wasRoot) { InsertKeepsSound(was, wasRoot, r, reply, records, root); }
    }

    /** All or nothing: the merge succeeds exactly when shared ids carry equal records and the roots agree or one
        store is empty; then it is the union, and else nothing changes. */
    method Merge(other: Store) returns (failure: Option<Failure>)
      requires Sound(records, root) && Sound(other.records, other.root)
      modifies this
      ensures failure.None? <==> old(Compatible(records, root, other.records, other.root))
      ensures failure.None? ==> records == old(records) + old(other.records)
      ensures failure.None? ==> root == old(MergedRoot(records, root, other.root))
      ensures failure.Some? ==> records == old(records) && root == old(root)
      ensures Sound(records, root)
    {
      var staged;
      failure, staged := StageAll(other);
      if failure.None? { records, root := staged.records, staged.root; }
    }

    // The union is built in a store of its own.
    method StageAll(other: Store) returns (failure: Option<Failure>, staged: Store)
      requires Sound(records, root) && Sound(other.records, other.root)
      ensures fresh(staged)
      ensures failure.None? <==> Compatible(records, root, other.records, other.root)
      ensures failure.None? ==> staged.records == records + other.records && Sound(staged.records, staged.root)
      ensures failure.None? ==> staged.root == MergedRoot(records, root, other.root)
    {
      staged := new Store();
      staged.records, staged.root := records, root;
      var pending := other.records.Keys;
      failure := None;
      while pending != {}
        invariant Sound(staged.records, staged.root) && Staging(records, other.records, pending, staged.records)
        invariant failure.None?
        decreases |pending|
      {
        var ready := set id | id in pending && other.records[id].parents <= staged.records.Keys;
        ghost var some :| some in pending;
        ghost var found := SomeReady(other.records, other.root, pending, staged.records, some);
        assert found in ready;
        failure, pending := MergeReady(other, staged, pending, ready);
        if failure.Some? { return; }
      }
      MergedCompatible(records, root, other.records, other.root, staged.records, staged.root);
    }

    // One round: the ready records go over one by one.
    method MergeReady(other: Store, staged: Store, pending: set<Id>, ready: set<Id>)
      returns (failure: Option<Failure>, rest: set<Id>)
      requires staged != this && staged != other && ready <= pending && ready != {}
      requires Sound(records, root) && Sound(other.records, other.root) && Sound(staged.records, staged.root)
      requires Staging(records, other.records, pending, staged.records)
      requires forall id :: id in ready ==> other.records[id].parents <= staged.records.Keys
      modifies staged
      ensures failure.Some? ==> !Compatible(records, root, other.records, other.root)
      ensures failure.None? ==>
                Sound(staged.records, staged.root) && Staging(records, other.records, rest, staged.records)
      ensures failure.None? ==> |rest| < |pending|
    {
      rest := pending;
      var left := ready;
      while left != {}
        invariant left <= rest && |rest| <= |pending| && (left != ready ==> |rest| < |pending|)
        invariant Sound(staged.records, staged.root) && Staging(records, other.records, rest, staged.records)
        invariant forall id :: id in left ==> other.records[id].parents <= staged.records.Keys
      {
        var id :| id in left;
        failure := MergeOne(other, staged, rest, id);
        if failure.Some? { return; }
        left, rest := left - {id}, rest - {id};
      }
      failure := None;
    }

    method MergeOne(other: Store, staged: Store, ghost pending: set<Id>, id: Id) returns (failure: Option<Failure>)
      requires staged != this && staged != other && id in pending
      requires Sound(records, root) && Sound(other.records, other.root) && Sound(staged.records, staged.root)
      requires Staging(records, other.records, pending, staged.records)
      requires other.records[id].parents <= staged.records.Keys
      modifies staged
      ensures failure.Some? ==> !Compatible(records, root, other.records, other.root)
      ensures failure.None? ==> Sound(staged.records, staged.root)
      ensures failure.None? ==> Staging(records, other.records, pending - {id}, staged.records)
      ensures old(staged.records).Keys <= staged.records.Keys
    {
      ghost var was, wasRoot := staged.records, staged.root;
      var reply := staged.Insert(other.records[id]);
      if reply.Stored? {
        assert other.records[id].id == id;
        StagedMore(records, other.records, pending, was, id, staged.records);
        return None;
      }
      RefusedIncompatible(records, root, other.records, other.root, pending, was, wasRoot, id, reply);
      failure := Some(reply.failure);
    }
  }
}
