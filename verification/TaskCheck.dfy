/** The structural check of a task board as it is loaded (`tools/dag.py`, `verify`). */
module TaskCheck {
  import opened Dag
  import opened TaskBoard

  // ---------- what a file may hold ----------

  // A missing key, a value that is no list, or a list in which `None` stands for what is not a string
  datatype Deps = Absent | NotList | Listed(items: seq<Option<string>>)

  // `texts` says whether the other required fields are there and hold text.
  datatype Raw = Alien
               | Raw(id: Option<string>, texts: bool, status: Option<Status>, deps: Deps,
                     claimedBy: Option<string>, sha: Option<string>, evidence: Option<string>)

  predicate AllText(items: seq<Option<string>>) { forall k :: 0 <= k < |items| ==> items[k].Some? }

  predicate Readable(r: Raw) {
    r.Raw? && r.texts && r.id.Some? && r.status.Some? && r.deps.Listed? && AllText(r.deps.items)
  }

  function Nodes(items: seq<Option<string>>): (s: seq<Node>)
    requires AllText(items)
    ensures |s| == |items| && forall k :: 0 <= k < |s| ==> s[k] == Node(items[k].value)
  {
    if items == [] then [] else Nodes(items[..|items| - 1]) + [Node(items[|items| - 1].value)]
  }

  function Read(r: Raw): Task
    requires Readable(r)
  {
    Task(Node(r.id.value), Nodes(r.deps.items), r.status.value, r.claimedBy, r.sha, r.evidence)
  }

  function ReadAll(raws: seq<Raw>): (tasks: seq<Task>)
    requires forall k :: 0 <= k < |raws| ==> Readable(raws[k])
    ensures |tasks| == |raws| && forall k :: 0 <= k < |raws| ==> tasks[k] == Read(raws[k])
  {
    if raws == [] then [] else ReadAll(raws[..|raws| - 1]) + [Read(raws[|raws| - 1])]
  }

  ghost predicate AllReadable(raws: seq<Raw>) { forall k :: 0 <= k < |raws| ==> Readable(raws[k]) }

  /** A file the check passes is a sound board. */
  ghost predicate Sound(raws: seq<Raw>) {
    AllReadable(raws) && GoodBoard(ReadAll(raws))
  }

  datatype Problem = WrongVersion | EmptyList | NotMapping | BadId | DuplicateId | BadText | BadStatus
                   | BadDependencies | DoneUnproven | Cycle

  // `Crash` is the key error of a task without a list of dependencies.
  datatype Verdict = Crash | Problems(found: seq<Problem>)

  // ---------- the entries the cycle check looks at ----------

  function Count(raws: seq<Raw>, id: string): nat {
    if raws == [] then 0
    else
      var last := raws[|raws| - 1];
      Count(raws[..|raws| - 1], id) + if last.Raw? && last.id == Some(id) then 1 else 0
  }

  predicate HasId(raws: seq<Raw>, k: nat, id: string)
    requires k < |raws|
  {
    raws[k].Raw? && raws[k].id == Some(id)
  }

  lemma {:induction false} CountNone(raws: seq<Raw>, id: string)
    ensures Count(raws, id) == 0 <==> forall k: nat :: k < |raws| ==> !HasId(raws, k, id)
  {
    if raws != [] {
      var init := raws[..|raws| - 1];
      CountNone(init, id);
      assert forall k: nat :: k < |init| ==> HasId(init, k, id) == HasId(raws, k, id);
      if Count(raws, id) == 0 {
        forall k: nat | k < |raws| ensures !HasId(raws, k, id) {
          if k < |init| { assert !HasId(init, k, id); }
        }
      } else if Count(init, id) == 0 {
        assert HasId(raws, |raws| - 1, id);
      }
    }
  }

  lemma {:induction false} CountOne(raws: seq<Raw>, k: nat, id: string)
    requires k < |raws| && HasId(raws, k, id)
    ensures Count(raws, id) == 1 <==> forall j: nat :: j < |raws| && j != k ==> !HasId(raws, j, id)
  {
    var n := |raws| - 1;
    var init := raws[..n];
    assert forall j: nat :: j < n ==> HasId(init, j, id) == HasId(raws, j, id);
    CountNone(init, id);
    assert init != raws && HasId(raws, n, id) == (raws[n].Raw? && raws[n].id == Some(id));
    if k < n {
      assert HasId(init, k, id);
      CountOne(init, k, id);
      if forall j: nat :: j < |init| && j != k ==> !HasId(init, j, id) {
        forall j: nat | j < n && j != k ensures !HasId(raws, j, id) { assert !HasId(init, j, id); }
      }
      assert Count(init, id) > 0;
    } else {
      forall j: nat | j < n ensures HasId(init, j, id) == HasId(raws, j, id) {}
      if Count(init, id) > 0 {
        var j: nat :| j < n && HasId(init, j, id);
        assert HasId(raws, j, id);
      }
    }
  }

  predicate Clean(raws: seq<Raw>, k: nat)
    requires k < |raws|
  {
    var r := raws[k];
    && r.Raw? && r.id.Some? && !Blank(r.id.value) && Count(raws, r.id.value) == 1
    && !r.deps.NotList? && (r.deps.Listed? ==> AllText(r.deps.items))
  }

  function DepsOf(d: Deps): set<Node>
  {
    if d.Listed? && AllText(d.items) then Elems(Nodes(d.items)) else {}
  }

  // The dependency relation over the clean entries among the first `n`
  function CleanGraph(raws: seq<Raw>, n: nat): (g: Graph)
    requires n <= |raws|
    ensures forall v :: v in g ==> exists k: nat :: k < n && Clean(raws, k) && raws[k].id == Some(v.id)
  {
    if n == 0 then map[]
    else
      var g := CleanGraph(raws, n - 1);
      if Clean(raws, n - 1) then g[Node(raws[n - 1].id.value) := DepsOf(raws[n - 1].deps)] else g
  }

  lemma {:induction false} CleanIn(raws: seq<Raw>, n: nat, k: nat)
    requires k < n <= |raws| && Clean(raws, k)
    ensures Node(raws[k].id.value) in CleanGraph(raws, n)
  {
    if k < n - 1 { CleanIn(raws, n - 1, k); }
  }

  lemma CleanNew(raws: seq<Raw>, n: nat)
    requires n < |raws| && Clean(raws, n)
    ensures Node(raws[n].id.value) !in CleanGraph(raws, n)
  {
    var v := Node(raws[n].id.value);
    CountOne(raws, n, v.id);
    forall k: nat | k < n && Clean(raws, k) ensures raws[k].id != Some(v.id) {
      assert !HasId(raws, k, v.id);
    }
  }

  /** A cycle is reported exactly when the dependencies of the clean entries have one, and a clean entry
      without the dependencies key brings the check down. */
  method CycleCheck(raws: seq<Raw>) returns (r: Option<bool>)
    ensures r.None? <==> exists k: nat :: k < |raws| && Clean(raws, k) && raws[k].deps.Absent?
    ensures r.Some? ==> (r.value <==> Cyclic(CleanGraph(raws, |raws|)))
  {
    var counts := CountIds(raws);
    var g: Graph, nodes: seq<Node> := map[], [];
    for n := 0 to |raws|
      invariant g == CleanGraph(raws, n) && Distinct(nodes) && forall v :: v in nodes <==> v in g
      invariant forall k: nat :: k < n && Clean(raws, k) ==> !raws[k].deps.Absent?
    {
      var r := raws[n];
      if r.Raw? && r.id.Some? {
        CountOne(raws, n, r.id.value);
        CountListed(raws, n);
      }
      if && r.Raw? && r.id.Some? && !Blank(r.id.value) && counts[r.id.value] == 1
         && !r.deps.NotList? && (r.deps.Listed? ==> AllText(r.deps.items))
      {
        assert Clean(raws, n);
        if r.deps.Absent? { return None; }
        CleanNew(raws, n);
        g := g[Node(r.id.value) := DepsOf(r.deps)];
        nodes := nodes + [Node(r.id.value)];
      }
    }
    var acyclic := Kahn(g, nodes);
    return Some(!acyclic);
  }

  method CountIds(raws: seq<Raw>) returns (counts: map<string, nat>)
    ensures forall id :: id in counts <==> Count(raws, id) > 0
    ensures forall id :: id in counts ==> counts[id] == Count(raws, id)
  {
    counts := map[];
    for k := 0 to |raws|
      invariant forall id :: id in counts <==> Count(raws[..k], id) > 0
      invariant forall id :: id in counts ==> counts[id] == Count(raws[..k], id)
    {
      var r := raws[k];
      CountNext(raws, k);
      if r.Raw? && r.id.Some? {
        var id := r.id.value;
        counts := counts[id := (if id in counts then counts[id] else 0) + 1];
      }
    }
    assert raws[..|raws|] == raws;
  }

  lemma CountNext(raws: seq<Raw>, k: nat)
    requires k < |raws|
    ensures forall id :: Count(raws[..k + 1], id) == Count(raws[..k], id) + if HasId(raws, k, id) then 1 else 0
  {
    assert raws[..k + 1][..k] == raws[..k];
  }

  lemma CountListed(raws: seq<Raw>, k: nat)
    requires k < |raws| && raws[k].Raw? && raws[k].id.Some?
    ensures Count(raws, raws[k].id.value) > 0
  {
    var id := raws[k].id.value;
    CountNone(raws, id);
    assert HasId(raws, k, id);
  }

  // ---------- the check ----------

  function IdTexts(raws: seq<Raw>): set<string> {
    set k | 0 <= k < |raws| && raws[k].Raw? && raws[k].id.Some? :: raws[k].id.value
  }

  ghost predicate NoDuplicates(raws: seq<Raw>) {
    forall j: nat, k: nat :: j < k < |raws| && raws[j].Raw? && raws[k].Raw? && raws[j].id.Some? ==>
      raws[j].id != raws[k].id
  }

  ghost predicate DepsFine(items: seq<Option<string>>, known: set<string>) {
    AllText(items) && (forall k :: 0 <= k < |items| ==> items[k].value in known)
    && forall j, k :: 0 <= j < k < |items| ==> items[j] != items[k]
  }

  ghost predicate EntryFine(r: Raw, known: set<string>) {
    && r.Raw? && r.id.Some? && Trimmed(r.id.value) && r.texts && r.status.Some?
    && r.deps.Listed? && DepsFine(r.deps.items, known)
    && (r.status == Some(Done) ==> r.sha.Some? && IsSha(r.sha.value) && r.evidence == Some(Manifest(Node(r.id.value))))
  }

  method CheckDeps(items: seq<Option<string>>, known: set<string>) returns (found: seq<Problem>)
    ensures found == [] <==> DepsFine(items, known)
    ensures Cycle !in found
  {
    var listed: set<string> := {};
    found := [];
    for k := 0 to |items|
      invariant found == [] <==> DepsFine(items[..k], known)
      invariant Cycle !in found
      invariant found == [] ==> forall d :: d in listed <==> Some(d) in items[..k]
    {
      assert items[..k + 1] == items[..k] + [items[k]];
      var d := items[k];
      if d.None? || d.value in listed || d.value !in known {
        found := found + [BadDependencies];
        if found[..|found| - 1] == [] { assert DepsFine(items[..k + 1], known) ==> d !in items[..k]; }
      } else {
        listed := listed + {d.value};
        if DepsFine(items[..k + 1], known) { StillFine(items[..k + 1], known, k); }
      }
    }
    assert items[..|items|] == items;
  }

  lemma StillFine(items: seq<Option<string>>, known: set<string>, k: nat)
    requires DepsFine(items, known) && k <= |items|
    ensures DepsFine(items[..k], known)
  {
  }

  method CheckEntry(r: Raw, known: set<string>) returns (found: seq<Problem>)
    ensures found == [] && r.Raw? && r.id.Some? && Trimmed(r.id.value) <==> EntryFine(r, known)
    ensures Cycle !in found
  {
    found := [];
    if r.Alien? { return; }
    if !r.texts { found := found + [BadText]; }
    if r.status.None? { found := found + [BadStatus]; }
    if r.deps.Listed? {
      var more := CheckDeps(r.deps.items, known);
      found := found + more;
    } else {
      found := found + [BadDependencies];
    }
    if && r.status == Some(Done) && r.id.Some?
       && (r.sha.None? || !IsSha(r.sha.value) || r.evidence != Some(Manifest(Node(r.id.value))))
    {
      found := found + [DoneUnproven];
    }
  }

  method CheckIds(raws: seq<Raw>) returns (found: seq<Problem>, known: set<string>)
    ensures known == IdTexts(raws) && Cycle !in found
    ensures found == [] <==>
            (&& (forall k :: 0 <= k < |raws| ==> raws[k].Raw? && raws[k].id.Some? && Trimmed(raws[k].id.value))
             && NoDuplicates(raws))
  {
    found, known := [], {};
    for k := 0 to |raws|
      invariant known == IdTexts(raws[..k]) && Cycle !in found
      invariant found == [] <==>
                ((forall j :: 0 <= j < k ==> raws[j].Raw? && raws[j].id.Some? && Trimmed(raws[j].id.value))
                 && NoDuplicates(raws[..k]))
    {
      assert raws[..k + 1] == raws[..k] + [raws[k]];
      IdTextsMore(raws, k);
      var r := raws[k];
      if r.Alien? {
        found := found + [NotMapping];
      } else {
        if r.id.None? || !Trimmed(r.id.value) { found := found + [BadId]; }
        if r.id.Some? {
          if r.id.value in known {
            found := found + [DuplicateId];
            var j :| 0 <= j < k && raws[..k][j].Raw? && raws[..k][j].id == r.id;
            assert raws[..k + 1][j].id == raws[..k + 1][k].id;
          }
          known := known + {r.id.value};
        }
      }
    }
    assert raws[..|raws|] == raws;
  }

  lemma IdTextsMore(raws: seq<Raw>, k: nat)
    requires k < |raws|
    ensures IdTexts(raws[..k + 1]) ==
            IdTexts(raws[..k]) + if raws[k].Raw? && raws[k].id.Some? then {raws[k].id.value} else {}
  {
    var more, less := raws[..k + 1], raws[..k];
    var mine := if raws[k].Raw? && raws[k].id.Some? then {raws[k].id.value} else {};
    forall id | id in IdTexts(less) ensures id in IdTexts(more) {
      var j :| 0 <= j < k && less[j].Raw? && less[j].id == Some(id);
      assert more[j] == less[j];
    }
    forall id | id in IdTexts(more) ensures id in IdTexts(less) + mine {
      var j :| 0 <= j < k + 1 && more[j].Raw? && more[j].id == Some(id);
      if j < k { assert more[j] == less[j]; }
    }
    if raws[k].Raw? && raws[k].id.Some? { assert more[k].id.value in IdTexts(more); }
  }

  ghost predicate AllFine(raws: seq<Raw>) {
    raws != [] && NoDuplicates(raws) && forall k :: 0 <= k < |raws| ==> EntryFine(raws[k], IdTexts(raws))
  }

  /** The whole check: no problem is found exactly on sound boards of the right version; a cycle is reported
      exactly when there is one; and only a clean entry without the dependencies key brings it down. */
  method Verify(versionOk: bool, raws: seq<Raw>) returns (v: Verdict)
    ensures v == Crash <==> exists k: nat :: k < |raws| && Clean(raws, k) && raws[k].deps.Absent?
    ensures v == Problems([]) <==> versionOk && Sound(raws)
    ensures v.Problems? ==> (Cycle in v.found <==> Cyclic(CleanGraph(raws, |raws|)))
  {
    var found := if versionOk then [] else [WrongVersion];
    if raws == [] { found := found + [EmptyList]; }
    var more, known := CheckIds(raws);
    found := found + more;
    ghost var before := found;
    var entries := CheckEntries(raws, known);
    found := found + entries;
    var cycle := CycleCheck(raws);
    SoundMeans(raws);
    if cycle.None? { return Crash; }
    if cycle.value { found := found + [Cycle]; }
    return Problems(found);
  }

  method CheckEntries(raws: seq<Raw>, known: set<string>) returns (found: seq<Problem>)
    ensures Cycle !in found
    ensures (&& found == []
             && forall k :: 0 <= k < |raws| ==> raws[k].Raw? && raws[k].id.Some? && Trimmed(raws[k].id.value))
            <==> forall k :: 0 <= k < |raws| ==> EntryFine(raws[k], known)
  {
    found := [];
    for k := 0 to |raws|
      invariant Cycle !in found
      invariant (&& found == []
                 && forall j :: 0 <= j < k ==> raws[j].Raw? && raws[j].id.Some? && Trimmed(raws[j].id.value))
                <==> forall j :: 0 <= j < k ==> EntryFine(raws[j], known)
    {
      var more := CheckEntry(raws[k], known);
      found := found + more;
    }
  }

  lemma SameIds(raws: seq<Raw>, id: string)
    requires AllReadable(raws)
    ensures id in IdTexts(raws) <==> Node(id) in Ids(ReadAll(raws))
  {
    var tasks := ReadAll(raws);
    if id in IdTexts(raws) {
      var k :| 0 <= k < |raws| && raws[k].Raw? && raws[k].id.Some? && raws[k].id.value == id;
      assert tasks[k].id == Node(id);
    }
    if Node(id) in Ids(tasks) {
      var k :| 0 <= k < |tasks| && tasks[k].id == Node(id);
      assert raws[k].id.value == id;
    }
  }

  lemma SameDeps(items: seq<Option<string>>, known: set<string>, ids: set<Node>)
    requires AllText(items) && forall id :: id in known <==> Node(id) in ids
    ensures DepsFine(items, known) <==> Distinct(Nodes(items)) && Elems(Nodes(items)) <= ids
  {
    var nodes := Nodes(items);
    if Elems(nodes) <= ids {
      forall k | 0 <= k < |items| ensures items[k].value in known { assert nodes[k] in Elems(nodes); }
    }
    if Distinct(nodes) {
      forall j, k | 0 <= j < k < |items| ensures items[j] != items[k] { assert nodes[j] != nodes[k]; }
    }
  }

  lemma FineIsGood(raws: seq<Raw>, k: nat)
    requires AllReadable(raws) && k < |raws|
    ensures EntryFine(raws[k], IdTexts(raws)) <==> GoodTask(ReadAll(raws)[k], Ids(ReadAll(raws)))
  {
    forall id ensures id in IdTexts(raws) <==> Node(id) in Ids(ReadAll(raws)) { SameIds(raws, id); }
    SameDeps(raws[k].deps.items, IdTexts(raws), Ids(ReadAll(raws)));
  }

  lemma FineIffGood(raws: seq<Raw>)
    requires AllReadable(raws)
    ensures AllFine(raws) <==> GoodTasks(ReadAll(raws))
  {
    var tasks := ReadAll(raws);
    forall k | 0 <= k < |raws| ensures EntryFine(raws[k], IdTexts(raws)) <==> GoodTask(tasks[k], Ids(tasks)) {
      FineIsGood(raws, k);
    }
    assert NoDuplicates(raws) <==> DistinctIds(tasks) by {
      forall j: nat, k: nat | j < k < |raws| ensures raws[j].id != raws[k].id <==> tasks[j].id != tasks[k].id {}
      if DistinctIds(tasks) {
        forall j: nat, k: nat | j < k < |raws| ensures raws[j].id != raws[k].id { assert tasks[j].id != tasks[k].id; }
      }
    }
  }

  lemma TrimmedNotBlank(s: string)
    requires Trimmed(s)
    ensures !Blank(s)
  {
    assert !Space(s[0]);
  }

  lemma FineIsClean(raws: seq<Raw>, k: nat)
    requires AllFine(raws) && k < |raws|
    ensures Clean(raws, k) && raws[k].deps.Listed?
  {
    assert EntryFine(raws[k], IdTexts(raws));
    var id := raws[k].id.value;
    CountOne(raws, k, id);
    TrimmedNotBlank(id);
    forall j: nat | j < |raws| && j != k ensures !HasId(raws, j, id) {
      assert EntryFine(raws[j], IdTexts(raws));
      assert if j < k then raws[j].id != raws[k].id else raws[k].id != raws[j].id;
    }
  }

  // One entry more on both sides
  lemma RelationStep(raws: seq<Raw>, tasks: seq<Task>, n: nat)
    requires 0 < n <= |raws| == |tasks| && Clean(raws, n - 1) && Readable(raws[n - 1])
    requires tasks[n - 1] == Read(raws[n - 1])
    requires CleanGraph(raws, n - 1) == GraphOf(tasks[..n - 1])
    ensures CleanGraph(raws, n) == GraphOf(tasks[..n])
  {
    assert tasks[..n][..n - 1] == tasks[..n - 1];
  }

  lemma {:induction false} SameRelation(raws: seq<Raw>, tasks: seq<Task>, n: nat)
    requires |raws| == |tasks| && n <= |raws|
    requires forall k: nat :: k < |raws| ==> Clean(raws, k) && Readable(raws[k]) && tasks[k] == Read(raws[k])
    ensures CleanGraph(raws, n) == GraphOf(tasks[..n])
  {
    if n > 0 {
      SameRelation(raws, tasks, n - 1);
      RelationStep(raws, tasks, n);
    }
  }

  lemma FineIsReadable(raws: seq<Raw>)
    requires AllFine(raws)
    ensures AllReadable(raws)
  {
    forall k | 0 <= k < |raws| ensures Readable(raws[k]) { assert EntryFine(raws[k], IdTexts(raws)); }
  }

  // Every entry is clean and has its list of dependencies.
  ghost predicate AllClean(raws: seq<Raw>) { forall k: nat :: k < |raws| ==> Clean(raws, k) && raws[k].deps.Listed? }

  lemma FineAllClean(raws: seq<Raw>)
    requires AllFine(raws)
    ensures AllClean(raws)
  {
    forall k: nat | k < |raws| ensures Clean(raws, k) && raws[k].deps.Listed? { FineIsClean(raws, k); }
  }

  lemma CleanGraphWhole(raws: seq<Raw>)
    requires AllClean(raws) && AllReadable(raws)
    ensures CleanGraph(raws, |raws|) == GraphOf(ReadAll(raws))
  {
    var tasks := ReadAll(raws);
    SameRelation(raws, tasks, |raws|);
    assert tasks[..|raws|] == tasks;
  }

  lemma FineGraph(raws: seq<Raw>)
    requires AllFine(raws) && AllReadable(raws)
    ensures CleanGraph(raws, |raws|) == GraphOf(ReadAll(raws))
    ensures forall k: nat :: k < |raws| && Clean(raws, k) ==> !raws[k].deps.Absent?
  {
    FineAllClean(raws);
    CleanGraphWhole(raws);
  }

  lemma SoundMeans(raws: seq<Raw>)
    ensures Sound(raws) <==> AllFine(raws) && !Cyclic(CleanGraph(raws, |raws|))
    ensures AllFine(raws) ==> forall k: nat :: k < |raws| && Clean(raws, k) ==> !raws[k].deps.Absent?
  {
    if AllFine(raws) && !Cyclic(CleanGraph(raws, |raws|)) { SoundIfFine(raws); }
    if Sound(raws) { FineIfSound(raws); }
    if AllFine(raws) {
      FineIsReadable(raws);
      FineGraph(raws);
    }
  }

  lemma SoundIfFine(raws: seq<Raw>)
    requires AllFine(raws) && !Cyclic(CleanGraph(raws, |raws|))
    ensures Sound(raws)
  {
    FineIsReadable(raws);
    FineIffGood(raws);
    FineGraph(raws);
  }

  lemma FineIfSound(raws: seq<Raw>)
    requires Sound(raws)
    ensures AllFine(raws) && !Cyclic(CleanGraph(raws, |raws|))
  {
    FineIffGood(raws);
    FineGraph(raws);
  }

  /** The check promises never to crash; one task without the dependencies key is enough for a key error. */
  lemma MissingKeyCrashes() returns (raws: seq<Raw>)
    ensures |raws| == 1 && Clean(raws, 0) && raws[0].deps.Absent?
  {
    raws := [Raw(Some("a"), true, Some(Todo), Absent, None, None, None)];
    assert HasId(raws, 0, "a");
    CountOne(raws, 0, "a");
    TrimmedNotBlank("a");
  }
}
