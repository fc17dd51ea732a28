/** The game store of the importer on a disk whose power may fail (`ingest/import_pgn.py`). */
module ImportStore {

  datatype Option<+T> = None | Some(value: T)

  // ---------- records, the manifest and the disk ----------

  // `content` is what the content digest covers; `session` is the import's own data.
  datatype Record = Record(id: string, content: string, session: string)

  // A record's file is named by its id and the digest of its content.
  datatype Name = Name(id: string, content: string)

  function NameOf(r: Record): Name { Name(r.id, r.content) }

  datatype Entry = Entry(id: string, name: Name)

  type Index = seq<Entry>

  datatype Temp = RecordTemp(name: Name) | IndexTemp

  datatype Disk = Disk(files: map<Name, Record>, manifest: Option<Index>, temps: set<Temp>)

  // Without a manifest file the store is empty.
  function Committed(d: Disk): Index { if d.manifest.Some? then d.manifest.value else [] }

  // The content check of a stored record
  type Check = Record -> bool

  ghost predicate UniqueIds(index: Index) { forall j, k :: 0 <= j < k < |index| ==> index[j].id != index[k].id }

  predicate EntryOk(ok: Check, e: Entry, files: map<Name, Record>) {
    e.name.id == e.id && e.name in files && NameOf(files[e.name]) == e.name && ok(files[e.name])
  }

  ghost predicate IndexOk(ok: Check, index: Index, files: map<Name, Record>) {
    UniqueIds(index) && forall k :: 0 <= k < |index| ==> EntryOk(ok, index[k], files)
  }

  function Names(index: Index): set<Name> { set e | e in index :: e.name }

  // The index is committed and every record it names is there.
  ghost predicate Holds(ok: Check, d: Disk, index: Index) { Committed(d) == index && IndexOk(ok, index, d.files) }

  // Nothing else is there.
  ghost predicate Clean(d: Disk) { d.temps == {} && d.files.Keys == Names(Committed(d)) }

  ghost predicate SameRecords(index: Index, before: Disk, after: Disk) {
    forall e :: e in index ==>
      e.name in before.files && e.name in after.files && after.files[e.name] == before.files[e.name]
  }

  // ---------- what an import means ----------

  function Find(index: Index, id: string): (k: nat)
    ensures k <= |index| && (k < |index| ==> index[k].id == id) && forall j :: 0 <= j < k ==> index[j].id != id
  {
    if index == [] || index[0].id == id then 0 else 1 + Find(index[1..], id)
  }

  function Upsert(index: Index, r: Record): Index {
    var k, e := Find(index, r.id), Entry(r.id, NameOf(r));
    if k < |index| then index[k := e] else index + [e]
  }

  /** Each game in turn replaces the version its id has, or joins at the end. */
  function ImportAll(index: Index, games: seq<Record>): Index {
    if games == [] then index else Upsert(ImportAll(index, games[..|games| - 1]), games[|games| - 1])
  }

  function VersionOf(index: Index, id: string): Option<Name> {
    var k := Find(index, id);
    if k < |index| then Some(index[k].name) else None
  }

  function LastVersion(games: seq<Record>, id: string): Option<Name> {
    if games == [] then None
    else if games[|games| - 1].id == id then Some(NameOf(games[|games| - 1]))
    else LastVersion(games[..|games| - 1], id)
  }

  function Ids(index: Index): (ids: seq<string>)
    ensures |ids| == |index| && forall k :: 0 <= k < |index| ==> ids[k] == index[k].id
  {
    if index == [] then [] else Ids(index[..|index| - 1]) + [index[|index| - 1].id]
  }

  lemma UpsertShape(index: Index, r: Record)
    requires UniqueIds(index)
    ensures UniqueIds(Upsert(index, r)) && r.id in Ids(Upsert(index, r))
    ensures Ids(Upsert(index, r)) == if r.id in Ids(index) then Ids(index) else Ids(index) + [r.id]
  {
    var k, next := Find(index, r.id), Upsert(index, r);
    if k < |index| {
      assert Ids(index)[k] == r.id && Ids(next)[k] == r.id;
    } else {
      assert next[|index|].id == r.id && Ids(next)[|index|] == r.id;
    }
  }

  lemma UpsertVersion(index: Index, r: Record, id: string)
    requires UniqueIds(index)
    ensures VersionOf(Upsert(index, r), id) == if id == r.id then Some(NameOf(r)) else VersionOf(index, id)
  {
    var k, i, next := Find(index, r.id), Find(index, id), Upsert(index, r);
    UpsertShape(index, r);
    if id == r.id {
      FindIs(next, k);
    } else if i < |index| {
      assert next[i] == index[i];
      FindIs(next, i);
    } else {
      forall n | 0 <= n < |next| ensures next[n].id != id { assert n < |index| && n != k ==> next[n] == index[n]; }
    }
  }

  lemma FindIs(index: Index, k: nat)
    requires UniqueIds(index) && k < |index|
    ensures Find(index, index[k].id) == k && VersionOf(index, index[k].id) == Some(index[k].name)
  {
  }

  lemma {:induction false} ImportKeepsUnique(index: Index, games: seq<Record>)
    requires UniqueIds(index)
    ensures UniqueIds(ImportAll(index, games))
  {
    if games != [] {
      var init := games[..|games| - 1];
      ImportKeepsUnique(index, init);
      UpsertShape(ImportAll(index, init), games[|games| - 1]);
    }
  }

  /** After an import each id has the last version that came, or the one it had. */
  lemma {:induction false} ImportVersion(index: Index, games: seq<Record>, id: string)
    requires UniqueIds(index)
    ensures VersionOf(ImportAll(index, games), id) ==
            if LastVersion(games, id).Some? then LastVersion(games, id) else VersionOf(index, id)
  {
    if games != [] {
      var init := games[..|games| - 1];
      ImportVersion(index, init, id);
      ImportKeepsUnique(index, init);
      UpsertVersion(ImportAll(index, init), games[|games| - 1], id);
    }
  }

  lemma {:induction false} ImportIds(index: Index, games: seq<Record>)
    requires UniqueIds(index)
    ensures forall id :: id in Ids(index) ==> id in Ids(ImportAll(index, games))
    ensures forall r :: r in games ==> r.id in Ids(ImportAll(index, games))
    ensures (forall r :: r in games ==> r.id in Ids(index)) ==> Ids(ImportAll(index, games)) == Ids(index)
  {
    if games != [] {
      var init, last := games[..|games| - 1], games[|games| - 1];
      assert games == init + [last];
      ImportIds(index, init);
      ImportKeepsUnique(index, init);
      UpsertShape(ImportAll(index, init), last);
    }
  }

  lemma SameIndex(a: Index, b: Index)
    requires UniqueIds(a) && UniqueIds(b) && Ids(a) == Ids(b)
    requires forall e :: e in a ==> e.name.id == e.id
    requires forall e :: e in b ==> e.name.id == e.id
    requires forall id :: VersionOf(a, id) == VersionOf(b, id)
    ensures a == b
  {
    forall k | 0 <= k < |a| ensures a[k] == b[k] {
      assert Ids(a)[k] == Ids(b)[k];
      assert Find(a, a[k].id) == k && Find(b, b[k].id) == k;
      assert VersionOf(a, a[k].id) == VersionOf(b, a[k].id);
    }
  }

  ghost predicate NamedById(index: Index) { forall e :: e in index ==> e.name.id == e.id }

  lemma {:induction false} ImportNames(index: Index, games: seq<Record>)
    requires NamedById(index)
    ensures NamedById(ImportAll(index, games))
  {
    if games != [] { ImportNames(index, games[..|games| - 1]); }
  }

  lemma ImportTwice(index: Index, games: seq<Record>)
    requires UniqueIds(index) && NamedById(index)
    ensures ImportAll(ImportAll(index, games), games) == ImportAll(index, games)
  {
    var once := ImportAll(index, games);
    var twice := ImportAll(once, games);
    ImportKeepsUnique(index, games);
    ImportKeepsUnique(once, games);
    ImportNames(index, games);
    ImportNames(once, games);
    ImportIds(index, games);
    ImportIds(once, games);
    forall id ensures VersionOf(once, id) == VersionOf(twice, id) {
      ImportVersion(index, games, id);
      ImportVersion(once, games, id);
    }
    SameIndex(twice, once);
  }

  lemma {:induction false} ImportSplit(index: Index, games: seq<Record>, j: nat)
    requires j <= |games|
    ensures ImportAll(index, games) == ImportAll(ImportAll(index, games[..j]), games[j..])
  {
    if j < |games| {
      var init, last := games[..|games| - 1], games[|games| - 1];
      ImportSplit(index, init, j);
      assert init[..j] == games[..j] && init[j..] == games[j..][..|games| - j - 1];
    } else {
      assert games[..j] == games && games[j..] == [];
    }
  }

  /** Whatever part of an input had been imported before a crash, importing the whole input again ends where
      an import without the crash ends. */
  lemma RerunConverges(index: Index, games: seq<Record>, j: nat)
    requires UniqueIds(index) && NamedById(index) && j <= |games|
    ensures ImportAll(ImportAll(index, games[..j]), games) == ImportAll(index, games)
  {
    var part := ImportAll(index, games[..j]);
    ImportSplit(index, games, j);
    ImportSplit(part, games, j);
    ImportTwice(index, games[..j]);
  }

  // A new file leaves the committed records as they are.
  lemma StillOk(ok: Check, index: Index, before: map<Name, Record>, after: map<Name, Record>, r: Record)
    requires IndexOk(ok, index, before) && NameOf(r) !in Names(index)
    requires (after == before || after == before[NameOf(r) := r])
    ensures IndexOk(ok, index, after)
    ensures forall e :: e in index ==> e.name in before && e.name in after && after[e.name] == before[e.name]
  {
    forall e | e in index ensures e.name in Names(index) && EntryOk(ok, e, before) {
      var k :| 0 <= k < |index| && index[k] == e;
    }
  }

  lemma UpsertOk(ok: Check, index: Index, r: Record, files: map<Name, Record>)
    requires IndexOk(ok, index, files) && NameOf(r) in files && files[NameOf(r)] == r && ok(r)
    ensures IndexOk(ok, Upsert(index, r), files)
  {
    UpsertShape(index, r);
    var next := Upsert(index, r);
    forall k | 0 <= k < |next| ensures EntryOk(ok, next[k], files) {
      assert next[k] == Entry(r.id, NameOf(r)) || (k < |index| && next[k] == index[k]);
    }
  }

  // ---------- the disk ----------

  datatype Change = Duplicate | Updated | Stored

  datatype Outcome = PowerLost | Refused | Malformed | Finished(imported: nat, already: nat, updated: nat)

  class Store {
    var files: map<Name, Record>
    var manifest: Option<Index>
    var temps: set<Temp>
    // File operations until the power fails
    var left: nat

    constructor (d: Disk, left: nat)
      ensures Now() == d && this.left == left
    {
      files, manifest, temps := d.files, d.manifest, d.temps;
      this.left := left;
    }

    function Now(): Disk
      reads this
    {
      Disk(files, manifest, temps)
    }

    // One file operation is about to be made, unless the power fails.
    method Tick() returns (alive: bool)
      modifies this`left
      ensures alive <==> old(left) > 0
      ensures left == if alive then old(left) - 1 else 0
    {
      alive := left > 0;
      if alive { left := left - 1; }
    }

    // At most `n` operations have been made since there were `was` left, and the power is out only when none is.
    predicate Spent(was: nat, n: nat, alive: bool)
      reads this
    {
      left <= was <= left + n && (!alive ==> left == 0 && was < n)
    }

    // Writes a temporary file and renames it over the record's name.
    method WriteRecord(r: Record) returns (alive: bool)
      modifies this
      ensures manifest == old(manifest)
      ensures files == old(files) || files == old(files)[NameOf(r) := r]
      ensures alive ==> files == old(files)[NameOf(r) := r]
      ensures Spent(old(left), 2, alive)
    {
      alive := Tick();
      if !alive { return; }
      temps := temps + {RecordTemp(NameOf(r))};
      alive := Tick();
      if !alive { return; }
      temps := temps - {RecordTemp(NameOf(r))};
      files := files[NameOf(r) := r];
    }

    method WriteManifest(index: Index) returns (alive: bool)
      modifies this
      ensures files == old(files) && manifest == if alive then Some(index) else old(manifest)
      ensures Spent(old(left), 2, alive)
    {
      alive := Tick();
      if !alive { return; }
      temps := temps + {IndexTemp};
      alive := Tick();
      if !alive { return; }
      temps := temps - {IndexTemp};
      manifest := Some(index);
    }

    /** One game: the manifest rename alone makes the version visible, and until then every committed record
        is as it was. */
    method CommitGame(ok: Check, r: Record, ghost was: Index, index: Index) returns (alive: bool)
      requires Holds(ok, Now(), was) && index == Upsert(was, r) && ok(r) && NameOf(r) !in Names(was)
      modifies this
      ensures Holds(ok, Now(), if alive then index else was)
      ensures SameRecords(was, old(Now()), Now())
      ensures alive ==> NameOf(r) in files && files[NameOf(r)] == r
      ensures Spent(old(left), 4, alive)
    {
      ghost var before := files;
      alive := WriteRecord(r);
      StillOk(ok, was, before, files, r);
      if !alive { return; }
      alive := WriteManifest(index);
      UpsertOk(ok, was, r, files);
    }

    method UnlinkTemps() returns (alive: bool)
      modifies this
      ensures files == old(files) && manifest == old(manifest) && (alive ==> temps == {})
      ensures Spent(old(left), |old(temps)|, alive)
    {
      alive := true;
      while temps != {}
        invariant files == old(files) && manifest == old(manifest)
        invariant |temps| <= |old(temps)| && left + |old(temps)| - |temps| == old(left)
        decreases |temps|
      {
        var t :| t in temps;
        alive := Tick();
        if !alive { return; }
        temps := temps - {t};
      }
    }

    method UnlinkUnreferenced(index: Index) returns (alive: bool)
      modifies this
      ensures temps == old(temps) && manifest == old(manifest)
      ensures files.Keys <= old(files).Keys && forall n :: n in files ==> files[n] == old(files)[n]
      ensures forall n :: n in Names(index) && n in old(files) ==> n in files
      ensures alive ==> files.Keys <= Names(index)
      ensures Spent(old(left), |old(files)|, alive)
    {
      alive := true;
      var todo := files.Keys - Names(index);
      Fewer(todo, files.Keys);
      while todo != {}
        invariant |todo| <= |old(files)| && left + |old(files)| - |todo| >= old(left) >= left
        invariant temps == old(temps) && manifest == old(manifest)
        invariant todo == files.Keys - Names(index)
        invariant files.Keys <= old(files).Keys && forall n :: n in files ==> files[n] == old(files)[n]
        invariant forall n :: n in Names(index) && n in old(files) ==> n in files
        decreases |todo|
      {
        var n :| n in todo;
        alive := Tick();
        if !alive { return; }
        files, todo := files - {n}, todo - {n};
      }
      assert files.Keys <= Names(index) + todo;
    }

    method ValidateIndex(ok: Check, index: Index) returns (valid: bool)
      ensures valid <==> IndexOk(ok, index, files)
    {
      var seen: set<string> := {};
      for k := 0 to |index|
        invariant IndexOk(ok, index[..k], files) && seen == set e | e in index[..k] :: e.id
      {
        assert index[..k + 1] == index[..k] + [index[k]];
        if index[k].id in seen {
          var j :| 0 <= j < k && index[..k][j].id == index[k].id;
          assert index[j].id == index[k].id;
          return false;
        }
        if !EntryOk(ok, index[k], files) { return false; }
        seen := seen + {index[k].id};
      }
      assert index[..|index|] == index;
      return true;
    }

    /** Recovery refuses a contradictory store untouched. Else it keeps the committed index and its records at
        every moment, and when it ends nothing else is left. */
    method Recover(ok: Check) returns (alive: bool, index: Option<Index>)
      modifies this
      ensures index.None? && alive <==> !old(IndexOk(ok, Committed(Now()), files))
      ensures index.None? && alive ==> Now() == old(Now())
      ensures old(IndexOk(ok, Committed(Now()), files)) ==>
                Holds(ok, Now(), old(Committed(Now()))) && SameRecords(old(Committed(Now())), old(Now()), Now())
      ensures index.Some? ==> index.value == old(Committed(Now())) && alive && Clean(Now())
      ensures Spent(old(left), |old(temps)| + |old(files)|, alive)
    {
      alive := true;
      var current := if manifest.Some? then manifest.value else [];
      if manifest.Some? {
        var valid := ValidateIndex(ok, current);
        if !valid { return true, None; }
      }
      assert forall e :: e in current ==> e.name in Names(current);
      alive := UnlinkTemps();
      if !alive { return false, None; }
      alive := UnlinkUnreferenced(current);
      index := if alive then Some(current) else None;
    }

    /** One parsed game: a version that is there already, or a commit. */
    method ImportGame(ok: Check, r: Record, index: Index) returns (alive: bool, next: Index, change: Change)
      requires Holds(ok, Now(), index) && ok(r)
      modifies this
      ensures Holds(ok, Now(), if alive then next else index)
      ensures next == Upsert(index, r)
      ensures |next| == |index| + if change.Stored? then 1 else 0
      ensures change.Duplicate? ==> next == index && Now() == old(Now())
      ensures change == ChangeFrom(VersionOf(index, r.id), r)
      ensures Spent(old(left), 4, alive)
    {
      var k := Find(index, r.id);
      FindNames(ok, index, files, r);
      next := Upsert(index, r);
      if k < |index| && files[index[k].name].content == r.content {
        assert index[k := Entry(r.id, NameOf(r))] == index;
        return true, next, Duplicate;
      }
      alive := CommitGame(ok, r, index, next);
      change := if k < |index| then Updated else Stored;
    }

    /** A whole import, `None` being a game the parser rejects. The store holds what importing the first `j` of
        the games up to the first rejected one gives: all of them, unless the power has failed, which it does
        only when the operations left do not reach. */
    method RunImport(ok: Check, games: seq<Option<Record>>) returns (o: Outcome, ghost j: nat)
      requires forall g :: g in games && g.Some? ==> ok(g.value)
      modifies this
      ensures j <= |Parsed(games)|
      ensures o.Refused? <==> !old(IndexOk(ok, Committed(Now()), files))
      ensures o.Refused? ==> Now() == old(Now())
      ensures !o.Refused? ==> Holds(ok, Now(), ImportAll(old(Committed(Now())), Parsed(games)[..j]))
      ensures o.Finished? || o.Malformed? ==> j == |Parsed(games)|
      ensures o.Malformed? ==> games == [] || j < |games|
      ensures o.Finished? ==> j == |games| > 0 && Tallied(o, |games|, |Committed(Now())| - |old(Committed(Now()))|)
      ensures o.Finished? ==> Counted(o, old(Committed(Now())), Parsed(games))
      ensures Spent(old(left), |old(temps)| + |old(files)| + 4 * |games|, !o.PowerLost?)
    {
      var alive, start := Recover(ok);
      if start.None? { return if alive then Refused else PowerLost, 0; }
      ParsedIs(games);
      forall g | g in Parsed(games) ensures ok(g) {
        var k :| 0 <= k < |Parsed(games)| && Parsed(games)[k] == g;
        assert games[k] in games;
      }
      o, j := ImportGames(ok, games, Parsed(games), start.value);
      assert Parsed(games)[..|Parsed(games)|] == Parsed(games);
    }

    // One turn of the import loop, with its counters and what it costs
    method ImportNth(ok: Check, ghost start: Index, ghost games: seq<Record>, n: nat, r: Record, index: Index,
                     o: Outcome, ghost was: nat)
      returns (alive: bool, next: Index, more: Outcome)
      requires n < |games| && games[n] == r && ok(r) && Holds(ok, Now(), index) && Imported(start, games, n, index, o)
      requires Spent(was, 4 * n, true)
      modifies this
      ensures Holds(ok, Now(), if alive then next else index)
      ensures Imported(start, games, n + 1, next, more) && Spent(was, 4 * (n + 1), alive)
    {
      var change;
      alive, next, change := ImportGame(ok, r, index);
      more := Count(o, change);
      ImportedNext(start, games, n, index, o, change, next);
    }

    // The import loop
    method ImportGames(ok: Check, games: seq<Option<Record>>, ghost parsed: seq<Record>, start: Index)
      returns (o: Outcome, ghost j: nat)
      requires IsParsed(games, parsed) && Holds(ok, Now(), start) && forall g :: g in parsed ==> ok(g)
      modifies this
      ensures j <= |parsed| && Holds(ok, Now(), ImportAll(start, parsed[..j]))
      ensures o.Finished? || o.Malformed? || o.PowerLost?
      ensures o.Finished? || o.Malformed? ==> j == |parsed|
      ensures o.Malformed? ==> games == [] || j < |games|
      ensures o.Finished? ==> j == |games| > 0 && Imported(start, parsed, j, ImportAll(start, parsed[..j]), o)
      ensures Spent(old(left), 4 * |games|, !o.PowerLost?)
    {
      var index, n := start, 0;
      o := Finished(0, 0, 0);
      CountStart(start, parsed);
      while n < |games| && games[n].Some?
        invariant n <= |parsed| && Holds(ok, Now(), index) && Imported(start, parsed, n, index, o)
        invariant Spent(old(left), 4 * n, true)
      {
        assert games[n] == Some(parsed[n]) && parsed[n] in parsed;
        var alive, next, more := ImportNth(ok, start, parsed, n, games[n].value, index, o, old(left));
        if !alive { return PowerLost, n; }
        o, index, n := more, next, n + 1;
      }
      j := n;
      if n < |games| || n == 0 { o := Malformed; }
    }
  }

  // The index and the counters after the first `n` games
  ghost predicate Imported(start: Index, games: seq<Record>, n: nat, index: Index, o: Outcome) {
    && UniqueIds(start) && n <= |games| && index == ImportAll(start, games[..n])
    && Tallied(o, n, |index| - |start|) && Counted(o, start, games[..n])
  }

  lemma ImportedNext(start: Index, games: seq<Record>, n: nat, index: Index, o: Outcome, change: Change, next: Index)
    requires n < |games| && Imported(start, games, n, index, o) && next == Upsert(index, games[n])
    requires change == ChangeFrom(VersionOf(index, games[n].id), games[n])
    requires |next| == |index| + if change.Stored? then 1 else 0
    ensures Imported(start, games, n + 1, next, Count(o, change))
  {
    ImportNext(start, games, n);
    VersionThen(start, games, n);
    CountNext(o, start, games, n);
  }

  function Count(o: Outcome, change: Change): Outcome
    requires o.Finished?
  {
    match change
    case Duplicate => o.(already := o.already + 1)
    case Updated => o.(updated := o.updated + 1)
    case Stored => o.(imported := o.imported + 1)
  }

  // What a game is to an index that holds this version of it
  function ChangeFrom(version: Option<Name>, r: Record): Change {
    if version.None? then Stored else if version.value == NameOf(r) then Duplicate else Updated
  }

  // What game `k` is: its id had this version from the games before it, or else from the start.
  function ChangeAt(start: Index, games: seq<Record>, k: nat): Change
    requires k < |games|
  {
    var last := LastVersion(games[..k], games[k].id);
    ChangeFrom(if last.Some? then last else VersionOf(start, games[k].id), games[k])
  }

  // The number of games that were this
  function HowMany(start: Index, games: seq<Record>, change: Change): nat {
    if games == [] then 0
    else
      HowMany(start, games[..|games| - 1], change) + if ChangeAt(start, games, |games| - 1) == change then 1 else 0
  }

  // Each counter is the number of games that were that.
  ghost predicate Counted(o: Outcome, start: Index, games: seq<Record>) {
    && o.Finished? && o.imported == HowMany(start, games, Stored) && o.updated == HowMany(start, games, Updated)
    && o.already == HowMany(start, games, Duplicate)
  }

  lemma VersionThen(start: Index, games: seq<Record>, n: nat)
    requires UniqueIds(start) && n < |games|
    ensures ChangeFrom(VersionOf(ImportAll(start, games[..n]), games[n].id), games[n]) == ChangeAt(start, games, n)
  {
    ImportVersion(start, games[..n], games[n].id);
  }

  lemma ChangeBefore(start: Index, games: seq<Record>, n: nat, k: nat)
    requires k < n <= |games|
    ensures ChangeAt(start, games[..n], k) == ChangeAt(start, games, k)
  {
    assert games[..n][..k] == games[..k];
  }

  lemma CountStart(start: Index, games: seq<Record>)
    requires UniqueIds(start)
    ensures Imported(start, games, 0, start, Finished(0, 0, 0))
  {
  }

  lemma HowManyNext(start: Index, games: seq<Record>, n: nat, change: Change)
    requires n < |games|
    ensures HowMany(start, games[..n + 1], change) ==
            HowMany(start, games[..n], change) + if ChangeAt(start, games, n) == change then 1 else 0
  {
    assert games[..n + 1][..n] == games[..n];
    ChangeBefore(start, games, n + 1, n);
  }

  lemma CountNext(o: Outcome, start: Index, games: seq<Record>, n: nat)
    requires n < |games| && Counted(o, start, games[..n])
    ensures Counted(Count(o, ChangeAt(start, games, n)), start, games[..n + 1])
  {
    HowManyNext(start, games, n, Stored);
    HowManyNext(start, games, n, Updated);
    HowManyNext(start, games, n, Duplicate);
  }

  // The counters add up, and those imported are what the index has gained.
  predicate Tallied(o: Outcome, n: nat, gained: int) {
    o.Finished? && o.imported + o.already + o.updated == n && o.imported == gained
  }

  lemma Fewer(a: set<Name>, b: set<Name>)
    requires a <= b
    ensures |a| <= |b|
  {
    assert |b - a| == |b| - |a|;
  }

  // An id that is not indexed, or indexed with other content, has no version under the new name.
  lemma FindNames(ok: Check, index: Index, files: map<Name, Record>, r: Record)
    requires IndexOk(ok, index, files)
    ensures var k := Find(index, r.id);
            && (k < |index| ==>
                  && index[k].name in files
                  && (files[index[k].name].content == r.content <==> index[k].name == NameOf(r)))
            && (k == |index| || index[k].name != NameOf(r) ==> NameOf(r) !in Names(index))
  {
    var k := Find(index, r.id);
    if k < |index| { assert EntryOk(ok, index[k], files); }
    if NameOf(r) in Names(index) {
      var e :| e in index && e.name == NameOf(r);
      var n :| 0 <= n < |index| && index[n] == e;
      assert EntryOk(ok, index[n], files);
      assert index[n].id == r.id;
      assert n == k;
    }
  }

  /** The games of an input up to the first one the parser rejects */
  function Parsed(games: seq<Option<Record>>): seq<Record> {
    if games == [] || games[0].None? then [] else [games[0].value] + Parsed(games[1..])
  }

  ghost predicate IsParsed(games: seq<Option<Record>>, parsed: seq<Record>) {
    && |parsed| <= |games| && (forall k :: 0 <= k < |parsed| ==> games[k] == Some(parsed[k]))
    && (|parsed| < |games| ==> games[|parsed|].None?)
  }

  lemma {:induction false} ParsedIs(games: seq<Option<Record>>)
    ensures IsParsed(games, Parsed(games))
  {
    if games != [] && games[0].Some? { ParsedIs(games[1..]); }
  }

  lemma ImportNext(index: Index, games: seq<Record>, n: nat)
    requires n < |games|
    ensures ImportAll(index, games[..n + 1]) == Upsert(ImportAll(index, games[..n]), games[n])
  {
    assert games[..n + 1][..n] == games[..n];
  }

  lemma HeldNamed(ok: Check, d: Disk, index: Index)
    requires Holds(ok, d, index)
    ensures UniqueIds(index) && NamedById(index)
  {
    forall e | e in index ensures e.name.id == e.id {
      var k :| 0 <= k < |index| && index[k] == e;
      assert EntryOk(ok, index[k], d.files);
    }
  }

  // One run, cut off or not: what a whole import makes of the index afterwards is what it made of it before.
  method CutRun(ok: Check, d: Disk, games: seq<Option<Record>>, power: nat) returns (after: Disk)
    requires IndexOk(ok, Committed(d), d.files) && forall g :: g in games && g.Some? ==> ok(g.value)
    ensures Holds(ok, after, Committed(after))
    ensures ImportAll(Committed(after), Parsed(games)) == ImportAll(Committed(d), Parsed(games))
  {
    var store := new Store(d, power);
    ghost var j;
    var o;
    o, j := store.RunImport(ok, games);
    after := store.Now();
    HeldNamed(ok, d, Committed(d));
    RerunConverges(Committed(d), Parsed(games), j);
  }

  /** An import whose power fails any number of times at any moments, and the same input once more with power enough:
      the store holds what one undisturbed import of the games up to the first rejected one gives. */
  method CrashAndRerun(ok: Check, d: Disk, games: seq<Option<Record>>, powers: seq<nat>)
    returns (o: Outcome, after: Disk)
    requires IndexOk(ok, Committed(d), d.files) && forall g :: g in games && g.Some? ==> ok(g.value)
    ensures o.Finished? || o.Malformed?
    ensures o.Finished? <==> games != [] && |Parsed(games)| == |games|
    ensures Holds(ok, after, ImportAll(Committed(d), Parsed(games)))
  {
    var disk := d;
    for k := 0 to |powers|
      invariant Holds(ok, disk, Committed(disk))
      invariant ImportAll(Committed(disk), Parsed(games)) == ImportAll(Committed(d), Parsed(games))
    {
      disk := CutRun(ok, disk, games, powers[k]);
    }
    var again := new Store(disk, |disk.temps| + |disk.files| + 4 * |games|);
    ghost var all;
    o, all := again.RunImport(ok, games);
    after := again.Now();
    assert Parsed(games)[..|Parsed(games)|] == Parsed(games);
  }
}
