/** Backup receipts and their restoration (`store/backup.py`, `store/restore.py`). */
module Bundle {
  import opened Text
  import opened Wal
  import Encoding

  // ---------- the canonical bundle ----------

  function Body(r: Record): string {
    "digest=" + r.digest + "|" + ("snapshot_fen=" + r.snapshot + "|" + ("variant=" + r.variant))
  }

  // The records at these keys, in their order
  function Lay(keys: seq<string>, s: State): string
    requires forall k :: k in keys ==> k in s
  {
    if keys == [] then "" else keys[0] + "\n" + (Body(s[keys[0]]) + "\n" + Lay(keys[1..], s))
  }

  function Serialize(s: State): string { Lay(Encoding.SortedKeys(s.Keys), s) }

  type Fields = map<string, string>

  // A text before its first `=`, and the one behind it
  function Partition(s: string): (string, string) {
    if s == "" then ("", "")
    else if s[0] == '=' then ("", s[1..])
    else var (name, value) := Partition(s[1..]); ([s[0]] + name, value)
  }

  function FieldsInto(fields: Fields, pairs: seq<string>): Fields
    decreases |pairs|
  {
    if pairs == [] then fields
    else var (name, value) := Partition(pairs[0]); FieldsInto(fields[name := value], pairs[1..])
  }

  // `None` is the index error of a key line without a field line.
  function ParseInto(out: map<string, Fields>, lines: seq<string>): Option<map<string, Fields>>
    decreases |lines|
  {
    if lines == [] then Some(out)
    else if |lines| == 1 then None
    else ParseInto(out[lines[0] := FieldsInto(map[], Split(lines[1], '|'))], lines[2..])
  }

  function Lines(bundle: string): seq<string> {
    var lines := Split(bundle, '\n');
    if lines[|lines| - 1] == "" then lines[..|lines| - 1] else lines
  }

  function Parse(bundle: string): Option<map<string, Fields>> { ParseInto(map[], Lines(bundle)) }

  method ParseBundle(bundle: string) returns (out: Option<map<string, Fields>>)
    ensures out == Parse(bundle)
  {
    var lines := Lines(bundle);
    var state: map<string, Fields>, i := map[], 0;
    while i < |lines|
      invariant i <= |lines| && Parse(bundle) == ParseInto(state, lines[i..])
    {
      if i + 1 == |lines| { return None; }
      var fields := ParseFields(lines[i + 1]);
      assert lines[i..][2..] == lines[i + 2..];
      state, i := state[lines[i] := fields], i + 2;
    }
    out := Some(state);
  }

  method ParseFields(line: string) returns (fields: Fields)
    ensures fields == FieldsInto(map[], Split(line, '|'))
  {
    var pairs := Split(line, '|');
    fields := map[];
    for k := 0 to |pairs|
      invariant FieldsInto(map[], pairs) == FieldsInto(fields, pairs[k..])
    {
      var pair := Partition(pairs[k]);
      assert pairs[k..][1..] == pairs[k + 1..];
      fields := fields[pair.0 := pair.1];
    }
  }

  // ---------- the round trip ----------

  // Neither keys nor records hold what separates them: identities, tokens, digests and FEN texts.
  ghost predicate Separable(s: State) {
    forall k :: k in s ==>
      Free(k, '\n') && FieldFree(s[k].variant) && FieldFree(s[k].digest) && FieldFree(s[k].snapshot)
  }

  ghost predicate FieldFree(s: string) { Free(s, '\n') && Free(s, '|') }

  function AsFields(r: Record): Fields {
    map["digest" := r.digest, "snapshot_fen" := r.snapshot, "variant" := r.variant]
  }

  function AllFields(s: State): map<string, Fields> { map k | k in s :: AsFields(s[k]) }

  lemma {:induction false} PartitionNamed(name: string, value: string)
    requires Free(name, '=')
    ensures Partition(name + "=" + value) == (name, value)
  {
    var s := name + "=" + value;
    if name == "" {
      assert s[1..] == value;
    } else {
      assert s[0] == name[0] && s[1..] == name[1..] + "=" + value;
      PartitionNamed(name[1..], value);
      assert name == [s[0]] + name[1..];
    }
  }

  lemma BodyPairs(r: Record)
    requires FieldFree(r.variant) && FieldFree(r.digest) && FieldFree(r.snapshot)
    ensures Split(Body(r), '|') == ["digest=" + r.digest, "snapshot_fen=" + r.snapshot, "variant=" + r.variant]
    ensures Free(Body(r), '\n')
  {
    var a, b, c := "digest=" + r.digest, "snapshot_fen=" + r.snapshot, "variant=" + r.variant;
    assert Free(a, '|') && Free(b, '|') && Free(c, '|') && Free(a, '\n') && Free(b, '\n') && Free(c, '\n');
    assert Body(r) == a + ['|'] + (b + ['|'] + c);
    SplitHead(a, '|', b + ['|'] + c);
    SplitHead(b, '|', c);
    SplitFree(c, '|');
  }

  lemma BodyFields(r: Record)
    requires FieldFree(r.variant) && FieldFree(r.digest) && FieldFree(r.snapshot)
    ensures FieldsInto(map[], Split(Body(r), '|')) == AsFields(r)
  {
    BodyPairs(r);
    PartitionNamed("digest", r.digest);
    PartitionNamed("snapshot_fen", r.snapshot);
    PartitionNamed("variant", r.variant);
    var x, y, z := "digest=" + r.digest, "snapshot_fen=" + r.snapshot, "variant=" + r.variant;
    assert "digest" + "=" + r.digest == x && "snapshot_fen" + "=" + r.snapshot == y && "variant" + "=" + r.variant == z;
    assert [x, y, z][1..] == [y, z] && [y, z][1..] == [z] && [z][1..] == [];
    var one := map["digest" := r.digest];
    var two := one["snapshot_fen" := r.snapshot];
    assert FieldsInto(map[], [x, y, z]) == FieldsInto(one, [y, z]) == FieldsInto(two, [z]);
    assert FieldsInto(two, [z]) == two["variant" := r.variant];
  }

  // The lines of a bundle, without the empty one behind the last break
  function LaidLines(keys: seq<string>, s: State): seq<string>
    requires forall k :: k in keys ==> k in s
  {
    if keys == [] then [] else [keys[0], Body(s[keys[0]])] + LaidLines(keys[1..], s)
  }

  lemma TwoLines(a: string, b: string, rest: string)
    requires Free(a, '\n') && Free(b, '\n')
    ensures Split(a + "\n" + (b + "\n" + rest), '\n') == [a, b] + Split(rest, '\n')
  {
    SplitHead(b, '\n', rest);
    SplitHead(a, '\n', b + "\n" + rest);
    assert [a] + ([b] + Split(rest, '\n')) == [a, b] + Split(rest, '\n');
  }

  lemma {:induction false} LaySplits(keys: seq<string>, s: State)
    requires Separable(s) && forall k :: k in keys ==> k in s
    ensures Split(Lay(keys, s), '\n') == LaidLines(keys, s) + [""]
  {
    if keys != [] {
      var k := keys[0];
      BodyPairs(s[k]);
      LaySplits(keys[1..], s);
      TwoLines(k, Body(s[k]), Lay(keys[1..], s));
      assert LaidLines(keys, s) + [""] == [k, Body(s[k])] + (LaidLines(keys[1..], s) + [""]);
    }
  }

  function LaidInto(out: map<string, Fields>, keys: seq<string>, s: State): map<string, Fields>
    requires forall k :: k in keys ==> k in s
    decreases |keys|
  {
    if keys == [] then out else LaidInto(out[keys[0] := AsFields(s[keys[0]])], keys[1..], s)
  }

  lemma {:induction false} LaidParse(keys: seq<string>, s: State, out: map<string, Fields>)
    requires Separable(s) && forall k :: k in keys ==> k in s
    ensures ParseInto(out, LaidLines(keys, s)) == Some(LaidInto(out, keys, s))
    decreases |keys|
  {
    if keys != [] {
      var k, rest := keys[0], LaidLines(keys[1..], s);
      BodyFields(s[k]);
      var lines := LaidLines(keys, s);
      assert lines[0] == k && lines[1] == Body(s[k]) && lines[2..] == rest;
      LaidParse(keys[1..], s, out[k := AsFields(s[k])]);
    }
  }

  lemma {:induction false} LaidIntoIs(out: map<string, Fields>, keys: seq<string>, s: State, j: string)
    requires forall k :: k in keys ==> k in s
    ensures j in LaidInto(out, keys, s) <==> j in out || j in keys
    ensures j in keys ==> LaidInto(out, keys, s)[j] == AsFields(s[j])
    ensures j in out && j !in keys ==> LaidInto(out, keys, s)[j] == out[j]
    decreases |keys|
  {
    if keys != [] {
      assert keys == [keys[0]] + keys[1..];
      LaidIntoIs(out[keys[0] := AsFields(s[keys[0]])], keys[1..], s, j);
    }
  }

  lemma LaidAll(s: State)
    ensures LaidInto(map[], Encoding.SortedKeys(s.Keys), s) == AllFields(s)
  {
    LaidAre(Encoding.SortedKeys(s.Keys), s);
  }

  lemma LaidAre(keys: seq<string>, s: State)
    requires forall k :: k in keys <==> k in s
    ensures LaidInto(map[], keys, s) == AllFields(s)
  {
    var laid, all := LaidInto(map[], keys, s), AllFields(s);
    forall j ensures j in laid <==> j in all { LaidIntoIs(map[], keys, s, j); }
    forall j | j in all ensures laid[j] == all[j] { LaidIntoIs(map[], keys, s, j); }
  }

  /** Parsing inverts serialising, on every state a log can rebuild. */
  lemma BundleRoundTrip(s: State)
    requires Separable(s)
    ensures Parse(Serialize(s)) == Some(AllFields(s))
  {
    var keys := Encoding.SortedKeys(s.Keys);
    LaySplits(keys, s);
    LaidParse(keys, s, map[]);
    LaidAll(s);
    assert Lines(Serialize(s)) == LaidLines(keys, s);
  }

  lemma SameFields(a: Record, b: Record)
    requires AsFields(a) == AsFields(b)
    ensures a == b
  {
    assert AsFields(a)["digest"] == AsFields(b)["digest"];
    assert AsFields(a)["snapshot_fen"] == AsFields(b)["snapshot_fen"];
    assert AsFields(a)["variant"] == AsFields(b)["variant"];
  }

  lemma SameStates(s: State, t: State)
    requires AllFields(s) == AllFields(t)
    ensures s == t
  {
    assert s.Keys == AllFields(s).Keys && t.Keys == AllFields(t).Keys;
    forall k | k in s ensures s[k] == t[k] {
      assert AllFields(s)[k] == AllFields(t)[k];
      SameFields(s[k], t[k]);
    }
  }

  /** The bundle decides the state. */
  lemma SerializeInjective(s: State, t: State)
    requires Separable(s) && Separable(t) && Serialize(s) == Serialize(t)
    ensures s == t
  {
    BundleRoundTrip(s);
    BundleRoundTrip(t);
    SameStates(s, t);
  }

  // ---------- receipts ----------

  datatype StateId = IdOfState(state: State) | OtherState(text: string, wellFormed: bool)

  datatype BackupId = IdOf(head: Id, state: StateId, count: int, bundle: string)
                    | OtherId(text: string, wellFormed: bool)

  datatype Receipt = Receipt(id: BackupId, head: Id, state: StateId, count: int, bundle: string)

  datatype BackupFailure = MalformedReceipt | CorruptSource | DivergentSnapshot | DivergentBackup

  datatype Verdict = Fine | Refused(failure: BackupFailure)

  const MAX_COUNT := 0x7FFF_FFFF_FFFF_FFFF

  function Verify(r: Receipt): Verdict {
    if (r.id.OtherId? && !r.id.wellFormed) || !PriorIdOk(r.head) || (r.state.OtherState? && !r.state.wellFormed)
    then Refused(MalformedReceipt)
    else if !(0 <= r.count <= MAX_COUNT) then Refused(MalformedReceipt)
    else if r.count == 0 && (r.head != Genesis || r.state != IdOfState(map[])) then Refused(DivergentBackup)
    else if r.count > 0 && r.head == Genesis then Refused(DivergentBackup)
    else if r.id != IdOf(r.head, r.state, r.count, r.bundle) then Refused(DivergentBackup)
    else Fine
  }

  datatype Backed = Made(receipt: Receipt) | NotMade(failure: BackupFailure)

  /** `bundle` is what the untrusted serializer returns, if it returns a text at all. */
  function Backup(rule: RecordRule, log: seq<Entry>, bundle: Option<string>): Backed {
    if !Accepted(rule, log) then NotMade(CorruptSource)
    else if bundle.None? then NotMade(DivergentSnapshot)
    else
      var state := IdOfState(Fold(log));
      Made(Receipt(IdOf(Tip(log), state, |log|, bundle.value), Tip(log), state, |log|, bundle.value))
  }

  /** Every receipt made of a log short of the counter's bound passes its verification. */
  lemma BackupVerifies(rule: RecordRule, log: seq<Entry>, bundle: string)
    requires Accepted(rule, log) && |log| <= MAX_COUNT
    ensures Verify(Backup(rule, log, Some(bundle)).receipt).Fine?
  {
    TipOk(rule, log);
    if log != [] { assert log[|log| - 1].id.Sha?; }
  }

  // ---------- restoring ----------

  datatype RestoreFailure = MalformedRestore | UnverifiedBackup | DivergentParse | DivergentState

  datatype Restored = Restored(state: State) | NotRestored(failure: RestoreFailure)

  const FIELD_NAMES: set<string> := {"variant", "digest", "snapshot_fen"}

  predicate RecordFits(rule: RecordRule, key: string, fields: Fields) {
    fields.Keys == FIELD_NAMES && rule(Record(fields["variant"], fields["digest"], fields["snapshot_fen"])) == Some(key)
  }

  ghost predicate StateFits(rule: RecordRule, parsed: map<string, Fields>, s: State) {
    AllFields(s) == parsed && forall k :: k in s ==> rule(s[k]) == Some(k)
  }

  // Record by record; `None` when one of them does not belong.
  method BuildState(rule: RecordRule, parsed: map<string, Fields>) returns (out: Option<State>)
    ensures out.Some? ==> StateFits(rule, parsed, out.value)
    ensures out.None? ==> forall s: State :: !StateFits(rule, parsed, s)
  {
    var state: State, keys := map[], parsed.Keys;
    while keys != {}
      invariant keys <= parsed.Keys && state.Keys == parsed.Keys - keys
      invariant forall k :: k in state ==> AsFields(state[k]) == parsed[k] && rule(state[k]) == Some(k)
    {
      var k :| k in keys;
      if !RecordFits(rule, k, parsed[k]) {
        forall s: State ensures !StateFits(rule, parsed, s) { NoFit(rule, parsed, k, s); }
        return None;
      }
      var fields := parsed[k];
      var record := Record(fields["variant"], fields["digest"], fields["snapshot_fen"]);
      assert AsFields(record) == fields;
      state, keys := state[k := record], keys - {k};
    }
    assert AllFields(state) == parsed;
    out := Some(state);
  }

  lemma NoFit(rule: RecordRule, parsed: map<string, Fields>, k: string, s: State)
    requires k in parsed && !RecordFits(rule, k, parsed[k])
    ensures !StateFits(rule, parsed, s)
  {
    if AllFields(s) == parsed {
      assert k in AllFields(s) && parsed[k] == AsFields(s[k]);
      assert s[k] == Record(parsed[k]["variant"], parsed[k]["digest"], parsed[k]["snapshot_fen"]);
    }
  }

  // The receipt is verified, and the parser's answer is this state, spelled by the receipt's bundle.
  ghost predicate Restorable(rule: RecordRule, receipt: Receipt, parsed: Option<map<string, Fields>>, s: State) {
    && Verify(receipt).Fine? && receipt.state == IdOfState(s) && receipt.bundle == Serialize(s)
    && parsed.Some? && StateFits(rule, parsed.value, s)
  }

  /** `parsed` is what the untrusted parser makes of the bundle, if it makes a dict of it at all. */
  method Restore(rule: RecordRule, receipt: Receipt, parsed: Option<map<string, Fields>>) returns (r: Restored)
    ensures r.Restored? ==> Restorable(rule, receipt, parsed, r.state)
    ensures r.NotRestored? ==> forall s: State :: !Restorable(rule, receipt, parsed, s)
  {
    var verdict := Verify(receipt);
    if verdict.Refused? {
      return NotRestored(if verdict.failure == MalformedReceipt then MalformedRestore else UnverifiedBackup);
    }
    if parsed.None? { return NotRestored(DivergentParse); }
    var built := BuildState(rule, parsed.value);
    if built.None? { return NotRestored(DivergentState); }
    var state := built.value;
    forall s: State | StateFits(rule, parsed.value, s) ensures s == state { SameStates(s, state); }
    if IdOfState(state) != receipt.state { return NotRestored(DivergentState); }
    if Serialize(state) != receipt.bundle { return NotRestored(DivergentParse); }
    r := Restored(state);
  }

  // What a record rule says of texts: tokens, digests, FEN texts and their identities hold no separators.
  ghost predicate TextRule(rule: RecordRule) {
    forall r :: rule(r).Some? ==>
      Free(rule(r).value, '\n') && FieldFree(r.variant) && FieldFree(r.digest) && FieldFree(r.snapshot)
  }

  lemma {:induction false} FoldFits(rule: RecordRule, log: seq<Entry>)
    requires Accepted(rule, log)
    ensures forall k :: k in Fold(log) ==> rule(Fold(log)[k]) == Some(k)
  {
    if log != [] { FoldFits(rule, log[..|log| - 1]); }
  }

  lemma FoldSeparable(rule: RecordRule, log: seq<Entry>)
    requires Accepted(rule, log) && TextRule(rule)
    ensures Separable(Fold(log))
  {
    FoldFits(rule, log);
    forall k | k in Fold(log)
      ensures Free(k, '\n') && FieldFree(Fold(log)[k].variant) && FieldFree(Fold(log)[k].digest)
      ensures FieldFree(Fold(log)[k].snapshot)
    {
      assert rule(Fold(log)[k]).Some?;
    }
  }

  /** Backing up and restoring, whatever the serializer and the parser answer: a restore that succeeds returns
      exactly the replayed state, and with the honest parser it succeeds exactly on the honest bundle. */
  method BackupThenRestore(rule: RecordRule, log: seq<Entry>, bundle: string, parsed: Option<map<string, Fields>>)
    returns (r: Restored)
    requires Accepted(rule, log) && |log| <= MAX_COUNT && TextRule(rule)
    ensures r.Restored? ==> r.state == Fold(log) && bundle == Serialize(Fold(log))
    ensures parsed == Parse(bundle) ==> (r.Restored? <==> bundle == Serialize(Fold(log)))
  {
    var receipt := Backup(rule, log, Some(bundle)).receipt;
    BackupVerifies(rule, log, bundle);
    r := Restore(rule, receipt, parsed);
    FoldFits(rule, log);
    FoldSeparable(rule, log);
    BundleRoundTrip(Fold(log));
    if bundle == Serialize(Fold(log)) && parsed == Parse(bundle) {
      assert StateFits(rule, parsed.value, Fold(log));
      assert Restorable(rule, receipt, parsed, Fold(log));
    }
  }
}
