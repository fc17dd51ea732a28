/** Corruption scan, crash resume and rollback of a logged store (`store/corruption.py`,
    `store/crash_resume.py`, `store/rollback.py`), over logs that may hold anything. */
module StoreRecovery {
  import opened Text
  import opened Encoding
  import opened Wal
  import Json

  // How digests are read from text and written as text
  datatype Ids = Ids(read: string -> Id, write: Id -> string)

  ghost predicate IdsSound(ids: Ids) {
    forall i: Id :: !i.Foreign? ==> ids.read(ids.write(i)) == i
  }

  // ---------- values that spell entries ----------

  predicate IsRecord(v: Value) {
    v.Dict? && v.fields.Keys == {"variant", "digest", "snapshot_fen"} && forall k :: k in v.fields ==> v.fields[k].Str?
  }

  predicate IsPayload(v: Value) {
    v.Dict? && v.fields.Keys == {"identity", "record"} && v.fields["identity"].Str? && IsRecord(v.fields["record"])
  }

  predicate IsEntry(v: Value) {
    && v.Dict? && v.fields.Keys == {"entry_id", "sequence", "op", "payload", "prior_entry_id"}
    && v.fields["entry_id"].Str? && v.fields["prior_entry_id"].Str?
    && v.fields["sequence"].Int? && v.fields["op"].Str? && IsPayload(v.fields["payload"])
  }

  function ReadRecord(v: Value): Record
    requires IsRecord(v)
  {
    Record(v.fields["variant"].s, v.fields["digest"].s, v.fields["snapshot_fen"].s)
  }

  function ReadEntry(ids: Ids, v: Value): Entry
    requires IsEntry(v)
  {
    var p := v.fields["payload"].fields;
    Entry(ids.read(v.fields["entry_id"].s), v.fields["sequence"].n, v.fields["op"].s, p["identity"].s,
          ReadRecord(p["record"]), ids.read(v.fields["prior_entry_id"].s))
  }

  predicate AllEntries(log: seq<Value>) { forall k :: 0 <= k < |log| ==> IsEntry(log[k]) }

  function Entries(ids: Ids, log: seq<Value>): (es: seq<Entry>)
    requires AllEntries(log)
    ensures |es| == |log| && forall k :: 0 <= k < |log| ==> es[k] == ReadEntry(ids, log[k])
  {
    if log == [] then [] else Entries(ids, log[..|log| - 1]) + [ReadEntry(ids, log[|log| - 1])]
  }

  /** The linked WAL replays the log. */
  predicate Replays(ids: Ids, rule: RecordRule, log: seq<Value>) {
    AllEntries(log) && Accepted(rule, Entries(ids, log))
  }

  lemma EntriesPrefix(ids: Ids, log: seq<Value>, k: nat)
    requires AllEntries(log) && k <= |log|
    ensures Entries(ids, log[..k]) == Entries(ids, log)[..k]
  {
  }

  /** Replay is prefix-monotone. */
  lemma PrefixReplays(ids: Ids, rule: RecordRule, log: seq<Value>, k: nat)
    requires Replays(ids, rule, log) && k <= |log|
    ensures Replays(ids, rule, log[..k])
  {
    EntriesPrefix(ids, log, k);
    PrefixAccepted(rule, Entries(ids, log), k);
  }

  // ---------- the longest accepted prefix ----------

  ghost predicate IsLongest(ids: Ids, rule: RecordRule, log: seq<Value>, k: nat) {
    k <= |log| && Replays(ids, rule, log[..k]) && forall j :: k < j <= |log| ==> !Replays(ids, rule, log[..j])
  }

  lemma LongestUnique(ids: Ids, rule: RecordRule, log: seq<Value>, j: nat, k: nat)
    requires IsLongest(ids, rule, log, j) && IsLongest(ids, rule, log, k)
    ensures j == k
  {
  }

  // A longer prefix of a log that does not replay does not replay either.
  lemma FailsAbove(ids: Ids, rule: RecordRule, log: seq<Value>, j: nat, k: nat)
    requires j <= k <= |log| && !Replays(ids, rule, log[..j])
    ensures !Replays(ids, rule, log[..k])
  {
    assert log[..k][..j] == log[..j];
    if Replays(ids, rule, log[..k]) { PrefixReplays(ids, rule, log[..k], j); }
  }

  /** The binary search of the corruption scan. */
  method VerifiedPrefix(ids: Ids, rule: RecordRule, log: seq<Value>) returns (count: nat, head: Id)
    ensures IsLongest(ids, rule, log, count)
    ensures head == Tip(Entries(ids, log[..count]))
  {
    if Replays(ids, rule, log) {
      assert log[..|log|] == log;
      return |log|, Tip(Entries(ids, log));
    }
    var good, bad := 0, |log|;
    assert log[..|log|] == log;
    assert Replays(ids, rule, log[..0]);
    while bad - good > 1
      invariant 0 <= good < bad <= |log|
      invariant Replays(ids, rule, log[..good]) && !Replays(ids, rule, log[..bad])
    {
      var mid := (good + bad) / 2;
      if Replays(ids, rule, log[..mid]) { good := mid; } else { bad := mid; }
    }
    forall j | good < j <= |log| ensures !Replays(ids, rule, log[..j]) { FailsAbove(ids, rule, log, bad, j); }
    return good, Tip(Entries(ids, log[..good]));
  }

  // ---------- the admission walk of crash resume ----------

  const RESUME_DEPTH: nat := 64
  const MAX_INT_DIGITS: nat := 4000

  predicate Admissible(v: Value, depth: nat) {
    match v
    case Int(n) => |Dec(if n < 0 then -n else n)| <= MAX_INT_DIGITS
    case Float(repr) => Json.FiniteText(repr)
    case List(items) => depth <= RESUME_DEPTH && forall k :: 0 <= k < |items| ==> Admissible(items[k], depth + 1)
    case Dict(fields) => depth <= RESUME_DEPTH && forall k :: k in fields ==> Admissible(fields[k], depth + 1)
    case _ => true
  }

  lemma {:induction false} DecBits(n: nat, bits: nat)
    requires bits > 0 && n < Pow2(bits)
    ensures |Dec(n)| <= bits
  {
    if n >= 10 {
      assert Pow2(bits) == 2 * Pow2(bits - 1);
      DecBits(n / 10, bits - 1);
    }
  }

  /** The scan domain lies inside the admission walk's. */
  lemma {:induction false} DomainAdmissible(v: Value, depth: nat, at: nat)
    requires InDomain(v, depth) && at <= depth
    ensures Admissible(v, at)
    decreases v
  {
    match v
    case Int(n) => DecBits(if n < 0 then -n else n, MAX_INT_BITS);
    case List(items) =>
      forall k | 0 <= k < |items|
        ensures Admissible(items[k], at + 1)
      {
        DomainAdmissible(items[k], depth + 1, at + 1);
      }
    case Dict(fields) =>
      forall k | k in fields
        ensures Admissible(v.fields[k], at + 1)
      {
        DomainAdmissible(v.fields[k], depth + 1, at + 1);
      }
    case _ =>
  }

  lemma EntryAdmissible(ids: Ids, v: Value)
    requires IsEntry(v)
    requires var n := v.fields["sequence"].n; |Dec(if n < 0 then -n else n)| <= MAX_INT_DIGITS
    ensures Admissible(v, 1)
  {
    var p := v.fields["payload"];
    assert Admissible(p.fields["record"], 3);
    assert Admissible(p, 2);
  }

  lemma {:induction false} DecMonotone(m: nat, n: nat)
    requires m <= n
    ensures |Dec(m)| <= |Dec(n)|
  {
    if m >= 10 { DecMonotone(m / 10, n / 10); }
  }

  lemma Numbered(rule: RecordRule, es: seq<Entry>, k: nat)
    requires Accepted(rule, es) && k < |es|
    ensures es[k].sequence == k + 1
  {
    PrefixAccepted(rule, es, k + 1);
    assert es[..k + 1][k] == es[k];
  }

  // The entries of an accepted log are numbered from one, so they pass the walk.
  lemma AcceptedAdmissible(ids: Ids, rule: RecordRule, log: seq<Value>, k: nat)
    requires Replays(ids, rule, log) && k < |log| && |Dec(|log|)| <= MAX_INT_DIGITS
    ensures Admissible(log[k], 1)
  {
    Numbered(rule, Entries(ids, log), k);
    SmallEntry(ids, log[k], k, |log|);
  }

  lemma SmallEntry(ids: Ids, v: Value, k: nat, n: nat)
    requires IsEntry(v) && ReadEntry(ids, v).sequence == k + 1 <= n && |Dec(n)| <= MAX_INT_DIGITS
    ensures Admissible(v, 1)
  {
    DecMonotone(k + 1, n);
    EntryAdmissible(ids, v);
  }

  /** The downward scan of crash resume, capped at the first entry the walk refuses. */
  method ValidPrefixLength(ids: Ids, rule: RecordRule, log: seq<Value>) returns (k: nat)
    ensures k <= |log| && Replays(ids, rule, log[..k])
    ensures |Dec(|log|)| <= MAX_INT_DIGITS ==> IsLongest(ids, rule, log, k)
  {
    var cap := AdmissionCap(log);
    if |Dec(|log|)| <= MAX_INT_DIGITS { CapIsHarmless(ids, rule, log, cap); }
    var test := (j: nat) => j <= |log| && Replays(ids, rule, log[..j]);
    assert test(0);
    k := ScanDown(test, cap);
    forall j | k < j <= cap ensures !Replays(ids, rule, log[..j]) { assert !test(j); }
  }

  method AdmissionCap(log: seq<Value>) returns (cap: nat)
    ensures cap <= |log| && (cap < |log| ==> !Admissible(log[cap], 1))
  {
    cap := 0;
    while cap < |log| && Admissible(log[cap], 1)
      invariant cap <= |log|
    {
      cap := cap + 1;
    }
  }

  // The greatest length up to `cap` that passes the test
  method ScanDown(test: nat -> bool, cap: nat) returns (k: nat)
    requires test(0)
    ensures k <= cap && test(k) && forall j :: k < j <= cap ==> !test(j)
  {
    k := cap;
    while !test(k)
      invariant k <= cap && forall j :: k < j <= cap ==> !test(j)
      decreases k
    {
      k := k - 1;
    }
  }

  // Nothing that replays reaches past an entry the walk refuses.
  lemma CapIsHarmless(ids: Ids, rule: RecordRule, log: seq<Value>, cap: nat)
    requires |Dec(|log|)| <= MAX_INT_DIGITS && cap <= |log| && (cap < |log| ==> !Admissible(log[cap], 1))
    ensures forall j :: cap < j <= |log| ==> !Replays(ids, rule, log[..j])
  {
    forall j | cap < j <= |log| ensures !Replays(ids, rule, log[..j]) {
      DecMonotone(j, |log|);
      if Replays(ids, rule, log[..j]) { AcceptedAdmissible(ids, rule, log[..j], cap); }
    }
  }

  // ---------- tokens ----------

  // What the quarantine token of a scan hashes: equal tokens are equal texts
  function QuarantineSuffix(suffix: seq<Value>): Bytes { Raw("qrn1|") + Encode(List(suffix)) }

  /** A scan token names its suffix. */
  lemma QuarantineInjective(s: seq<Value>, t: seq<Value>)
    requires InDomain(List(s), 1) && InDomain(List(t), 1) && QuarantineSuffix(s) == QuarantineSuffix(t)
    ensures s == t
  {
    DomainIsPlain(List(s), 1);
    DomainIsPlain(List(t), 1);
    Behind(Raw("qrn1|"), Encode(List(s)), Encode(List(t)));
    PrefixFree(List(s), [], List(t), []);
  }

  // The canonical texts of the entries
  function CanonTexts(tail: seq<Value>): (r: seq<string>)
    ensures |r| == |tail| && forall k :: 0 <= k < |tail| ==> r[k] == Json.Canon(tail[k])
  {
    if tail == [] then [] else CanonTexts(tail[..|tail| - 1]) + [Json.Canon(tail[|tail| - 1])]
  }

  // What the quarantine token of a resume hashes
  function QuarantineTail(tail: seq<Value>): string { "qtn1" + Framed(CanonTexts(tail)) }

  predicate AllAdmissible(tail: seq<Value>) { forall k :: 0 <= k < |tail| ==> Admissible(tail[k], 1) }

  lemma {:induction false} AdmissibleFinite(v: Value, depth: nat)
    requires Admissible(v, depth)
    ensures Json.Finite(v)
  {
    match v
    case List(items) =>
      forall k | 0 <= k < |items| ensures Json.Finite(items[k]) { AdmissibleFinite(items[k], depth + 1); }
    case Dict(fields) =>
      forall k | k in fields ensures Json.Finite(fields[k]) { AdmissibleFinite(v.fields[k], depth + 1); }
    case _ =>
  }

  /** A resume token names its tail. */
  lemma QuarantineTailInjective(s: seq<Value>, t: seq<Value>)
    requires AllAdmissible(s) && AllAdmissible(t) && QuarantineTail(s) == QuarantineTail(t)
    ensures s == t
  {
    var x, y := CanonTexts(s), CanonTexts(t);
    assert Framed(x) == QuarantineTail(s)[4..] && Framed(y) == QuarantineTail(t)[4..];
    FramedInjective(x, y);
    forall k | 0 <= k < |s| ensures s[k] == t[k] {
      assert x[k] == y[k];
      AdmissibleFinite(s[k], 1);
      AdmissibleFinite(t[k], 1);
      Json.CanonInjective(s[k], t[k]);
    }
  }

  // The exact fields of an entry that the archive token frames
  function ArchiveFields(ids: Ids, e: Entry): seq<string> {
    [IntText(e.sequence), e.op, ids.write(e.id), ids.write(e.prior), e.identity,
     e.record.variant, e.record.digest, e.record.snapshot]
  }

  function ArchiveTexts(ids: Ids, tail: seq<Entry>): (r: seq<string>)
    ensures |r| == 8 * |tail|
  {
    if tail == [] then [] else ArchiveFields(ids, tail[0]) + ArchiveTexts(ids, tail[1..])
  }

  function ArchiveTail(ids: Ids, tail: seq<Entry>): string { "arc1" + Framed(ArchiveTexts(ids, tail)) }

  ghost predicate KnownIds(tail: seq<Entry>) {
    forall k :: 0 <= k < |tail| ==> !tail[k].id.Foreign? && !tail[k].prior.Foreign?
  }

  lemma {:induction false} ArchiveTextsInjective(ids: Ids, s: seq<Entry>, t: seq<Entry>)
    requires IdsSound(ids) && KnownIds(s) && KnownIds(t) && ArchiveTexts(ids, s) == ArchiveTexts(ids, t)
    ensures s == t
  {
    assert |s| == |t|;
    if s != [] {
      var a, b := ArchiveFields(ids, s[0]), ArchiveFields(ids, t[0]);
      assert a == ArchiveTexts(ids, s)[..8] && b == ArchiveTexts(ids, t)[..8];
      assert ArchiveTexts(ids, s[1..]) == ArchiveTexts(ids, s)[8..];
      assert ArchiveTexts(ids, t[1..]) == ArchiveTexts(ids, t)[8..];
      assert forall k :: 0 <= k < 8 ==> a[k] == b[k];
      IntTextInjective(s[0].sequence, t[0].sequence);
      assert a[1] == b[1] && a[2] == b[2] && a[3] == b[3] && a[4] == b[4] && a[5] == b[5] && a[6] == b[6];
      assert a[7] == b[7];
      ArchiveTextsInjective(ids, s[1..], t[1..]);
      assert s == [s[0]] + s[1..] && t == [t[0]] + t[1..];
    }
  }

  /** An archive token names its tail. */
  lemma ArchiveInjective(ids: Ids, s: seq<Entry>, t: seq<Entry>)
    requires IdsSound(ids) && KnownIds(s) && KnownIds(t) && ArchiveTail(ids, s) == ArchiveTail(ids, t)
    ensures s == t
  {
    assert Framed(ArchiveTexts(ids, s)) == ArchiveTail(ids, s)[4..];
    assert Framed(ArchiveTexts(ids, t)) == ArchiveTail(ids, t)[4..];
    FramedInjective(ArchiveTexts(ids, s), ArchiveTexts(ids, t));
    ArchiveTextsInjective(ids, s, t);
  }

  // All ids of an accepted log are derived ones.
  lemma {:induction false} AcceptedKnown(rule: RecordRule, log: seq<Entry>)
    requires Accepted(rule, log)
    ensures KnownIds(log) && !Tip(log).Foreign?
  {
    if log != [] {
      var init := log[..|log| - 1];
      AcceptedKnown(rule, init);
      forall k | 0 <= k < |log| ensures !log[k].id.Foreign? && !log[k].prior.Foreign? {
        if k < |init| { assert log[k] == init[k]; }
      }
    }
  }

  lemma TailKnown(ids: Ids, rule: RecordRule, log: seq<Value>, k: nat)
    requires Replays(ids, rule, log) && k <= |log|
    ensures KnownIds(Entries(ids, log)[k..])
  {
    AcceptedKnown(rule, Entries(ids, log));
  }

  /** So the archive token of a rollback names what was cut off, over all logs that replay: equal tokens mean equal
      tails. */
  lemma TokenNamesTail(ids: Ids, rule: RecordRule, a: seq<Value>, i: nat, b: seq<Value>, j: nat)
    requires IdsSound(ids) && Replays(ids, rule, a) && Replays(ids, rule, b) && i <= |a| && j <= |b|
    requires ArchiveTail(ids, Entries(ids, a)[i..]) == ArchiveTail(ids, Entries(ids, b)[j..])
    ensures Entries(ids, a)[i..] == Entries(ids, b)[j..]
  {
    TailKnown(ids, rule, a, i);
    TailKnown(ids, rule, b, j);
    var s, t := Entries(ids, a)[i..], Entries(ids, b)[j..];
    ArchiveInjective(ids, s, t);
  }
}
