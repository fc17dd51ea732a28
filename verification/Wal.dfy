/** The write-ahead log on values (`store/wal.py`): which logs replay accepts under the trusted
    payload canonicalizer, and what they rebuild. */
module Wal {
  import opened Text

  datatype Option<+T> = None | Some(value: T)

  datatype Record = Record(variant: string, digest: string, snapshot: string)

  // The identity of an exact node record, or nothing for an invalid one
  type RecordRule = Record -> Option<string>

  /** A digest is known only as the hash of what it was derived from; `Foreign` is any other text,
      of the digest grammar or not. */
  datatype Id =
    | Genesis
    | Sha(sequence: int, op: string, canonical: string, prior: Id)
    | Foreign(text: string, wellFormed: bool)

  datatype Entry = Entry(id: Id, sequence: int, op: string, identity: string, record: Record, prior: Id)

  datatype Request = Request(op: string, identity: string, record: Record)

  datatype Failure = MalformedEntry | UnknownOperation | SequenceConflict | CorruptChain | DivergentCanonicalization

  predicate Registered(op: string) { op == "put" || op == "delete" }

  predicate EntryIdOk(id: Id) { id.Sha? || (id.Foreign? && id.wellFormed) }

  predicate PriorIdOk(id: Id) { id.Genesis? || EntryIdOk(id) }

  // The honest payload canonicalizer
  function Canonical(identity: string, record: Record): string {
    identity + "\n" + record.variant + "\n" + record.digest + "\n" + record.snapshot
  }

  function DeriveId(sequence: int, op: string, canonical: string, prior: Id): Id {
    Sha(sequence, op, canonical, prior)
  }

  function Tip(log: seq<Entry>): Id { if log == [] then Genesis else log[|log| - 1].id }

  function EntryFault(rule: RecordRule, e: Entry, position: nat, tip: Id): Option<Failure> {
    if !Registered(e.op) then Some(UnknownOperation)
    else if e.sequence != position then Some(SequenceConflict)
    else if !EntryIdOk(e.id) || !PriorIdOk(e.prior) then Some(MalformedEntry)
    else if e.prior != tip then Some(CorruptChain)
    else if rule(e.record) != Some(e.identity) then Some(MalformedEntry)
    else None
  }

  predicate EntryOk(rule: RecordRule, e: Entry, position: nat, tip: Id) {
    EntryFault(rule, e, position, tip).None?
  }

  predicate Rederives(e: Entry) {
    e.id == DeriveId(e.sequence, e.op, Canonical(e.identity, e.record), e.prior)
  }

  /** The logs that replay accepts: every entry valid, numbered, linked and re-derived. */
  predicate Accepted(rule: RecordRule, log: seq<Entry>) {
    log == [] ||
    (var prefix, e := log[..|log| - 1], log[|log| - 1];
     Accepted(rule, prefix) && EntryOk(rule, e, |log|, Tip(prefix)) && Rederives(e))
  }

  // Valid and linked, whatever the canonicalizer says
  predicate Linked(rule: RecordRule, log: seq<Entry>) {
    log == [] ||
    (var prefix, e := log[..|log| - 1], log[|log| - 1];
     Linked(rule, prefix) && EntryOk(rule, e, |log|, Tip(prefix)))
  }

  lemma LinkedMore(rule: RecordRule, log: seq<Entry>, e: Entry)
    requires Linked(rule, log) && EntryOk(rule, e, |log| + 1, Tip(log))
    ensures Linked(rule, log + [e]) && Tip(log + [e]) == e.id
  {
    assert (log + [e])[..|log|] == log;
  }

  type State = map<string, Record>

  function Fold(log: seq<Entry>): State {
    if log == [] then map[]
    else
      var e, s := log[|log| - 1], Fold(log[..|log| - 1]);
      if e.op == "put" then s[e.identity := e.record] else s - {e.identity}
  }

  // Entry `n` puts the identity, and no later entry is about it.
  ghost predicate LastPut(log: seq<Entry>, identity: string, n: nat) {
    && n < |log| && log[n].identity == identity && log[n].op == "put"
    && forall k :: n < k < |log| ==> log[k].identity != identity
  }

  /** The state holds an identity exactly when the last entry about it puts it, and then with that entry's record. */
  lemma {:induction false} FoldMeans(log: seq<Entry>, identity: string)
    ensures identity in Fold(log) <==> exists n: nat :: LastPut(log, identity, n)
    ensures forall n: nat :: LastPut(log, identity, n) ==> identity in Fold(log) && Fold(log)[identity] == log[n].record
  {
    if log != [] {
      var init, e := log[..|log| - 1], log[|log| - 1];
      FoldMeans(init, identity);
      if e.identity == identity {
        assert e.op == "put" ==> LastPut(log, identity, |init|);
        assert forall n: nat :: LastPut(log, identity, n) ==> n == |init|;
      } else {
        forall n: nat ensures LastPut(log, identity, n) <==> LastPut(init, identity, n) {
          if n < |init| { assert log[n] == init[n]; }
          if LastPut(init, identity, n) {
            forall k | n < k < |log| ensures log[k].identity != identity { if k < |init| { assert log[k] == init[k]; } }
          }
          if LastPut(log, identity, n) {
            forall k | n < k < |init| ensures init[k].identity != identity { assert log[k] == init[k]; }
          }
        }
      }
    }
  }

  // The entry that appending `r` adds
  function NextEntry(log: seq<Entry>, r: Request): Entry {
    Entry(DeriveId(|log| + 1, r.op, Canonical(r.identity, r.record), Tip(log)),
          |log| + 1, r.op, r.identity, r.record, Tip(log))
  }

  predicate RequestOk(rule: RecordRule, r: Request) {
    Registered(r.op) && rule(r.record) == Some(r.identity)
  }

  function RequestOf(e: Entry): Request { Request(e.op, e.identity, e.record) }

  /** A prefix of an accepted log is accepted: an entry is judged against earlier ones only. */
  lemma {:induction false} PrefixAccepted(rule: RecordRule, log: seq<Entry>, k: nat)
    requires Accepted(rule, log) && k <= |log|
    ensures Accepted(rule, log[..k])
  {
    if k < |log| {
      PrefixAccepted(rule, log[..|log| - 1], k);
      assert log[..|log| - 1][..k] == log[..k];
    } else {
      assert log[..k] == log;
    }
  }

  /** Appending a valid request to an accepted log gives an accepted log one entry longer. */
  lemma AppendAccepted(rule: RecordRule, log: seq<Entry>, r: Request)
    requires Accepted(rule, log) && RequestOk(rule, r)
    ensures Accepted(rule, log + [NextEntry(log, r)])
  {
    var more := log + [NextEntry(log, r)];
    assert more[..|more| - 1] == log;
    TipOk(rule, log);
  }

  lemma TipOk(rule: RecordRule, log: seq<Entry>)
    requires Accepted(rule, log)
    ensures PriorIdOk(Tip(log))
  {
  }

  /** An accepted log is what appending its own requests one by one builds. */
  lemma {:induction false} AcceptedIsAppended(rule: RecordRule, log: seq<Entry>)
    requires Accepted(rule, log) && log != []
    ensures log == log[..|log| - 1] + [NextEntry(log[..|log| - 1], RequestOf(log[|log| - 1]))]
    ensures RequestOk(rule, RequestOf(log[|log| - 1]))
  {
  }

  // Valid records hold no line break: variants and digests are tokens and snapshots are FEN texts.
  ghost predicate LineFree(rule: RecordRule) {
    forall r :: rule(r).Some? ==> Free(r.variant, '\n') && Free(r.digest, '\n') && Free(r.snapshot, '\n')
  }

  lemma LastField(a: string, x: string, b: string, y: string)
    requires Free(x, '\n') && Free(y, '\n') && a + "\n" + x == b + "\n" + y
    ensures a == b && x == y
  {
    var s, t := a + "\n" + x, b + "\n" + y;
    assert s[|a|] == '\n' && t[|b|] == '\n';
    forall k | |a| < k < |s| ensures s[k] != '\n' { assert s[k] == x[k - |a| - 1]; }
    forall k | |b| < k < |t| ensures t[k] != '\n' { assert t[k] == y[k - |b| - 1]; }
    assert s[..|a|] == a && t[..|b|] == b;
    assert s[|a| + 1..] == x && t[|b| + 1..] == y;
  }

  lemma CanonicalInjective(i: string, r: Record, j: string, q: Record)
    requires Free(r.variant, '\n') && Free(r.digest, '\n') && Free(r.snapshot, '\n')
    requires Free(q.variant, '\n') && Free(q.digest, '\n') && Free(q.snapshot, '\n')
    requires Canonical(i, r) == Canonical(j, q)
    ensures i == j && r == q
  {
    LastField(i + "\n" + r.variant + "\n" + r.digest, r.snapshot, j + "\n" + q.variant + "\n" + q.digest, q.snapshot);
    LastField(i + "\n" + r.variant, r.digest, j + "\n" + q.variant, q.digest);
    LastField(i, r.variant, j, q.variant);
  }

  /** The head names the whole log: accepted logs with equal heads are equal. */
  lemma {:induction false} HeadDecidesLog(rule: RecordRule, a: seq<Entry>, b: seq<Entry>)
    requires LineFree(rule) && Accepted(rule, a) && Accepted(rule, b) && Tip(a) == Tip(b)
    ensures a == b
  {
    if a != [] && b != [] {
      var x, y := a[|a| - 1], b[|b| - 1];
      CanonicalInjective(x.identity, x.record, y.identity, y.record);
      HeadDecidesLog(rule, a[..|a| - 1], b[..|b| - 1]);
    }
  }
}
