/** The store engines over one log that changes in place, and runs that mix them with damage from
    outside (`store/wal.py`, `store/rollback.py`, `store/corruption.py`, `store/crash_resume.py`). */
module StoreRuns {
  import opened Text
  import opened Encoding
  import opened Wal
  import opened StoreRecovery

  // The dict that spells an entry
  function Spell(ids: Ids, e: Entry): Value {
    Dict(map[
      "entry_id" := Str(ids.write(e.id)), "sequence" := Int(e.sequence), "op" := Str(e.op),
      "payload" := Dict(map[
        "identity" := Str(e.identity),
        "record" := Dict(map["variant" := Str(e.record.variant), "digest" := Str(e.record.digest),
                             "snapshot_fen" := Str(e.record.snapshot)])]),
      "prior_entry_id" := Str(ids.write(e.prior))])
  }

  lemma SpellReads(ids: Ids, e: Entry)
    requires IdsSound(ids) && !e.id.Foreign? && !e.prior.Foreign?
    ensures IsEntry(Spell(ids, e)) && ReadEntry(ids, Spell(ids, e)) == e
  {
  }

  lemma {:induction false} TipKnown(rule: RecordRule, log: seq<Entry>)
    requires Accepted(rule, log)
    ensures !Tip(log).Foreign?
  {
  }

  function Appended(ids: Ids, log: seq<Value>, req: Request): seq<Value>
    requires AllEntries(log)
  {
    log + [Spell(ids, NextEntry(Entries(ids, log), req))]
  }

  lemma AppendedReplays(ids: Ids, rule: RecordRule, log: seq<Value>, req: Request)
    requires IdsSound(ids) && Replays(ids, rule, log) && RequestOk(rule, req)
    ensures Replays(ids, rule, Appended(ids, log, req))
    ensures Entries(ids, Appended(ids, log, req)) == Entries(ids, log) + [NextEntry(Entries(ids, log), req)]
  {
    var es := Entries(ids, log);
    TipKnown(rule, es);
    SpellReads(ids, NextEntry(es, req));
    assert Appended(ids, log, req)[..|log|] == log;
    AppendAccepted(rule, es, req);
  }

  // ---------- the engines ----------

  datatype Fault =
    | Malformed | CorruptSource | UnknownTarget | UnknownCheckpoint | ExcessiveLoss | Divergent | Rejected

  datatype Outcome<+R> = Done(receipt: R) | Refused(fault: Fault)

  datatype RollbackReceipt = RollbackReceipt(fromHead: Id, toHead: Id, truncated: nat)
  datatype ScanReceipt = ScanReceipt(clean: bool, head: Id, verified: nat, quarantined: nat)
  datatype ResumeReceipt = ResumeReceipt(head: Id, state: State, resumed: nat, discarded: nat)

  class Store {
    var log: seq<Value>

    /** Validates the request, replays the log entry by entry, and adds the dict of the next entry. */
    method Append(ids: Ids, rule: RecordRule, req: Request) returns (ok: bool)
      modifies this
      ensures ok <==> RequestOk(rule, req) && Replays(ids, rule, old(log))
      ensures log == if ok then Appended(ids, old(log), req) else old(log)
      ensures Step(ids, rule, DoAppend(req), old(log), log)
    {
      if !RequestOk(rule, req) { return false; }
      var tip;
      ok, tip := ReplayLog(ids, rule, log);
      if !ok { return; }
      var n := |log| + 1;
      var id := DeriveId(n, req.op, Canonical(req.identity, req.record), tip);
      var e := Entry(id, n, req.op, req.identity, req.record, tip);
      log := log + [Spell(ids, e)];
    }

    /** `answer` is what the untrusted archiver returned: nothing but the archive token commits. */
    method Rollback(ids: Ids, rule: RecordRule, target: int, answer: Option<string>)
      returns (r: Outcome<RollbackReceipt>)
      modifies this
      ensures r == Refused(CorruptSource) <==> !Replays(ids, rule, old(log))
      ensures r == Refused(UnknownTarget) <==> Replays(ids, rule, old(log)) && !(0 <= target <= |old(log)|)
      ensures r.Refused? ==> log == old(log)
      ensures r.Done? ==>
        && log == old(log)[..target] && r.receipt.truncated == |old(log)| - target
        && r.receipt.fromHead == Tip(Entries(ids, old(log))) && r.receipt.toHead == Tip(Entries(ids, log))
        && answer == Some(ArchiveTail(ids, Entries(ids, old(log))[target..]))
      ensures r == Refused(Divergent) ==> answer != Some(ArchiveTail(ids, Entries(ids, old(log))[target..]))
      ensures r.Refused? ==> r.fault in {CorruptSource, UnknownTarget, Divergent}
      ensures target >= 0 ==> Step(ids, rule, DoRollback(target), old(log), log)
    {
      if !Replays(ids, rule, log) { return Refused(CorruptSource); }
      if target < 0 || target > |log| { return Refused(UnknownTarget); }
      var frozen := Entries(ids, log);
      if answer != Some(ArchiveTail(ids, frozen[target..])) { return Refused(Divergent); }
      EntriesPrefix(ids, log, target);
      r := Done(RollbackReceipt(Tip(frozen), Tip(frozen[..target]), |frozen| - target));
      log := log[..target];
    }

    /** Salvages the longest verified prefix, or leaves the log alone; each outcome has its exact condition. */
    method Scan(ids: Ids, rule: RecordRule, maxLoss: int, answer: Option<Bytes>)
      returns (r: Outcome<ScanReceipt>, ghost k: nat)
      modifies this
      ensures IsLongest(ids, rule, old(log), k)
      ensures r == Refused(Malformed) <==> maxLoss < 0 || !InDomain(List(old(log)), 1)
      ensures r == Refused(ExcessiveLoss) <==> 0 <= maxLoss < |old(log)| - k && InDomain(List(old(log)), 1)
      ensures r.Done? <==>
        && maxLoss >= 0 && InDomain(List(old(log)), 1)
        && (k == |old(log)| || (|old(log)| - k <= maxLoss && answer == Some(QuarantineSuffix(old(log)[k..]))))
      ensures r.Refused? ==> log == old(log) && r.fault in {Malformed, ExcessiveLoss, Divergent}
      ensures r.Done? ==>
                && log == old(log)[..k]
                && r.receipt == ScanReceipt(k == |old(log)|, Tip(Entries(ids, log)), k, |old(log)| - k)
      ensures Step(ids, rule, DoScan, old(log), log)
    {
      var count, head := VerifiedPrefix(ids, rule, log);
      k := count;
      PrefixSteps(ids, rule, log, k, 0);
      var inside, bytes := EncodeValue(List(log), 1);
      if maxLoss < 0 || !inside { return Refused(Malformed), k; }
      if count == |log| {
        assert log[..k] == log;
        return Done(ScanReceipt(true, head, count, 0)), k;
      }
      if |log| - count > maxLoss { return Refused(ExcessiveLoss), k; }
      if answer != Some(QuarantineSuffix(log[count..])) { return Refused(Divergent), k; }
      r := Done(ScanReceipt(false, head, count, |log| - count));
      log := log[..count];
    }

    /** Drops the torn tail, never an entry at or before the checkpoint; each outcome has its exact condition. */
    method Resume(ids: Ids, rule: RecordRule, checkpoint: int, answer: Option<string>)
      returns (r: Outcome<ResumeReceipt>, ghost k: nat)
      requires |Dec(|log|)| <= MAX_INT_DIGITS
      modifies this
      ensures IsLongest(ids, rule, old(log), k)
      ensures r == Refused(UnknownCheckpoint) <==> checkpoint < 0
      ensures r == Refused(CorruptSource) <==> checkpoint > k
      ensures r == Refused(Malformed) <==> 0 <= checkpoint <= k && !AllAdmissible(old(log)[k..])
      ensures r.Done? <==>
        0 <= checkpoint <= k && AllAdmissible(old(log)[k..]) && answer == Some(QuarantineTail(old(log)[k..]))
      ensures r.Refused? ==> log == old(log) && r.fault in {UnknownCheckpoint, CorruptSource, Malformed, Divergent}
      ensures r.Done? ==> log == old(log)[..k]
      ensures r.Done? ==> r.receipt == ResumeReceipt(Tip(Entries(ids, log)), Fold(Entries(ids, log)), k, |old(log)| - k)
      ensures checkpoint >= 0 ==> Step(ids, rule, DoResume(checkpoint), old(log), log)
    {
      var length := ValidPrefixLength(ids, rule, log);
      k := length;
      PrefixSteps(ids, rule, log, k, if checkpoint < 0 then 0 else checkpoint);
      if checkpoint < 0 { return Refused(UnknownCheckpoint), k; }
      if checkpoint > |log| { return Refused(CorruptSource), k; }
      if length < checkpoint { return Refused(CorruptSource), k; }
      var tail := log[length..];
      if !AllAdmissible(tail) { return Refused(Malformed), k; }
      if answer != Some(QuarantineTail(tail)) { return Refused(Divergent), k; }
      var entries := Entries(ids, log[..length]);
      r := Done(ResumeReceipt(Tip(entries), Fold(entries), length, |log| - length));
      log := log[..length];
    }
  }

  // The linked replay, entry by entry
  method ReplayLog(ids: Ids, rule: RecordRule, log: seq<Value>) returns (ok: bool, tip: Id)
    ensures ok <==> Replays(ids, rule, log)
    ensures ok ==> tip == Tip(Entries(ids, log))
  {
    tip := Genesis;
    for n := 0 to |log|
      invariant Replays(ids, rule, log[..n]) && tip == Tip(Entries(ids, log[..n]))
    {
      NextReplays(ids, rule, log, n);
      if !Follows(ids, rule, log[n], n, tip) {
        FailsWhole(ids, rule, log, n + 1);
        return false, tip;
      }
      tip := ReadEntry(ids, log[n]).id;
    }
    assert log[..|log|] == log;
    ok := true;
  }

  lemma FailsWhole(ids: Ids, rule: RecordRule, log: seq<Value>, n: nat)
    requires n <= |log| && !Replays(ids, rule, log[..n])
    ensures !Replays(ids, rule, log)
  {
    FailsAbove(ids, rule, log, n, |log|);
    assert log[..|log|] == log;
  }

  // The entry behind a prefix that replays may stand there.
  predicate Follows(ids: Ids, rule: RecordRule, v: Value, n: nat, tip: Id) {
    IsEntry(v) && EntryOk(rule, ReadEntry(ids, v), n + 1, tip) && Rederives(ReadEntry(ids, v))
  }

  lemma NextReplays(ids: Ids, rule: RecordRule, log: seq<Value>, n: nat)
    requires n < |log| && Replays(ids, rule, log[..n])
    ensures Follows(ids, rule, log[n], n, Tip(Entries(ids, log[..n]))) <==> Replays(ids, rule, log[..n + 1])
    ensures Replays(ids, rule, log[..n + 1]) ==> Tip(Entries(ids, log[..n + 1])) == ReadEntry(ids, log[n]).id
  {
    if IsEntry(log[n]) {
      EntriesNext(ids, log, n);
      AcceptedNext(rule, Entries(ids, log[..n]), ReadEntry(ids, log[n]));
    } else {
      assert log[..n + 1][n] == log[n];
    }
  }

  lemma EntriesNext(ids: Ids, log: seq<Value>, n: nat)
    requires n < |log| && AllEntries(log[..n]) && IsEntry(log[n])
    ensures AllEntries(log[..n + 1]) && Entries(ids, log[..n + 1]) == Entries(ids, log[..n]) + [ReadEntry(ids, log[n])]
  {
    assert log[..n + 1][..n] == log[..n];
  }

  lemma AcceptedNext(rule: RecordRule, es: seq<Entry>, e: Entry)
    requires Accepted(rule, es)
    ensures Accepted(rule, es + [e]) <==> EntryOk(rule, e, |es| + 1, Tip(es)) && Rederives(e)
    ensures Tip(es + [e]) == e.id
  {
    assert (es + [e])[..|es|] == es;
  }

  // ---------- runs ----------

  datatype Act = DoAppend(req: Request)
               | DoRollback(target: nat)
               | DoScan
               | DoResume(checkpoint: nat)
               | Damage(keep: nat, tail: seq<Value>)

  /** What one act may do to the log: nothing, or its one effect. */
  ghost predicate Step(ids: Ids, rule: RecordRule, act: Act, log: seq<Value>, next: seq<Value>) {
    next == log ||
    match act
    case DoAppend(req) => RequestOk(rule, req) && Replays(ids, rule, log) && next == Appended(ids, log, req)
    case DoRollback(target) => Replays(ids, rule, log) && target <= |log| && next == log[..target]
    case DoScan => exists k: nat :: IsLongest(ids, rule, log, k) && next == log[..k]
    case DoResume(c) => exists k: nat :: IsLongest(ids, rule, log, k) && c <= k && next == log[..k]
    case Damage(keep, tail) => keep <= |log| && next == log[..keep] + tail
  }

  // What a scan and a resume do are steps.
  lemma PrefixSteps(ids: Ids, rule: RecordRule, log: seq<Value>, k: nat, checkpoint: nat)
    requires IsLongest(ids, rule, log, k)
    ensures Step(ids, rule, DoScan, log, log[..k])
    ensures checkpoint <= k ==> Step(ids, rule, DoResume(checkpoint), log, log[..k])
  {
  }

  predicate ActSpares(act: Act, c: nat) {
    (act.Damage? ==> act.keep >= c) && (act.DoRollback? ==> act.target >= c)
  }

  datatype Run = Begin(start: seq<Value>) | Then(run: Run, act: Act, next: seq<Value>) {
    function Log(): seq<Value> { if Begin? then start else next }

    ghost predicate Valid(ids: Ids, rule: RecordRule) {
      Then? ==> run.Valid(ids, rule) && Step(ids, rule, act, run.Log(), next)
    }

    // No damage, and no rollback, before entry `c`
    predicate Spares(c: nat) {
      Then? ==> run.Spares(c) && ActSpares(act, c)
    }

    predicate Undamaged() { Then? ==> run.Undamaged() && !act.Damage? }
  }

  lemma SalvageReplays(ids: Ids, rule: RecordRule, log: seq<Value>, k: nat)
    requires IsLongest(ids, rule, log, k)
    ensures Replays(ids, rule, log[..k]) && IsLongest(ids, rule, log[..k], k)
  {
    assert log[..k][..k] == log[..k];
  }

  /** Without damage from outside, every log of a run replays. */
  lemma {:induction false} UndamagedReplays(ids: Ids, rule: RecordRule, run: Run)
    requires IdsSound(ids) && run.Valid(ids, rule) && run.Undamaged()
    requires Replays(ids, rule, BeginningOf(run))
    ensures Replays(ids, rule, run.Log())
  {
    if run.Then? {
      UndamagedReplays(ids, rule, run.run);
      var log := run.run.Log();
      match run.act
      case DoAppend(req) =>
        if RequestOk(rule, req) { AppendedReplays(ids, rule, log, req); }
      case DoRollback(target) =>
        if target <= |log| { PrefixReplays(ids, rule, log, target); }
      case _ =>
    }
  }

  function BeginningOf(run: Run): seq<Value> { if run.Begin? then run.start else BeginningOf(run.run) }

  // Entries are durable when they replay and stand first in the log.
  ghost predicate Durable(ids: Ids, rule: RecordRule, kept: seq<Value>, log: seq<Value>) {
    kept <= log && Replays(ids, rule, kept)
  }

  lemma LongestReaches(ids: Ids, rule: RecordRule, kept: seq<Value>, log: seq<Value>, k: nat)
    requires Durable(ids, rule, kept, log) && IsLongest(ids, rule, log, k)
    ensures |kept| <= k && kept <= log[..k]
  {
    assert log[..|kept|] == kept;
  }

  lemma StepKeeps(ids: Ids, rule: RecordRule, kept: seq<Value>, act: Act, log: seq<Value>, next: seq<Value>)
    requires Durable(ids, rule, kept, log) && Step(ids, rule, act, log, next) && ActSpares(act, |kept|)
    ensures Durable(ids, rule, kept, next)
  {
    if next != log {
      match act
      case DoScan =>
        var k: nat :| IsLongest(ids, rule, log, k) && next == log[..k];
        LongestReaches(ids, rule, kept, log, k);
      case DoResume(c) =>
        var k: nat :| IsLongest(ids, rule, log, k) && c <= k && next == log[..k];
        LongestReaches(ids, rule, kept, log, k);
      case DoAppend(req) => PrefixOfSum(kept, log, [Spell(ids, NextEntry(Entries(ids, log), req))]);
      case DoRollback(target) => PrefixOfPrefix(kept, log, target);
      case Damage(keep, tail) =>
        PrefixOfPrefix(kept, log, keep);
        PrefixOfSum(kept, log[..keep], tail);
    }
  }

  lemma PrefixOfSum(kept: seq<Value>, log: seq<Value>, tail: seq<Value>)
    requires kept <= log
    ensures kept <= log + tail
  {
  }

  lemma PrefixOfPrefix(kept: seq<Value>, log: seq<Value>, k: nat)
    requires kept <= log && |kept| <= k <= |log|
    ensures kept <= log[..k]
  {
  }

  /** Over any run, damage included, entries that damage and rollback spare are never lost: append,
      scan and resume keep them in place whatever has happened behind them. */
  lemma {:induction false} AcknowledgedSurvive(ids: Ids, rule: RecordRule, kept: seq<Value>, run: Run)
    requires run.Valid(ids, rule) && run.Spares(|kept|) && Durable(ids, rule, kept, BeginningOf(run))
    ensures Durable(ids, rule, kept, run.Log())
  {
    if run.Then? {
      AcknowledgedSurvive(ids, rule, kept, run.run);
      StepKeeps(ids, rule, kept, run.act, run.run.Log(), run.next);
    }
  }

  /** A resume whose checkpoint counts only entries that survive is never refused as corrupt. */
  lemma CheckpointHonoured(ids: Ids, rule: RecordRule, kept: seq<Value>, run: Run, k: nat)
    requires run.Valid(ids, rule) && run.Spares(|kept|) && Durable(ids, rule, kept, BeginningOf(run))
    requires IsLongest(ids, rule, run.Log(), k)
    ensures |kept| <= k && kept <= run.Log()[..k]
  {
    AcknowledgedSurvive(ids, rule, kept, run);
    LongestReaches(ids, rule, kept, run.Log(), k);
  }

  lemma LongestAgain(ids: Ids, rule: RecordRule, log: seq<Value>, k: nat, j: nat)
    requires IsLongest(ids, rule, log, k) && IsLongest(ids, rule, log[..k], j)
    ensures j == k && log[..k][..j] == log[..k] && log[..k][k..] == []
  {
    SalvageReplays(ids, rule, log, k);
    LongestUnique(ids, rule, log[..k], j, k);
  }

  // A resume of a log that is a longest prefix, with the honest token of no tail
  method ResumeIdle(store: Store, ids: Ids, rule: RecordRule, checkpoint: nat, ghost was: seq<Value>, k: nat)
    returns (r: Outcome<ResumeReceipt>)
    requires |Dec(|store.log|)| <= MAX_INT_DIGITS && IsLongest(ids, rule, was, k) && store.log == was[..k]
    requires checkpoint <= k
    modifies store
    ensures store.log == old(store.log)
    ensures r == Done(ResumeReceipt(Tip(Entries(ids, store.log)), Fold(Entries(ids, store.log)), k, 0))
  {
    ghost var kept, j := store.log, 0;
    r, j := store.Resume(ids, rule, checkpoint, Some(QuarantineTail([])));
    LongestAgain(ids, rule, was, k, j);
    assert kept[j..] == [] && kept[..j] == kept;
  }

  /** A resume that went through, and then another under the same checkpoint and the honest token of no tail:
      the second goes through, discards nothing, and answers with the same head and state. */
  method ResumeAgain(store: Store, ids: Ids, rule: RecordRule, checkpoint: int, answer: Option<string>)
    returns (first: Outcome<ResumeReceipt>, second: Outcome<ResumeReceipt>)
    requires |Dec(|store.log|)| <= MAX_INT_DIGITS
    modifies store
    ensures first.Done? ==> second == Done(first.receipt.(discarded := 0))
    ensures first.Done? ==>
              first.receipt.resumed <= |old(store.log)| && store.log == old(store.log)[..first.receipt.resumed]
    ensures first.Refused? ==> second == first && store.log == old(store.log)
  {
    ghost var k;
    first, k := store.Resume(ids, rule, checkpoint, answer);
    if first.Refused? { return first, first; }
    DecMonotone(|store.log|, |old(store.log)|);
    second := ResumeIdle(store, ids, rule, checkpoint, old(store.log), first.receipt.resumed);
  }

  lemma DomainPrefix(log: seq<Value>, k: nat)
    requires InDomain(List(log), 1) && k <= |log|
    ensures InDomain(List(log[..k]), 1)
  {
  }

  // A scan of a log that is a longest prefix
  method ScanClean(store: Store, ids: Ids, rule: RecordRule, maxLoss: int, answer: Option<Bytes>,
                   ghost was: seq<Value>, k: nat)
    returns (r: Outcome<ScanReceipt>)
    requires maxLoss >= 0 && InDomain(List(store.log), 1) && IsLongest(ids, rule, was, k) && store.log == was[..k]
    modifies store
    ensures store.log == old(store.log)
    ensures r == Done(ScanReceipt(true, Tip(Entries(ids, store.log)), k, 0))
  {
    ghost var kept, j := store.log, 0;
    r, j := store.Scan(ids, rule, maxLoss, answer);
    LongestAgain(ids, rule, was, k, j);
    assert kept[..j] == kept;
  }

  /** A scan that went through leaves a log that scans clean, whatever is answered then. */
  method ScanAgain(store: Store, ids: Ids, rule: RecordRule, maxLoss: int, answer: Option<Bytes>, again: Option<Bytes>)
    returns (first: Outcome<ScanReceipt>, second: Outcome<ScanReceipt>)
    modifies store
    ensures first.Done? ==> second == Done(first.receipt.(clean := true, quarantined := 0))
    ensures first.Done? ==>
              first.receipt.verified <= |old(store.log)| && store.log == old(store.log)[..first.receipt.verified]
    ensures first.Refused? ==> second == first && store.log == old(store.log)
  {
    ghost var k;
    first, k := store.Scan(ids, rule, maxLoss, answer);
    if first.Refused? { return first, first; }
    DomainPrefix(old(store.log), k);
    second := ScanClean(store, ids, rule, maxLoss, again, old(store.log), first.receipt.verified);
  }

  // ---------- rolled-back operations appended again ----------

  function AppendEach(log: seq<Entry>, tail: seq<Entry>): seq<Entry>
    decreases |tail|
  {
    if tail == [] then log else AppendEach(log + [NextEntry(log, RequestOf(tail[0]))], tail[1..])
  }

  lemma LastIsNext(rule: RecordRule, log: seq<Entry>)
    requires Accepted(rule, log) && log != []
    ensures var init := log[..|log| - 1]; init + [NextEntry(init, RequestOf(log[|log| - 1]))] == log
  {
    AcceptedIsAppended(rule, log);
  }

  lemma NextIsThere(rule: RecordRule, log: seq<Entry>, n: nat)
    requires Accepted(rule, log) && n < |log|
    ensures log[..n] + [NextEntry(log[..n], RequestOf(log[n]))] == log[..n + 1]
  {
    var more := log[..n + 1];
    PrefixAccepted(rule, log, n + 1);
    LastIsNext(rule, more);
    assert more[..n] == log[..n] && more[n] == log[n];
  }

  lemma {:induction false} RebuildsAll(log: seq<Entry>, tail: seq<Entry>)
    requires forall n :: |log| <= n < |log + tail| ==> Continues(log + tail, n)
    ensures AppendEach(log, tail) == log + tail
    decreases |tail|
  {
    if tail != [] {
      assert Continues(log + tail, |log|);
      var more := log + [tail[0]];
      assert more + tail[1..] == log + tail;
      assert (log + tail)[..|log|] == log && (log + tail)[..|log| + 1] == more;
      RebuildsAll(more, tail[1..]);
    }
  }

  // What the request of entry `n` calls for is that entry.
  predicate Continues(log: seq<Entry>, n: nat)
    requires n < |log|
  {
    log[..n] + [NextEntry(log[..n], RequestOf(log[n]))] == log[..n + 1]
  }

  /** Appending the requests of a removed tail again rebuilds the very same entries. */
  lemma ReappendRebuilds(rule: RecordRule, log: seq<Entry>, target: nat)
    requires Accepted(rule, log) && target <= |log|
    ensures AppendEach(log[..target], log[target..]) == log
  {
    assert log[..target] + log[target..] == log;
    forall n | target <= n < |log| ensures Continues(log, n) { NextIsThere(rule, log, n); }
    RebuildsAll(log[..target], log[target..]);
  }
}
