/** `store/wal.py` on the heap: dicts and lists the caller may share and an untrusted canonicalizer
    may rewrite, alias and all, while `append` and `replay` run. */
module WalHeap {
  import opened Wal

  datatype Value = Str(s: string) | Num(n: int) | Digest(id: Id) | Obj(d: Dict) | Arr(l: List) | Other

  class Dict {
    var items: map<string, Value>

    constructor (items: map<string, Value>)
      ensures this.items == items
    {
      this.items := items;
    }
  }

  class List {
    var items: seq<Value>

    constructor (items: seq<Value>)
      ensures this.items == items
    {
      this.items := items;
    }
  }

  // ---------- reading exact entries ----------

  const RECORD_KEYS: set<string> := {"variant", "digest", "snapshot_fen"}
  const PAYLOAD_KEYS: set<string> := {"identity", "record"}
  const ENTRY_KEYS: set<string> := {"entry_id", "sequence", "op", "payload", "prior_entry_id"}
  const REQUEST_KEYS: set<string> := {"op", "payload"}

  predicate IsRecord(m: map<string, Value>) {
    m.Keys == RECORD_KEYS && m["variant"].Str? && m["digest"].Str? && m["snapshot_fen"].Str?
  }

  function RecordIn(m: map<string, Value>): Record
    requires IsRecord(m)
  {
    Record(m["variant"].s, m["digest"].s, m["snapshot_fen"].s)
  }

  predicate IsPayload(m: map<string, Value>) {
    m.Keys == PAYLOAD_KEYS && m["identity"].Str? && m["record"].Obj?
  }

  // `v` is a payload with an exact record
  predicate PayloadShaped(v: Value)
    reads *
  {
    v.Obj? && IsPayload(v.d.items) && IsRecord(v.d.items["record"].d.items)
  }

  predicate EntryShaped(v: Value)
    reads *
  {
    && v.Obj? && v.d.items.Keys == ENTRY_KEYS
    && v.d.items["entry_id"].Digest? && v.d.items["prior_entry_id"].Digest?
    && v.d.items["sequence"].Num? && v.d.items["op"].Str?
    && PayloadShaped(v.d.items["payload"])
  }

  function EntryAt(v: Value): Entry
    requires EntryShaped(v)
    reads *
  {
    var m := v.d.items;
    var p := m["payload"].d.items;
    Entry(m["entry_id"].id, m["sequence"].n, m["op"].s, p["identity"].s, RecordIn(p["record"].d.items),
          m["prior_entry_id"].id)
  }

  predicate RequestShaped(request: Dict)
    reads *
  {
    request.items.Keys == REQUEST_KEYS && request.items["op"].Str? && PayloadShaped(request.items["payload"])
  }

  function RequestAt(request: Dict): Request
    requires RequestShaped(request)
    reads *
  {
    var p := request.items["payload"].d.items;
    Request(request.items["op"].s, p["identity"].s, RecordIn(p["record"].d.items))
  }

  // ---------- validation ----------

  method ValidatePayload(rule: RecordRule, v: Value) returns (ok: bool)
    ensures ok <==> PayloadShaped(v) && rule(RecordIn(v.d.items["record"].d.items)) == Some(v.d.items["identity"].s)
  {
    ok := false;
    if !v.Obj? || !IsPayload(v.d.items) { return; }
    var record := v.d.items["record"].d.items;
    ok := IsRecord(record) && rule(RecordIn(record)) == Some(v.d.items["identity"].s);
  }

  /** The checks that need no canonicalizer, in the order they are made. */
  method ValidateEntry(rule: RecordRule, v: Value, position: nat, tip: Id) returns (fault: Option<Failure>)
    ensures fault.None? ==> EntryShaped(v)
    ensures EntryShaped(v) ==> fault == EntryFault(rule, EntryAt(v), position, tip)
  {
    if !v.Obj? || v.d.items.Keys != ENTRY_KEYS { return Some(MalformedEntry); }
    var m := v.d.items;
    if !m["op"].Str? { return Some(MalformedEntry); }
    if !Registered(m["op"].s) { return Some(UnknownOperation); }
    if !m["sequence"].Num? { return Some(MalformedEntry); }
    if m["sequence"].n != position { return Some(SequenceConflict); }
    if !m["entry_id"].Digest? || !EntryIdOk(m["entry_id"].id) { return Some(MalformedEntry); }
    if !m["prior_entry_id"].Digest? || !PriorIdOk(m["prior_entry_id"].id) { return Some(MalformedEntry); }
    if m["prior_entry_id"].id != tip { return Some(CorruptChain); }
    var ok := ValidatePayload(rule, m["payload"]);
    return if ok then None else Some(MalformedEntry);
  }

  // `items` are dicts that spell the entries of `log`.
  ghost predicate Spells(items: seq<Value>, log: seq<Entry>)
    reads *
    decreases |items|
  {
    |items| == |log| &&
    (items == [] ||
     (var n := |items| - 1;
      Spells(items[..n], log[..n]) && EntryShaped(items[n]) && log[n] == EntryAt(items[n])))
  }

  lemma {:induction false} SpelledAt(items: seq<Value>, log: seq<Entry>, k: nat)
    requires Spells(items, log) && k < |items|
    ensures EntryShaped(items[k]) && log[k] == EntryAt(items[k])
    decreases |items|
  {
    if k < |items| - 1 { SpelledAt(items[..|items| - 1], log[..|items| - 1], k); }
  }

  lemma SpellsMore(items: seq<Value>, k: nat, log: seq<Entry>)
    requires k < |items| && Spells(items[..k], log) && EntryShaped(items[k])
    ensures Spells(items[..k + 1], log + [EntryAt(items[k])])
  {
    assert items[..k + 1][..k] == items[..k];
    assert (log + [EntryAt(items[k])])[..k] == log;
  }

  // A list spells at most one log, and its parts spell the parts.
  lemma {:induction false} SpelledPrefix(items: seq<Value>, log: seq<Entry>, k: nat)
    requires Spells(items, log) && k <= |items|
    ensures Spells(items[..k], log[..k])
    decreases |items|
  {
    if k < |items| {
      SpelledPrefix(items[..|items| - 1], log[..|items| - 1], k);
      assert items[..|items| - 1][..k] == items[..k] && log[..|items| - 1][..k] == log[..k];
    } else {
      assert items[..k] == items && log[..k] == log;
    }
  }

  lemma SpelledOnce(items: seq<Value>, a: seq<Entry>, b: seq<Entry>)
    requires Spells(items, a) && Spells(items, b)
    ensures a == b
  {
    forall k | 0 <= k < |a| ensures a[k] == b[k] {
      SpelledAt(items, a, k);
      SpelledAt(items, b, k);
    }
  }

  lemma {:induction false} LinkedPrefix(rule: RecordRule, log: seq<Entry>, k: nat)
    requires Linked(rule, log) && k <= |log|
    ensures Linked(rule, log[..k])
  {
    if k < |log| {
      LinkedPrefix(rule, log[..|log| - 1], k);
      assert log[..|log| - 1][..k] == log[..k];
    } else {
      assert log[..k] == log;
    }
  }

  // An entry that is at fault where it stands is in no linked log.
  lemma FaultAt(rule: RecordRule, items: seq<Value>, frozen: seq<Entry>, k: nat, es: seq<Entry>)
    requires k < |items| && Spells(items[..k], frozen) && Spells(items, es)
    requires EntryShaped(items[k]) ==> EntryFault(rule, EntryAt(items[k]), k + 1, Tip(frozen)).Some?
    ensures !Linked(rule, es)
  {
    SpelledPrefix(items, es, k);
    SpelledOnce(items[..k], frozen, es[..k]);
    SpelledAt(items, es, k);
    if Linked(rule, es) { LinkedAt(rule, es, k); }
  }

  lemma LinkedAt(rule: RecordRule, log: seq<Entry>, k: nat)
    requires Linked(rule, log) && k < |log|
    ensures EntryFault(rule, log[k], k + 1, Tip(log[..k])).None?
  {
    LinkedPrefix(rule, log, k + 1);
    assert log[..k + 1][..k] == log[..k];
  }

  /** Validation and the frozen copy of a log: it passes exactly when its dicts spell a linked log. */
  method ValidateLog(rule: RecordRule, log: List) returns (fault: Option<Failure>, frozen: seq<Entry>)
    ensures fault.None? ==> Spells(log.items, frozen) && Linked(rule, frozen)
    ensures fault.Some? ==> forall es :: Spells(log.items, es) ==> !Linked(rule, es)
  {
    var tip := Genesis;
    frozen, fault := [], None;
    for k := 0 to |log.items|
      invariant Spells(log.items[..k], frozen) && Linked(rule, frozen) && tip == Tip(frozen) && |frozen| == k
      invariant fault.None?
    {
      fault := ValidateEntry(rule, log.items[k], k + 1, tip);
      if fault.Some? {
        forall es | Spells(log.items, es) ensures !Linked(rule, es) { FaultAt(rule, log.items, frozen, k, es); }
        return;
      }
      var e := EntryAt(log.items[k]);
      SpellsMore(log.items, k, frozen);
      LinkedMore(rule, frozen, e);
      frozen := frozen + [e];
      tip := e.id;
    }
    assert log.items[..|log.items|] == log.items;
  }

  // ---------- snapshot and restore ----------

  datatype Saved = Saved(
    entry: Dict, entryItems: map<string, Value>,
    payload: Dict, payloadItems: map<string, Value>,
    record: Dict, recordItems: map<string, Value>)

  // A dict saved twice, under whatever roles, was saved with the same contents.
  ghost predicate Consistent(saved: seq<Saved>, was: map<Dict, map<string, Value>>) {
    forall s :: s in saved ==>
      && s.entry in was && was[s.entry] == s.entryItems
      && s.payload in was && was[s.payload] == s.payloadItems
      && s.record in was && was[s.record] == s.recordItems
  }

  predicate Back(s: Saved)
    reads s.entry, s.payload, s.record
  {
    s.entry.items == s.entryItems && s.payload.items == s.payloadItems && s.record.items == s.recordItems
  }

  function SaveEntry(v: Value): Saved
    requires EntryShaped(v)
    reads *
  {
    var e := v.d;
    var p := e.items["payload"].d;
    var r := p.items["record"].d;
    Saved(e, e.items, p, p.items, r, r.items)
  }

  method Snapshot(log: List, ghost frozen: seq<Entry>) returns (container: seq<Value>, saved: seq<Saved>)
    requires Spells(log.items, frozen)
    ensures container == log.items && |saved| == |log.items|
    ensures forall k :: 0 <= k < |saved| ==> EntryShaped(log.items[k]) && saved[k] == SaveEntry(log.items[k])
  {
    container, saved := log.items, [];
    for k := 0 to |log.items|
      invariant |saved| == k && forall j :: 0 <= j < k ==>
                  EntryShaped(log.items[j]) && saved[j] == SaveEntry(log.items[j])
    {
      SpelledAt(log.items, frozen, k);
      saved := saved + [SaveEntry(log.items[k])];
    }
  }

  method RestoreOne(s: Saved)
    requires s.entry == s.payload ==> s.entryItems == s.payloadItems
    requires s.entry == s.record ==> s.entryItems == s.recordItems
    requires s.payload == s.record ==> s.payloadItems == s.recordItems
    modifies s.entry, s.payload, s.record
    ensures Back(s)
  {
    s.record.items := s.recordItems;
    s.payload.items := s.payloadItems;
    s.entry.items := s.entryItems;
  }

  /** Puts every saved dict back, whatever has happened to it and however the dicts are shared. */
  method Restore(log: List, container: seq<Value>, saved: seq<Saved>,
                 ghost was: map<Dict, map<string, Value>>, ghost world: set<object>)
    requires Consistent(saved, was) && log in world
    requires forall s :: s in saved ==> s.entry in world && s.payload in world && s.record in world
    modifies world
    ensures log.items == container
    ensures forall s :: s in saved ==> Back(s)
  {
    log.items := container;
    for k := 0 to |saved|
      invariant log.items == container
      invariant forall s :: s in saved[..k] ==> Back(s)
    {
      assert saved[k] in saved;
      RestoreOne(saved[k]);
      assert saved[..k + 1] == saved[..k] + [saved[k]];
    }
    assert saved[..|saved|] == saved;
  }

  // ---------- the engine ----------

  datatype Result<+T> = Ok(value: T) | Fail(failure: Failure)

  // `d` can be reached from `v` through at most `n` dicts.
  ghost predicate Reaches(v: Value, d: Dict, n: nat)
    reads *
    decreases n
  {
    v.Obj? && (d == v.d || (n > 0 && exists k :: k in v.d.items && Reaches(v.d.items[k], d, n - 1)))
  }

  // `d` can be reached from the log, or from the log or the request.
  ghost predicate HeldByLog(items: seq<Value>, d: Dict)
    reads *
  {
    exists n: nat, k :: 0 <= k < |items| && Reaches(items[k], d, n)
  }

  ghost predicate Held(items: seq<Value>, request: Dict, d: Dict)
    reads *
  {
    HeldByLog(items, d) || exists n: nat :: Reaches(Obj(request), d, n)
  }

  // Untrusted code can reach no more than `world`, which holds all that the dicts in it refer to.
  ghost predicate Closed(world: set<object>)
    reads *
  {
    && (forall d: Dict, k :: d in world && k in d.items && d.items[k].Obj? ==> d.items[k].d in world)
    && (forall l: List, k :: l in world && 0 <= k < |l.items| && l.items[k].Obj? ==> l.items[k].d in world)
  }

  lemma RecordReach(record: Dict, d: Dict, n: nat)
    requires IsRecord(record.items) && Reaches(Obj(record), d, n)
    ensures d == record
  {
    assert forall k :: k in record.items ==> record.items[k].Str?;
    assert forall k, m: nat :: k in record.items ==> !Reaches(record.items[k], d, m);
  }

  lemma PayloadReach(v: Value, d: Dict, n: nat)
    requires PayloadShaped(v) && Reaches(v, d, n)
    ensures d == v.d || d == v.d.items["record"].d
  {
    if d != v.d {
      var k :| k in v.d.items && Reaches(v.d.items[k], d, n - 1);
      RecordReach(v.d.items["record"].d, d, n - 1);
    }
  }

  lemma EntryReach(v: Value, d: Dict, n: nat)
    requires EntryShaped(v) && Reaches(v, d, n)
    ensures d == SaveEntry(v).entry || d == SaveEntry(v).payload || d == SaveEntry(v).record
  {
    if d != v.d {
      var k :| k in v.d.items && Reaches(v.d.items[k], d, n - 1);
      assert k == "payload";
      PayloadReach(v.d.items[k], d, n - 1);
    }
  }

  function SaveRequest(request: Dict): Saved
    requires RequestShaped(request)
    reads *
  {
    var p := request.items["payload"].d;
    var r := p.items["record"].d;
    Saved(request, request.items, p, p.items, r, r.items)
  }

  lemma RequestReach(request: Dict, d: Dict, n: nat)
    requires RequestShaped(request) && Reaches(Obj(request), d, n)
    ensures var s := SaveRequest(request); d == s.entry || d == s.payload || d == s.record
  {
    if d != request {
      var k :| k in request.items && Reaches(request.items[k], d, n - 1);
      assert k == "payload";
      PayloadReach(request.items[k], d, n - 1);
    }
  }

  // What the untrusted canonicalizer answers to its calls, one after the other, if it answers
  type Answers = nat -> Option<string>

  // Call `n` of the untrusted canonicalizer: it may rewrite anything it can reach, refuse, or answer.
  method Canonicalize(answers: Answers, n: nat, ghost world: set<object>) returns (out: Option<string>)
    modifies world
    ensures out == answers(n)
  {
    modify world;
    out := answers(n);
  }

  // What an answer makes of the entry it was asked for
  function AnswerFault(e: Entry, answer: Option<string>): Option<Failure> {
    if answer.None? then Some(DivergentCanonicalization)
    else if DeriveId(e.sequence, e.op, answer.value, e.prior) != e.id then Some(CorruptChain)
    else None
  }

  // Each entry of the log re-derives from its answer.
  ghost predicate Rederived(frozen: seq<Entry>, answers: Answers) {
    forall k :: 0 <= k < |frozen| ==> AnswerFault(frozen[k], answers(k)).None?
  }

  // The first entry that does not re-derive, and why
  ghost predicate FailsAt(frozen: seq<Entry>, answers: Answers, k: nat, failure: Failure) {
    k < |frozen| && Rederived(frozen[..k], answers) && AnswerFault(frozen[k], answers(k)) == Some(failure)
  }

  /** One call per entry; the first answer that is refused or does not give the entry's id decides. */
  method Rederive(frozen: seq<Entry>, answers: Answers, ghost world: set<object>) returns (r: Result<Id>)
    modifies world
    ensures r.Ok? <==> Rederived(frozen, answers)
    ensures r.Ok? ==> r.value == Tip(frozen)
    ensures r.Fail? ==> exists k: nat :: FailsAt(frozen, answers, k, r.failure)
  {
    var tip := Genesis;
    for k := 0 to |frozen|
      invariant tip == Tip(frozen[..k]) && Rederived(frozen[..k], answers)
    {
      var out := Canonicalize(answers, k, world);
      if out.None? {
        assert FailsAt(frozen, answers, k, DivergentCanonicalization);
        return Fail(DivergentCanonicalization);
      }
      if DeriveId(frozen[k].sequence, frozen[k].op, out.value, frozen[k].prior) != frozen[k].id {
        assert FailsAt(frozen, answers, k, CorruptChain);
        return Fail(CorruptChain);
      }
      tip := frozen[k].id;
    }
    assert frozen[..|frozen|] == frozen;
    r := Ok(tip);
  }

  method ValidateRequest(rule: RecordRule, request: Dict) returns (fault: Option<Failure>)
    ensures fault.None? <==> RequestShaped(request) && RequestOk(rule, RequestAt(request))
  {
    var m := request.items;
    if m.Keys != REQUEST_KEYS || !m["op"].Str? { return Some(MalformedEntry); }
    if !Registered(m["op"].s) { return Some(UnknownOperation); }
    var ok := ValidatePayload(rule, m["payload"]);
    return if ok then None else Some(MalformedEntry);
  }

  // All entries re-derive, and the request is answered too.
  ghost predicate Stageable(frozen: seq<Entry>, answers: Answers) {
    Rederived(frozen, answers) && answers(|frozen|).Some?
  }

  // The next entry, from the last answer
  function StagedEntry(frozen: seq<Entry>, req: Request, answers: Answers): Entry
    requires answers(|frozen|).Some?
  {
    Entry(DeriveId(|frozen| + 1, req.op, answers(|frozen|).value, Tip(frozen)), |frozen| + 1,
          req.op, req.identity, req.record, Tip(frozen))
  }

  // The part of `append` that runs untrusted code: it works on frozen values only.
  method Stage(frozen: seq<Entry>, req: Request, answers: Answers, ghost world: set<object>) returns (r: Result<Entry>)
    modifies world
    ensures r.Ok? <==> Stageable(frozen, answers)
    ensures r.Ok? ==> r.value == StagedEntry(frozen, req, answers)
    ensures r.Fail? && Rederived(frozen, answers) ==> r.failure == DivergentCanonicalization
  {
    var tip := Rederive(frozen, answers, world);
    if tip.Fail? { return Fail(tip.failure); }
    var out := Canonicalize(answers, |frozen|, world);
    if out.None? { return Fail(DivergentCanonicalization); }
    var n := |frozen| + 1;
    r := Ok(Entry(DeriveId(n, req.op, out.value, tip.value), n, req.op, req.identity, req.record, tip.value));
  }

  // A fresh dict that spells `e`, sharing nothing
  method NewEntry(e: Entry) returns (v: Value)
    ensures EntryShaped(v) && EntryAt(v) == e
    ensures fresh(v.d) && fresh(SaveEntry(v).payload) && fresh(SaveEntry(v).record)
  {
    var record := new Dict(map["variant" := Str(e.record.variant), "digest" := Str(e.record.digest),
                               "snapshot_fen" := Str(e.record.snapshot)]);
    var payload := new Dict(map["identity" := Str(e.identity), "record" := Obj(record)]);
    var entry := new Dict(map["entry_id" := Digest(e.id), "sequence" := Num(e.sequence), "op" := Str(e.op),
                              "payload" := Obj(payload), "prior_entry_id" := Digest(e.prior)]);
    v := Obj(entry);
  }

  // One of the dicts that were saved
  ghost predicate Among(all: seq<Saved>, d: Dict) {
    exists s :: s in all && (d == s.entry || d == s.payload || d == s.record)
  }

  // The snapshot of a log that `append` and `replay` take before they call the canonicalizer
  method SaveLog(log: List, frozen: seq<Entry>, ghost world: set<object>)
    returns (container: seq<Value>, saved: seq<Saved>)
    requires log in world && Closed(world) && Spells(log.items, frozen)
    ensures container == log.items
    ensures forall s :: s in saved ==> s.entry in world && s.payload in world && s.record in world && Back(s)
    ensures forall d: Dict :: HeldByLog(log.items, d) ==> Among(saved, d)
  {
    container, saved := Snapshot(log, frozen);
    forall s | s in saved ensures s.entry in world && s.payload in world && s.record in world && Back(s) {
      var k :| 0 <= k < |saved| && saved[k] == s;
      assert s == SaveEntry(log.items[k]);
    }
    forall d: Dict | HeldByLog(log.items, d) ensures Among(saved, d) {
      var n: nat, k :| 0 <= k < |log.items| && Reaches(log.items[k], d, n);
      EntryReach(log.items[k], d, n);
      assert saved[k] in saved;
    }
  }

  lemma HeldIsSaved(items: seq<Value>, request: Dict, saved: seq<Saved>, d: Dict)
    requires RequestShaped(request) && Held(items, request, d)
    requires HeldByLog(items, d) ==> Among(saved, d)
    ensures Among(saved + [SaveRequest(request)], d)
  {
    var all := saved + [SaveRequest(request)];
    if HeldByLog(items, d) {
      var s :| s in saved && (d == s.entry || d == s.payload || d == s.record);
      assert s in all;
    } else {
      var n: nat :| Reaches(Obj(request), d, n);
      RequestReach(request, d, n);
      assert all[|saved|] in all;
    }
  }

  /** The guarded region: untrusted code runs between a snapshot and its restoration. */
  method Guarded(log: List, request: Dict, frozen: seq<Entry>, answers: Answers, ghost world: set<object>)
    returns (r: Result<Entry>)
    requires log in world && request in world && Closed(world)
    requires Spells(log.items, frozen) && RequestShaped(request)
    modifies world
    ensures log.items == old(log.items)
    ensures forall d: Dict :: old(allocated(d)) && old(Held(log.items, request, d)) ==> d.items == old(d.items)
    ensures r.Ok? <==> Stageable(frozen, answers)
    ensures r.Ok? ==> r.value == StagedEntry(frozen, old(RequestAt(request)), answers)
  {
    var req := RequestAt(request);
    var container, saved := SaveLog(log, frozen, world);
    var all := saved + [SaveRequest(request)];
    ghost var was := map d: Dict | d in world :: d.items;
    assert forall s :: s in all ==> s.entry in world && s.payload in world && s.record in world && Back(s);
    forall d: Dict | Held(log.items, request, d) ensures Among(all, d) { HeldIsSaved(log.items, request, saved, d); }
    r := Stage(frozen, req, answers, world);
    Restore(log, container, all, was, world);
    forall d: Dict | old(allocated(d)) && Among(all, d) ensures d.items == old(d.items) {
      var s :| s in all && (d == s.entry || d == s.payload || d == s.record);
      assert Back(s) && old(Back(s));
    }
  }

  // The list spells a linked log whose entries all re-derive.
  ghost predicate Replayable(rule: RecordRule, items: seq<Value>, answers: Answers)
    reads *
  {
    exists es :: Spells(items, es) && Linked(rule, es) && Rederived(es, answers)
  }

  // The request is valid, and the list spells a linked log that can be staged on.
  ghost predicate Appendable(rule: RecordRule, items: seq<Value>, request: Dict, answers: Answers)
    reads *
  {
    && RequestShaped(request) && RequestOk(rule, RequestAt(request))
    && exists es :: Spells(items, es) && Linked(rule, es) && Stageable(es, answers)
  }

  // The log that a list spells decides both.
  lemma ReplaysFrozen(rule: RecordRule, items: seq<Value>, frozen: seq<Entry>, answers: Answers)
    requires Spells(items, frozen) && Linked(rule, frozen)
    ensures Replayable(rule, items, answers) <==> Rederived(frozen, answers)
  {
    if es :| Spells(items, es) && Linked(rule, es) && Rederived(es, answers) { SpelledOnce(items, es, frozen); }
  }

  lemma StagesFrozen(rule: RecordRule, items: seq<Value>, frozen: seq<Entry>, answers: Answers)
    requires Spells(items, frozen) && Linked(rule, frozen)
    ensures (exists es :: Spells(items, es) && Linked(rule, es) && Stageable(es, answers)) <==>
              Stageable(frozen, answers)
  {
    if es :| Spells(items, es) && Linked(rule, es) && Stageable(es, answers) { SpelledOnce(items, es, frozen); }
  }

  /** Whatever the canonicalizer does, every dict held by the log or the request is left as found, and so is the
      log, save for one fresh entry when the append succeeds; and it succeeds exactly when request and log are
      valid, all entries re-derive and the last call is answered. */
  method Append(rule: RecordRule, log: List, request: Dict, answers: Answers, ghost world: set<object>)
    returns (r: Result<Entry>, ghost frozen: seq<Entry>)
    requires log in world && request in world && Closed(world)
    modifies world
    ensures forall d: Dict :: old(allocated(d)) && old(Held(log.items, request, d)) ==> d.items == old(d.items)
    ensures r.Ok? <==> old(Appendable(rule, log.items, request, answers))
    ensures r.Fail? ==> log.items == old(log.items)
    ensures r.Ok? ==> Extended(old(log.items), log.items, r.value)
    ensures r.Ok? ==>
              var s := SaveEntry(log.items[|log.items| - 1]); fresh(s.entry) && fresh(s.payload) && fresh(s.record)
    ensures r.Ok? ==> old(Spells(log.items, frozen)) && Linked(rule, frozen) && Stageable(frozen, answers)
    ensures r.Ok? ==> r.value == StagedEntry(frozen, old(RequestAt(request)), answers)
  {
    r, frozen := Prepare(rule, log, request, answers, world);
    if r.Ok? { CommitEntry(log, r.value); }
  }

  // All of `append` but the commit, which comes last
  method Prepare(rule: RecordRule, log: List, request: Dict, answers: Answers, ghost world: set<object>)
    returns (r: Result<Entry>, ghost frozen: seq<Entry>)
    requires log in world && request in world && Closed(world)
    modifies world
    ensures log.items == old(log.items)
    ensures forall d: Dict :: old(allocated(d)) && old(Held(log.items, request, d)) ==> d.items == old(d.items)
    ensures r.Ok? <==> old(Appendable(rule, log.items, request, answers))
    ensures r.Ok? ==> old(Spells(log.items, frozen)) && Linked(rule, frozen) && Stageable(frozen, answers)
    ensures r.Ok? ==> r.value == StagedEntry(frozen, old(RequestAt(request)), answers)
  {
    frozen := [];
    var fault := ValidateRequest(rule, request);
    if fault.Some? { return Fail(fault.value), frozen; }
    var entries;
    fault, entries := ValidateLog(rule, log);
    if fault.Some? { return Fail(fault.value), frozen; }
    frozen := entries;
    StagesFrozen(rule, log.items, frozen, answers);
    r := Guarded(log, request, entries, answers, world);
  }

  method CommitEntry(log: List, e: Entry)
    modifies log
    ensures Extended(old(log.items), log.items, e)
    ensures var s := SaveEntry(log.items[|log.items| - 1]); fresh(s.entry) && fresh(s.payload) && fresh(s.record)
  {
    var v := NewEntry(e);
    log.items := log.items + [v];
  }

  // The list has gained one entry at its end.
  ghost predicate Extended(before: seq<Value>, after: seq<Value>, e: Entry)
    reads *
  {
    && |after| == |before| + 1 && after[..|before|] == before
    && EntryShaped(after[|before|]) && EntryAt(after[|before|]) == e
  }

  datatype Replayed = Replayed(state: State, head: Id, applied: nat)

  /** Replay leaves everything as found, folds the operations in order, and succeeds exactly when the log is
      valid and all its entries re-derive. */
  method Replay(rule: RecordRule, log: List, answers: Answers, ghost world: set<object>)
    returns (r: Result<Replayed>, ghost frozen: seq<Entry>)
    requires log in world && Closed(world)
    modifies world
    ensures log.items == old(log.items)
    ensures forall d: Dict :: old(allocated(d)) && old(HeldByLog(log.items, d)) ==> d.items == old(d.items)
    ensures r.Ok? <==> old(Replayable(rule, log.items, answers))
    ensures r.Ok? ==> old(Spells(log.items, frozen)) && Linked(rule, frozen) && Rederived(frozen, answers)
    ensures r.Ok? ==> r.value == Replayed(Fold(frozen), Tip(frozen), |frozen|)
  {
    frozen := [];
    var fault, entries := ValidateLog(rule, log);
    if fault.Some? { return Fail(fault.value), frozen; }
    frozen := entries;
    ReplaysFrozen(rule, log.items, frozen, answers);
    r := GuardedReplay(log, entries, answers, world);
  }

  method GuardedReplay(log: List, frozen: seq<Entry>, answers: Answers, ghost world: set<object>)
    returns (r: Result<Replayed>)
    requires log in world && Closed(world) && Spells(log.items, frozen)
    modifies world
    ensures log.items == old(log.items)
    ensures forall d: Dict :: old(allocated(d)) && old(HeldByLog(log.items, d)) ==> d.items == old(d.items)
    ensures r.Ok? <==> Rederived(frozen, answers)
    ensures r.Ok? ==> r.value == Replayed(Fold(frozen), Tip(frozen), |frozen|)
  {
    var container, saved := SaveLog(log, frozen, world);
    ghost var was := map d: Dict | d in world :: d.items;
    var head := Rederive(frozen, answers, world);
    Restore(log, container, saved, was, world);
    forall d: Dict | old(allocated(d)) && Among(saved, d) ensures d.items == old(d.items) {
      var s :| s in saved && (d == s.entry || d == s.payload || d == s.record);
      assert Back(s) && old(Back(s));
    }
    if head.Fail? { return Fail(head.failure); }
    var state := FoldEntries(frozen);
    r := Ok(Replayed(state, head.value, |frozen|));
  }

  method FoldEntries(frozen: seq<Entry>) returns (state: State)
    ensures state == Fold(frozen)
  {
    state := map[];
    for k := 0 to |frozen|
      invariant state == Fold(frozen[..k])
    {
      assert frozen[..k + 1][..k] == frozen[..k];
      var e := frozen[k];
      if e.op == "put" { state := state[e.identity := e.record]; } else { state := state - {e.identity}; }
    }
    assert frozen[..|frozen|] == frozen;
  }

  // The canonicalizer answers honestly for every entry.
  ghost predicate Honest(frozen: seq<Entry>, answers: Answers) {
    forall k :: 0 <= k < |frozen| ==> answers(k) == Some(Canonical(frozen[k].identity, frozen[k].record))
  }

  lemma {:induction false} HonestRederives(rule: RecordRule, frozen: seq<Entry>, answers: Answers)
    requires Linked(rule, frozen) && Honest(frozen, answers)
    ensures Rederived(frozen, answers) <==> Accepted(rule, frozen)
  {
    if frozen != [] {
      var n := |frozen| - 1;
      HonestRederives(rule, frozen[..n], answers);
      assert Rederived(frozen, answers) <==>
             Rederived(frozen[..n], answers) && AnswerFault(frozen[n], answers(n)).None?;
    }
  }

  lemma {:induction false} AcceptedLinked(rule: RecordRule, log: seq<Entry>)
    requires Accepted(rule, log)
    ensures Linked(rule, log)
  {
    if log != [] { AcceptedLinked(rule, log[..|log| - 1]); }
  }

  /** Behind an honest canonicalizer, the logs that replay takes are exactly those that spell an accepted log. */
  lemma HonestReplay(rule: RecordRule, items: seq<Value>, answers: Answers)
    requires forall es :: Spells(items, es) ==> Honest(es, answers)
    ensures Replayable(rule, items, answers) <==> exists es :: Spells(items, es) && Accepted(rule, es)
  {
    if es :| Spells(items, es) && Linked(rule, es) && Rederived(es, answers) { HonestRederives(rule, es, answers); }
    if es :| Spells(items, es) && Accepted(rule, es) {
      AcceptedLinked(rule, es);
      HonestRederives(rule, es, answers);
    }
  }

  /** And what append adds is the entry that the accepted log calls for. */
  lemma HonestAppend(rule: RecordRule, frozen: seq<Entry>, req: Request, answers: Answers)
    requires Linked(rule, frozen) && RequestOk(rule, req) && Stageable(frozen, answers)
    requires Honest(frozen, answers) && answers(|frozen|) == Some(Canonical(req.identity, req.record))
    ensures Accepted(rule, frozen) && StagedEntry(frozen, req, answers) == NextEntry(frozen, req)
    ensures Accepted(rule, frozen + [StagedEntry(frozen, req, answers)])
  {
    HonestRederives(rule, frozen, answers);
    AppendAccepted(rule, frozen, req);
  }
}
