/** Exactly-once appends under caller-supplied keys (`store/idempotency.py`). */
module StoreKeyed {
  import opened Text
  import opened Wal

  // ---------- request fingerprints ----------

  function Field(s: string): string { Dec(|s|) + ":" + s }

  // The text that the fingerprint hashes
  function FpText(r: Request): string {
    "idf1|" + Field(r.op) + "|" + Field(r.identity) + "|" + Field(r.record.variant) + "|" + Field(r.record.digest)
    + "|" + Field(r.record.snapshot)
  }

  lemma DigitsSplit(a: string, x: string, b: string, y: string)
    requires AllDigits(a) && AllDigits(b) && a + ":" + x == b + ":" + y
    ensures a == b && x == y
  {
    var s, t := a + ":" + x, b + ":" + y;
    assert s[|a|] == ':' && t[|b|] == ':';
    assert forall k :: 0 <= k < |a| ==> s[k] == a[k] && IsDigit(s[k]);
    assert forall k :: 0 <= k < |b| ==> t[k] == b[k] && IsDigit(t[k]);
    assert s[..|a|] == a && t[..|b|] == b;
    assert s[|a| + 1..] == x && t[|b| + 1..] == y;
  }

  lemma FieldSplit(a: string, x: string, b: string, y: string)
    requires Field(a) + x == Field(b) + y
    ensures a == b && x == y
  {
    assert Field(a) + x == Dec(|a|) + ":" + (a + x) && Field(b) + y == Dec(|b|) + ":" + (b + y);
    DigitsSplit(Dec(|a|), a + x, Dec(|b|), b + y);
    DecInjective(|a|, |b|);
    assert (a + x)[..|a|] == a && (b + y)[..|b|] == b;
    assert (a + x)[|a|..] == x && (b + y)[|b|..] == y;
  }

  lemma BarSplit(a: string, x: string, b: string, y: string)
    requires Field(a) + ("|" + x) == Field(b) + ("|" + y)
    ensures a == b && x == y
  {
    FieldSplit(a, "|" + x, b, "|" + y);
    assert ("|" + x)[1..] == x && ("|" + y)[1..] == y;
  }

  function Tail4(r: Request): string { Field(r.record.digest) + ("|" + Field(r.record.snapshot)) }
  function Tail3(r: Request): string { Field(r.record.variant) + ("|" + Tail4(r)) }
  function Tail2(r: Request): string { Field(r.identity) + ("|" + Tail3(r)) }
  function Tail1(r: Request): string { Field(r.op) + ("|" + Tail2(r)) }

  lemma FpTextTails(r: Request)
    ensures FpText(r) == "idf1|" + Tail1(r)
  {
  }

  /** Requests with the same fingerprint text are the same request, whatever characters they hold. */
  lemma FpTextInjective(a: Request, b: Request)
    requires FpText(a) == FpText(b)
    ensures a == b
  {
    FpTextTails(a);
    FpTextTails(b);
    assert ("idf1|" + Tail1(a))[5..] == Tail1(a) && ("idf1|" + Tail1(b))[5..] == Tail1(b);
    BarSplit(a.op, Tail2(a), b.op, Tail2(b));
    BarSplit(a.identity, Tail3(a), b.identity, Tail3(b));
    BarSplit(a.record.variant, Tail4(a), b.record.variant, Tail4(b));
    BarSplit(a.record.digest, Field(a.record.snapshot), b.record.digest, Field(b.record.snapshot));
    assert Field(a.record.snapshot) + "" == Field(b.record.snapshot) + "";
    FieldSplit(a.record.snapshot, "", b.record.snapshot, "");
  }

  // ---------- receipts ----------

  // A digest is known as the hash of a text, or is some other text.
  datatype Finger = Hash(text: string) | Other(text: string, wellFormed: bool)

  function Fingerprint(r: Request): Finger { Hash(FpText(r)) }

  datatype ReceiptId = IdOf(key: string, finger: Finger, entry: Id, sequence: int)
                     | OtherId(text: string, wellFormed: bool)

  datatype Receipt = Receipt(id: ReceiptId, key: string, finger: Finger, entry: Id, sequence: int)

  predicate KeyChar(c: char) { ('A' <= c <= 'Z') || ('a' <= c <= 'z') || IsDigit(c) }

  predicate KeyOk(key: string) {
    && 1 <= |key| <= 128 && KeyChar(key[0])
    && forall k :: 1 <= k < |key| ==> KeyChar(key[k]) || key[k] in {'.', '_', ':', '-'}
  }

  function Lookup(ledger: seq<Receipt>, key: string): Option<Receipt> {
    if ledger == [] then None
    else if ledger[|ledger| - 1].key == key then Some(ledger[|ledger| - 1])
    else Lookup(ledger[..|ledger| - 1], key)
  }

  function LastSequence(ledger: seq<Receipt>): int { if ledger == [] then 0 else ledger[|ledger| - 1].sequence }

  // The receipt is exact and names a live entry of the log.
  predicate ReceiptOk(r: Receipt, log: seq<Entry>, above: int) {
    && KeyOk(r.key) && (r.finger.Other? ==> r.finger.wellFormed) && EntryIdOk(r.entry)
    && above < r.sequence <= |log| && 0 < r.sequence
    && r.id == IdOf(r.key, r.finger, r.entry, r.sequence)
    && r.entry == log[r.sequence - 1].id && r.finger == Fingerprint(RequestOf(log[r.sequence - 1]))
  }

  predicate LedgerOk(ledger: seq<Receipt>, log: seq<Entry>) {
    ledger == [] ||
    (var init, r := ledger[..|ledger| - 1], ledger[|ledger| - 1];
     LedgerOk(init, log) && ReceiptOk(r, log, LastSequence(init)) && Lookup(init, r.key).None?)
  }

  method ValidateLedger(ledger: seq<Receipt>, log: seq<Entry>) returns (ok: bool)
    ensures ok <==> LedgerOk(ledger, log)
  {
    var seen: set<string>, last := {}, 0;
    for k := 0 to |ledger|
      invariant LedgerOk(ledger[..k], log) && last == LastSequence(ledger[..k]) && last >= 0
      invariant forall key :: key in seen <==> Lookup(ledger[..k], key).Some?
    {
      var r := ledger[k];
      var fine := ReceiptOk(r, log, last) && r.key !in seen;
      LedgerStep(ledger, log, k, fine);
      if !fine { return false; }
      seen, last := seen + {r.key}, r.sequence;
    }
    assert ledger[..|ledger|] == ledger;
    return true;
  }

  // What the next receipt decides
  lemma LedgerStep(ledger: seq<Receipt>, log: seq<Entry>, k: nat, fine: bool)
    requires k < |ledger| && LedgerOk(ledger[..k], log)
    requires fine <==> ReceiptOk(ledger[k], log, LastSequence(ledger[..k])) && Lookup(ledger[..k], ledger[k].key).None?
    ensures fine ==> LedgerOk(ledger[..k + 1], log) && ledger[k].sequence >= 0
    ensures !fine ==> !LedgerOk(ledger, log)
    ensures LastSequence(ledger[..k + 1]) == ledger[k].sequence
    ensures forall key :: Lookup(ledger[..k + 1], key).Some? <==> key == ledger[k].key || Lookup(ledger[..k], key).Some?
  {
    assert ledger[..k + 1][..k] == ledger[..k];
    LedgerPrefix(ledger, log, k + 1);
  }

  lemma {:induction false} LedgerPrefix(ledger: seq<Receipt>, log: seq<Entry>, k: nat)
    requires k <= |ledger|
    ensures LedgerOk(ledger, log) ==> LedgerOk(ledger[..k], log)
  {
    if k < |ledger| {
      LedgerPrefix(ledger[..|ledger| - 1], log, k);
      assert ledger[..|ledger| - 1][..k] == ledger[..k];
    } else {
      assert ledger[..k] == ledger;
    }
  }

  // ---------- one keyed request ----------

  datatype Keyed = Keyed(key: string, request: Request)

  datatype Fault = MalformedRequest | CorruptSource | CorruptLedger | DivergentFingerprint | KeyConflict

  datatype Reply = Applied(receipt: Receipt) | Replayed(receipt: Receipt) | Failed(fault: Fault)

  function FirstReceipt(q: Keyed, log: seq<Entry>): Receipt {
    var e := NextEntry(log, q.request);
    var finger := Fingerprint(q.request);
    Receipt(IdOf(q.key, finger, e.id, e.sequence), q.key, finger, e.id, e.sequence)
  }

  predicate KeyedOk(rule: RecordRule, q: Keyed) { KeyOk(q.key) && RequestOk(rule, q.request) }

  class KeyedStore {
    var log: seq<Entry>
    var ledger: seq<Receipt>

    constructor ()
      ensures log == [] && ledger == []
    {
      log, ledger := [], [];
    }

    /** `answer` is what the untrusted fingerprinter returns, if it returns a text at all. */
    method Apply(rule: RecordRule, q: Keyed, answer: Option<Finger>) returns (reply: Reply)
      modifies this
      ensures Step(rule, old(log), old(ledger), q, answer, reply, log, ledger)
    {
      if !KeyedOk(rule, q) { return Failed(MalformedRequest); }
      if !Accepted(rule, log) { return Failed(CorruptSource); }
      var ok := ValidateLedger(ledger, log);
      if !ok { return Failed(CorruptLedger); }
      if answer != Some(Fingerprint(q.request)) { return Failed(DivergentFingerprint); }
      var stored := None;
      for k := 0 to |ledger|
        invariant stored == Lookup(ledger[..k], q.key)
      {
        assert ledger[..k + 1][..k] == ledger[..k];
        if ledger[k].key == q.key { stored := Some(ledger[k]); }
      }
      assert ledger[..|ledger|] == ledger;
      if stored.Some? {
        if stored.value.finger != answer.value { return Failed(KeyConflict); }
        return Replayed(stored.value);
      }
      var e, receipt := NextEntry(log, q.request), FirstReceipt(q, log);
      log, ledger := log + [e], ledger + [receipt];
      reply := Applied(receipt);
    }
  }

  ghost predicate Step(rule: RecordRule, log: seq<Entry>, ledger: seq<Receipt>, q: Keyed, answer: Option<Finger>,
                       reply: Reply, logAfter: seq<Entry>, ledgerAfter: seq<Receipt>) {
    && (!reply.Applied? ==> logAfter == log && ledgerAfter == ledger)
    && if !KeyedOk(rule, q) then reply == Failed(MalformedRequest)
       else if !Accepted(rule, log) then reply == Failed(CorruptSource)
       else if !LedgerOk(ledger, log) then reply == Failed(CorruptLedger)
       else if answer != Some(Fingerprint(q.request)) then reply == Failed(DivergentFingerprint)
       else match Lookup(ledger, q.key)
         case Some(r) => reply == if r.finger == Fingerprint(q.request) then Replayed(r) else Failed(KeyConflict)
         case None =>
           && reply == Applied(FirstReceipt(q, log))
           && logAfter == log + [NextEntry(log, q.request)] && ledgerAfter == ledger + [FirstReceipt(q, log)]
  }

  // ---------- what exactly-once means ----------

  /** The meaning: a store that remembers the request and the receipt of every key used. */
  datatype Ideal = Ideal(log: seq<Entry>, used: map<string, Use>)

  datatype Use = Use(request: Request, receipt: Receipt)

  function IdealReply(rule: RecordRule, s: Ideal, q: Keyed, answer: Option<Finger>): Reply {
    if !KeyedOk(rule, q) then Failed(MalformedRequest)
    else if answer != Some(Fingerprint(q.request)) then Failed(DivergentFingerprint)
    else if q.key in s.used then
      if s.used[q.key].request == q.request then Replayed(s.used[q.key].receipt) else Failed(KeyConflict)
    else Applied(FirstReceipt(q, s.log))
  }

  function IdealNext(rule: RecordRule, s: Ideal, q: Keyed, answer: Option<Finger>): Ideal {
    if IdealReply(rule, s, q, answer).Applied?
    then Ideal(s.log + [NextEntry(s.log, q.request)], s.used[q.key := Use(q.request, FirstReceipt(q, s.log))])
    else s
  }

  datatype Run = Start
               | Then(before: Run, q: Keyed, answer: Option<Finger>, reply: Reply,
                      log: seq<Entry>, ledger: seq<Receipt>)
  {
    function Log(): seq<Entry> { if Start? then [] else log }
    function Ledger(): seq<Receipt> { if Start? then [] else ledger }

    ghost predicate Valid(rule: RecordRule) {
      Then? ==> before.Valid(rule) && Step(rule, before.Log(), before.Ledger(), q, answer, reply, log, ledger)
    }

    function Meaning(rule: RecordRule): Ideal {
      if Start? then Ideal([], map[]) else IdealNext(rule, before.Meaning(rule), q, answer)
    }

    // The requests that were the first under their key, in order
    function FirstUses(rule: RecordRule): seq<Request> {
      if Start? then []
      else if IdealReply(rule, before.Meaning(rule), q, answer).Applied? then before.FirstUses(rule) + [q.request]
      else before.FirstUses(rule)
    }
  }

  // Appending requests one by one to the empty log
  function Build(requests: seq<Request>): seq<Entry> {
    if requests == [] then []
    else
      var log := Build(requests[..|requests| - 1]);
      log + [NextEntry(log, requests[|requests| - 1])]
  }

  // The ledger holds exactly the uses remembered, each with the fingerprint of its request.
  ghost predicate Tracks(ledger: seq<Receipt>, used: map<string, Use>) {
    forall key :: match Lookup(ledger, key)
      case None => key !in used
      case Some(r) => key in used && used[key].receipt == r && r.finger == Fingerprint(used[key].request)
  }

  lemma LookupMore(ledger: seq<Receipt>, r: Receipt)
    ensures forall key :: Lookup(ledger + [r], key) == if r.key == key then Some(r) else Lookup(ledger, key)
  {
    assert (ledger + [r])[..|ledger|] == ledger;
  }

  lemma {:induction false} LedgerGrows(ledger: seq<Receipt>, log: seq<Entry>, e: Entry)
    requires LedgerOk(ledger, log)
    ensures LedgerOk(ledger, log + [e]) && 0 <= LastSequence(ledger) <= |log|
  {
    if ledger != [] { LedgerGrows(ledger[..|ledger| - 1], log, e); }
  }

  lemma FirstUseKeeps(rule: RecordRule, log: seq<Entry>, ledger: seq<Receipt>, q: Keyed)
    requires Accepted(rule, log) && LedgerOk(ledger, log) && KeyedOk(rule, q) && Lookup(ledger, q.key).None?
    ensures Accepted(rule, log + [NextEntry(log, q.request)])
    ensures LedgerOk(ledger + [FirstReceipt(q, log)], log + [NextEntry(log, q.request)])
  {
    var e, r := NextEntry(log, q.request), FirstReceipt(q, log);
    AppendAccepted(rule, log, q.request);
    LedgerGrows(ledger, log, e);
    assert RequestOf(e) == q.request;
    assert (ledger + [r])[..|ledger|] == ledger;
  }

  lemma ReplyMeans(rule: RecordRule, log: seq<Entry>, ledger: seq<Receipt>, s: Ideal, q: Keyed, answer: Option<Finger>,
                   reply: Reply, logAfter: seq<Entry>, ledgerAfter: seq<Receipt>)
    requires Accepted(rule, log) && LedgerOk(ledger, log) && log == s.log && Tracks(ledger, s.used)
    requires Step(rule, log, ledger, q, answer, reply, logAfter, ledgerAfter)
    ensures reply == IdealReply(rule, s, q, answer)
    ensures reply.Applied? ==> KeyedOk(rule, q) && Lookup(ledger, q.key).None? && reply == Applied(FirstReceipt(q, log))
    ensures reply.Applied? ==>
              logAfter == log + [NextEntry(log, q.request)] && ledgerAfter == ledger + [FirstReceipt(q, log)]
  {
    if q.key in s.used && Fingerprint(s.used[q.key].request) == Fingerprint(q.request) {
      FpTextInjective(s.used[q.key].request, q.request);
    }
  }

  /** One keyed request on a tracked ledger does what the meaning says. */
  lemma StepMeans(rule: RecordRule, log: seq<Entry>, ledger: seq<Receipt>, s: Ideal, q: Keyed, answer: Option<Finger>,
                  reply: Reply, logAfter: seq<Entry>, ledgerAfter: seq<Receipt>)
    requires Accepted(rule, log) && LedgerOk(ledger, log) && log == s.log && Tracks(ledger, s.used)
    requires Step(rule, log, ledger, q, answer, reply, logAfter, ledgerAfter)
    ensures reply == IdealReply(rule, s, q, answer)
    ensures logAfter == IdealNext(rule, s, q, answer).log && Tracks(ledgerAfter, IdealNext(rule, s, q, answer).used)
    ensures Accepted(rule, logAfter) && LedgerOk(ledgerAfter, logAfter)
  {
    ReplyMeans(rule, log, ledger, s, q, answer, reply, logAfter, ledgerAfter);
    if reply.Applied? {
      FirstUseKeeps(rule, log, ledger, q);
      LookupMore(ledger, FirstReceipt(q, log));
    }
  }

  /** Exactly once, over every run from the empty store and whatever the fingerprinter does: log and ledger
      always pass their checks, each reply is the one the keys used so far call for, and the log is built
      from the first uses alone. */
  lemma {:induction false} ExactlyOnce(rule: RecordRule, run: Run)
    requires run.Valid(rule)
    ensures Accepted(rule, run.Log()) && LedgerOk(run.Ledger(), run.Log())
    ensures run.Log() == run.Meaning(rule).log && Tracks(run.Ledger(), run.Meaning(rule).used)
    ensures run.Then? ==> run.reply == IdealReply(rule, run.before.Meaning(rule), run.q, run.answer)
    ensures run.Log() == Build(run.FirstUses(rule))
  {
    if run.Then? {
      ExactlyOnce(rule, run.before);
      StepMeans(rule, run.before.Log(), run.before.Ledger(), run.before.Meaning(rule), run.q, run.answer, run.reply,
                run.log, run.ledger);
      var uses := run.before.FirstUses(rule);
      assert (uses + [run.q.request])[..|uses|] == uses;
    }
  }

  predicate Extends(run: Run, early: Run) { run == early || (run.Then? && Extends(run.before, early)) }

  lemma {:induction false} EarlierValid(rule: RecordRule, early: Run, run: Run)
    requires run.Valid(rule) && Extends(run, early)
    ensures early.Valid(rule)
    decreases run
  {
    if run != early { EarlierValid(rule, early, run.before); }
  }

  lemma {:induction false} UsesStay(rule: RecordRule, early: Run, run: Run, key: string)
    requires Extends(run, early) && key in early.Meaning(rule).used
    ensures key in run.Meaning(rule).used && run.Meaning(rule).used[key] == early.Meaning(rule).used[key]
    decreases run
  {
    if run != early { UsesStay(rule, early, run.before, key); }
  }

  lemma FirstRecorded(rule: RecordRule, first: Run)
    requires first.Valid(rule) && first.Then? && first.reply.Applied?
    ensures first.q.key in first.Meaning(rule).used
    ensures first.Meaning(rule).used[first.q.key] == Use(first.q.request, first.reply.receipt)
  {
    ExactlyOnce(rule, first);
  }

  lemma UsedReply(rule: RecordRule, s: Ideal, q: Keyed, use: Use)
    requires q.key in s.used && s.used[q.key] == use && KeyedOk(rule, q)
    ensures IdealReply(rule, s, q, Some(Fingerprint(q.request))) ==
            if use.request == q.request then Replayed(use.receipt) else Failed(KeyConflict)
  {
  }

  /** However much later a key comes back: the same request gets the first receipt and another one is refused,
      and neither changes anything. */
  lemma RetrySafe(rule: RecordRule, first: Run, again: Run)
    requires again.Valid(rule) && again.Then? && first.Then? && first.reply.Applied? && Extends(again.before, first)
    requires again.q.key == first.q.key && KeyedOk(rule, again.q) && again.answer == Some(Fingerprint(again.q.request))
    ensures again.reply ==
            if again.q.request == first.q.request then Replayed(first.reply.receipt) else Failed(KeyConflict)
    ensures again.log == again.before.Log() && again.ledger == again.before.Ledger()
  {
    EarlierValid(rule, first, again.before);
    FirstRecorded(rule, first);
    UsesStay(rule, first, again.before, first.q.key);
    UsedReply(rule, again.before.Meaning(rule), again.q, Use(first.q.request, first.reply.receipt));
    ExactlyOnce(rule, again);
  }

  // ---------- which ledgers are valid ----------

  // Runs that mix keyed requests with plain appends
  datatype Mixed = Empty
                 | Called(call: Mixed, q: Keyed, reply: Reply, log: seq<Entry>, ledger: seq<Receipt>)
                 | Appended(base: Mixed, request: Request)
  {
    function Log(): seq<Entry> {
      match this
      case Empty => []
      case Called(_, _, _, log, _) => log
      case Appended(base, request) => base.Log() + [NextEntry(base.Log(), request)]
    }

    function Ledger(): seq<Receipt> {
      match this
      case Empty => []
      case Called(_, _, _, _, ledger) => ledger
      case Appended(base, _) => base.Ledger()
    }

    ghost predicate Valid(rule: RecordRule) {
      match this
      case Empty => true
      case Called(call, q, reply, log, ledger) =>
        && call.Valid(rule)
        && Step(rule, call.Log(), call.Ledger(), q, Some(Fingerprint(q.request)), reply, log, ledger)
      case Appended(base, request) => base.Valid(rule) && RequestOk(rule, request)
    }
  }

  lemma {:induction false} MixedOk(rule: RecordRule, run: Mixed)
    requires run.Valid(rule)
    ensures Accepted(rule, run.Log()) && LedgerOk(run.Ledger(), run.Log())
  {
    match run
    case Empty =>
    case Called(call, q, reply, log, ledger) =>
      MixedOk(rule, call);
      if reply.Applied? { FirstUseKeeps(rule, call.Log(), call.Ledger(), q); }
    case Appended(base, request) =>
      MixedOk(rule, base);
      AppendAccepted(rule, base.Log(), request);
      LedgerGrows(base.Ledger(), base.Log(), NextEntry(base.Log(), request));
  }

  // A ledger that names no entry but these is valid on them alone.
  lemma {:induction false} LedgerShrinks(ledger: seq<Receipt>, log: seq<Entry>, init: seq<Entry>)
    requires LedgerOk(ledger, log) && init <= log && LastSequence(ledger) <= |init|
    ensures LedgerOk(ledger, init)
  {
    if ledger != [] {
      LedgerShrinks(ledger[..|ledger| - 1], log, init);
      var r := ledger[|ledger| - 1];
      assert init[r.sequence - 1] == log[r.sequence - 1];
    }
  }

  lemma LastIsFirstUse(rule: RecordRule, log: seq<Entry>, ledger: seq<Receipt>)
    requires Accepted(rule, log) && LedgerOk(ledger, log) && ledger != [] && LastSequence(ledger) == |log|
    ensures var init, r, e := log[..|log| - 1], ledger[|ledger| - 1], log[|log| - 1];
            && KeyOk(r.key) && RequestOk(rule, RequestOf(e))
            && log == init + [NextEntry(init, RequestOf(e))] && r == FirstReceipt(Keyed(r.key, RequestOf(e)), init)
  {
    AcceptedIsAppended(rule, log);
  }

  // A first use of a key is a step.
  lemma FirstUseSteps(rule: RecordRule, log: seq<Entry>, ledger: seq<Receipt>, q: Keyed)
    requires Accepted(rule, log) && LedgerOk(ledger, log) && KeyedOk(rule, q) && Lookup(ledger, q.key).None?
    ensures Step(rule, log, ledger, q, Some(Fingerprint(q.request)), Applied(FirstReceipt(q, log)),
                 log + [NextEntry(log, q.request)], ledger + [FirstReceipt(q, log)])
  {
  }

  lemma LastKey(ledger: seq<Receipt>, log: seq<Entry>)
    requires LedgerOk(ledger, log) && ledger != []
    ensures Lookup(ledger[..|ledger| - 1], ledger[|ledger| - 1].key).None?
    ensures ledger == ledger[..|ledger| - 1] + [ledger[|ledger| - 1]]
  {
  }

  // The last receipt is that of a keyed request behind the rest.
  lemma CallBuilds(rule: RecordRule, log: seq<Entry>, ledger: seq<Receipt>, before: Mixed) returns (run: Mixed)
    requires Accepted(rule, log) && LedgerOk(ledger, log) && ledger != [] && LastSequence(ledger) == |log|
    requires log != [] && before.Valid(rule) && before.Log() == log[..|log| - 1]
    requires before.Ledger() == ledger[..|ledger| - 1]
    ensures run.Valid(rule) && run.Log() == log && run.Ledger() == ledger
  {
    var q := Keyed(ledger[|ledger| - 1].key, RequestOf(log[|log| - 1]));
    LastIsFirstUse(rule, log, ledger);
    LastKey(ledger, log);
    MixedOk(rule, before);
    FirstUseSteps(rule, before.Log(), before.Ledger(), q);
    run := Called(before, q, Applied(FirstReceipt(q, before.Log())), log, ledger);
  }

  lemma PlainBuilds(rule: RecordRule, log: seq<Entry>, before: Mixed) returns (run: Mixed)
    requires Accepted(rule, log) && log != [] && before.Valid(rule) && before.Log() == log[..|log| - 1]
    ensures run.Valid(rule) && run.Log() == log && run.Ledger() == before.Ledger()
  {
    AcceptedIsAppended(rule, log);
    run := Appended(before, RequestOf(log[|log| - 1]));
  }

  lemma {:induction false} LedgerBuilt(rule: RecordRule, log: seq<Entry>, ledger: seq<Receipt>) returns (run: Mixed)
    requires Accepted(rule, log) && LedgerOk(ledger, log)
    ensures run.Valid(rule) && run.Log() == log && run.Ledger() == ledger
    decreases |log|
  {
    run := Empty;
    if log != [] {
      var init := log[..|log| - 1];
      PrefixAccepted(rule, log, |log| - 1);
      var less := if LastSequence(ledger) == |log| then ledger[..|ledger| - 1] else ledger;
      LedgerBelow(ledger, log);
      LedgerShrinks(less, log, init);
      var before := LedgerBuilt(rule, init, less);
      if LastSequence(ledger) == |log| {
        run := CallBuilds(rule, log, ledger, before);
      } else {
        run := PlainBuilds(rule, log, before);
      }
    }
  }

  lemma LedgerBelow(ledger: seq<Receipt>, log: seq<Entry>)
    requires LedgerOk(ledger, log)
    ensures ledger == [] || LastSequence(ledger) <= |log|
    ensures ledger != [] ==>
              LedgerOk(ledger[..|ledger| - 1], log) && LastSequence(ledger[..|ledger| - 1]) < LastSequence(ledger)
  {
  }

  /** The ledger check lets through exactly what keyed requests and plain appends, in any mixture, build beside their
      log. */
  lemma LedgerExactly(rule: RecordRule, log: seq<Entry>, ledger: seq<Receipt>)
    ensures Accepted(rule, log) && LedgerOk(ledger, log) <==>
              exists run: Mixed :: run.Valid(rule) && run.Log() == log && run.Ledger() == ledger
  {
    if Accepted(rule, log) && LedgerOk(ledger, log) { var run := LedgerBuilt(rule, log, ledger); }
    if run: Mixed :| run.Valid(rule) && run.Log() == log && run.Ledger() == ledger { MixedOk(rule, run); }
  }
}
