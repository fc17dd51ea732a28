/** Exactly-once queue transitions under caller-supplied keys (`server/jobs_idempotency.py`). */
module JobsKeyed {
  import opened Queue
  import QueueRuns
  import StoreKeyed

  // ---------- receipts ----------

  // A digest is known by what it was derived from, or is some other text.
  datatype StateId = IdOfState(state: State) | OtherState(text: string, wellFormed: bool)

  datatype Finger = HashOf(op: Op) | OtherFinger(text: string, wellFormed: bool)

  datatype ReceiptId = IdOf(key: string, finger: Finger, prior: StateId, state: StateId, sequence: int)
                     | OtherId(text: string, wellFormed: bool)

  datatype Stamp = Stamp(id: ReceiptId, key: string, finger: Finger, prior: StateId, state: StateId, sequence: int)

  predicate StateIdOk(id: StateId) { id.OtherState? ==> id.wellFormed }

  function Lookup(ledger: seq<Stamp>, key: string): Option<Stamp> {
    if ledger == [] then None
    else if ledger[|ledger| - 1].key == key then Some(ledger[|ledger| - 1])
    else Lookup(ledger[..|ledger| - 1], key)
  }

  predicate StampOk(r: Stamp, index: nat) {
    && StoreKeyed.KeyOk(r.key) && (r.finger.OtherFinger? ==> r.finger.wellFormed) && StateIdOk(r.prior)
    && StateIdOk(r.state)
    && r.sequence == index && r.id == IdOf(r.key, r.finger, r.prior, r.state, r.sequence)
  }

  // Exact, numbered from zero, with keys used once, each state the next one's prior
  predicate ChainOk(ledger: seq<Stamp>) {
    ledger == [] ||
    (var init, r := ledger[..|ledger| - 1], ledger[|ledger| - 1];
     && ChainOk(init) && StampOk(r, |init|) && Lookup(init, r.key).None?
     && (init != [] ==> r.prior == init[|init| - 1].state))
  }

  predicate LedgerOk(ledger: seq<Stamp>, live: StateId) {
    ChainOk(ledger) && (ledger != [] ==> ledger[|ledger| - 1].state == live)
  }

  method ValidateLedger(ledger: seq<Stamp>, live: StateId) returns (ok: bool)
    ensures ok <==> LedgerOk(ledger, live)
  {
    var seen: set<string>, prev := {}, None;
    for k := 0 to |ledger|
      invariant ChainOk(ledger[..k])
      invariant prev == if k == 0 then None else Some(ledger[k - 1].state)
      invariant forall key :: key in seen <==> Lookup(ledger[..k], key).Some?
    {
      var r := ledger[k];
      assert ledger[..k + 1][..k] == ledger[..k];
      if !StampOk(r, k) || r.key in seen || (prev.Some? && r.prior != prev.value) {
        assert !ChainOk(ledger[..k + 1]);
        ChainPrefix(ledger, k + 1);
        return false;
      }
      seen, prev := seen + {r.key}, Some(r.state);
    }
    assert ledger[..|ledger|] == ledger;
    return prev.Some? ==> prev.value == live;
  }

  lemma {:induction false} ChainPrefix(ledger: seq<Stamp>, k: nat)
    requires k <= |ledger|
    ensures ChainOk(ledger) ==> ChainOk(ledger[..k])
  {
    if k < |ledger| {
      ChainPrefix(ledger[..|ledger| - 1], k);
      assert ledger[..|ledger| - 1][..k] == ledger[..k];
    } else {
      assert ledger[..k] == ledger;
    }
  }

  lemma {:induction false} NoKey(ledger: seq<Stamp>, key: string)
    ensures Lookup(ledger, key).None? <==> forall k :: 0 <= k < |ledger| ==> ledger[k].key != key
  {
    if ledger != [] {
      var init := ledger[..|ledger| - 1];
      NoKey(init, key);
      assert ledger == init + [ledger[|ledger| - 1]];
    }
  }

  // The receipt at `k` names itself by all it holds, and its place.
  predicate SelfNamed(r: Stamp, k: nat) {
    && r.id == IdOf(r.key, r.finger, r.prior, r.state, k) && r.sequence == k && StoreKeyed.KeyOk(r.key)
    && !(r.finger.OtherFinger? && !r.finger.wellFormed)
    && !(r.prior.OtherState? && !r.prior.wellFormed) && !(r.state.OtherState? && !r.state.wellFormed)
  }

  // Every receipt names itself and its place, no key stands twice, each receipt begins at the state where the one
  // before it ended, and the last one ends in the live state.
  ghost predicate Chained(ledger: seq<Stamp>, live: StateId) {
    && (forall k: nat :: k < |ledger| ==> SelfNamed(ledger[k], k))
    && (forall j, k :: 0 <= j < k < |ledger| ==> ledger[j].key != ledger[k].key)
    && (forall k: nat :: 0 < k < |ledger| ==> ledger[k].prior == ledger[k - 1].state)
    && (ledger != [] ==> ledger[|ledger| - 1].state == live)
  }

  lemma ChainedInit(ledger: seq<Stamp>, live: StateId)
    requires ledger != [] && Chained(ledger, live)
    ensures var init, r := ledger[..|ledger| - 1], ledger[|ledger| - 1];
            && Chained(init, r.prior) && SelfNamed(r, |init|) && r.state == live
            && forall k :: 0 <= k < |init| ==> init[k].key != r.key
  {
    var init := ledger[..|ledger| - 1];
    forall k: nat | k < |init| ensures SelfNamed(init[k], k) && init[k].key != ledger[|init|].key {
      assert init[k] == ledger[k];
    }
    forall k: nat | 0 < k < |init| ensures init[k].prior == init[k - 1].state {
      assert init[k] == ledger[k] && init[k - 1] == ledger[k - 1];
    }
  }

  lemma ChainedMore(init: seq<Stamp>, r: Stamp, ledger: seq<Stamp>)
    requires Chained(init, r.prior) && SelfNamed(r, |init|) && forall k :: 0 <= k < |init| ==> init[k].key != r.key
    requires ledger == init + [r]
    ensures Chained(ledger, r.state)
  {
    forall k: nat | k < |ledger| ensures SelfNamed(ledger[k], k) { if k < |init| { assert init[k] == ledger[k]; } }
    forall k: nat | 0 < k < |ledger| ensures ledger[k].prior == ledger[k - 1].state {
      assert ledger[k - 1] == init[k - 1] && (k < |init| ==> init[k] == ledger[k]);
    }
  }

  /** The check of a ledger, receipt by receipt from the front, accepts exactly the chained ones. */
  lemma {:induction false} LedgerMeans(ledger: seq<Stamp>, live: StateId)
    ensures LedgerOk(ledger, live) <==> Chained(ledger, live)
  {
    if ledger != [] {
      var init, r := ledger[..|ledger| - 1], ledger[|ledger| - 1];
      LedgerMeans(init, r.prior);
      NoKey(init, r.key);
      assert ledger == init + [r];
      if Chained(ledger, live) { ChainedInit(ledger, live); }
      if Chained(init, r.prior) && SelfNamed(r, |init|) && forall k :: 0 <= k < |init| ==> init[k].key != r.key {
        ChainedMore(init, r, ledger);
      }
    }
  }

  // ---------- one keyed request ----------

  datatype Keyed = Keyed(key: string, op: Op)

  datatype Fault = MalformedKeyed
                 | QueueCorrupt
                 | CorruptLedger
                 | DivergentFingerprint
                 | KeyConflict
                 | Refused(failure: Failure)

  datatype Reply = Applied(stamp: Stamp) | Replayed(stamp: Stamp) | Failed(fault: Fault)

  // A restart is no keyed transition.
  predicate KeyedOk(q: Keyed) { StoreKeyed.KeyOk(q.key) && !q.op.Restart? && OpOk(q.op) }

  function FirstStamp(q: Keyed, s: State, next: State, sequence: nat): Stamp {
    var a, b := IdOfState(s), IdOfState(next);
    Stamp(IdOf(q.key, HashOf(q.op), a, b, sequence), q.key, HashOf(q.op), a, b, sequence)
  }

  // The transition is the queue's own, or its refusal.
  ghost predicate FirstUse(s: State, ledger: seq<Stamp>, q: Keyed, reply: Reply, next: State, after: seq<Stamp>) {
    exists to: State, r: Receipt ::
      && Queue.Step(s, q.op, to, r)
      && if r.Rejected? then reply == Failed(Refused(r.failure)) && next == s && after == ledger
         else
           && next == to && reply == Applied(FirstStamp(q, s, to, |ledger|))
           && after == ledger + [FirstStamp(q, s, to, |ledger|)]
  }

  ghost predicate KeyedStep(s: State, ledger: seq<Stamp>, q: Keyed, answer: Option<Finger>,
                       reply: Reply, next: State, after: seq<Stamp>) {
    && (!reply.Applied? ==> next == s && after == ledger)
    && if !KeyedOk(q) then reply == Failed(MalformedKeyed)
       else if !StateOk(s) then reply == Failed(QueueCorrupt)
       else if !LedgerOk(ledger, IdOfState(s)) then reply == Failed(CorruptLedger)
       else if answer != Some(HashOf(q.op)) then reply == Failed(DivergentFingerprint)
       else match Lookup(ledger, q.key)
         case Some(r) => reply == if r.finger == HashOf(q.op) then Replayed(r) else Failed(KeyConflict)
         case None => FirstUse(s, ledger, q, reply, next, after)
  }

  class KeyedQueue {
    var state: State
    var ledger: seq<Stamp>

    constructor ()
      ensures state == State([], 0) && ledger == []
    {
      state, ledger := State([], 0), [];
    }

    /** `answer` is what the untrusted fingerprinter returns, if it returns a text at all. */
    method Apply(q: Keyed, answer: Option<Finger>) returns (reply: Reply)
      modifies this
      ensures KeyedStep(old(state), old(ledger), q, answer, reply, state, ledger)
    {
      if !KeyedOk(q) { return Failed(MalformedKeyed); }
      var ok := CheckState(state);
      if !ok { return Failed(QueueCorrupt); }
      ok := ValidateLedger(ledger, IdOfState(state));
      if !ok { return Failed(CorruptLedger); }
      if answer != Some(HashOf(q.op)) { return Failed(DivergentFingerprint); }
      var stored := None;
      for k := 0 to |ledger|
        invariant stored == Lookup(ledger[..k], q.key)
      {
        assert ledger[..k + 1][..k] == ledger[..k];
        if ledger[k].key == q.key { stored := Some(ledger[k]); }
      }
      assert ledger[..|ledger|] == ledger;
      if stored.Some? {
        if stored.value.finger != answer.value { return Failed(KeyConflict); }
        return Replayed(stored.value);
      }
      var work := new QueueStore();
      work.jobs, work.nextSeq := state.jobs, state.nextSeq;
      assert work.Current() == state;
      var r := work.Apply(q.op);
      if r.Rejected? { return Failed(Refused(r.failure)); }
      var stamp := FirstStamp(q, state, work.Current(), |ledger|);
      state, ledger := work.Current(), ledger + [stamp];
      reply := Applied(stamp);
    }
  }

  // ---------- runs ----------

  datatype Use = Use(op: Op, stamp: Stamp)

  datatype Run = Start
               | Then(before: Run, q: Keyed, answer: Option<Finger>, reply: Reply, state: State, ledger: seq<Stamp>)
  {
    function Last(): State { if Start? then State([], 0) else state }
    function Ledger(): seq<Stamp> { if Start? then [] else ledger }

    ghost predicate Valid() {
      Then? ==> before.Valid() && KeyedStep(before.Last(), before.Ledger(), q, answer, reply, state, ledger)
    }

    // What the keys have been used for
    function Used(): map<string, Use> {
      if Start? then map[] else if reply.Applied? then before.Used()[q.key := Use(q.op, reply.stamp)] else before.Used()
    }

    // The transitions that were the first under their key and that the queue made, in order
    function FirstUses(): seq<Op> {
      if Start? then [] else if reply.Applied? then before.FirstUses() + [q.op] else before.FirstUses()
    }
  }

  /** The reply that the keys used so far and the queue call for */
  ghost predicate ReplyFits(used: map<string, Use>, s: State, q: Keyed, answer: Option<Finger>, reply: Reply,
                            next: State) {
    if !KeyedOk(q) then reply == Failed(MalformedKeyed)
    else if answer != Some(HashOf(q.op)) then reply == Failed(DivergentFingerprint)
    else if q.key in used then
      reply == if used[q.key].op == q.op then Replayed(used[q.key].stamp) else Failed(KeyConflict)
    else exists to: State, r: Receipt ::
      && Queue.Step(s, q.op, to, r)
      && (if r.Rejected? then reply == Failed(Refused(r.failure)) else reply.Applied? && next == to)
  }

  ghost predicate Tracks(ledger: seq<Stamp>, used: map<string, Use>) {
    forall key :: match Lookup(ledger, key)
      case None => key !in used
      case Some(r) => key in used && used[key].stamp == r && r.finger == HashOf(used[key].op)
  }

  lemma LookupMore(ledger: seq<Stamp>, r: Stamp)
    ensures forall key :: Lookup(ledger + [r], key) == if r.key == key then Some(r) else Lookup(ledger, key)
  {
    assert (ledger + [r])[..|ledger|] == ledger;
  }

  lemma FirstUseKeeps(s: State, ledger: seq<Stamp>, q: Keyed, next: State)
    requires LedgerOk(ledger, IdOfState(s)) && StoreKeyed.KeyOk(q.key) && Lookup(ledger, q.key).None?
    ensures LedgerOk(ledger + [FirstStamp(q, s, next, |ledger|)], IdOfState(next))
  {
    ChainMore(ledger, FirstStamp(q, s, next, |ledger|));
  }

  lemma ChainMore(ledger: seq<Stamp>, r: Stamp)
    requires ChainOk(ledger) && StampOk(r, |ledger|) && Lookup(ledger, r.key).None?
    requires ledger != [] ==> r.prior == ledger[|ledger| - 1].state
    ensures ChainOk(ledger + [r]) && (ledger + [r])[|ledger|] == r
  {
    assert (ledger + [r])[..|ledger|] == ledger;
  }

  // The queue's transition behind a first use
  lemma Transition(s: State, ledger: seq<Stamp>, q: Keyed, answer: Option<Finger>, reply: Reply, next: State,
                   after: seq<Stamp>)
    returns (r: Receipt)
    requires KeyedStep(s, ledger, q, answer, reply, next, after) && reply.Applied?
    ensures Queue.Step(s, q.op, next, r) && !r.Rejected? && reply == Applied(FirstStamp(q, s, next, |ledger|))
    ensures after == ledger + [FirstStamp(q, s, next, |ledger|)] && StoreKeyed.KeyOk(q.key)
    ensures Lookup(ledger, q.key).None?
  {
    var to: State, p: Receipt :|
      && Queue.Step(s, q.op, to, p)
      && if p.Rejected? then reply == Failed(Refused(p.failure)) && next == s && after == ledger
         else
           && next == to && reply == Applied(FirstStamp(q, s, to, |ledger|))
           && after == ledger + [FirstStamp(q, s, to, |ledger|)];
    r := p;
  }

  lemma StepKeeps(s: State, ledger: seq<Stamp>, used: map<string, Use>, q: Keyed, answer: Option<Finger>,
                  reply: Reply, next: State, after: seq<Stamp>)
    requires StateOk(s) && LedgerOk(ledger, IdOfState(s)) && Tracks(ledger, used)
    requires KeyedStep(s, ledger, q, answer, reply, next, after)
    ensures StateOk(next) && LedgerOk(after, IdOfState(next))
    ensures Tracks(after, if reply.Applied? then used[q.key := Use(q.op, reply.stamp)] else used)
  {
    if reply.Applied? {
      var r := Transition(s, ledger, q, answer, reply, next, after);
      QueueRuns.StepKeepsOk(s, q.op, next, r);
      FirstUseKeeps(s, ledger, q, next);
      LookupMore(ledger, reply.stamp);
    }
  }

  lemma StepFits(s: State, ledger: seq<Stamp>, used: map<string, Use>, q: Keyed, answer: Option<Finger>,
                 reply: Reply, next: State, after: seq<Stamp>)
    requires StateOk(s) && LedgerOk(ledger, IdOfState(s)) && Tracks(ledger, used)
    requires KeyedStep(s, ledger, q, answer, reply, next, after)
    ensures ReplyFits(used, s, q, answer, reply, next)
  {
    if KeyedOk(q) && answer == Some(HashOf(q.op)) && q.key !in used {
      assert Lookup(ledger, q.key).None?;
      var to: State, r: Receipt :|
        && Queue.Step(s, q.op, to, r)
        && if r.Rejected? then reply == Failed(Refused(r.failure)) && next == s && after == ledger
           else
             && next == to && reply == Applied(FirstStamp(q, s, to, |ledger|))
             && after == ledger + [FirstStamp(q, s, to, |ledger|)];
    }
  }

  /** Exactly once, over every run from the empty queue: state and ledger always pass their checks, and each
      reply is the one that the keys used so far call for. */
  lemma {:induction false} ExactlyOnce(run: Run)
    requires run.Valid()
    ensures StateOk(run.Last()) && LedgerOk(run.Ledger(), IdOfState(run.Last())) && Tracks(run.Ledger(), run.Used())
    ensures run.Then? ==> ReplyFits(run.before.Used(), run.before.Last(), run.q, run.answer, run.reply, run.state)
  {
    if run.Then? {
      ExactlyOnce(run.before);
      var s, ledger, used := run.before.Last(), run.before.Ledger(), run.before.Used();
      StepKeeps(s, ledger, used, run.q, run.answer, run.reply, run.state, run.ledger);
      StepFits(s, ledger, used, run.q, run.answer, run.reply, run.state, run.ledger);
    }
  }

  function Ops(run: QueueRuns.Run): seq<Op> {
    if run.Start? then [] else Ops(run.run) + [run.op]
  }

  /** The live queue is what its own transitions make of the first uses alone, one after the other. */
  lemma {:induction false} FirstUsesBuild(run: Run) returns (queue: QueueRuns.Run)
    requires run.Valid()
    ensures queue.Valid() && queue.Last() == run.Last() && Ops(queue) == run.FirstUses()
  {
    if run.Start? {
      queue := QueueRuns.Start;
    } else {
      queue := FirstUsesBuild(run.before);
      if run.reply.Applied? {
        var s, ledger := run.before.Last(), run.before.Ledger();
        var r := Transition(s, ledger, run.q, run.answer, run.reply, run.state, run.ledger);
        queue := QueueRuns.Then(queue, run.q.op, run.state, r);
      }
    }
  }

  predicate Extends(run: Run, early: Run) { run == early || (run.Then? && Extends(run.before, early)) }

  lemma {:induction false} UsesStay(early: Run, run: Run, key: string)
    requires Extends(run, early) && run.Valid() && key in early.Used()
    ensures key in run.Used() && run.Used()[key] == early.Used()[key]
    decreases run
  {
    if run != early {
      UsesStay(early, run.before, key);
      ExactlyOnce(run.before);
      if run.reply.Applied? {
        var s, ledger := run.before.Last(), run.before.Ledger();
        var r := Transition(s, ledger, run.q, run.answer, run.reply, run.state, run.ledger);
        assert Lookup(run.before.Ledger(), run.q.key).None?;
      }
    }
  }

  /** However much later a key comes back: the same request gets the first receipt and another one is refused,
      and neither changes anything. */
  lemma RetrySafe(first: Run, again: Run)
    requires again.Valid() && again.Then? && first.Then? && first.reply.Applied? && Extends(again.before, first)
    requires again.q.key == first.q.key && KeyedOk(again.q) && again.answer == Some(HashOf(again.q.op))
    ensures again.reply == if again.q.op == first.q.op then Replayed(first.reply.stamp) else Failed(KeyConflict)
    ensures again.state == again.before.Last() && again.ledger == again.before.Ledger()
  {
    UsesStay(first, again.before, first.q.key);
    ExactlyOnce(again);
  }

  // ---------- transitions made past the keyed layer ----------

  // A ledger in use whose last receipt does not name the state
  ghost predicate Locked(s: State, ledger: seq<Stamp>) {
    StateOk(s) && ledger != [] && ledger[|ledger| - 1].state != IdOfState(s)
  }

  // How far a job has come. No transition goes back on it.
  function Rank(j: Job): int {
    match j.status
    case Ready => 2 * j.attempts
    case Leased => 2 * j.attempts - 1
    case _ => 2 * MAX_ATTEMPTS + 1
  }

  ghost predicate NotBehind(s: State, next: State) {
    |s.jobs| <= |next.jobs| && forall i :: 0 <= i < |s.jobs| ==> Rank(s.jobs[i]) <= Rank(next.jobs[i])
  }

  // A job has been added, or has come further.
  ghost predicate Ahead(s: State, next: State) {
    && NotBehind(s, next)
    && (|s.jobs| < |next.jobs| || exists i :: 0 <= i < |s.jobs| && Rank(s.jobs[i]) < Rank(next.jobs[i]))
  }

  lemma AheadTransitive(a: State, b: State, c: State)
    requires Ahead(a, b) && Ahead(b, c)
    ensures Ahead(a, c)
  {
    forall i | 0 <= i < |a.jobs| ensures Rank(a.jobs[i]) <= Rank(c.jobs[i]) {
      assert Rank(a.jobs[i]) <= Rank(b.jobs[i]) <= Rank(c.jobs[i]);
    }
    if |a.jobs| == |c.jobs| {
      var i :| 0 <= i < |a.jobs| && Rank(a.jobs[i]) < Rank(b.jobs[i]);
      assert Rank(b.jobs[i]) <= Rank(c.jobs[i]);
    }
  }

  // A job that changes in a transition comes further.
  ghost predicate Advances(s: State, next: State) {
    && |s.jobs| <= |next.jobs| && (|s.jobs| == |next.jobs| ==> s.nextSeq == next.nextSeq)
    && forall i :: 0 <= i < |s.jobs| ==> next.jobs[i] == s.jobs[i] || Rank(s.jobs[i]) < Rank(next.jobs[i])
  }

  lemma ClaimAdvances(s: State, op: Op, next: State, r: Receipt)
    requires StateOk(s) && op.Claim? && OpOk(op) && Queue.Step(s, op, next, r)
    ensures Advances(s, next)
  {
    var w: nat :| IsClaim(s.jobs, op.worker, op.now, op.leaseMs, w, next.jobs);
    forall i | 0 <= i < |s.jobs| ensures next.jobs[i] == s.jobs[i] || Rank(s.jobs[i]) < Rank(next.jobs[i]) {
      assert JobOk(s.jobs[i], 0, s.nextSeq);
      assert next.jobs[i] == ClaimedJob(s.jobs, op.worker, op.now, op.leaseMs, w, i);
    }
  }

  lemma RestartAdvances(s: State, op: Op, next: State, r: Receipt)
    requires StateOk(s) && op.Restart? && OpOk(op) && Queue.Step(s, op, next, r)
    ensures Advances(s, next)
  {
    forall i | 0 <= i < |s.jobs| ensures next.jobs[i] == s.jobs[i] || Rank(s.jobs[i]) < Rank(next.jobs[i]) {
      assert next.jobs[i] == Restarted(s.jobs[i], op.worker, op.now);
    }
  }

  lemma SettleAdvances(s: State, id: JobId, worker: string, now: int, status: Status, next: State, r: Receipt)
    requires StateOk(s) && (status.Done? || status.Ready?) && SettleStep(s, id, worker, now, status, next, r)
    ensures Advances(s, next)
  {
    forall i | 0 <= i < |s.jobs| ensures JobOk(s.jobs[i], 0, s.nextSeq) { }
  }

  /** A transition that changes the state at all leads strictly ahead, so no later one leads back. */
  lemma StepGoesAhead(s: State, op: Op, next: State, r: Receipt)
    requires StateOk(s) && Queue.Step(s, op, next, r)
    ensures next == s || Ahead(s, next)
  {
    if OpOk(op) {
      match op
      case Enqueue(_, _, _) =>
      case Claim(_, _, _) => ClaimAdvances(s, op, next, r);
      case Ack(id, worker, now) => SettleAdvances(s, id, worker, now, Done, next, r);
      case Nack(id, worker, now) => SettleAdvances(s, id, worker, now, Ready, next, r);
      case Restart(_, _) => RestartAdvances(s, op, next, r);
    }
    assert Advances(s, next);
    if |s.jobs| == |next.jobs| && next != s { assert next.jobs != s.jobs; }
  }

  // Runs that mix keyed requests with the queue's own transitions, restarts among them
  datatype Mixed = Empty
                 | Called(before: Mixed, q: Keyed, answer: Option<Finger>, reply: Reply,
                          state: State, ledger: seq<Stamp>)
                 | Passed(before: Mixed, op: Op, state: State, receipt: Receipt)
  {
    function Last(): State { if Empty? then State([], 0) else state }

    function Ledger(): seq<Stamp> { if Empty? then [] else if Called? then ledger else before.Ledger() }

    ghost predicate Valid() {
      && (Called? ==> before.Valid() && KeyedStep(before.Last(), before.Ledger(), q, answer, reply, state, ledger))
      && (Passed? ==> before.Valid() && Queue.Step(before.Last(), op, state, receipt))
    }

    // A transition past the keyed layer has changed the state after a key was used.
    predicate Overtaken() {
      !Empty? && (before.Overtaken() || (Passed? && before.Ledger() != [] && state != before.Last()))
    }
  }

  // The ledger chains, and ends in the state or, once overtaken, in one strictly behind.
  ghost predicate Follows(s: State, ledger: seq<Stamp>, overtaken: bool) {
    && StateOk(s) && ChainOk(ledger) && (overtaken ==> ledger != [])
    && (ledger != [] ==>
          && ledger[|ledger| - 1].state.IdOfState?
          && var named := ledger[|ledger| - 1].state.state;
             if overtaken then Ahead(named, s) else named == s)
  }

  lemma FollowsCalled(s: State, ledger: seq<Stamp>, overtaken: bool, q: Keyed, answer: Option<Finger>, reply: Reply,
                      next: State, after: seq<Stamp>)
    requires Follows(s, ledger, overtaken) && KeyedStep(s, ledger, q, answer, reply, next, after)
    ensures Follows(next, after, overtaken)
  {
    if reply.Applied? {
      var r := Transition(s, ledger, q, answer, reply, next, after);
      QueueRuns.StepKeepsOk(s, q.op, next, r);
      FirstUseKeeps(s, ledger, q, next);
    }
  }

  lemma FollowsPassed(s: State, ledger: seq<Stamp>, overtaken: bool, op: Op, next: State, r: Receipt)
    requires Follows(s, ledger, overtaken) && Queue.Step(s, op, next, r)
    ensures Follows(next, ledger, overtaken || (ledger != [] && next != s))
  {
    QueueRuns.StepKeepsOk(s, op, next, r);
    StepGoesAhead(s, op, next, r);
    if overtaken && next != s { AheadTransitive(ledger[|ledger| - 1].state.state, s, next); }
  }

  lemma {:induction false} MixedFollows(run: Mixed)
    requires run.Valid()
    ensures Follows(run.Last(), run.Ledger(), run.Overtaken())
  {
    match run
    case Empty =>
    case Called(before, q, answer, reply, state, ledger) =>
      MixedFollows(before);
      FollowsCalled(before.Last(), before.Ledger(), before.Overtaken(), q, answer, reply, state, ledger);
    case Passed(before, op, state, receipt) =>
      MixedFollows(before);
      FollowsPassed(before.Last(), before.Ledger(), before.Overtaken(), op, state, receipt);
  }

  /** Over every mixture of keyed requests and transitions made past them: the keyed layer is locked exactly when one
      of the latter has changed the state since the first key was used. */
  lemma LockedExactly(run: Mixed)
    requires run.Valid()
    ensures Locked(run.Last(), run.Ledger()) <==> run.Overtaken()
    ensures LedgerOk(run.Ledger(), IdOfState(run.Last())) <==> !run.Overtaken()
  {
    MixedFollows(run);
  }

  predicate Continues(run: Mixed, early: Mixed) { run == early || (!run.Empty? && Continues(run.before, early)) }

  /** Once locked, whatever is asked, answered, or done past the keyed layer: the ledger stays as it is, and every
      keyed request fails and changes nothing, an exact one as a corrupt ledger. */
  lemma {:induction false} LockedForever(early: Mixed, run: Mixed)
    requires run.Valid() && early.Valid() && early.Overtaken() && Continues(run, early)
    ensures run.Overtaken() && Locked(run.Last(), run.Ledger()) && run.Ledger() == early.Ledger()
    ensures run != early && run.Called? ==>
              && run.reply == Failed(if KeyedOk(run.q) then CorruptLedger else MalformedKeyed)
              && run.state == run.before.Last() && run.ledger == run.before.Ledger()
    decreases run
  {
    LockedExactly(run);
    if run != early {
      LockedForever(early, run.before);
      LockedExactly(run.before);
    }
  }

  lemma RestartChanges(s: State, worker: string, now: int, next: State, r: Receipt)
    requires OpOk(Restart(worker, now)) && StateOk(s) && Queue.Step(s, Restart(worker, now), next, r)
    ensures next != s <==> exists i :: 0 <= i < |s.jobs| && HeldBy(s.jobs[i], worker, now)
  {
    if i :| 0 <= i < |s.jobs| && HeldBy(s.jobs[i], worker, now) {
      assert next.jobs[i] == Restarted(s.jobs[i], worker, now);
      assert next.jobs[i].status != s.jobs[i].status;
    } else {
      forall i | 0 <= i < |s.jobs|
        ensures next.jobs[i] == s.jobs[i]
      {
        assert next.jobs[i] == Restarted(s.jobs[i], worker, now);
      }
      assert next.jobs == s.jobs;
    }
  }

  /** A restart locks a working keyed layer exactly when a key has been used and the worker holds a job. */
  lemma RestartLocks(run: Mixed, worker: string, now: int, next: State, r: Receipt)
    requires run.Valid() && !run.Overtaken() && OpOk(Restart(worker, now))
    requires Queue.Step(run.Last(), Restart(worker, now), next, r)
    ensures Locked(next, run.Ledger()) <==>
            run.Ledger() != [] && exists i :: 0 <= i < |run.Last().jobs| && HeldBy(run.Last().jobs[i], worker, now)
  {
    MixedFollows(run);
    RestartChanges(run.Last(), worker, now, next, r);
    LockedExactly(Passed(run, Restart(worker, now), next, r));
  }

  // ---------- an input ----------

  const JOB: Job := Job(JobOf("job"), 0, 0, "{}", Ready, 0, None, None)
  const ADD: Keyed := Keyed("k1", Enqueue("job", 0, "{}"))
  const TAKE: Keyed := Keyed("k2", Claim("w", 0, 10))
  const HELD: Job := Grant(JOB, "w", 10)

  lemma AddJob() returns (run: Mixed)
    ensures run.Valid() && run.Last() == State([JOB], 1) && |run.Ledger()| == 1 && run.Ledger()[0].key == "k1"
    ensures !run.Overtaken()
  {
    var s, next := State([], 0), State([JOB], 1);
    var stamp := FirstStamp(ADD, s, next, 0);
    assert Queue.Step(s, ADD.op, next, Touched(Some(JOB)));
    assert FirstUse(s, [], ADD, Applied(stamp), next, [stamp]);
    run := Called(Empty, ADD, Some(HashOf(ADD.op)), Applied(stamp), next, [stamp]);
  }

  lemma TakeJob() returns (run: Mixed)
    ensures run.Valid() && run.Last() == State([HELD], 1) && |run.Ledger()| == 2 && !run.Overtaken()
  {
    var before := AddJob();
    MixedFollows(before);
    var s, next, ledger := before.Last(), State([HELD], 1), before.Ledger();
    var stamp := FirstStamp(TAKE, s, next, 1);
    assert IsClaim(s.jobs, "w", 0, 10, 0, next.jobs);
    assert Queue.Step(s, TAKE.op, next, Touched(Some(HELD)));
    assert ledger == [ledger[0]];
    assert Lookup(ledger, "k2").None?;
    assert FirstUse(s, ledger, TAKE, Applied(stamp), next, ledger + [stamp]);
    run := Called(before, TAKE, Some(HashOf(TAKE.op)), Applied(stamp), next, ledger + [stamp]);
  }

  /** A job enqueued under one key and claimed under another; its worker restarts, and the keyed layer is locked. */
  lemma RestartAfterClaim() returns (run: Mixed)
    ensures run.Valid() && run.Passed? && run.op == Restart("w", 1) && !run.before.Overtaken() && |run.Ledger()| == 2
    ensures run.Overtaken() && Locked(run.Last(), run.Ledger())
  {
    var before := TakeJob();
    var next := State([Settle(HELD, Ready)], 1);
    assert ReleasedIds(before.Last().jobs, "w", 1) == [HELD.id];
    run := Passed(before, Restart("w", 1), next, Released([HELD.id]));
    LockedExactly(run);
  }
}
