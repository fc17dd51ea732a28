/** The leased priority queue (`server/jobs_queue.py`) and the restart transition
    (`server/jobs_restart.py`): the state check, the transitions and the code that computes them. */
module Queue {

  datatype Option<+T> = None | Some(value: T)

  const MAX_JOBS: nat := 10000
  const MAX_ATTEMPTS: nat := 5
  const MAX_NOW: int := 9007199254740991
  const MAX_LEASE_MS: int := 3600000
  const MAX_PRIORITY: int := 9

  // A job id is the hash of its dedupe key: known by the key alone
  datatype JobId = JobOf(key: string)

  datatype Status = Ready | Leased | Done | Dead

  // `payload` is the canonical text of the payload
  datatype Job = Job(
    id: JobId, seqNo: int, priority: int, payload: string, status: Status, attempts: int,
    owner: Option<string>, expires: Option<int>)

  datatype State = State(jobs: seq<Job>, nextSeq: int)

  datatype Op =
    | Enqueue(key: string, priority: int, payload: string)
    | Claim(worker: string, now: int, leaseMs: int)
    | Ack(id: JobId, worker: string, now: int)
    | Nack(id: JobId, worker: string, now: int)
    | Restart(worker: string, now: int)

  datatype Failure = MalformedRequest | UnknownJob | LeaseConflict | DedupeConflict | CapacityExceeded | CorruptQueue

  // A successful transition names the job it touched, or the jobs a restart released.
  datatype Receipt = Touched(job: Option<Job>) | Released(ids: seq<JobId>) | Rejected(failure: Failure)

  predicate TokenChar(c: char) {
    ('A' <= c <= 'Z') || ('a' <= c <= 'z') || ('0' <= c <= '9') || c in {'.', '_', ':', '-'}
  }

  predicate TokenOk(s: string, limit: nat) { 1 <= |s| <= limit && forall c :: c in s ==> TokenChar(c) }

  predicate OpOk(op: Op) {
    match op
    case Enqueue(key, priority, _) => TokenOk(key, 128) && 0 <= priority <= MAX_PRIORITY
    case Claim(worker, now, lease) =>
      TokenOk(worker, 64) && 0 <= now <= MAX_NOW && 1 <= lease <= MAX_LEASE_MS && now + lease <= MAX_NOW
    case Ack(_, worker, now) => TokenOk(worker, 64) && 0 <= now <= MAX_NOW
    case Nack(_, worker, now) => TokenOk(worker, 64) && 0 <= now <= MAX_NOW
    case Restart(worker, now) => TokenOk(worker, 64) && 0 <= now <= MAX_NOW
  }

  // ---------- the state check ----------

  predicate LeaseOk(j: Job) {
    if j.status.Leased? then
      && j.owner.Some? && TokenOk(j.owner.value, 64)
      && j.expires.Some? && 1 <= j.expires.value <= MAX_NOW && j.attempts >= 1
    else j.owner.None? && j.expires.None?
  }

  predicate JobOk(j: Job, lowest: int, nextSeq: int) {
    && lowest <= j.seqNo < nextSeq && 0 <= j.priority <= MAX_PRIORITY && 0 <= j.attempts <= MAX_ATTEMPTS
    && LeaseOk(j)
    && (j.status.Dead? ==> j.attempts == MAX_ATTEMPTS)
    && (j.status.Done? ==> j.attempts >= 1)
  }

  predicate StateOk(s: State) {
    && 0 <= s.nextSeq <= MAX_NOW && |s.jobs| <= MAX_JOBS
    && (forall i :: 0 <= i < |s.jobs| ==> JobOk(s.jobs[i], 0, s.nextSeq))
    && (forall i, k :: 0 <= i < k < |s.jobs| ==> s.jobs[i].seqNo < s.jobs[k].seqNo)
    && (forall i, k :: 0 <= i < k < |s.jobs| ==> s.jobs[i].id != s.jobs[k].id)
  }

  /** The loop of `_check_state`, which compares each job with the one before and the ids seen. */
  method CheckState(s: State) returns (ok: bool)
    ensures ok <==> StateOk(s)
  {
    ok := 0 <= s.nextSeq <= MAX_NOW && |s.jobs| <= MAX_JOBS;
    if !ok { return; }
    var ids: set<JobId>, lowest := {}, 0;
    for k := 0 to |s.jobs|
      invariant forall i :: 0 <= i < k ==> JobOk(s.jobs[i], 0, s.nextSeq) && s.jobs[i].seqNo < lowest
      invariant forall i, j :: 0 <= i < j < k ==> s.jobs[i].seqNo < s.jobs[j].seqNo
      invariant forall i, j :: 0 <= i < j < k ==> s.jobs[i].id != s.jobs[j].id
      invariant forall id :: id in ids <==> exists i :: 0 <= i < k && s.jobs[i].id == id
      invariant lowest == if k == 0 then 0 else s.jobs[k - 1].seqNo + 1
      invariant lowest >= 0
    {
      var j := s.jobs[k];
      if j.id in ids { return false; }
      ids := ids + {j.id};
      if !JobOk(j, lowest, s.nextSeq) { return false; }
      lowest := j.seqNo + 1;
    }
  }

  // ---------- the transitions ----------

  function IndexOf(jobs: seq<Job>, id: JobId): (i: nat)
    ensures i <= |jobs|
    ensures i < |jobs| ==> jobs[i].id == id
    ensures forall k :: 0 <= k < i ==> jobs[k].id != id
  {
    if jobs == [] then 0 else if jobs[0].id == id then 0 else 1 + IndexOf(jobs[1..], id)
  }

  predicate Claimable(j: Job, now: int) {
    j.status.Ready? || (j.status.Leased? && j.expires.Some? && j.expires.value <= now)
  }

  predicate Before(a: Job, b: Job) {
    a.priority < b.priority || (a.priority == b.priority && a.seqNo < b.seqNo)
  }

  // May be leased at `now`: claimable with an attempt left
  predicate Leasable(j: Job, now: int) { Claimable(j, now) && j.attempts < MAX_ATTEMPTS }

  // `w` is the least leasable job, or there is none and `w` is the length.
  predicate IsWinner(jobs: seq<Job>, now: int, w: nat) {
    && w <= |jobs|
    && (w < |jobs| ==> Leasable(jobs[w], now))
    && forall i :: 0 <= i < |jobs| && i != w && Leasable(jobs[i], now) ==> w < |jobs| && Before(jobs[w], jobs[i])
  }

  function Grant(j: Job, worker: string, expiry: int): Job {
    j.(status := Leased, attempts := j.attempts + 1, owner := Some(worker), expires := Some(expiry))
  }

  function Settle(j: Job, status: Status): Job { j.(status := status, owner := None, expires := None) }

  // Spent jobs that the claim meets before its winner die.
  predicate Killed(jobs: seq<Job>, now: int, w: nat, i: nat)
    requires w <= |jobs| && i < |jobs|
  {
    Claimable(jobs[i], now) && jobs[i].attempts >= MAX_ATTEMPTS && (w == |jobs| || Before(jobs[i], jobs[w]))
  }

  function ClaimedJob(jobs: seq<Job>, worker: string, now: int, leaseMs: int, w: nat, i: nat): Job
    requires w <= |jobs| && i < |jobs|
  {
    if i == w then Grant(jobs[i], worker, now + leaseMs)
    else if Killed(jobs, now, w, i) then Settle(jobs[i], Dead)
    else jobs[i]
  }

  // What a claim with winner `w` makes of the jobs
  ghost predicate IsClaim(jobs: seq<Job>, worker: string, now: int, leaseMs: int, w: nat, after: seq<Job>) {
    && IsWinner(jobs, now, w) && |after| == |jobs|
    && forall i :: 0 <= i < |jobs| ==> after[i] == ClaimedJob(jobs, worker, now, leaseMs, w, i)
  }

  predicate HeldBy(j: Job, worker: string, now: int) {
    j.status.Leased? && j.owner == Some(worker) && j.expires.Some? && now < j.expires.value
  }

  function Restarted(j: Job, worker: string, now: int): Job {
    if HeldBy(j, worker, now) then Settle(j, Ready) else j
  }

  function ReleasedIds(jobs: seq<Job>, worker: string, now: int): seq<JobId> {
    if jobs == [] then []
    else
      var last := jobs[|jobs| - 1];
      ReleasedIds(jobs[..|jobs| - 1], worker, now) + if HeldBy(last, worker, now) then [last.id] else []
  }

  function FreshJob(s: State, op: Op): Job
    requires op.Enqueue?
  {
    Job(JobOf(op.key), s.nextSeq, op.priority, op.payload, Ready, 0, None, None)
  }

  /** One transition: `next` and `r` are what `op` makes of the checked state `s`. */
  ghost predicate Step(s: State, op: Op, next: State, r: Receipt) {
    if !OpOk(op) then next == s && r == Rejected(MalformedRequest)
    else if !StateOk(s) then next == s && r == Rejected(CorruptQueue)
    else match op
      case Enqueue(key, priority, payload) =>
        var i := IndexOf(s.jobs, JobOf(key));
        if i < |s.jobs| then
          && next == s
          && r == if s.jobs[i].priority == priority && s.jobs[i].payload == payload then Touched(Some(s.jobs[i]))
                  else Rejected(DedupeConflict)
        else if |s.jobs| >= MAX_JOBS || s.nextSeq >= MAX_NOW then next == s && r == Rejected(CapacityExceeded)
        else next == State(s.jobs + [FreshJob(s, op)], s.nextSeq + 1) && r == Touched(Some(FreshJob(s, op)))
      case Claim(worker, now, leaseMs) =>
        && next.nextSeq == s.nextSeq
        && exists w: nat :: IsClaim(s.jobs, worker, now, leaseMs, w, next.jobs)
                       && r == Touched(if w < |s.jobs| then Some(next.jobs[w]) else None)
      case Ack(id, worker, now) => SettleStep(s, id, worker, now, Done, next, r)
      case Nack(id, worker, now) => SettleStep(s, id, worker, now, Ready, next, r)
      case Restart(worker, now) =>
        && next.nextSeq == s.nextSeq && |next.jobs| == |s.jobs|
        && (forall i :: 0 <= i < |s.jobs| ==> next.jobs[i] == Restarted(s.jobs[i], worker, now))
        && r == Released(ReleasedIds(s.jobs, worker, now))
  }

  ghost predicate SettleStep(s: State, id: JobId, worker: string, now: int, status: Status, next: State, r: Receipt) {
    var i := IndexOf(s.jobs, id);
    if i == |s.jobs| then next == s && r == Rejected(UnknownJob)
    else if !HeldBy(s.jobs[i], worker, now) then next == s && r == Rejected(LeaseConflict)
    else next == s.(jobs := s.jobs[i := Settle(s.jobs[i], status)]) && r == Touched(Some(Settle(s.jobs[i], status)))
  }

  // ---------- the engine ----------

  // Indices in order of (priority, seq)
  ghost predicate Ordered(jobs: seq<Job>, order: seq<nat>) {
    && (forall a :: 0 <= a < |order| ==> order[a] < |jobs|)
    && forall a, b :: 0 <= a < b < |order| ==> Before(jobs[order[a]], jobs[order[b]])
  }

  // The claimable jobs, sorted: each goes in behind those before it in the order.
  method SortedClaimable(jobs: seq<Job>, now: int) returns (order: seq<nat>)
    requires forall i, k :: 0 <= i < k < |jobs| ==> jobs[i].seqNo < jobs[k].seqNo
    ensures Ordered(jobs, order)
    ensures forall i :: i in order <==> 0 <= i < |jobs| && Claimable(jobs[i], now)
  {
    order := [];
    for k := 0 to |jobs|
      invariant Ordered(jobs, order)
      invariant forall i :: i in order <==> 0 <= i < k && Claimable(jobs[i], now)
    {
      if Claimable(jobs[k], now) {
        assert k !in order;
        order := Insert(jobs, order, k);
      }
    }
  }

  method Insert(jobs: seq<Job>, order: seq<nat>, k: nat) returns (more: seq<nat>)
    requires k < |jobs| && Ordered(jobs, order) && k !in order
    requires forall i, j :: 0 <= i < j < |jobs| ==> jobs[i].seqNo < jobs[j].seqNo
    ensures Ordered(jobs, more)
    ensures forall i :: i in more <==> i == k || i in order
  {
    var a := 0;
    while a < |order| && Before(jobs[order[a]], jobs[k])
      invariant a <= |order| && forall b :: 0 <= b < a ==> Before(jobs[order[b]], jobs[k])
    {
      a := a + 1;
    }
    if a < |order| {
      assert order[a] in order && order[a] != k;
      assert order[a] < k ==> jobs[order[a]].seqNo < jobs[k].seqNo;
      assert Before(jobs[k], jobs[order[a]]);
    }
    PlacedIn(jobs, order, k, a);
    more := order[..a] + [k] + order[a..];
  }

  lemma PlacedIn(jobs: seq<Job>, order: seq<nat>, k: nat, a: nat)
    requires k < |jobs| && Ordered(jobs, order) && a <= |order|
    requires forall b :: 0 <= b < a ==> Before(jobs[order[b]], jobs[k])
    requires a < |order| ==> Before(jobs[k], jobs[order[a]])
    ensures Ordered(jobs, order[..a] + [k] + order[a..])
    ensures forall i :: i in order[..a] + [k] + order[a..] <==> i == k || i in order
  {
    var more := order[..a] + [k] + order[a..];
    forall b, c | 0 <= b < c < |more| ensures Before(jobs[more[b]], jobs[more[c]]) {
      var x, y := if b < a then b else b - 1, if c < a then c else c - 1;
      assert b != a ==> more[b] == order[x];
      assert c != a ==> more[c] == order[y];
      if b == a && c > a + 1 { assert Before(jobs[order[a]], jobs[order[y]]); }
    }
    SameMembers(order, k, a);
  }

  lemma SameMembers(order: seq<nat>, k: nat, a: nat)
    requires a <= |order|
    ensures forall i :: i in order[..a] + [k] + order[a..] <==> i == k || i in order
  {
    assert order == order[..a] + order[a..];
  }

  /** The claim loop: spent jobs die on the way to the first job with an attempt left. */
  method ClaimLoop(jobs: seq<Job>, worker: string, now: int, leaseMs: int) returns (after: seq<Job>, w: nat)
    requires forall i, k :: 0 <= i < k < |jobs| ==> jobs[i].seqNo < jobs[k].seqNo
    ensures IsClaim(jobs, worker, now, leaseMs, w, after)
  {
    var order := SortedClaimable(jobs, now);
    after, w := jobs, |jobs|;
    for a := 0 to |order|
      invariant |after| == |jobs|
      invariant forall b :: 0 <= b < a ==> jobs[order[b]].attempts >= MAX_ATTEMPTS
      invariant forall i: nat :: i < |jobs| ==> after[i] == if i in order[..a] then Settle(jobs[i], Dead) else jobs[i]
    {
      var i := order[a];
      assert i in order && i !in order[..a];
      assert order[..a + 1] == order[..a] + [i];
      if jobs[i].attempts >= MAX_ATTEMPTS {
        after := after[i := Settle(after[i], Dead)];
      } else {
        after, w := after[i := Grant(after[i], worker, now + leaseMs)], i;
        WinnerFound(jobs, now, order, a);
        return;
      }
    }
    assert order[..|order|] == order;
  }

  // The first job of the order with an attempt left is the winner, and those before it are the killed.
  lemma WinnerFound(jobs: seq<Job>, now: int, order: seq<nat>, a: nat)
    requires Ordered(jobs, order) && a < |order|
    requires forall i :: i in order <==> 0 <= i < |jobs| && Claimable(jobs[i], now)
    requires (forall b :: 0 <= b < a ==> jobs[order[b]].attempts >= MAX_ATTEMPTS)
    requires jobs[order[a]].attempts < MAX_ATTEMPTS
    ensures order[a] in order && IsWinner(jobs, now, order[a])
    ensures forall i: nat :: i < |jobs| && i != order[a] ==> (i in order[..a] <==> Killed(jobs, now, order[a], i))
  {
    var w := order[a];
    forall i: nat | i < |jobs| && i != w && Leasable(jobs[i], now) ensures Before(jobs[w], jobs[i]) {
      assert i in order;
      var b :| 0 <= b < |order| && order[b] == i;
    }
    forall i: nat | i < |jobs| && i != w ensures i in order[..a] <==> Killed(jobs, now, w, i) {
      if i in order[..a] {
        var b :| 0 <= b < a && order[b] == i;
        assert order[b] in order;
      }
      if Killed(jobs, now, w, i) {
        assert i in order;
        var b :| 0 <= b < |order| && order[b] == i;
        assert order[..a][b] == i;
      }
    }
  }

  class QueueStore {
    var jobs: seq<Job>
    var nextSeq: int

    constructor ()
      ensures Current() == State([], 0)
    {
      jobs, nextSeq := [], 0;
    }

    function Current(): State
      reads this
    {
      State(jobs, nextSeq)
    }

    /** Validates the request, then the state, works on a copy and commits last. */
    method Apply(op: Op) returns (r: Receipt)
      modifies this
      ensures Step(old(Current()), op, Current(), r)
    {
      if !OpOk(op) { return Rejected(MalformedRequest); }
      var ok := CheckState(Current());
      if !ok { return Rejected(CorruptQueue); }
      match op {
        case Enqueue(_, _, _) => r := ApplyEnqueue(op);
        case Claim(worker, now, leaseMs) =>
          var after, w := ClaimLoop(jobs, worker, now, leaseMs);
          r := Touched(if w < |after| then Some(after[w]) else None);
          jobs := after;
        case Ack(id, worker, now) => r := ApplySettle(id, worker, now, Done);
        case Nack(id, worker, now) => r := ApplySettle(id, worker, now, Ready);
        case Restart(worker, now) => r := ApplyRestart(worker, now);
      }
    }

    method ApplyEnqueue(op: Op) returns (r: Receipt)
      requires op.Enqueue? && OpOk(op) && StateOk(Current())
      modifies this
      ensures Step(old(Current()), op, Current(), r)
    {
      var i := IndexOf(jobs, JobOf(op.key));
      if i < |jobs| {
        var same := jobs[i].priority == op.priority && jobs[i].payload == op.payload;
        return if same then Touched(Some(jobs[i])) else Rejected(DedupeConflict);
      }
      if |jobs| >= MAX_JOBS || nextSeq >= MAX_NOW { return Rejected(CapacityExceeded); }
      var job := Job(JobOf(op.key), nextSeq, op.priority, op.payload, Ready, 0, None, None);
      jobs, nextSeq := jobs + [job], nextSeq + 1;
      r := Touched(Some(job));
    }

    method ApplySettle(id: JobId, worker: string, now: int, status: Status) returns (r: Receipt)
      modifies this
      ensures SettleStep(old(Current()), id, worker, now, status, Current(), r)
    {
      var i := IndexOf(jobs, id);
      if i == |jobs| { return Rejected(UnknownJob); }
      if !HeldBy(jobs[i], worker, now) { return Rejected(LeaseConflict); }
      jobs := jobs[i := Settle(jobs[i], status)];
      r := Touched(Some(jobs[i]));
    }

    method ApplyRestart(worker: string, now: int) returns (r: Receipt)
      requires OpOk(Restart(worker, now)) && StateOk(Current())
      modifies this
      ensures Step(old(Current()), Restart(worker, now), Current(), r)
    {
      var work, released := jobs, [];
      for k := 0 to |jobs|
        invariant |work| == |jobs| && jobs == old(jobs) && nextSeq == old(nextSeq)
        invariant forall i :: 0 <= i < k ==> work[i] == Restarted(jobs[i], worker, now)
        invariant forall i :: k <= i < |jobs| ==> work[i] == jobs[i]
        invariant released == ReleasedIds(jobs[..k], worker, now)
      {
        assert jobs[..k + 1][..k] == jobs[..k];
        if HeldBy(work[k], worker, now) {
          work := work[k := Settle(work[k], Ready)];
          released := released + [work[k].id];
        }
      }
      assert jobs[..|jobs|] == jobs;
      jobs := work;
      r := Released(released);
    }
  }
}
