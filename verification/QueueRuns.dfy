/** What holds over every run of the job queue, restarts included (`server/jobs_queue.py`,
    `server/jobs_restart.py`). */
module QueueRuns {
  import opened Queue

  lemma WinnerUnique(jobs: seq<Job>, now: int, v: nat, w: nat)
    requires IsWinner(jobs, now, v) && IsWinner(jobs, now, w)
    ensures v == w
  {
  }

  /** A transition has one outcome. */
  lemma StepDeterministic(s: State, op: Op, a: State, p: Receipt, b: State, q: Receipt)
    requires Step(s, op, a, p) && Step(s, op, b, q)
    ensures a == b && p == q
  {
    if OpOk(op) && StateOk(s) {
      match op
      case Claim(worker, now, leaseMs) =>
        var v: nat :|
          && IsClaim(s.jobs, worker, now, leaseMs, v, a.jobs)
          && p == Touched(if v < |s.jobs| then Some(a.jobs[v]) else None);
        var w: nat :|
          && IsClaim(s.jobs, worker, now, leaseMs, w, b.jobs)
          && q == Touched(if w < |s.jobs| then Some(b.jobs[w]) else None);
        WinnerUnique(s.jobs, now, v, w);
        assert a.jobs == b.jobs;
      case Restart(worker, now) =>
        assert a.jobs == b.jobs;
      case _ =>
    }
  }

  // The jobs of `s` are all still there, as the same jobs.
  predicate SameJobs(s: State, next: State) {
    && |s.jobs| <= |next.jobs|
    && forall i :: 0 <= i < |s.jobs| ==> var a, b := s.jobs[i], next.jobs[i];
         a.id == b.id && a.seqNo == b.seqNo && a.priority == b.priority && a.payload == b.payload
  }

  /** A finished job stays as it is. */
  predicate TerminalKept(s: State, next: State) {
    forall i :: 0 <= i < |s.jobs| && i < |next.jobs| && s.jobs[i].status in {Done, Dead} ==> next.jobs[i] == s.jobs[i]
  }

  lemma StepKeepsJobs(s: State, op: Op, next: State, r: Receipt)
    requires Step(s, op, next, r)
    ensures SameJobs(s, next) && TerminalKept(s, next)
  {
  }

  lemma ClaimKeepsOk(s: State, op: Op, next: State, r: Receipt)
    requires StateOk(s) && op.Claim? && OpOk(op) && Step(s, op, next, r)
    ensures StateOk(next)
  {
    var w: nat :| IsClaim(s.jobs, op.worker, op.now, op.leaseMs, w, next.jobs);
    forall i | 0 <= i < |next.jobs| ensures JobOk(next.jobs[i], 0, next.nextSeq) {
      assert JobOk(s.jobs[i], 0, s.nextSeq);
      assert next.jobs[i] == ClaimedJob(s.jobs, op.worker, op.now, op.leaseMs, w, i);
    }
    StepKeepsJobs(s, op, next, r);
  }

  lemma EnqueueKeepsOk(s: State, op: Op, next: State, r: Receipt)
    requires StateOk(s) && op.Enqueue? && OpOk(op) && Step(s, op, next, r)
    ensures StateOk(next)
  {
    forall i | 0 <= i < |s.jobs| ensures JobOk(s.jobs[i], 0, s.nextSeq) { }
  }

  lemma SettleKeepsOk(s: State, id: JobId, worker: string, now: int, status: Status, next: State, r: Receipt)
    requires StateOk(s) && (status.Done? || status.Ready?) && SettleStep(s, id, worker, now, status, next, r)
    ensures StateOk(next)
  {
    forall i | 0 <= i < |s.jobs| ensures JobOk(s.jobs[i], 0, s.nextSeq) { }
  }

  lemma RestartKeepsOk(s: State, op: Op, next: State, r: Receipt)
    requires StateOk(s) && op.Restart? && OpOk(op) && Step(s, op, next, r)
    ensures StateOk(next)
  {
    forall i | 0 <= i < |s.jobs| ensures JobOk(s.jobs[i], 0, s.nextSeq) { }
  }

  /** Every transition keeps the state check true. */
  lemma StepKeepsOk(s: State, op: Op, next: State, r: Receipt)
    requires StateOk(s) && Step(s, op, next, r)
    ensures StateOk(next)
  {
    if OpOk(op) {
      match op
      case Claim(_, _, _) => ClaimKeepsOk(s, op, next, r);
      case Enqueue(_, _, _) => EnqueueKeepsOk(s, op, next, r);
      case Ack(id, worker, now) => SettleKeepsOk(s, id, worker, now, Done, next, r);
      case Nack(id, worker, now) => SettleKeepsOk(s, id, worker, now, Ready, next, r);
      case Restart(_, _) => RestartKeepsOk(s, op, next, r);
    }
  }

  // ---------- runs ----------

  datatype Run = Start | Then(run: Run, op: Op, state: State, receipt: Receipt) {
    function Last(): State { if Start? then State([], 0) else state }

    ghost predicate Valid() { Then? ==> run.Valid() && Step(run.Last(), op, state, receipt) }

    // The leases granted on a job
    function Leases(id: JobId): nat {
      if Start? then 0 else run.Leases(id) + if Grants(op, receipt, id) then 1 else 0
    }

    // The acks on a job that succeeded
    function Acks(id: JobId): nat {
      if Start? then 0 else run.Acks(id) + if op.Ack? && op.id == id && receipt.Touched? then 1 else 0
    }

    // The expiry of the last lease granted on a job and not given back since
    function OpenLease(id: JobId): Option<int> {
      if Start? then None
      else if Grants(op, receipt, id) then receipt.job.value.expires
      else if GivesBack(op, receipt, id) then None
      else run.OpenLease(id)
    }

    // The first enqueue under this key
    function First(key: string): (first: Option<Op>)
      ensures first.Some? ==> first.value.Enqueue? && first.value.key == key
    {
      if Start? then None
      else if run.First(key).Some? then run.First(key)
      else if op.Enqueue? && op.key == key && receipt.Touched? then Some(op)
      else None
    }

    // The worker of that lease, as long as the job has not died under it
    function Holder(id: JobId): Option<string> {
      if Start? then None
      else if Grants(op, receipt, id) then Some(op.worker)
      else if GivesBack(op, receipt, id) || Died(state, id) then None
      else run.Holder(id)
    }
  }

  predicate Grants(op: Op, r: Receipt, id: JobId) {
    op.Claim? && r.Touched? && r.job.Some? && r.job.value.id == id
  }

  predicate GivesBack(op: Op, r: Receipt, id: JobId) {
    || ((op.Ack? || op.Nack?) && op.id == id && r.Touched?)
    || (r.Released? && id in r.ids)
  }

  predicate Died(s: State, id: JobId) { JobWith(s, id).Some? && JobWith(s, id).value.status.Dead? }

  function JobWith(s: State, id: JobId): Option<Job> {
    var i := IndexOf(s.jobs, id);
    if i < |s.jobs| then Some(s.jobs[i]) else None
  }

  /** In every run the state passes the check. */
  lemma {:induction false} RunOk(run: Run)
    requires run.Valid()
    ensures StateOk(run.Last())
  {
    if run.Then? {
      RunOk(run.run);
      StepKeepsOk(run.run.Last(), run.op, run.state, run.receipt);
    }
  }

  lemma {:induction false} ReleasedAre(jobs: seq<Job>, worker: string, now: int, id: JobId)
    ensures id in ReleasedIds(jobs, worker, now) <==>
              exists i :: 0 <= i < |jobs| && jobs[i].id == id && HeldBy(jobs[i], worker, now)
  {
    if jobs != [] {
      ReleasedAre(jobs[..|jobs| - 1], worker, now, id);
    }
  }

  // The job with `id` before and after a transition, and what the receipt says about it
  ghost predicate JobStep(before: Option<Job>, op: Op, r: Receipt, id: JobId, after: Option<Job>) {
    && (Grants(op, r, id) ==>
          && before.Some? && Leasable(before.value, op.now)
          && after == Some(Grant(before.value, op.worker, op.now + op.leaseMs)))
    && (GivesBack(op, r, id) ==>
          && before.Some? && before.value.status.Leased?
          && after == Some(Settle(before.value, if op.Ack? then Done else Ready)))
    && (!Grants(op, r, id) && !GivesBack(op, r, id) ==>
          || after == before
          || (before.None? && after.Some? && after.value.status.Ready? && after.value.attempts == 0)
          || (op.Claim? && before.Some? && Claimable(before.value, op.now) && before.value.attempts >= MAX_ATTEMPTS
              && after == Some(Settle(before.value, Dead))))
  }

  lemma SameIndex(s: State, next: State, id: JobId)
    requires SameJobs(s, next) && StateOk(next)
    ensures IndexOf(s.jobs, id) < |s.jobs| ==> IndexOf(next.jobs, id) == IndexOf(s.jobs, id)
  {
    var i := IndexOf(s.jobs, id);
    if i < |s.jobs| { assert next.jobs[i].id == id; }
  }

  lemma StepOnJob(s: State, op: Op, next: State, r: Receipt, id: JobId)
    requires StateOk(s) && Step(s, op, next, r)
    ensures JobStep(JobWith(s, id), op, r, id, JobWith(next, id))
  {
    StepKeepsOk(s, op, next, r);
    StepKeepsJobs(s, op, next, r);
    SameIndex(s, next, id);
    if OpOk(op) {
      match op
      case Enqueue(_, _, _) => EnqueueOnJob(s, op, next, r, id);
      case Claim(_, _, _) => ClaimOnJob(s, op, next, r, id);
      case Restart(_, _) => RestartOnJob(s, op, next, r, id);
      case Ack(_, _, _) => SettleOnJob(s, op, next, r, id);
      case Nack(_, _, _) => SettleOnJob(s, op, next, r, id);
    }
  }

  lemma RestartOnJob(s: State, op: Op, next: State, r: Receipt, id: JobId)
    requires op.Restart? && OpOk(op) && StateOk(s) && StateOk(next) && SameJobs(s, next) && Step(s, op, next, r)
    ensures JobStep(JobWith(s, id), op, r, id, JobWith(next, id))
  {
    ReleasedAre(s.jobs, op.worker, op.now, id);
    SameIndex(s, next, id);
    SameIndex(next, s, id);
    var i := IndexOf(s.jobs, id);
    if i < |s.jobs| {
      assert next.jobs[i] == Restarted(s.jobs[i], op.worker, op.now);
      assert forall k :: 0 <= k < |s.jobs| && s.jobs[k].id == id ==> k == i;
    }
  }

  lemma SettleOnJob(s: State, op: Op, next: State, r: Receipt, id: JobId)
    requires (op.Ack? || op.Nack?) && OpOk(op) && StateOk(s) && StateOk(next) && SameJobs(s, next)
    requires Step(s, op, next, r)
    ensures JobStep(JobWith(s, id), op, r, id, JobWith(next, id))
  {
    SameIndex(s, next, id);
    SameIndex(next, s, id);
  }

  lemma EnqueueOnJob(s: State, op: Op, next: State, r: Receipt, id: JobId)
    requires op.Enqueue? && OpOk(op) && StateOk(s) && StateOk(next) && SameJobs(s, next) && Step(s, op, next, r)
    requires IndexOf(s.jobs, id) < |s.jobs| ==> IndexOf(next.jobs, id) == IndexOf(s.jobs, id)
    ensures JobStep(JobWith(s, id), op, r, id, JobWith(next, id))
  {
  }

  // The job at `i` in a claim with winner `w`
  lemma ClaimedAt(s: State, op: Op, next: State, w: nat, r: Receipt, i: nat)
    requires op.Claim? && StateOk(s) && IsClaim(s.jobs, op.worker, op.now, op.leaseMs, w, next.jobs) && i < |s.jobs|
    requires r == Touched(if w < |s.jobs| then Some(next.jobs[w]) else None)
    ensures JobStep(Some(s.jobs[i]), op, r, s.jobs[i].id, Some(next.jobs[i]))
  {
    assert next.jobs[i] == ClaimedJob(s.jobs, op.worker, op.now, op.leaseMs, w, i);
    if w < |s.jobs| {
      assert next.jobs[w] == ClaimedJob(s.jobs, op.worker, op.now, op.leaseMs, w, w);
      assert w != i ==> s.jobs[w].id != s.jobs[i].id;
    }
  }

  lemma ClaimOnJob(s: State, op: Op, next: State, r: Receipt, id: JobId)
    requires op.Claim? && OpOk(op) && StateOk(s) && StateOk(next) && SameJobs(s, next) && Step(s, op, next, r)
    ensures JobStep(JobWith(s, id), op, r, id, JobWith(next, id))
  {
    var w: nat :|
      && IsClaim(s.jobs, op.worker, op.now, op.leaseMs, w, next.jobs)
      && r == Touched(if w < |s.jobs| then Some(next.jobs[w]) else None);
    SameIndex(s, next, id);
    SameIndex(next, s, id);
    var i := IndexOf(s.jobs, id);
    if i < |s.jobs| {
      ClaimedAt(s, op, next, w, r, i);
    } else if w < |s.jobs| {
      assert next.jobs[w].id == s.jobs[w].id;
    }
  }

  /** Over every run: a job's attempts are the leases granted on it, never more than the limit; it
      is done exactly when one ack on it has succeeded, and no second one can. */
  lemma {:induction false} LeasesAndAcks(run: Run, id: JobId)
    requires run.Valid()
    ensures var job := JobWith(run.Last(), id);
            && run.Leases(id) == (if job.Some? then job.value.attempts else 0) <= MAX_ATTEMPTS
            && run.Acks(id) == if job.Some? && job.value.status.Done? then 1 else 0
  {
    RunOk(run);
    if run.Then? {
      LeasesAndAcks(run.run, id);
      RunOk(run.run);
      StepOnJob(run.run.Last(), run.op, run.state, run.receipt, id);
    }
  }

  /** The open lease of a run is the lease the state holds. */
  lemma {:induction false} OpenLeaseIsHeld(run: Run, id: JobId)
    requires run.Valid()
    ensures var job := JobWith(run.Last(), id);
            && (job.Some? && job.value.status.Leased? ==>
                  run.OpenLease(id) == job.value.expires && run.OpenLease(id).Some?)
            && (job.None? || job.value.status.Ready? ==> run.OpenLease(id).None?)
  {
    RunOk(run);
    if run.Then? {
      OpenLeaseIsHeld(run.run, id);
      RunOk(run.run);
      StepOnJob(run.run.Last(), run.op, run.state, run.receipt, id);
    }
  }

  /** The worker holding a job is the one its last lease was granted to. */
  lemma {:induction false} HolderIsOwner(run: Run, id: JobId)
    requires run.Valid()
    ensures var job := JobWith(run.Last(), id);
            run.Holder(id) == if job.Some? && job.value.status.Leased? then job.value.owner else None
  {
    if run.Then? {
      HolderIsOwner(run.run, id);
      RunOk(run.run);
      RunOk(run);
      StepOnJob(run.run.Last(), run.op, run.state, run.receipt, id);
    }
  }

  // The lease of this worker on the job is open and not yet expired.
  predicate MaySettle(run: Run, id: JobId, worker: string, now: int) {
    run.Holder(id) == Some(worker) && run.OpenLease(id).Some? && now < run.OpenLease(id).value
  }

  lemma HeldIsSettleable(run: Run, id: JobId, worker: string, now: int)
    requires run.Valid()
    ensures MaySettle(run, id, worker, now) <==>
              JobWith(run.Last(), id).Some? && HeldBy(JobWith(run.Last(), id).value, worker, now)
  {
    HolderIsOwner(run, id);
    OpenLeaseIsHeld(run, id);
    RunOk(run);
    var job := JobWith(run.Last(), id);
    if job.Some? { assert job.value in run.Last().jobs; }
  }

  /** Over every run: an ack or a nack on a known job goes through exactly when its worker was the last to be granted
      the job, has not given it back, and is in time; any other is a lease conflict. */
  lemma OnlyHolderSettles(run: Run)
    requires run.Valid() && run.Then? && (run.op.Ack? || run.op.Nack?) && OpOk(run.op)
    ensures JobWith(run.run.Last(), run.op.id).None? ==> run.receipt == Rejected(UnknownJob)
    ensures JobWith(run.run.Last(), run.op.id).Some? ==>
              && (run.receipt.Touched? <==> MaySettle(run.run, run.op.id, run.op.worker, run.op.now))
              && (run.receipt.Touched? || run.receipt == Rejected(LeaseConflict))
  {
    RunOk(run.run);
    HeldIsSettleable(run.run, run.op.id, run.op.worker, run.op.now);
  }

  /** A restart gives back exactly the jobs its worker holds in time. */
  lemma RestartReleases(run: Run, id: JobId)
    requires run.Valid() && run.Then? && run.op.Restart? && OpOk(run.op)
    ensures run.receipt.Released? && (id in run.receipt.ids <==> MaySettle(run.run, id, run.op.worker, run.op.now))
  {
    RunOk(run.run);
    ReleasedAre(run.run.Last().jobs, run.op.worker, run.op.now, id);
    HeldIsSettleable(run.run, id, run.op.worker, run.op.now);
    JobIs(run.run.Last(), id);
  }

  lemma JobIs(s: State, id: JobId)
    requires StateOk(s)
    ensures forall i :: 0 <= i < |s.jobs| && s.jobs[i].id == id ==> JobWith(s, id) == Some(s.jobs[i])
  {
  }

  // By its history: enqueued, not acked, not dead, and no lease on it runs beyond `now`
  ghost predicate Waiting(run: Run, id: JobId, now: int) {
    && run.First(id.key).Some? && run.Acks(id) == 0 && !Died(run.Last(), id)
    && (run.OpenLease(id).Some? ==> run.OpenLease(id).value <= now)
  }

  // A smaller priority number goes first, and among equals the job that was enqueued first.
  predicate Sooner(a: Job, b: Job) { a.priority < b.priority || (a.priority == b.priority && a.seqNo < b.seqNo) }

  /** A job is there once its key was enqueued, as that first enqueue gave it, numbered in order of enqueueing. */
  lemma {:induction false} JobIsFirst(run: Run, key: string)
    requires run.Valid()
    ensures JobWith(run.Last(), JobOf(key)).Some? <==> run.First(key).Some?
    ensures run.First(key).Some? ==>
              var job, op := JobWith(run.Last(), JobOf(key)).value, run.First(key).value;
              job.priority == op.priority && job.payload == op.payload
    ensures run.Last().nextSeq == |run.Last().jobs|
    ensures forall i :: 0 <= i < |run.Last().jobs| ==> run.Last().jobs[i].seqNo == i
  {
    if run.Then? {
      JobIsFirst(run.run, key);
      RunOk(run.run);
      RunOk(run);
      StepKeepsJobs(run.run.Last(), run.op, run.state, run.receipt);
      SameIndex(run.run.Last(), run.state, JobOf(key));
      StepEnqueues(run.run.Last(), run.op, run.state, run.receipt, JobOf(key));
    }
  }

  lemma StepEnqueues(s: State, op: Op, next: State, r: Receipt, id: JobId)
    requires StateOk(s) && StateOk(next) && Step(s, op, next, r)
    ensures !(op.Enqueue? && JobOf(op.key) == id && r.Touched?) ==> (JobWith(next, id).Some? <==> JobWith(s, id).Some?)
    ensures op.Enqueue? && JobOf(op.key) == id && r.Touched? && JobWith(s, id).None? ==>
              JobWith(next, id) == Some(FreshJob(s, op))
    ensures next.nextSeq - s.nextSeq == |next.jobs| - |s.jobs|
    ensures |s.jobs| < |next.jobs| ==> next.jobs[..|s.jobs|] == s.jobs && |next.jobs| == |s.jobs| + 1
    ensures |s.jobs| < |next.jobs| ==> next.jobs[|s.jobs|].seqNo == s.nextSeq
  {
    StepKeepsJobs(s, op, next, r);
    SameIndex(s, next, id);
    if |s.jobs| == |next.jobs| {
      SameIndexBack(s, next, id);
    } else {
      AddedIndex(s.jobs, FreshJob(s, op), id);
    }
  }

  lemma AddedIndex(jobs: seq<Job>, job: Job, id: JobId)
    ensures IndexOf(jobs, id) == |jobs| && job.id == id ==> IndexOf(jobs + [job], id) == |jobs|
    ensures IndexOf(jobs, id) == |jobs| && job.id != id ==> IndexOf(jobs + [job], id) == |jobs| + 1
  {
    var more := jobs + [job];
    var k := IndexOf(more, id);
    assert forall i :: 0 <= i < |jobs| ==> more[i] == jobs[i];
    assert more[|jobs|] == job;
  }

  lemma SameIndexBack(s: State, next: State, id: JobId)
    requires SameJobs(s, next) && StateOk(s) && |s.jobs| == |next.jobs|
    ensures JobWith(next, id).Some? ==> JobWith(s, id).Some?
  {
    var i := IndexOf(next.jobs, id);
    if i < |next.jobs| { assert s.jobs[i].id == id; }
  }

  /** Over every run: enqueueing a key again gives the job back when priority and payload are those of its first
      enqueue, and is refused otherwise; a new key is taken as long as there is room. */
  lemma EnqueueOnce(run: Run)
    requires run.Valid() && run.Then? && run.op.Enqueue? && OpOk(run.op)
    ensures match run.run.First(run.op.key)
            case Some(first) =>
              && run.state == run.run.Last()
              && (run.receipt.Touched? <==> first.priority == run.op.priority && first.payload == run.op.payload)
              && (run.receipt.Touched? || run.receipt == Rejected(DedupeConflict))
            case None =>
              && (run.receipt.Touched? <==> |run.run.Last().jobs| < 10000 && run.run.Last().nextSeq < 9007199254740991)
              && (run.receipt.Touched? || run.receipt == Rejected(CapacityExceeded))
  {
    RunOk(run.run);
    JobIsFirst(run.run, run.op.key);
  }

  lemma WaitingIs(run: Run, id: JobId, now: int)
    requires run.Valid()
    ensures Waiting(run, id, now) <==> JobWith(run.Last(), id).Some? && Claimable(JobWith(run.Last(), id).value, now)
    ensures JobWith(run.Last(), id).Some? ==> run.Leases(id) == JobWith(run.Last(), id).value.attempts
  {
    JobIsFirst(run, id.key);
    assert id == JobOf(id.key);
    LeasesAndAcks(run, id);
    OpenLeaseIsHeld(run, id);
    HolderIsOwner(run, id);
    RunOk(run);
    if JobWith(run.Last(), id).Some? { assert JobWith(run.Last(), id).value in run.Last().jobs; }
  }

  /** Over every run: a claim grants the soonest of the waiting jobs that had fewer than five leases, and nothing only
      if there is none. */
  lemma ClaimTakesFirst(run: Run, id: JobId)
    requires run.Valid() && run.Then? && run.op.Claim? && OpOk(run.op)
    ensures run.receipt.Touched?
    ensures run.receipt.job.Some? ==>
              && Waiting(run.run, run.receipt.job.value.id, run.op.now)
              && run.run.Leases(run.receipt.job.value.id) < 5
    ensures Waiting(run.run, id, run.op.now) && run.run.Leases(id) < 5 ==>
              && run.receipt.job.Some? && JobWith(run.run.Last(), id).Some?
              && (id == run.receipt.job.value.id ||
                  Sooner(run.receipt.job.value, JobWith(run.run.Last(), id).value))
  {
    var s := run.run.Last();
    RunOk(run.run);
    RunOk(run);
    WaitingIs(run.run, id, run.op.now);
    var w := WinnerOf(run);
    if w < |s.jobs| {
      JobIs(s, s.jobs[w].id);
      WaitingIs(run.run, s.jobs[w].id, run.op.now);
    }
  }

  lemma WinnerOf(run: Run) returns (w: nat)
    requires run.Valid() && run.Then? && run.op.Claim? && OpOk(run.op) && StateOk(run.run.Last())
    ensures IsClaim(run.run.Last().jobs, run.op.worker, run.op.now, run.op.leaseMs, w, run.state.jobs)
    ensures run.receipt == Touched(if w < |run.run.Last().jobs| then Some(run.state.jobs[w]) else None)
    ensures w < |run.run.Last().jobs| ==>
              var a, b := run.run.Last().jobs[w], run.state.jobs[w];
              a.id == b.id && a.seqNo == b.seqNo && a.priority == b.priority
  {
    var s, op := run.run.Last(), run.op;
    w :| && IsClaim(s.jobs, op.worker, op.now, op.leaseMs, w, run.state.jobs)
         && run.receipt == Touched(if w < |s.jobs| then Some(run.state.jobs[w]) else None);
    if w < |s.jobs| { assert run.state.jobs[w] == ClaimedJob(s.jobs, op.worker, op.now, op.leaseMs, w, w); }
  }

  /** ... and in it die exactly the waiting jobs that have had all their leases and come sooner than the one granted. */
  lemma ClaimKills(run: Run, id: JobId)
    requires run.Valid() && run.Then? && run.op.Claim? && OpOk(run.op)
    ensures !Died(run.run.Last(), id) && Died(run.state, id) <==>
              && Waiting(run.run, id, run.op.now) && run.run.Leases(id) == 5 && run.receipt.Touched?
              && JobWith(run.run.Last(), id).Some?
              && (run.receipt.job.Some? ==> Sooner(JobWith(run.run.Last(), id).value, run.receipt.job.value))
  {
    var s := run.run.Last();
    RunOk(run.run);
    RunOk(run);
    WaitingIs(run.run, id, run.op.now);
    var w := WinnerOf(run);
    StepKeepsJobs(s, run.op, run.state, run.receipt);
    SameIndex(s, run.state, id);
    SameIndexBack(s, run.state, id);
    var i := IndexOf(s.jobs, id);
    if i < |s.jobs| {
      assert JobOk(s.jobs[i], 0, s.nextSeq);
      assert run.state.jobs[i] == ClaimedJob(s.jobs, run.op.worker, run.op.now, run.op.leaseMs, w, i);
    }
  }

  /** A job whose lease was not given back is leased again only at or after that lease's expiry. */
  lemma NoEarlyRelease(run: Run, id: JobId)
    requires run.Valid() && run.Then? && Grants(run.op, run.receipt, id) && run.run.OpenLease(id).Some?
    ensures run.run.OpenLease(id).value <= run.op.now
  {
    RunOk(run.run);
    OpenLeaseIsHeld(run.run, id);
    StepOnJob(run.run.Last(), run.op, run.state, run.receipt, id);
  }

  /** Once done or dead, a job is untouched by every longer run. */
  lemma {:induction false} TerminalForever(early: Run, run: Run, id: JobId)
    requires run.Valid() && Extends(run, early)
    requires JobWith(early.Last(), id).Some? && JobWith(early.Last(), id).value.status in {Done, Dead}
    ensures JobWith(run.Last(), id) == JobWith(early.Last(), id)
    decreases run
  {
    if run != early {
      TerminalForever(early, run.run, id);
      RunOk(run.run);
      StepOnJob(run.run.Last(), run.op, run.state, run.receipt, id);
    }
  }

  predicate Extends(run: Run, early: Run) { run == early || (run.Then? && Extends(run.run, early)) }

  /** A second restart of the same worker at the same time releases nothing. */
  lemma SecondRestartIdle(s: State, worker: string, now: int, a: State, p: Receipt, b: State, q: Receipt)
    requires OpOk(Restart(worker, now)) && StateOk(s)
    requires Step(s, Restart(worker, now), a, p) && Step(a, Restart(worker, now), b, q)
    ensures b == a && q == Released([])
  {
    StepKeepsOk(s, Restart(worker, now), a, p);
    forall i | 0 <= i < |a.jobs|
      ensures !HeldBy(a.jobs[i], worker, now)
    {
      assert a.jobs[i] == Restarted(s.jobs[i], worker, now);
    }
    NoneHeld(a.jobs, worker, now);
    assert b.jobs == a.jobs;
  }

  lemma {:induction false} NoneHeld(jobs: seq<Job>, worker: string, now: int)
    requires forall i :: 0 <= i < |jobs| ==> !HeldBy(jobs[i], worker, now)
    ensures ReleasedIds(jobs, worker, now) == []
  {
    if jobs != [] { NoneHeld(jobs[..|jobs| - 1], worker, now); }
  }

  // ---------- which jobs the state check lets through ----------

  // All that the check says of a job but where it stands
  predicate JobFits(j: Job) { JobOk(j.(seqNo := 0), 0, 1) }

  ghost predicate Reached(j: Job) {
    exists run: Run, k: nat :: run.Valid() && k < |run.Last().jobs| && Alike(j, run.Last().jobs[k])
  }

  // The same but for its id and its number
  predicate Alike(j: Job, k: Job) { k == j.(id := k.id, seqNo := k.seqNo) }

  function Alone(j: Job): State { State([j.(id := JobOf("j"), seqNo := 0)], 1) }

  // A run that has come to one job, this one
  ghost predicate ComesTo(run: Run, j: Job) { run.Valid() && run.Last() == Alone(j) }

  lemma Enqueues(j: Job) returns (run: Run)
    requires JobFits(j) && j.status.Ready? && j.attempts == 0
    ensures ComesTo(run, j)
  {
    var op, next := Enqueue("j", j.priority, j.payload), Alone(j);
    assert next.jobs[0] == FreshJob(State([], 0), op);
    assert Step(State([], 0), op, next, Touched(Some(next.jobs[0])));
    run := Then(Start, op, next, Touched(Some(next.jobs[0])));
  }

  lemma AloneOk(j: Job)
    requires JobFits(j)
    ensures StateOk(Alone(j)) && IndexOf(Alone(j).jobs, JobOf("j")) == 0
  {
  }

  lemma Claims(before: Run, j: Job, worker: string, expiry: int) returns (run: Run)
    requires ComesTo(before, j) && JobFits(j) && j.status.Ready? && j.attempts < MAX_ATTEMPTS
    requires TokenOk(worker, 64) && 1 <= expiry <= MAX_NOW
    ensures ComesTo(run, Grant(j, worker, expiry))
  {
    AloneOk(j);
    var s, next, op := Alone(j), Alone(Grant(j, worker, expiry)), Claim(worker, expiry - 1, 1);
    assert IsWinner(s.jobs, expiry - 1, 0);
    assert next.jobs[0] == ClaimedJob(s.jobs, worker, expiry - 1, 1, 0, 0);
    assert IsClaim(s.jobs, worker, expiry - 1, 1, 0, next.jobs);
    run := Then(before, op, next, Touched(Some(next.jobs[0])));
  }

  lemma Settles(before: Run, j: Job, done: bool) returns (run: Run)
    requires ComesTo(before, j) && JobFits(j) && j.status.Leased?
    ensures ComesTo(run, Settle(j, if done then Done else Ready))
  {
    AloneOk(j);
    var status := if done then Done else Ready;
    var s, next, now := Alone(j), Alone(Settle(j, status)), j.expires.value - 1;
    var op := if done then Ack(JobOf("j"), j.owner.value, now) else Nack(JobOf("j"), j.owner.value, now);
    assert HeldBy(s.jobs[0], j.owner.value, now);
    assert next.jobs == s.jobs[0 := Settle(s.jobs[0], status)];
    assert SettleStep(s, JobOf("j"), j.owner.value, now, status, next, Touched(Some(next.jobs[0])));
    run := Then(before, op, next, Touched(Some(next.jobs[0])));
  }

  lemma Dies(before: Run, j: Job) returns (run: Run)
    requires ComesTo(before, j) && JobFits(j) && j.status.Ready? && j.attempts == MAX_ATTEMPTS
    ensures ComesTo(run, Settle(j, Dead))
  {
    AloneOk(j);
    var s, next := Alone(j), Alone(Settle(j, Dead));
    assert IsWinner(s.jobs, 0, 1);
    assert next.jobs[0] == ClaimedJob(s.jobs, "w", 0, 1, 1, 0);
    assert IsClaim(s.jobs, "w", 0, 1, 1, next.jobs);
    run := Then(before, Claim("w", 0, 1), next, Touched(None));
  }

  // Claimed and given back, time after time
  lemma {:induction false} MadeReady(j: Job) returns (run: Run)
    requires JobFits(j) && j.status.Ready?
    ensures ComesTo(run, j)
    decreases j.attempts
  {
    if j.attempts == 0 {
      run := Enqueues(j);
    } else {
      var less := j.(attempts := j.attempts - 1);
      run := MadeReady(less);
      run := Claims(run, less, "w", 1);
      run := Settles(run, Grant(less, "w", 1), false);
    }
  }

  lemma JobBuilt(j: Job) returns (run: Run)
    requires JobFits(j)
    ensures ComesTo(run, j)
  {
    match j.status
    case Ready => run := MadeReady(j);
    case Leased =>
      var before := Settle(j.(attempts := j.attempts - 1), Ready);
      run := MadeReady(before);
      run := Claims(run, before, j.owner.value, j.expires.value);
    case Done =>
      var before := j.(attempts := j.attempts - 1, status := Ready);
      run := MadeReady(before);
      run := Claims(run, before, "w", 1);
      run := Settles(run, Grant(before, "w", 1), true);
    case Dead =>
      run := MadeReady(j.(status := Ready));
      run := Dies(run, j.(status := Ready));
  }

  /** The state check lets through exactly the jobs that runs make: any status, attempts, owner and expiry that it
      allows together can be reached, and no others are. */
  lemma JobExactly(j: Job)
    ensures JobFits(j) <==> Reached(j)
  {
    if JobFits(j) {
      var run := JobBuilt(j);
      assert Alike(j, run.Last().jobs[0]);
    }
    if run: Run, k: nat :| run.Valid() && k < |run.Last().jobs| && Alike(j, run.Last().jobs[k]) {
      RunOk(run);
      assert JobOk(run.Last().jobs[k], 0, run.Last().nextSeq);
    }
  }
}
