/** The whole keyed call (`server/jobs_idempotency.py`): the transition on detached copies (`JobsKeyed`), between the
    guards and the commit on the heap (`JobsHeap`). */
module JobsEngine {
  import opened WalHeap
  import Wal
  import opened Queue
  import opened JobsKeyed
  import opened JobsHeap

  // What the fingerprinter has answered, if it returned a text at all
  function Answer(prepared: Wal.Option<string>, read: string -> Finger): Queue.Option<Finger> {
    if prepared.Some? then Queue.Some(read(prepared.value)) else Queue.None
  }

  // The checks of request, state and ledger come before the look at shared containers.
  ghost predicate SharedReply(s: State, stamps: seq<Stamp>, q: Keyed, reply: Reply) {
    reply == Failed(
      if KeyedOk(q) && !StateOk(s) then QueueCorrupt
      else if KeyedOk(q) && !LedgerOk(stamps, IdOfState(s)) then CorruptLedger
      else MalformedKeyed)
  }

  // The keyed layer run on the copies
  method Decide(s: State, stamps: seq<Stamp>, q: Keyed, answer: Queue.Option<Finger>, separate: bool,
                fields: State -> map<string, Value>, receipt: Stamp -> map<string, Value>)
    returns (reply: Reply, decision: Decision, ghost next: State, ghost after: seq<Stamp>)
    ensures separate ==> KeyedStep(s, stamps, q, answer, reply, next, after)
    ensures !separate ==> SharedReply(s, stamps, q, reply)
    ensures decision.Commit? <==> reply.Applied?
    ensures reply.Applied? ==>
              && separate && answer.Some? && after == stamps + [reply.stamp]
              && decision == Commit(fields(next), receipt(reply.stamp))
  {
    var copy := new KeyedQueue();
    copy.state, copy.ledger := s, stamps;
    reply := copy.Apply(q, answer);
    next, after := copy.state, copy.ledger;
    if reply.Applied? { StepAdds(s, stamps, q, answer, reply, next, after); }
    if !separate && !(reply.Failed? && reply.fault in {QueueCorrupt, CorruptLedger}) {
      reply := Failed(MalformedKeyed);
    }
    decision := match reply
      case Applied(stamp) => Commit(fields(copy.state), receipt(stamp))
      case Replayed(_) => Repeat
      case Failed(_) => Refuse;
  }

  /** `s`, `stamps` and `q` are what the frozen copies of state, ledger and request spell; `fields` and `receipt` are
      how a state and a receipt are spelled again. The reply is that of the keyed layer on these, for every answer of
      the fingerprinter; if and only if a transition is made are state and ledger those of the keyed layer afterwards,
      and in every other case all that state, ledger and request held is as it was. */
  method Apply(state: Dict, ledger: List, request: Dict, s: State, stamps: seq<Stamp>, q: Keyed,
               prepared: Wal.Option<string>, read: string -> Finger,
               fields: State -> map<string, Value>, receipt: Stamp -> map<string, Value>,
               ghost was: Memory, ghost world: set<object>)
    returns (reply: Reply, ghost next: State, ghost after: seq<Stamp>)
    requires Current(was) && ClosedWorld(was.Keys) && Objects(was, world)
    requires Input(Obj(state), was) && Input(Arr(ledger), was) && Input(Obj(request), was)
    modifies world
    ensures old(Separate(state, ledger, request, was)) ==>
              KeyedStep(s, stamps, q, Answer(prepared, read), reply, next, after)
    ensures !old(Separate(state, ledger, request, was)) ==> SharedReply(s, stamps, q, reply)
    ensures forall c :: c in was && old(Reachable(Obj(request), c)) ==> JobsHeap.Held(c) == was[c]
    ensures forall c :: c in was && old(HeldByAny(state, ledger, request, c))
              ==> JobsHeap.Held(c) == was[c] || (reply.Applied? && c in {Obj(state), Arr(ledger)})
    ensures reply.Applied? ==>
              && state.items == fields(next) && after == stamps + [reply.stamp]
              && |ledger.items| == |old(ledger.items)| + 1 && ledger.items[..|old(ledger.items)|] == old(ledger.items)
              && Fresh(ledger.items[|old(ledger.items)|], receipt(reply.stamp))
  {
    var separate := CheckSeparate(state, ledger, request, was);
    var decision;
    reply, decision, next, after := Decide(s, stamps, q, Answer(prepared, read), separate, fields, receipt);
    var outcome := JobsHeap.Apply(state, ledger, request, decision, prepared, was, world);
    assert outcome.Applied? <==> reply.Applied?;
  }

  lemma StepAdds(s: State, stamps: seq<Stamp>, q: Keyed, answer: Queue.Option<Finger>, reply: Reply, next: State,
                 after: seq<Stamp>)
    requires KeyedStep(s, stamps, q, answer, reply, next, after) && reply.Applied?
    ensures after == stamps + [reply.stamp] && answer.Some?
  {
    var _ := Transition(s, stamps, q, answer, reply, next, after);
  }
}
