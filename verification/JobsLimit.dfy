/** The token-bucket rate limit (`server/jobs_limit.py`): one decision per request, chained records,
    exact integer time. */
module JobsLimit {

  datatype Option<+T> = None | Some(value: T)

  const MAX_CAPACITY: int := 1000000
  const MAX_REFILL: int := 86400000
  const MAX_NOW: int := 9007199254740991

  // The fields of a record but its id; the id is their hash, known by the fields alone
  datatype Body = Body(
    key: string, capacity: int, refillMs: int, cost: int, admitted: bool, tokens: int, updatedAt: int,
    retryAfter: Option<int>, previous: Option<LimitId>)

  datatype LimitId = HashOf(body: Body)

  datatype Record = Record(body: Body, id: LimitId)

  datatype Request = Request(key: string, cost: int, now: int, capacity: int, refillMs: int, previous: Option<Record>)

  datatype Failure = MalformedRequest | InvalidPolicy | CorruptPrevious | LimitConflict | ClockOverflow

  datatype Result = Decided(record: Record) | Refused(failure: Failure)

  predicate KeyOk(s: string) {
    1 <= |s| <= 64 && forall c :: c in s ==>
      ('A' <= c <= 'Z') || ('a' <= c <= 'z') || ('0' <= c <= '9') || c in {'.', '_', ':', '-'}
  }

  predicate RequestOk(q: Request) { KeyOk(q.key) && 1 <= q.cost <= MAX_CAPACITY && 0 <= q.now <= MAX_NOW }

  predicate PolicyOk(q: Request) { 1 <= q.capacity <= MAX_CAPACITY && 1 <= q.refillMs <= MAX_REFILL }

  predicate DenyOk(b: Body) {
    && b.retryAfter.Some? && 1 <= b.retryAfter.value <= MAX_NOW && b.tokens < b.cost
    && (b.cost - b.tokens - 1) * b.refillMs < b.retryAfter.value <= (b.cost - b.tokens) * b.refillMs
    && b.updatedAt + b.retryAfter.value <= MAX_NOW
  }

  predicate PreviousOk(p: Record) {
    var b := p.body;
    && KeyOk(b.key) && 1 <= b.capacity <= MAX_CAPACITY && 1 <= b.refillMs <= MAX_REFILL
    && 1 <= b.cost <= b.capacity && 0 <= b.tokens <= b.capacity && 0 <= b.updatedAt <= MAX_NOW
    && (if b.admitted then b.retryAfter.None? && b.tokens <= b.capacity - b.cost else DenyOk(b))
    && p.id == HashOf(b)
  }

  predicate ChainOk(q: Request, p: Record) {
    q.key == p.body.key && q.capacity == p.body.capacity && q.refillMs == p.body.refillMs && q.now >= p.body.updatedAt
  }

  // Tokens at a time, and the time up to which refills are counted in them
  datatype Bucket = Bucket(tokens: int, base: int)

  function Refill(capacity: int, refillMs: int, now: int, b: Bucket): Bucket
    requires refillMs > 0 && now >= b.base
  {
    var gained := (now - b.base) / refillMs;
    if b.tokens + gained >= capacity then Bucket(capacity, now)
    else Bucket(b.tokens + gained, b.base + gained * refillMs)
  }

  function BucketAt(q: Request): Bucket
    requires PolicyOk(q) && (q.previous.Some? ==> ChainOk(q, q.previous.value))
  {
    if q.previous.None? then Bucket(q.capacity, q.now)
    else Refill(q.capacity, q.refillMs, q.now, Bucket(q.previous.value.body.tokens, q.previous.value.body.updatedAt))
  }

  function Seal(b: Body): Record { Record(b, HashOf(b)) }

  function Admit(q: Request): Result {
    if !RequestOk(q) then Refused(MalformedRequest)
    else if !PolicyOk(q) then Refused(InvalidPolicy)
    else if q.cost > q.capacity then Refused(MalformedRequest)
    else if q.previous.Some? && !PreviousOk(q.previous.value) then Refused(CorruptPrevious)
    else if q.previous.Some? && !ChainOk(q, q.previous.value) then Refused(LimitConflict)
    else
      var b := BucketAt(q);
      var previous := if q.previous.Some? then Some(q.previous.value.id) else None;
      if b.tokens >= q.cost then
        Decided(Seal(Body(q.key, q.capacity, q.refillMs, q.cost, true, b.tokens - q.cost, b.base, None, previous)))
      else
        var retry := (q.cost - b.tokens) * q.refillMs - (q.now - b.base);
        if q.now + retry > MAX_NOW then Refused(ClockOverflow)
        else Decided(Seal(Body(q.key, q.capacity, q.refillMs, q.cost, false, b.tokens, b.base, Some(retry), previous)))
  }

  // ---------- whole refills ----------

  lemma WholeRefills(refillMs: int, elapsed: int)
    requires refillMs > 0 && elapsed >= 0
    ensures var g := elapsed / refillMs; g >= 0 && g * refillMs <= elapsed < g * refillMs + refillMs
  {
  }

  lemma TimesOrder(a: int, b: int, r: int)
    requires r > 0 && a <= b
    ensures a * r <= b * r
  {
  }

  lemma DivUnique(n: int, r: int, g: int)
    requires r > 0 && g * r <= n < g * r + r
    ensures n / r == g
  {
    var h := n / r;
    assert h * r <= n < h * r + r;
    assert (h + 1) * r == h * r + r && (g + 1) * r == g * r + r;
    if h < g { TimesOrder(h + 1, g, r); }
    if g < h { TimesOrder(g + 1, h, r); }
  }

  lemma RefillBounds(capacity: int, refillMs: int, now: int, b: Bucket)
    requires refillMs > 0 && now >= b.base && 0 <= b.tokens <= capacity
    ensures var c := Refill(capacity, refillMs, now, b);
            && b.tokens <= c.tokens <= capacity && b.base <= c.base <= now < c.base + refillMs
            && (c.tokens < capacity ==> c.tokens == b.tokens + (now - b.base) / refillMs)
  {
    WholeRefills(refillMs, now - b.base);
  }

  /** Every record produced passes the check of the next call. */
  lemma RecordsChain(q: Request)
    requires Admit(q).Decided?
    ensures PreviousOk(Admit(q).record) && Admit(q).record.body.updatedAt <= q.now
  {
    var b := BucketAt(q);
    if q.previous.Some? {
      var p := q.previous.value.body;
      RefillBounds(q.capacity, q.refillMs, q.now, Bucket(p.tokens, p.updatedAt));
    }
    if b.tokens < q.cost { DenyBounds(q.cost - b.tokens, q.refillMs, q.now - b.base); }
  }

  lemma DenyBounds(missing: int, r: int, since: int)
    requires missing > 0 && 0 <= since < r
    ensures (missing - 1) * r < missing * r - since <= missing * r && missing * r - since >= 1
  {
    assert (missing - 1) * r == missing * r - r;
    TimesOrder(1, missing, r);
  }

  lemma AddRefills(r: int, elapsed: int, g: int)
    requires r > 0 && 0 <= g * r <= elapsed
    ensures (elapsed - g * r) / r == elapsed / r - g
  {
    WholeRefills(r, elapsed);
    var h := elapsed / r;
    assert (h - g) * r == h * r - g * r;
    DivUnique(elapsed - g * r, r, h - g);
  }

  lemma SpendFloor(n: int, r: int, elapsed: int)
    requires r > 0 && n * r <= elapsed
    ensures n <= elapsed / r
  {
    var g := elapsed / r;
    assert elapsed < g * r + r;
    assert (g + 1) * r == g * r + r;
    if n > g { TimesOrder(g + 1, n, r); }
  }

  lemma MoreTimeMoreRefills(r: int, a: int, b: int)
    requires r > 0 && a <= b
    ensures a / r <= b / r
  {
    assert a / r * r <= a;
    SpendFloor(a / r, r, b);
  }

  lemma TimesLess(h: int, g: int, r: int)
    ensures (h - g) * r == h * r - g * r
  {
  }

  lemma RefillOn(capacity: int, r: int, now: int, later: int, b: Bucket)
    requires r > 0 && b.base <= now <= later && 0 <= b.tokens && b.tokens + (now - b.base) / r < capacity
    ensures Refill(capacity, r, now, b).base <= now
    ensures Refill(capacity, r, later, Refill(capacity, r, now, b)) == Refill(capacity, r, later, b)
  {
    var g, h := (now - b.base) / r, (later - b.base) / r;
    WholeRefills(r, now - b.base);
    var c := Refill(capacity, r, now, b);
    assert c == Bucket(b.tokens + g, b.base + g * r);
    AddRefills(r, later - b.base, g);
    assert (later - c.base) / r == h - g;
    TimesLess(h, g, r);
  }

  /** Counting refills in two steps or in one comes to the same bucket. */
  lemma RefillTwice(capacity: int, r: int, now: int, later: int, b: Bucket)
    requires r > 0 && b.base <= now <= later && 0 <= b.tokens <= capacity
    ensures Refill(capacity, r, now, b).base <= later
    ensures Refill(capacity, r, later, Refill(capacity, r, now, b)) == Refill(capacity, r, later, b)
  {
    if b.tokens + (now - b.base) / r < capacity {
      RefillOn(capacity, r, now, later, b);
    } else {
      MoreTimeMoreRefills(r, now - b.base, later - b.base);
      WholeRefills(r, later - now);
    }
  }

  // The same decision, the link to the previous record aside
  predicate SameDecision(a: Result, b: Result) {
    match (a, b)
    case (Refused(f), Refused(g)) => f == g
    case (Decided(x), Decided(y)) => x.body.(previous := None) == y.body.(previous := None)
    case _ => false
  }

  // ---------- denials dropped ----------

  predicate Denied(result: Result) { result.Decided? && !result.record.body.admitted }

  function BucketOf(p: Record): Bucket { Bucket(p.body.tokens, p.body.updatedAt) }

  predicate SamePolicy(p: Record, r: Record) {
    p.body.key == r.body.key && p.body.capacity == r.body.capacity && p.body.refillMs == r.body.refillMs
  }

  // `p` is what `r` comes to at time `t` when nothing is spent.
  predicate Aged(p: Record, r: Record, t: int) {
    && PreviousOk(p) && PreviousOk(r) && SamePolicy(p, r)
    && r.body.updatedAt <= t && BucketOf(p) == Refill(r.body.capacity, r.body.refillMs, t, BucketOf(r))
  }

  lemma SamePast(p: Record, r: Record, q: Request, t: int)
    requires Aged(p, r, t) && PolicyOk(q) && q.now >= t
    ensures ChainOk(q, p) <==> ChainOk(q, r)
    ensures ChainOk(q, r) ==> BucketAt(q.(previous := Some(p))) == BucketAt(q.(previous := Some(r)))
  {
    RefillBounds(r.body.capacity, r.body.refillMs, t, BucketOf(r));
    RefillTwice(r.body.capacity, r.body.refillMs, t, q.now, BucketOf(r));
  }

  // A denial counts whole refills up to a time at which `r` comes to the same.
  lemma DenialAged(r: Record, q: Request)
    requires PreviousOk(r) && Denied(Admit(q.(previous := Some(r))))
    ensures var d := Admit(q.(previous := Some(r))).record; Aged(d, r, d.body.updatedAt)
  {
    var d := Admit(q.(previous := Some(r))).record;
    RecordsChain(q.(previous := Some(r)));
    RefillBounds(q.capacity, q.refillMs, q.now, BucketOf(r));
    var g := (q.now - r.body.updatedAt) / q.refillMs;
    WholeRefills(q.refillMs, q.now - r.body.updatedAt);
    DivUnique(g * q.refillMs, q.refillMs, g);
  }

  // A request at `t` or later is decided alike on both.
  lemma AgedDecides(p: Record, r: Record, q: Request, t: int)
    requires Aged(p, r, t) && q.now >= t
    ensures SameDecision(Admit(q.(previous := Some(p))), Admit(q.(previous := Some(r))))
  {
    if RequestOk(q) && PolicyOk(q) { SamePast(p, r, q, t); }
  }

  // Records that differ in their link only
  predicate Twins(p: Record, r: Record) {
    PreviousOk(p) && PreviousOk(r) && p.body.(previous := None) == r.body.(previous := None)
  }

  lemma TwinsDecide(p: Record, r: Record, q: Request)
    requires Twins(p, r)
    ensures SameDecision(Admit(q.(previous := Some(p))), Admit(q.(previous := Some(r))))
  {
  }

  lemma DecidedTwins(a: Request, b: Request)
    requires SameDecision(Admit(a), Admit(b)) && Admit(a).Decided?
    ensures Twins(Admit(a).record, Admit(b).record)
  {
    RecordsChain(a);
    RecordsChain(b);
  }

  // Denied on `p`, a request is denied on `r` too, and either denial is what `r` comes to by then.
  lemma DeniedAged(p: Record, r: Record, q: Request)
    requires PreviousOk(p) && PreviousOk(r) && Denied(Admit(q.(previous := Some(p))))
    requires SameDecision(Admit(q.(previous := Some(p))), Admit(q.(previous := Some(r))))
    ensures var d := Admit(q.(previous := Some(p))).record; Aged(d, r, d.body.updatedAt)
  {
    DenialAged(r, q);
    RecordsChain(q.(previous := Some(p)));
  }

  lemma DenyHasPrevious(q: Request)
    requires Admit(q).Decided? && !Admit(q).record.body.admitted
    ensures q.previous.Some?
  {
  }

  function Link(result: Result, previous: Option<Record>): Option<Record> {
    if result.Decided? then Some(result.record) else previous
  }

  // The decisions on requests in a row, each linked to the last record produced
  function Decisions(previous: Option<Record>, qs: seq<Request>): (r: seq<Result>)
    ensures |r| == |qs|
    decreases |qs|
  {
    if qs == [] then []
    else
      var result := Admit(qs[0].(previous := previous));
      [result] + Decisions(Link(result, previous), qs[1..])
  }

  function Kept<T>(xs: seq<T>, keep: seq<bool>): seq<T>
    requires |xs| == |keep|
  {
    if xs == [] then [] else (if keep[0] then [xs[0]] else []) + Kept(xs[1..], keep[1..])
  }

  // Only denials are dropped, and time does not go back behind the refills counted in one that is.
  predicate DropsDenials(qs: seq<Request>, results: seq<Result>, keep: seq<bool>)
    requires |qs| == |results| == |keep|
  {
    forall i :: 0 <= i < |qs| && !keep[i] ==>
      Denied(results[i]) && forall j :: i < j < |qs| ==> results[i].record.body.updatedAt <= qs[j].now
  }

  predicate AllSame(a: seq<Result>, b: seq<Result>) {
    |a| == |b| && forall i :: 0 <= i < |a| ==> SameDecision(a[i], b[i])
  }

  // What the chain with denials and the chain without may be linked to before `qs`
  ghost predicate Linked(p: Option<Record>, r: Option<Record>, qs: seq<Request>) {
    || p == r
    || (p.Some? && r.Some? && Twins(p.value, r.value))
    || (p.Some? && r.Some? && exists t :: Aged(p.value, r.value, t) && forall i :: 0 <= i < |qs| ==> t <= qs[i].now)
  }

  lemma LinkedDecide(p: Option<Record>, r: Option<Record>, qs: seq<Request>)
    requires qs != [] && Linked(p, r, qs)
    ensures SameDecision(Admit(qs[0].(previous := p)), Admit(qs[0].(previous := r)))
    ensures Linked(Link(Admit(qs[0].(previous := p)), p), Link(Admit(qs[0].(previous := r)), r), qs[1..])
  {
    var a, b := qs[0].(previous := p), qs[0].(previous := r);
    if p != r {
      if Twins(p.value, r.value) {
        TwinsDecide(p.value, r.value, qs[0]);
      } else {
        var t :| Aged(p.value, r.value, t) && forall i :: 0 <= i < |qs| ==> t <= qs[i].now;
        AgedDecides(p.value, r.value, qs[0], t);
        assert forall i :: 0 <= i < |qs[1..]| ==> t <= qs[1..][i].now;
      }
    }
    if Admit(a).Decided? { DecidedTwins(a, b); }
  }

  lemma LinkedDrop(p: Option<Record>, r: Option<Record>, qs: seq<Request>)
    requires qs != [] && Linked(p, r, qs) && Denied(Admit(qs[0].(previous := p)))
    requires forall j :: 0 < j < |qs| ==> Admit(qs[0].(previous := p)).record.body.updatedAt <= qs[j].now
    ensures Linked(Link(Admit(qs[0].(previous := p)), p), r, qs[1..])
  {
    DenyHasPrevious(qs[0].(previous := p));
    LinkedDecide(p, r, qs);
    DeniedAged(p.value, r.value, qs[0]);
    var d := Admit(qs[0].(previous := p)).record;
    assert Aged(d, r.value, d.body.updatedAt);
    assert forall i :: 0 <= i < |qs[1..]| ==> d.body.updatedAt <= qs[1..][i].now;
  }

  lemma {:induction false} LinkedAlike(p: Option<Record>, r: Option<Record>, qs: seq<Request>, keep: seq<bool>)
    requires Linked(p, r, qs) && |keep| == |qs| && DropsDenials(qs, Decisions(p, qs), keep)
    ensures AllSame(Kept(Decisions(p, qs), keep), Decisions(r, Kept(qs, keep)))
    decreases |qs|
  {
    if qs != [] {
      var a, b := Admit(qs[0].(previous := p)), Admit(qs[0].(previous := r));
      var rest := Decisions(Link(a, p), qs[1..]);
      assert Decisions(p, qs)[1..] == rest && Decisions(p, qs)[0] == a;
      DropsRest(qs, Decisions(p, qs), keep);
      if keep[0] {
        LinkedDecide(p, r, qs);
        LinkedAlike(Link(a, p), Link(b, r), qs[1..], keep[1..]);
        assert Kept(qs, keep) == [qs[0]] + Kept(qs[1..], keep[1..]);
      } else {
        assert Denied(Decisions(p, qs)[0]);
        LinkedDrop(p, r, qs);
        LinkedAlike(Link(a, p), r, qs[1..], keep[1..]);
        assert Kept(qs, keep) == Kept(qs[1..], keep[1..]);
      }
    }
  }

  lemma DropsRest(qs: seq<Request>, results: seq<Result>, keep: seq<bool>)
    requires |qs| == |results| == |keep| > 0 && DropsDenials(qs, results, keep)
    ensures DropsDenials(qs[1..], results[1..], keep[1..])
  {
  }

  /** Denied requests never change a later decision: however many of them are left out of a row of requests, all the
      others, each linked to the last record produced, are decided as they were. */
  lemma DenialsChangeNothing(previous: Option<Record>, qs: seq<Request>, keep: seq<bool>)
    requires |keep| == |qs| && DropsDenials(qs, Decisions(previous, qs), keep)
    ensures AllSame(Kept(Decisions(previous, qs), keep), Decisions(previous, Kept(qs, keep)))
  {
    LinkedAlike(previous, previous, qs, keep);
  }

  // Sound, and chained on the record, yet before the refills that the denial has counted
  predicate Between(later: Request, r: Record, denial: Record) {
    && RequestOk(later) && PolicyOk(later) && later.cost <= later.capacity && ChainOk(later, r)
    && later.now < denial.body.updatedAt
  }

  /** The time condition is exact: the next request is decided alike on the denial and on the record before it, save
      when it comes between the two. */
  lemma DenyExactly(q: Request, later: Request)
    requires Denied(Admit(q)) && q.previous.Some?
    ensures var d := Admit(q).record;
            Between(later, q.previous.value, d) <==>
            !SameDecision(Admit(later.(previous := Some(d))), Admit(later.(previous := q.previous)))
  {
    var d, r := Admit(q).record, q.previous.value;
    assert q == q.(previous := Some(r));
    DenialAged(r, q);
    if later.now >= d.body.updatedAt { AgedDecides(d, r, later, d.body.updatedAt); }
  }

  const SPEND: Request := Request("k", 2, 0, 2, 10, None)
  const SPENT: Record := Seal(Body("k", 2, 10, 2, true, 0, 0, None, None))
  const DENIED: Record := Seal(Body("k", 2, 10, 2, false, 1, 10, Some(5), Some(SPENT.id)))

  lemma Spends()
    ensures Admit(SPEND) == Decided(SPENT) && PreviousOk(SPENT)
  {
    RecordsChain(SPEND);
  }

  lemma Denies()
    ensures Admit(SPEND.(now := 15, previous := Some(SPENT))) == Decided(DENIED) && PreviousOk(DENIED)
  {
    Spends();
    var q := SPEND.(now := 15, previous := Some(SPENT));
    assert BucketAt(q) == Bucket(1, 10);
    RecordsChain(q);
  }

  const BETWEEN: Request := SPEND.(now := 5)

  lemma Comes()
    ensures Between(BETWEEN, SPENT, DENIED)
  {
  }

  lemma ShortInTime(q: Request)
    requires RequestOk(q) && PolicyOk(q) && q.cost <= q.capacity
    requires q.previous.Some? && PreviousOk(q.previous.value) && ChainOk(q, q.previous.value)
    requires var b := BucketAt(q); b.tokens >= q.cost || b.base + (q.cost - b.tokens) * q.refillMs <= MAX_NOW
    ensures Admit(q).Decided?
  {
  }

  lemma DecidedBefore()
    ensures Admit(BETWEEN.(previous := Some(SPENT))).Decided?
  {
    var q := BETWEEN.(previous := Some(SPENT));
    Spends();
    Comes();
    assert BucketAt(q) == Bucket(0, 0);
    ShortInTime(q);
  }

  lemma RefusedBehind()
    ensures Admit(BETWEEN.(previous := Some(DENIED))) == Refused(LimitConflict)
  {
    Denies();
    Comes();
  }

  /** An input: two tokens are spent at 0, and two more denied at 15, when one is back since 10. A request at 5 is
      decided on the record before that denial, and refused as out of order on the denial. */
  lemma DenialCounts(spent: Result, denied: Result, before: Result, behind: Result)
    requires spent == Admit(SPEND) && denied == Admit(SPEND.(now := 15, previous := Some(SPENT)))
    requires before == Admit(BETWEEN.(previous := Some(SPENT))) && behind == Admit(BETWEEN.(previous := Some(DENIED)))
    ensures spent == Decided(SPENT) && denied == Decided(DENIED) && Denied(denied)
    ensures before.Decided? && behind == Refused(LimitConflict)
  {
    Spends();
    Denies();
    DecidedBefore();
    RefusedBehind();
  }

  lemma EnoughAt(missing: int, r: int, elapsed: int)
    requires r > 0 && missing > 0 && elapsed >= 0
    ensures elapsed / r >= missing <==> elapsed >= missing * r
  {
    WholeRefills(r, elapsed);
    var g := elapsed / r;
    if g >= missing { TimesOrder(missing, g, r); }
    if g < missing {
      TimesOrder(g + 1, missing, r);
      assert (g + 1) * r == g * r + r;
    }
  }

  /** The retry time is exact: the same request, chained on its denial, is admitted from then on and
      at no time before. */
  lemma RetryIsExact(q: Request, t: int)
    requires Admit(q).Decided? && !Admit(q).record.body.admitted && q.now <= t <= MAX_NOW
    ensures var again := Admit(q.(now := t, previous := Some(Admit(q).record)));
            (again.Decided? && again.record.body.admitted) <==> t >= q.now + Admit(q).record.body.retryAfter.value
  {
    RecordsChain(q);
    DenyHasPrevious(q);
    var d := Admit(q).record.body;
    RefillBounds(q.capacity, q.refillMs, t, Bucket(d.tokens, d.updatedAt));
    EnoughAt(q.cost - d.tokens, q.refillMs, t - d.updatedAt);
    assert q.now + d.retryAfter.value == d.updatedAt + (q.cost - d.tokens) * q.refillMs;
  }

  // ---------- chains ----------

  datatype Chain = First(q: Request) | Next(chain: Chain, q: Request) {
    function Result(): Result { Admit(q) }

    // Each request links to the record before it.
    predicate Valid() {
      && Result().Decided?
      && if First? then q.previous.None? else chain.Valid() && q.previous == Some(chain.Result().record)
    }

    // Time does not go back.
    predicate Timed() { Next? ==> chain.Timed() && chain.q.now <= q.now }

    function Began(): int { if First? then q.now else chain.Began() }

    // The cost admitted along the chain
    function Spent(): int
      requires Valid()
    {
      (if First? then 0 else chain.Spent()) + if Result().record.body.admitted then q.cost else 0
    }
  }

  lemma RefillPotential(capacity: int, r: int, now: int, b: Bucket)
    requires r > 0 && now >= b.base && 0 <= b.tokens <= capacity
    ensures var c := Refill(capacity, r, now, b); c.tokens * r - c.base <= b.tokens * r - b.base
  {
    WholeRefills(r, now - b.base);
    var g := (now - b.base) / r;
    assert (b.tokens + g) * r == b.tokens * r + g * r;
    if b.tokens + g >= capacity { TimesOrder(capacity, b.tokens + g, r); }
  }

  // Spent tokens and tokens left are paid for by the capacity and the time counted.
  lemma {:induction false} Paid(c: Chain)
    requires c.Valid()
    ensures var b := c.Result().record.body;
            c.Spent() * b.refillMs + b.tokens * b.refillMs <= b.capacity * b.refillMs + (b.updatedAt - c.Began())
  {
    var q, b := c.q, c.Result().record.body;
    var r := b.refillMs;
    var at := BucketAt(q);
    if c.First? {
      if b.admitted { assert q.cost * r + (q.capacity - q.cost) * r == q.capacity * r; }
    } else {
      Paid(c.chain);
      RecordsChain(c.chain.q);
      var p := c.chain.Result().record.body;
      RefillPotential(q.capacity, r, q.now, Bucket(p.tokens, p.updatedAt));
      if b.admitted { PayFor(c.chain.Spent(), q.cost, at.tokens, r); }
    }
  }

  lemma PayFor(spent: int, cost: int, tokens: int, r: int)
    ensures (spent + cost) * r + (tokens - cost) * r == spent * r + tokens * r
  {
  }

  lemma LastRecord(c: Chain)
    requires c.Valid()
    ensures var b := c.Result().record.body;
            b.refillMs == c.q.refillMs > 0 && b.capacity == c.q.capacity && b.tokens >= 0 && b.updatedAt <= c.q.now
  {
    RecordsChain(c.q);
  }

  lemma SpentWithin(spent: int, tokens: int, capacity: int, r: int, counted: int, elapsed: int)
    requires r > 0 && tokens >= 0 && counted <= elapsed && spent * r + tokens * r <= capacity * r + counted
    ensures spent <= capacity + elapsed / r
  {
    assert tokens * r >= 0;
    assert (spent - capacity) * r == spent * r - capacity * r;
    SpendFloor(spent - capacity, r, elapsed);
  }

  /** Along a chain the admitted cost is at most the capacity and one token per whole refill
      interval since the chain began. */
  lemma SpendingBound(c: Chain)
    requires c.Valid()
    ensures c.Spent() <= c.q.capacity + (c.q.now - c.Began()) / c.q.refillMs
  {
    Paid(c);
    LastRecord(c);
    var b := c.Result().record.body;
    SpentWithin(c.Spent(), b.tokens, b.capacity, b.refillMs, b.updatedAt - c.Began(), c.q.now - c.Began());
  }

  // ---------- which records are taken as previous ones ----------

  // Some request produces these fields, the link aside.
  ghost predicate Produced(b: Body) {
    exists q :: Admit(q).Decided? && Admit(q).record.body.(previous := None) == b.(previous := None)
  }

  // The retry of a denial is counted from a moment of the clock.
  predicate OnClock(b: Body) { b.admitted || b.updatedAt + (b.cost - b.tokens) * b.refillMs <= MAX_NOW }

  lemma ProducedPasses(p: Record, q: Request)
    requires Admit(q).Decided? && Admit(q).record.body.(previous := None) == p.body.(previous := None)
    requires p.id == HashOf(p.body)
    ensures PreviousOk(p) && OnClock(p.body)
  {
    RecordsChain(q);
  }

  // A record with these tokens left at this time
  function Holding(b: Body, tokens: int): Record {
    Seal(Body(b.key, b.capacity, b.refillMs, 1, true, tokens, b.updatedAt, None, None))
  }

  lemma HoldingOk(b: Body, tokens: int)
    requires KeyOk(b.key) && 1 <= b.capacity <= MAX_CAPACITY && 1 <= b.refillMs <= MAX_REFILL
    requires 0 <= tokens < b.capacity && 0 <= b.updatedAt <= MAX_NOW
    ensures PreviousOk(Holding(b, tokens))
  {
  }

  lemma StillThere(capacity: int, r: int, now: int, b: Bucket)
    requires r > 0 && 0 <= now - b.base < r && b.tokens < capacity
    ensures Refill(capacity, r, now, b) == b
  {
    DivUnique(now - b.base, r, 0);
  }

  lemma AdmitsAgain(p: Record)
    requires PreviousOk(p) && p.body.admitted
    ensures Produced(p.body)
  {
    var b := p.body;
    if b.tokens == b.capacity - b.cost {
      var q := Request(b.key, b.cost, b.updatedAt, b.capacity, b.refillMs, None);
      assert Admit(q).Decided?;
    } else {
      var r := Holding(b, b.tokens + b.cost);
      HoldingOk(b, b.tokens + b.cost);
      var q := Request(b.key, b.cost, b.updatedAt, b.capacity, b.refillMs, Some(r));
      StillThere(b.capacity, b.refillMs, b.updatedAt, BucketOf(r));
      assert BucketAt(q) == BucketOf(r);
      assert Admit(q).Decided?;
    }
  }

  lemma DeniesAgain(p: Record)
    requires PreviousOk(p) && !p.body.admitted && OnClock(p.body)
    ensures Produced(p.body)
  {
    var b := p.body;
    var r, now := Holding(b, b.tokens), b.updatedAt + (b.cost - b.tokens) * b.refillMs - b.retryAfter.value;
    assert (b.cost - b.tokens - 1) * b.refillMs == (b.cost - b.tokens) * b.refillMs - b.refillMs;
    HoldingOk(b, b.tokens);
    var q := Request(b.key, b.cost, now, b.capacity, b.refillMs, Some(r));
    StillThere(b.capacity, b.refillMs, now, BucketOf(r));
    assert BucketAt(q) == BucketOf(r);
    assert Admit(q).Decided?;
  }

  /** The check of a previous record lets through exactly what requests produce, whatever it is linked to, and besides
      only denials whose clock would have run out. */
  lemma PreviousExactly(p: Record)
    ensures PreviousOk(p) && OnClock(p.body) <==> p.id == HashOf(p.body) && Produced(p.body)
  {
    if PreviousOk(p) && OnClock(p.body) {
      if p.body.admitted { AdmitsAgain(p); } else { DeniesAgain(p); }
    }
    if p.id == HashOf(p.body) && Produced(p.body) {
      var q :| Admit(q).Decided? && Admit(q).record.body.(previous := None) == p.body.(previous := None);
      ProducedPasses(p, q);
    }
  }

  // ---------- any window of a chain ----------

  predicate Follows(c: Chain, e: Chain) { c == e || (c.Next? && Follows(c.chain, e)) }

  // The cost admitted from link `e` on
  function SpentFrom(c: Chain, e: Chain): int
    requires c.Valid() && Follows(c, e)
  {
    (if c == e then 0 else SpentFrom(c.chain, e)) + Taken(c)
  }

  function Taken(c: Chain): int
    requires c.Valid()
  {
    if c.Result().record.body.admitted then c.q.cost else 0
  }

  // Tokens in time, less the time they were counted at
  function Worth(tokens: int, r: int, at: int): int { tokens * r - at }

  lemma PaidNext(c: Chain, spent: int, worth: int)
    requires c.Valid() && c.Next? && c.chain.Valid()
    requires var p := c.chain.Result().record.body;
             spent * p.refillMs + Worth(p.tokens, p.refillMs, p.updatedAt) <= worth
    ensures var p, b := c.chain.Result().record.body, c.Result().record.body;
            && p.refillMs == b.refillMs == c.q.refillMs && p.capacity == b.capacity == c.q.capacity
            && (spent + Taken(c)) * b.refillMs + Worth(b.tokens, b.refillMs, b.updatedAt) <= worth
  {
    RecordsChain(c.chain.q);
    var p, at := c.chain.Result().record.body, BucketAt(c.q);
    RefillPotential(c.q.capacity, c.q.refillMs, c.q.now, Bucket(p.tokens, p.updatedAt));
    if c.Result().record.body.admitted { PayFor(spent, c.q.cost, at.tokens, c.q.refillMs); }
  }

  lemma PaidFirst(e: Chain)
    requires e.Valid()
    ensures var b, at := e.Result().record.body, BucketAt(e.q);
            && b.refillMs == e.q.refillMs && b.capacity == e.q.capacity
            && Taken(e) * b.refillMs + Worth(b.tokens, b.refillMs, b.updatedAt) ==
               Worth(at.tokens, e.q.refillMs, at.base)
  {
    var b, at := e.Result().record.body, BucketAt(e.q);
    if b.admitted { PayFor(0, e.q.cost, at.tokens, e.q.refillMs); }
  }

  // From a bucket on, spent tokens and tokens left are paid for by that bucket and the time counted since.
  lemma {:induction false} PaidFrom(c: Chain, e: Chain)
    requires c.Valid() && Follows(c, e) && e.Valid()
    ensures var b, at := c.Result().record.body, BucketAt(e.q);
            && b.refillMs == e.q.refillMs && b.capacity == e.q.capacity
            && SpentFrom(c, e) * b.refillMs + Worth(b.tokens, b.refillMs, b.updatedAt)
               <= Worth(at.tokens, e.q.refillMs, at.base)
    decreases c
  {
    if c == e {
      PaidFirst(e);
    } else {
      PaidFrom(c.chain, e);
      PaidNext(c, SpentFrom(c.chain, e), Worth(BucketAt(e.q).tokens, e.q.refillMs, BucketAt(e.q).base));
    }
  }

  // A bucket that is full has counted time up to now; one that is not lacks a token and counts all but part of one.
  lemma RefillWorth(capacity: int, r: int, now: int, b: Bucket)
    requires r > 0 && now >= b.base && 0 <= b.tokens <= capacity
    ensures var c := Refill(capacity, r, now, b); Worth(c.tokens, r, c.base) <= Worth(capacity, r, now)
  {
    RefillBounds(capacity, r, now, b);
    var c := Refill(capacity, r, now, b);
    if c.tokens < capacity {
      TimesOrder(c.tokens + 1, capacity, r);
      assert (c.tokens + 1) * r == c.tokens * r + r;
    }
  }

  lemma BucketWorth(e: Chain)
    requires e.Valid()
    ensures var at := BucketAt(e.q);
            Worth(at.tokens, e.q.refillMs, at.base) <= Worth(e.q.capacity, e.q.refillMs, e.q.now)
  {
    if e.Next? {
      RecordsChain(e.chain.q);
      var p := e.chain.Result().record.body;
      RefillWorth(e.q.capacity, e.q.refillMs, e.q.now, Bucket(p.tokens, p.updatedAt));
    }
  }

  lemma {:induction false} EarlierValid(c: Chain, e: Chain)
    requires c.Valid() && Follows(c, e)
    ensures e.Valid()
  {
    if c != e { EarlierValid(c.chain, e); }
  }

  /** Within any stretch of a chain, from any link to any later one, the admitted cost is at most the capacity and one
      token per whole refill interval between the two: a bucket that fills up keeps nothing back. */
  lemma WindowBound(c: Chain, e: Chain)
    requires c.Valid() && Follows(c, e) && c.q.now >= e.q.now
    ensures SpentFrom(c, e) <= c.q.capacity + (c.q.now - e.q.now) / c.q.refillMs
  {
    EarlierValid(c, e);
    PaidFrom(c, e);
    LastRecord(c);
    LastRecord(e);
    BucketWorth(e);
    var b := c.Result().record.body;
    SpentWithin(SpentFrom(c, e), b.tokens, b.capacity, b.refillMs, b.updatedAt - e.q.now, c.q.now - e.q.now);
  }

  // ---------- the bucket, one millisecond at a time ----------

  // Tokens, and the milliseconds gone towards the next one
  datatype Level = Level(tokens: int, phase: int)

  // A full bucket waits; any other gains a token at the end of each interval.
  function Tick(capacity: int, refillMs: int, l: Level): Level {
    if l.tokens >= capacity then Level(capacity, 0)
    else if l.phase + 1 >= refillMs then Level(l.tokens + 1, 0)
    else Level(l.tokens, l.phase + 1)
  }

  function Ticks(capacity: int, refillMs: int, l: Level, ms: nat): Level {
    if ms == 0 then l else Tick(capacity, refillMs, Ticks(capacity, refillMs, l, ms - 1))
  }

  lemma {:induction false} TicksAdd(capacity: int, r: int, l: Level, m: nat, n: nat)
    ensures Ticks(capacity, r, Ticks(capacity, r, l, m), n) == Ticks(capacity, r, l, m + n)
  {
    if n > 0 { TicksAdd(capacity, r, l, m, n - 1); }
  }

  // One millisecond more
  lemma RefillTick(capacity: int, r: int, now: int, b: Bucket)
    requires r > 0 && now > b.base && 0 <= b.tokens <= capacity
    ensures var c, d := Refill(capacity, r, now - 1, b), Refill(capacity, r, now, b);
            Tick(capacity, r, Level(c.tokens, now - 1 - c.base)) == Level(d.tokens, now - d.base)
  {
    var g := (now - 1 - b.base) / r;
    WholeRefills(r, now - 1 - b.base);
    MoreTimeMoreRefills(r, now - 1 - b.base, now - b.base);
    assert (g + 1) * r == g * r + r;
    if now - b.base < g * r + r {
      DivUnique(now - b.base, r, g);
    } else {
      DivUnique(now - b.base, r, g + 1);
    }
  }

  /** Counting whole refills at once is what ticking from millisecond to millisecond comes to. */
  lemma {:induction false} RefillTicks(capacity: int, r: int, now: int, b: Bucket)
    requires r > 0 && now >= b.base && 0 <= b.tokens <= capacity
    ensures var c := Refill(capacity, r, now, b);
            Ticks(capacity, r, Level(b.tokens, 0), now - b.base) == Level(c.tokens, now - c.base)
    decreases now - b.base
  {
    if now > b.base {
      RefillTicks(capacity, r, now - 1, b);
      RefillTick(capacity, r, now, b);
    }
  }

  // What a bucket that ticks holds when the last request of a chain comes, and after it
  function Found(c: Chain): Level
    requires c.Valid() && c.Timed()
    decreases c, 0
  {
    if c.First? then Level(c.q.capacity, 0)
    else Ticks(c.q.capacity, c.q.refillMs, Left(c.chain), c.q.now - c.chain.q.now)
  }

  function Left(c: Chain): Level
    requires c.Valid() && c.Timed()
    decreases c, 1
  {
    var l := Found(c);
    if l.tokens >= c.q.cost then Level(l.tokens - c.q.cost, l.phase) else l
  }

  lemma TicksFrom(capacity: int, r: int, now: int, later: int, p: Bucket)
    requires r > 0 && p.base <= now <= later && now - p.base < r && 0 <= p.tokens < capacity
    ensures var c := Refill(capacity, r, later, p);
            Ticks(capacity, r, Level(p.tokens, now - p.base), later - now) == Level(c.tokens, later - c.base)
  {
    RefillTicks(capacity, r, now, p);
    DivUnique(now - p.base, r, 0);
    RefillTicks(capacity, r, later, p);
    TicksAdd(capacity, r, Level(p.tokens, 0), now - p.base, later - now);
  }

  lemma LastSpent(c: Chain)
    requires c.Valid()
    ensures var b := c.Result().record.body; 0 <= b.tokens < c.q.capacity && 0 <= c.q.now - b.updatedAt < c.q.refillMs
  {
    RecordsChain(c.q);
    if c.Next? {
      RecordsChain(c.chain.q);
      var p := c.chain.Result().record.body;
      RefillBounds(c.q.capacity, c.q.refillMs, c.q.now, Bucket(p.tokens, p.updatedAt));
    }
  }

  /** The decisions along a chain are those of a bucket that ticks: a request is admitted exactly when the bucket then
      holds its cost, and only admitted ones take from it. */
  lemma {:induction false} TickingBucket(c: Chain)
    requires c.Valid() && c.Timed()
    ensures var b := c.Result().record.body;
            (b.admitted <==> Found(c).tokens >= c.q.cost) && Left(c) == Level(b.tokens, c.q.now - b.updatedAt)
  {
    if c.Next? {
      TickingBucket(c.chain);
      LastSpent(c.chain);
      var p := c.chain.Result().record.body;
      TicksFrom(c.q.capacity, c.q.refillMs, c.chain.q.now, c.q.now, Bucket(p.tokens, p.updatedAt));
    }
  }
}
