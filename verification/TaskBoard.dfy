/** The task board: its structural check and the commands that claim, start and complete tasks (`tools/dag.py`). */
module TaskBoard {
  import opened Dag

  // ---------- tasks ----------

  datatype Status = Todo | Claimed | InProgress | Done | Blocked

  datatype Task = Task(id: Node, deps: seq<Node>, status: Status,
                       claimedBy: Option<string>, sha: Option<string>, evidence: Option<string>)

  function GraphOf(tasks: seq<Task>): Graph {
    if tasks == [] then map[]
    else
      var last := tasks[|tasks| - 1];
      GraphOf(tasks[..|tasks| - 1])[last.id := Elems(last.deps)]
  }

  ghost predicate DistinctIds(tasks: seq<Task>) {
    forall j, k :: 0 <= j < k < |tasks| ==> tasks[j].id != tasks[k].id
  }

  function Ids(tasks: seq<Task>): set<Node> { set k | 0 <= k < |tasks| :: tasks[k].id }

  lemma {:induction false} GraphAt(tasks: seq<Task>, k: nat)
    requires DistinctIds(tasks) && k < |tasks|
    ensures var g := GraphOf(tasks); tasks[k].id in g && g[tasks[k].id] == Elems(tasks[k].deps)
  {
    if k < |tasks| - 1 { GraphAt(tasks[..|tasks| - 1], k); }
  }

  lemma {:induction false} GraphKeys(tasks: seq<Task>)
    ensures GraphOf(tasks).Keys == Ids(tasks)
  {
    if tasks != [] {
      var init := tasks[..|tasks| - 1];
      GraphKeys(init);
      assert Ids(tasks) == Ids(init) + {tasks[|tasks| - 1].id};
    }
  }

  function DoneIds(tasks: seq<Task>): set<Node> { set k | 0 <= k < |tasks| && tasks[k].status == Done :: tasks[k].id }

  predicate IsSha(s: string) {
    |s| == 40 && forall k :: 0 <= k < |s| ==> '0' <= s[k] <= '9' || 'a' <= s[k] <= 'f'
  }

  function Manifest(id: Node): string { "evidence/" + id.id + ".md" }

  predicate Proven(t: Task) {
    t.status == Done ==> t.sha.Some? && IsSha(t.sha.value) && t.evidence == Some(Manifest(t.id))
  }

  predicate Space(c: char) { c == ' ' || '\t' <= c <= '\r' || '\U{1c}' <= c <= '\U{1f}' }

  predicate Trimmed(s: string) { s != "" && !Space(s[0]) && !Space(s[|s| - 1]) }

  // What is left without the white space at both ends
  function Strip(s: string): string {
    if s != "" && Space(s[0]) then Strip(s[1..])
    else if s != "" && Space(s[|s| - 1]) then Strip(s[..|s| - 1])
    else s
  }

  lemma {:induction false} StripShorter(s: string)
    ensures |Strip(s)| <= |s|
    decreases |s|
  {
    if s != "" && Space(s[0]) { StripShorter(s[1..]); }
    else if s != "" && Space(s[|s| - 1]) { StripShorter(s[..|s| - 1]); }
  }

  /** A text is trimmed when there is some and stripping leaves it as it is. */
  lemma TrimmedMeans(s: string)
    ensures Trimmed(s) <==> s != "" && Strip(s) == s
  {
    if s != "" {
      StripShorter(s[1..]);
      StripShorter(s[..|s| - 1]);
    }
  }

  predicate Blank(s: string) { forall k :: 0 <= k < |s| ==> Space(s[k]) }

  ghost predicate GoodTask(t: Task, known: set<Node>) {
    Trimmed(t.id.id) && Distinct(t.deps) && Elems(t.deps) <= known && Proven(t)
  }

  /** What the check asks of a board, in terms of its tasks. */
  ghost predicate GoodBoard(tasks: seq<Task>) { GoodTasks(tasks) && !Cyclic(GraphOf(tasks)) }

  ghost predicate GoodTasks(tasks: seq<Task>) {
    tasks != [] && DistinctIds(tasks) && forall k :: 0 <= k < |tasks| ==> GoodTask(tasks[k], Ids(tasks))
  }

  // Done tasks rest on done tasks.
  ghost predicate Closed(tasks: seq<Task>) {
    forall k :: 0 <= k < |tasks| && tasks[k].status == Done ==> Elems(tasks[k].deps) <= DoneIds(tasks)
  }

  // A task that `complete` could finish now
  ghost predicate Ready(tasks: seq<Task>, k: nat)
    requires k < |tasks|
  {
    tasks[k].status != Done && Elems(tasks[k].deps) <= DoneIds(tasks)
  }

  function Open(tasks: seq<Task>): set<Node> { set k | 0 <= k < |tasks| && tasks[k].status != Done :: tasks[k].id }

  lemma WaitsForOpen(tasks: seq<Task>, k: nat)
    requires GoodBoard(tasks) && k < |tasks| && tasks[k].status != Done && !Ready(tasks, k)
    ensures DependsInside(GraphOf(tasks), Open(tasks), tasks[k].id)
  {
    GraphKeys(tasks);
    var d :| d in Elems(tasks[k].deps) && d !in DoneIds(tasks);
    assert GoodTask(tasks[k], Ids(tasks));
    assert d in Ids(tasks);
    var j :| 0 <= j < |tasks| && tasks[j].id == d;
    assert tasks[j].status != Done;
    assert d in Open(tasks);
    GraphAt(tasks, k);
  }

  /** While a task of a sound board is not done, some such task has all its dependencies done. */
  lemma SomeReady(tasks: seq<Task>) returns (k: nat)
    requires GoodBoard(tasks) && exists j :: 0 <= j < |tasks| && tasks[j].status != Done
    ensures k < |tasks| && Ready(tasks, k)
  {
    if j: nat :| j < |tasks| && Ready(tasks, j) {
      k := j;
    } else {
      OpenStuck(tasks);
      var j: nat :| j < |tasks| && tasks[j].status != Done;
      assert tasks[j].id in Open(tasks);
      StuckHasCycle(GraphOf(tasks), Open(tasks));
      assert false;
    }
  }

  // Without a ready task, every open task depends on an open one.
  lemma OpenStuck(tasks: seq<Task>)
    requires GoodBoard(tasks) && forall j: nat :: j < |tasks| ==> !Ready(tasks, j)
    ensures Stuck(GraphOf(tasks), Open(tasks))
  {
    var g, r := GraphOf(tasks), Open(tasks);
    GraphKeys(tasks);
    forall v {:trigger DependsInside(g, r, v)} | v in r ensures DependsInside(g, r, v) {
      var j: nat :| j < |tasks| && tasks[j].status != Done && tasks[j].id == v;
      WaitsForOpen(tasks, j);
    }
  }

  // ---------- commands ----------

  datatype Command = Claim(id: Node, claimant: string)
                   | Start(id: Node, claimant: string)
                   | Complete(id: Node, sha: string, evidence: string)

  // `Crashed` is the key error of a dependency that is no task.
  datatype Reply = Fine | Refused | Crashed

  predicate StatusAllows(c: Command, s: Status) {
    match c
    case Claim(_, _) => s == Todo
    case Start(_, _) => s == Todo || s == Claimed
    case Complete(_, _, _) => s != Done
  }

  predicate ArgumentsOk(c: Command) {
    c.Complete? ==> IsSha(c.sha) && c.evidence == Manifest(c.id)
  }

  function Updated(c: Command, t: Task): Task {
    match c
    case Claim(_, who) => t.(status := Status.Claimed, claimedBy := Some(who))
    case Start(_, who) => t.(status := InProgress, claimedBy := Some(who))
    case Complete(_, sha, evidence) => t.(status := Done, sha := Some(sha), evidence := Some(evidence))
  }

  // The command goes through on task `k`.
  ghost predicate Passes(tasks: seq<Task>, c: Command, k: nat) {
    && DistinctIds(tasks) && k < |tasks| && tasks[k].id == c.id
    && StatusAllows(c, tasks[k].status) && ArgumentsOk(c) && Elems(tasks[k].deps) <= DoneIds(tasks)
  }

  // The command gets as far as looking up a dependency that is missing.
  ghost predicate Crashes(tasks: seq<Task>, c: Command, k: nat) {
    && DistinctIds(tasks) && k < |tasks| && tasks[k].id == c.id
    && StatusAllows(c, tasks[k].status) && ArgumentsOk(c) && !(Elems(tasks[k].deps) <= Ids(tasks))
  }

  ghost predicate Step(tasks: seq<Task>, c: Command, reply: Reply, after: seq<Task>) {
    && (reply == Fine <==> exists k: nat :: Passes(tasks, c, k))
    && (reply == Crashed <==> exists k: nat :: Crashes(tasks, c, k))
    && (forall k: nat :: Passes(tasks, c, k) ==> after == After(tasks, c, k))
    && (reply != Fine ==> after == tasks)
  }

  // Only the status and the marks of task `k` may differ.
  ghost predicate OneTouched(tasks: seq<Task>, k: nat, after: seq<Task>) {
    && k < |tasks| == |after| && after[k].id == tasks[k].id && after[k].deps == tasks[k].deps
    && forall j :: 0 <= j < |tasks| && j != k ==> after[j] == tasks[j]
  }

  lemma TouchedIds(tasks: seq<Task>, k: nat, after: seq<Task>)
    requires OneTouched(tasks, k, after)
    ensures Ids(after) == Ids(tasks) && GraphOf(after) == GraphOf(tasks)
    ensures DistinctIds(tasks) ==> DistinctIds(after)
  {
    forall j | 0 <= j < |tasks| ensures after[j].id == tasks[j].id && after[j].deps == tasks[j].deps {}
    SameGraph(tasks, after);
    SameIds(tasks, after);
  }

  lemma SameIds(a: seq<Task>, b: seq<Task>)
    requires |a| == |b| && forall j :: 0 <= j < |a| ==> a[j].id == b[j].id
    ensures Ids(a) == Ids(b) && (DistinctIds(a) ==> DistinctIds(b))
  {
    forall v | v in Ids(a) ensures v in Ids(b) {
      var j :| 0 <= j < |a| && a[j].id == v;
      assert b[j].id == v;
    }
  }

  lemma TouchedDone(tasks: seq<Task>, k: nat, after: seq<Task>)
    requires OneTouched(tasks, k, after) && DistinctIds(tasks) && tasks[k].status != Done
    ensures DoneIds(after) == DoneIds(tasks) + (if after[k].status == Done then {tasks[k].id} else {})
  {
    var mine := if after[k].status == Done then {tasks[k].id} else {};
    forall v | v in DoneIds(tasks) ensures v in DoneIds(after) {
      var j :| 0 <= j < |tasks| && tasks[j].status == Done && tasks[j].id == v;
      assert after[j] == tasks[j];
    }
    forall v | v in DoneIds(after) ensures v in DoneIds(tasks) + mine {
      var j :| 0 <= j < |after| && after[j].status == Done && after[j].id == v;
      if j != k { assert after[j] == tasks[j]; }
    }
    if after[k].status == Done { assert tasks[k].id in DoneIds(after); }
  }

  lemma {:induction false} SameGraph(a: seq<Task>, b: seq<Task>)
    requires |a| == |b| && forall j :: 0 <= j < |a| ==> a[j].id == b[j].id && a[j].deps == b[j].deps
    ensures GraphOf(a) == GraphOf(b)
  {
    if a != [] {
      Shorter(a, b);
      SameGraph(a[..|a| - 1], b[..|a| - 1]);
    }
  }

  lemma Shorter(a: seq<Task>, b: seq<Task>)
    requires 0 < |a| == |b| && forall j :: 0 <= j < |a| ==> a[j].id == b[j].id && a[j].deps == b[j].deps
    ensures var x, y := a[..|a| - 1], b[..|a| - 1];
            forall j :: 0 <= j < |x| ==> x[j].id == y[j].id && x[j].deps == y[j].deps
  {
  }

  function After(tasks: seq<Task>, c: Command, k: nat): seq<Task>
    requires k < |tasks|
  {
    tasks[k := Updated(c, tasks[k])]
  }

  lemma PassKeepsGood(tasks: seq<Task>, c: Command, k: nat)
    requires Passes(tasks, c, k) && GoodBoard(tasks)
    ensures GoodBoard(After(tasks, c, k))
  {
    var after := After(tasks, c, k);
    TouchedIds(tasks, k, after);
    forall j | 0 <= j < |after| ensures GoodTask(after[j], Ids(after)) {
      assert GoodTask(tasks[j], Ids(tasks));
    }
  }

  lemma PassKeepsDone(tasks: seq<Task>, c: Command, k: nat)
    requires Passes(tasks, c, k)
    ensures DoneIds(tasks) <= DoneIds(After(tasks, c, k))
    ensures Closed(tasks) ==> Closed(After(tasks, c, k))
  {
    var after := After(tasks, c, k);
    TouchedDone(tasks, k, after);
    if Closed(tasks) {
      forall j | 0 <= j < |after| && after[j].status == Done ensures Elems(after[j].deps) <= DoneIds(after) {
        assert j != k ==> tasks[j].status == Done;
      }
    }
  }

  /** A command on a sound board never crashes, keeps what the check asks and never takes a finished task back. */
  lemma StepKeeps(tasks: seq<Task>, c: Command, reply: Reply, after: seq<Task>)
    requires GoodBoard(tasks) && Step(tasks, c, reply, after)
    ensures GoodBoard(after) && reply != Crashed && DoneIds(tasks) <= DoneIds(after)
    ensures Closed(tasks) ==> Closed(after)
  {
    forall k: nat ensures !Crashes(tasks, c, k) {
      if k < |tasks| { assert GoodTask(tasks[k], Ids(tasks)); }
    }
    if k: nat :| Passes(tasks, c, k) { PassKeepsDone(tasks, c, k); PassKeepsGood(tasks, c, k); }
  }

  // ---------- runs of commands ----------

  datatype Run = Begin(tasks: seq<Task>) | More(before: Run, command: Command, reply: Reply, tasks: seq<Task>)

  ghost predicate RunOk(r: Run) {
    r.More? ==> RunOk(r.before) && Step(r.before.tasks, r.command, r.reply, r.tasks)
  }

  function First(r: Run): seq<Task> { if r.Begin? then r.tasks else First(r.before) }

  /** Whatever is commanded, a board that passes the check passes it again, and its finished tasks stay
      finished and rest on finished tasks. */
  lemma {:induction false} RunKeeps(r: Run)
    requires RunOk(r) && GoodBoard(First(r)) && Closed(First(r))
    ensures GoodBoard(r.tasks) && Closed(r.tasks) && DoneIds(First(r)) <= DoneIds(r.tasks)
    ensures r.More? ==> r.reply != Crashed
  {
    if r.More? {
      RunKeeps(r.before);
      StepKeeps(r.before.tasks, r.command, r.reply, r.tasks);
    }
  }

  // The last command on a task that went through
  function LastOn(r: Run, id: Node): Option<Command> {
    if r.Begin? then None
    else if r.reply == Fine && r.command.id == id then Some(r.command)
    else LastOn(r.before, id)
  }

  // Who claimed or started it last, if a command did
  function LastClaimant(r: Run, id: Node): Option<string> {
    if r.Begin? then None
    else if r.reply == Fine && r.command.id == id && !r.command.Complete? then Some(r.command.claimant)
    else LastClaimant(r.before, id)
  }

  // What a task has become of `t`, by the commands of the run
  ghost predicate Became(r: Run, t: Task, now: Task) {
    && now.id == t.id && now.deps == t.deps
    && now.claimedBy == (if LastClaimant(r, t.id).Some? then LastClaimant(r, t.id) else t.claimedBy)
    && match LastOn(r, t.id)
       case None => now == t
       case Some(Claim(_, _)) => now.status == Status.Claimed && now.sha == t.sha && now.evidence == t.evidence
       case Some(Start(_, _)) => now.status == InProgress && now.sha == t.sha && now.evidence == t.evidence
       case Some(Complete(_, sha, evidence)) =>
         now.status == Done && now.sha == Some(sha) && now.evidence == Some(evidence)
  }

  /** Over every run, each task is what the commands on it that went through have made of it. */
  lemma {:induction false} TaskBecomes(r: Run, k: nat)
    requires RunOk(r) && DistinctIds(First(r)) && k < |First(r)|
    ensures |r.tasks| == |First(r)| && DistinctIds(r.tasks) && Became(r, First(r)[k], r.tasks[k])
  {
    if r.More? {
      TaskBecomes(r.before, k);
      if j: nat :| Passes(r.before.tasks, r.command, j) {
        TouchedIds(r.before.tasks, j, After(r.before.tasks, r.command, j));
        assert r.tasks == After(r.before.tasks, r.command, j);
        TaskBecomes(r.before, j);
        BecameMore(r, k, j);
      }
    }
  }

  lemma BecameMore(r: Run, k: nat, j: nat)
    requires r.More? && r.reply == Fine && |r.before.tasks| == |First(r)| && k < |First(r)|
    requires Passes(r.before.tasks, r.command, j) && r.tasks == After(r.before.tasks, r.command, j)
    requires Became(r.before, First(r)[k], r.before.tasks[k])
    ensures Became(r, First(r)[k], r.tasks[k])
  {
    var t := First(r)[k];
    if k != j { assert t.id != r.command.id; }
  }

  // Done from the start, or completed by a command of the run
  ghost predicate Finished(r: Run, id: Node) {
    exists k :: 0 <= k < |First(r)| && First(r)[k].id == id &&
      (if LastOn(r, id).Some? then LastOn(r, id).value.Complete? else First(r)[k].status == Done)
  }

  lemma FinishedDone(r: Run, id: Node)
    requires RunOk(r) && DistinctIds(First(r))
    ensures Finished(r, id) <==> id in DoneIds(r.tasks)
  {
    if k :| 0 <= k < |First(r)| && First(r)[k].id == id { TaskBecomes(r, k); }
    if id in DoneIds(r.tasks) {
      var k :| 0 <= k < |r.tasks| && r.tasks[k].status == Done && r.tasks[k].id == id;
      if |First(r)| > 0 { TaskBecomes(r, 0); }
      BoardSize(r);
      TaskBecomes(r, k);
    }
  }

  lemma {:induction false} BoardSize(r: Run)
    requires RunOk(r)
    ensures |r.tasks| == |First(r)|
  {
    if r.More? { BoardSize(r.before); }
  }

  // By the history: a claim is the first command on its task, a start comes before any but a claim, and a complete
  // before any other complete.
  ghost predicate InTurn(r: Run, c: Command, t: Task) {
    match c
    case Claim(_, _) => LastOn(r, t.id) == None && t.status == Todo
    case Start(_, _) =>
      if LastOn(r, t.id) == None then t.status == Todo || t.status == Status.Claimed else LastOn(r, t.id).value.Claim?
    case Complete(_, _, _) => !Finished(r, t.id)
  }

  /** Over every run, a command goes through exactly when its turn has come and all its dependencies are finished, and
      crashes exactly when its turn has come and a dependency is no task. */
  lemma PassesInTurn(r: Run, k: nat)
    requires RunOk(r) && r.More? && DistinctIds(First(r)) && k < |First(r)| && First(r)[k].id == r.command.id
    ensures r.reply == Fine <==>
              && InTurn(r.before, r.command, First(r)[k]) && ArgumentsOk(r.command)
              && forall d :: d in First(r)[k].deps ==> Finished(r.before, d)
    ensures r.reply == Crashed <==>
              && InTurn(r.before, r.command, First(r)[k]) && ArgumentsOk(r.command)
              && exists d :: d in First(r)[k].deps && forall j :: 0 <= j < |First(r)| ==> First(r)[j].id != d
  {
    var tasks := r.before.tasks;
    TaskBecomes(r.before, k);
    FinishedDone(r.before, r.command.id);
    forall d | d in First(r)[k].deps
      ensures Finished(r.before, d) <==> d in DoneIds(tasks)
    {
      FinishedDone(r.before, d);
    }
    OnlyThere(tasks, r.command, k);
    assert Elems(tasks[k].deps) <= DoneIds(tasks) <==> forall d :: d in First(r)[k].deps ==> Finished(r.before, d) by {
      forall d ensures d in Elems(tasks[k].deps) <==> d in First(r)[k].deps { }
    }
    IsDone(tasks, k);
    assert StatusAllows(r.command, tasks[k].status) <==> InTurn(r.before, r.command, First(r)[k]);
    assert r.reply == Fine <==> Passes(tasks, r.command, k);
    KnownIds(r.before);
    assert !(Elems(tasks[k].deps) <= Ids(First(r))) <==> exists d :: d in First(r)[k].deps && d !in Ids(First(r)) by {
      forall d ensures d in Elems(tasks[k].deps) <==> d in First(r)[k].deps { }
    }
    assert r.reply == Crashed <==> Crashes(tasks, r.command, k);
  }

  lemma {:induction false} KnownIds(r: Run)
    requires RunOk(r)
    ensures Ids(r.tasks) == Ids(First(r))
  {
    if r.More? {
      KnownIds(r.before);
      if j: nat :| Passes(r.before.tasks, r.command, j) {
        TouchedIds(r.before.tasks, j, After(r.before.tasks, r.command, j));
      }
    }
  }

  ghost predicate AllDone(tasks: seq<Task>) { forall k :: 0 <= k < |tasks| ==> tasks[k].status == Done }

  function SomeSha(): (s: string)
    ensures IsSha(s)
  {
    "0123456789abcdef0123456789abcdef01234567"
  }

  /** `complete` alone can finish every sound board. */
  lemma {:induction false} CanFinish(tasks: seq<Task>) returns (r: Run)
    requires GoodBoard(tasks)
    ensures RunOk(r) && First(r) == tasks && AllDone(r.tasks) && DoneIds(r.tasks) == Ids(tasks)
    decreases |Open(tasks)|
  {
    if AllDone(tasks) {
      r := Begin(tasks);
    } else {
      var k := SomeReady(tasks);
      var c := Complete(tasks[k].id, SomeSha(), Manifest(tasks[k].id));
      var after := After(tasks, c, k);
      assert Passes(tasks, c, k);
      OnlyOne(tasks, c, k);
      assert Step(tasks, c, Fine, after);
      StepKeeps(tasks, c, Fine, after);
      OpenLess(tasks, k, after);
      var rest := CanFinish(after);
      r := Prepend(tasks, c, rest);
    }
  }

  lemma OnlyOne(tasks: seq<Task>, c: Command, k: nat)
    requires Passes(tasks, c, k)
    ensures forall j: nat :: Passes(tasks, c, j) ==> j == k
    ensures GoodBoard(tasks) ==> forall j: nat :: !Crashes(tasks, c, j)
  {
    if GoodBoard(tasks) {
      forall j: nat ensures !Crashes(tasks, c, j) {
        if j < |tasks| { assert GoodTask(tasks[j], Ids(tasks)); }
      }
    }
  }

  lemma OpenLess(tasks: seq<Task>, k: nat, after: seq<Task>)
    requires DistinctIds(tasks) && k < |tasks| && tasks[k].status != Done
    requires |after| == |tasks| && after[k].status == Done && after[k].id == tasks[k].id
    requires forall j :: 0 <= j < |tasks| && j != k ==> after[j] == tasks[j]
    ensures |Open(after)| < |Open(tasks)|
  {
    assert Open(after) == Open(tasks) - {tasks[k].id};
    assert tasks[k].id in Open(tasks);
  }

  lemma {:induction false} Prepend(tasks: seq<Task>, c: Command, rest: Run) returns (r: Run)
    requires RunOk(rest) && Step(tasks, c, Fine, First(rest))
    ensures RunOk(r) && First(r) == tasks && r.tasks == rest.tasks
  {
    if rest.Begin? {
      r := More(Begin(tasks), c, Fine, rest.tasks);
    } else {
      var front := Prepend(tasks, c, rest.before);
      r := More(front, rest.command, rest.reply, rest.tasks);
    }
  }

  // ---------- the board in memory ----------

  class Board {
    var tasks: seq<Task>

    constructor (loaded: seq<Task>)
      ensures tasks == loaded
    {
      tasks := loaded;
    }

    // The index by id, refused when an id stands twice
    method Index() returns (known: Option<map<Node, nat>>)
      ensures known.Some? <==> DistinctIds(tasks)
      ensures known.Some? ==> known.value.Keys == Ids(tasks)
      ensures known.Some? ==> forall v :: v in known.value ==> known.value[v] < |tasks| && tasks[known.value[v]].id == v
    {
      var m: map<Node, nat> := map[];
      for k := 0 to |tasks|
        invariant DistinctIds(tasks[..k]) && m.Keys == Ids(tasks[..k])
        invariant forall v :: v in m ==> m[v] < k && tasks[m[v]].id == v
      {
        assert tasks[..k + 1] == tasks[..k] + [tasks[k]];
        if tasks[k].id in m {
          assert tasks[m[tasks[k].id]].id == tasks[k].id;
          return None;
        }
        m := m[tasks[k].id := k];
      }
      assert tasks[..|tasks|] == tasks;
      return Some(m);
    }

    // Are all of these done? `None` when one is no task.
    method AllMet(known: map<Node, nat>, deps: seq<Node>) returns (met: Option<bool>)
      requires DistinctIds(tasks) && known.Keys == Ids(tasks)
      requires forall v :: v in known ==> known[v] < |tasks| && tasks[known[v]].id == v
      ensures met.None? <==> !(Elems(deps) <= Ids(tasks))
      ensures met == Some(true) <==> Elems(deps) <= DoneIds(tasks)
    {
      var all := true;
      for k := 0 to |deps|
        invariant Elems(deps[..k]) <= Ids(tasks) && (all <==> Elems(deps[..k]) <= DoneIds(tasks))
      {
        assert Elems(deps[..k + 1]) == Elems(deps[..k]) + {deps[k]};
        if deps[k] !in known {
          assert deps[k] in Elems(deps) && deps[k] !in Ids(tasks) && deps[k] !in DoneIds(tasks);
          return None;
        }
        IsDone(tasks, known[deps[k]]);
        if tasks[known[deps[k]]].status != Done { all := false; }
      }
      assert deps[..|deps|] == deps;
      DoneAreIds(tasks);
      return Some(all);
    }

    // The tasks that `claim` would accept, in the board's order
    method Claimable() returns (rows: seq<Task>)
      requires DistinctIds(tasks) && forall k :: 0 <= k < |tasks| ==> Elems(tasks[k].deps) <= Ids(tasks)
      ensures forall t :: t in rows <==>
                exists k: nat :: k < |tasks| && tasks[k] == t && Passes(tasks, Claim(t.id, ""), k)
    {
      var known := Index();
      rows := [];
      for k := 0 to |tasks|
        invariant forall t :: t in rows ==> exists j: nat :: j < k && tasks[j] == t && Passes(tasks, Claim(t.id, ""), j)
        invariant forall j: nat :: j < k && Passes(tasks, Claim(tasks[j].id, ""), j) ==> tasks[j] in rows
      {
        var t := tasks[k];
        if t.status == Todo {
          var met := AllMet(known.value, t.deps);
          if met.value {
            assert Passes(tasks, Claim(t.id, ""), k);
            rows := rows + [t];
          }
        }
      }
    }

    method Perform(c: Command) returns (reply: Reply)
      modifies this
      ensures Step(old(tasks), c, reply, tasks)
    {
      var known := Index();
      if known.None? { return Refused; }
      if c.id !in known.value { return Refused; }
      var k := known.value[c.id];
      if !StatusAllows(c, tasks[k].status) || !ArgumentsOk(c) {
        OnlyThere(tasks, c, k);
        return Refused;
      }
      var met := AllMet(known.value, tasks[k].deps);
      DoneAreIds(tasks);
      StepThere(tasks, c, k);
      if met.None? { return Crashed; }
      if !met.value { return Refused; }
      tasks := After(tasks, c, k);
      return Fine;
    }
  }

  lemma OnlyThere(tasks: seq<Task>, c: Command, k: nat)
    requires DistinctIds(tasks) && k < |tasks| && tasks[k].id == c.id
    ensures forall j: nat :: Passes(tasks, c, j) || Crashes(tasks, c, j) ==> j == k
  {
  }

  // What the lookup of the dependencies decides
  lemma StepThere(tasks: seq<Task>, c: Command, k: nat)
    requires DistinctIds(tasks) && k < |tasks| && tasks[k].id == c.id && StatusAllows(c, tasks[k].status)
    requires ArgumentsOk(c)
    ensures Elems(tasks[k].deps) <= DoneIds(tasks) ==> Step(tasks, c, Fine, After(tasks, c, k))
    ensures !(Elems(tasks[k].deps) <= Ids(tasks)) ==> Step(tasks, c, Crashed, tasks)
    ensures Elems(tasks[k].deps) <= Ids(tasks) && !(Elems(tasks[k].deps) <= DoneIds(tasks)) ==>
              Step(tasks, c, Refused, tasks)
  {
    OnlyThere(tasks, c, k);
    DoneAreIds(tasks);
    assert Elems(tasks[k].deps) <= DoneIds(tasks) ==> Passes(tasks, c, k);
    assert !(Elems(tasks[k].deps) <= Ids(tasks)) ==> Crashes(tasks, c, k);
  }

  lemma IsDone(tasks: seq<Task>, k: nat)
    requires DistinctIds(tasks) && k < |tasks|
    ensures tasks[k].status == Done <==> tasks[k].id in DoneIds(tasks)
  {
  }

  lemma DoneAreIds(tasks: seq<Task>)
    ensures DoneIds(tasks) <= Ids(tasks)
  {
  }
}
