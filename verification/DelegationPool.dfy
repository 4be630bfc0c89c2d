/**
 Breadth-first delegation of dawn_kestrel/delegation/engine.py: the root runs, a
 truncated list of children is queued, and a pool of workers runs them in any
 interleaving.
 */
module DelegationPool {
  import opened Prelude
  import opened Convergence
  import opened Delegation
  import opened DelegationResults

  /** The root run and the children left to queue; the flag tells whether the root raised. */
  function BfsRoot(c: Config, o: Oracle, s: State, r: Root): (State, bool, seq<Node>)
    requires c.budget.Valid()
  {
    var s1 := ExecuteAndRecord(c, o, s, r.agent, r.prompt, false);
    if Raises(c, o, s.spawned) then (s1, true, [])
    else
      var (s2, stop) := CheckBoundaries(c, o, s1);
      if stop.Some? || r.children == [] then (s2, false, [])
      else
        var kids := if |r.children| > c.budget.maxBreadth then r.children[..c.budget.maxBreadth] else r.children;
        if s2.depth + 1 >= c.budget.maxDepth then (s2, false, [])
        else
          var s3 := s2.(depth := s2.depth + 1);
          var remaining := c.budget.maxTotalAgents - s3.spawned;
          if remaining <= 0 then (s3, false, [])
          else (s3, false, if |kids| > remaining then kids[..remaining] else kids)
  }

  /** What the pool can do next: a worker takes a child, finishes it, or is cancelled in the middle of it. */
  datatype Event = Start(child: nat) | Finish(child: nat) | Cancel(child: nat)

  /** `running` maps a child to its number among the spawned agents; `finished` lists those numbers. */
  datatype Pool = Pool(
    queued: set<nat>, running: map<nat, nat>, started: seq<nat>, finished: seq<nat>, context: State)

  function Indices(n: nat): (r: set<nat>)
    ensures |r| == n && forall i :: i in r <==> 0 <= i < n
  {
    if n == 0 then {} else Indices(n - 1) + {n - 1}
  }

  function NewPool(s: State, kids: seq<Node>): Pool {
    Pool(Indices(|kids|), map[], [], [], s)
  }

  function Leave(p: Pool, i: nat): Pool {
    p.(running := p.running - {i},
       context := p.context.(active := p.context.active - 1, completed := p.context.completed + 1))
  }

  function PoolStep(c: Config, kids: seq<Node>, p: Pool, e: Event): Option<Pool> {
    match e
    case Start(i) =>
      if i in p.queued && i < |kids| && |p.running| < c.budget.maxConcurrent then
        var x := p.context;
        Some(p.(
          queued := p.queued - {i}, running := p.running[i := x.spawned], started := p.started + [i],
          context := x.(spawned := x.spawned + 1, active := x.active + 1,
                        runs := x.runs + [Run(AgentOf(kids[i]), PromptOf(kids[i]), x.depth, false)])))
      else None
    case Finish(i) =>
      if i in p.running then Some(Leave(p, i).(finished := p.finished + [p.running[i]])) else None
    case Cancel(i) =>
      if i in p.running then Some(Leave(p, i)) else None
  }

  function PoolRun(c: Config, kids: seq<Node>, p: Pool, events: seq<Event>): Option<Pool> {
    if events == [] then Some(p)
    else
      var before := PoolRun(c, kids, p, events[..|events| - 1]);
      if before.None? then None else PoolStep(c, kids, before.value, events[|events| - 1])
  }

  /** The runs of the children started, in the order they started. */
  function ChildRuns(kids: seq<Node>, depth: int, started: seq<nat>): seq<Run> {
    seq(|started|, j requires 0 <= j < |started| =>
      if started[j] < |kids| then Run(AgentOf(kids[started[j]]), PromptOf(kids[started[j]]), depth, false)
      else Run("", "", depth, false))
  }

  /** Each child is queued or was started, and started once. */
  ghost predicate Scheduled(kids: seq<Node>, p: Pool) {
    && (forall i :: i in p.queued || i in p.started <==> 0 <= i < |kids|)
    && (forall i :: i in p.queued ==> i !in p.started)
    && (forall i, j :: 0 <= i < j < |p.started| ==> p.started[i] != p.started[j])
    && |p.queued| + |p.started| == |kids|
    && (forall i :: i in p.running ==> i in p.started)
  }

  ghost predicate PoolInvariant(c: Config, kids: seq<Node>, base: State, p: Pool) {
    var x := p.context;
    && Scheduled(kids, p)
    && |p.running| <= c.budget.maxConcurrent
    && x.spawned == base.spawned + |p.started|
    && x.active == base.active + |p.running|
    && x.spawned - x.active - x.completed == base.spawned - base.active - base.completed
    && x == base.(spawned := x.spawned, active := x.active, completed := x.completed, runs := x.runs)
    && x.runs == base.runs + ChildRuns(kids, base.depth, p.started)
  }

  lemma StartKeepsSchedule(c: Config, kids: seq<Node>, p: Pool, i: nat)
    requires Scheduled(kids, p) && PoolStep(c, kids, p, Start(i)).Some?
    ensures Scheduled(kids, PoolStep(c, kids, p, Start(i)).value)
  {
    var q := PoolStep(c, kids, p, Start(i)).value;
    assert forall j :: j in q.started <==> j in p.started || j == i;
  }

  lemma StartKeepsInvariant(c: Config, kids: seq<Node>, base: State, p: Pool, i: nat)
    requires PoolInvariant(c, kids, base, p) && PoolStep(c, kids, p, Start(i)).Some?
    ensures PoolInvariant(c, kids, base, PoolStep(c, kids, p, Start(i)).value)
  {
    var q := PoolStep(c, kids, p, Start(i)).value;
    var run := Run(AgentOf(kids[i]), PromptOf(kids[i]), base.depth, false);
    StartKeepsSchedule(c, kids, p, i);
    assert q.running.Keys == p.running.Keys + {i};
    assert ChildRuns(kids, base.depth, q.started) == ChildRuns(kids, base.depth, p.started) + [run];
  }

  lemma LeaveKeepsInvariant(c: Config, kids: seq<Node>, base: State, p: Pool, i: nat)
    requires PoolInvariant(c, kids, base, p) && i in p.running
    ensures PoolInvariant(c, kids, base, Leave(p, i))
  {
    assert Leave(p, i).running.Keys == p.running.Keys - {i};
  }

  lemma PoolStepKeepsInvariant(c: Config, kids: seq<Node>, base: State, p: Pool, e: Event)
    requires PoolInvariant(c, kids, base, p) && PoolStep(c, kids, p, e).Some?
    ensures PoolInvariant(c, kids, base, PoolStep(c, kids, p, e).value)
  {
    match e
    case Start(i) => StartKeepsInvariant(c, kids, base, p, i);
    case Finish(i) => LeaveKeepsInvariant(c, kids, base, p, i);
    case Cancel(i) => LeaveKeepsInvariant(c, kids, base, p, i);
  }

  lemma NewPoolInvariant(c: Config, kids: seq<Node>, base: State)
    requires c.budget.Valid()
    ensures PoolInvariant(c, kids, base, NewPool(base, kids))
  {
    assert base.runs + ChildRuns(kids, base.depth, []) == base.runs;
  }

  lemma {:induction false} PoolKeepsInvariant(c: Config, kids: seq<Node>, base: State, events: seq<Event>)
    requires c.budget.Valid()
    ensures var p := PoolRun(c, kids, NewPool(base, kids), events);
      p.Some? ==> PoolInvariant(c, kids, base, p.value)
  {
    if events == [] {
      NewPoolInvariant(c, kids, base);
    } else {
      var before, e := PoolRun(c, kids, NewPool(base, kids), events[..|events| - 1]), events[|events| - 1];
      PoolKeepsInvariant(c, kids, base, events[..|events| - 1]);
      if before.Some? && PoolStep(c, kids, before.value, e).Some? {
        PoolStepKeepsInvariant(c, kids, base, before.value, e);
      }
    }
  }

  /** What the root leaves to the pool: the budget has room for every queued child. */
  lemma BfsRootFacts(c: Config, o: Oracle, t: Tracker, r: Root)
    requires c.budget.Valid()
    ensures var (base, raised, kids) := BfsRoot(c, o, Fresh(t, o), r);
      && kids <= r.children && |kids| <= c.budget.maxBreadth
      && base.runs == [Run(r.agent, r.prompt, 0, false)]
      && base.spawned == base.completed == 1 && base.active == 0
      && 1 + |kids| <= c.budget.maxTotalAgents
      && 0 <= base.depth <= 1 && base.depth < c.budget.maxDepth && (kids != [] ==> base.depth == 1)
  {
    var s := Fresh(t, o);
    assert s.runs + [Run(r.agent, r.prompt, 0, false)] == [Run(r.agent, r.prompt, 0, false)];
  }

  /**
   Breadth-first delegation, in every interleaving and at every moment: at most
   `maxTotalAgents` agents are spawned and at most `maxConcurrent` are active;
   spawned agents are the active and the completed ones; the runs are the root
   and, once each and one level down, some of its first children. Grandchildren
   never run.
   */
  lemma BfsKeepsBudget(c: Config, o: Oracle, t: Tracker, r: Root, events: seq<Event>)
    requires c.budget.Valid()
    ensures var (base, raised, kids) := BfsRoot(c, o, Fresh(t, o), r);
      var run := PoolRun(c, kids, NewPool(base, kids), events);
      run.Some? ==>
        var x := run.value.context;
        && kids <= r.children && |kids| <= c.budget.maxBreadth
        && x.spawned <= c.budget.maxTotalAgents
        && x.active == |run.value.running| <= c.budget.maxConcurrent
        && x.spawned == x.active + x.completed == |x.runs|
        && x.runs == [Run(r.agent, r.prompt, 0, false)] + ChildRuns(kids, 1, run.value.started)
        && (forall i, j :: 0 <= i < j < |run.value.started| ==> run.value.started[i] != run.value.started[j])
        && (run.value.queued == {} ==> |run.value.started| == |kids|)
        && 0 <= x.depth <= 1 && x.depth < c.budget.maxDepth
  {
    var (base, raised, kids) := BfsRoot(c, o, Fresh(t, o), r);
    BfsRootFacts(c, o, t, r);
    PoolKeepsInvariant(c, kids, base, events);
    var run := PoolRun(c, kids, NewPool(base, kids), events);
    if run.Some? && kids == [] {
      assert ChildRuns(kids, base.depth, run.value.started) == ChildRuns(kids, 1, run.value.started);
    }
  }

  /** After the pool: the finished children are filed in order until one raises. */
  function Collect(c: Config, o: Oracle, s: State, finished: seq<nat>): (State, bool)
    decreases finished
  {
    if finished == [] then (s, false)
    else
      var s1 := Record(c, o, s, finished[0]);
      if Raises(c, o, finished[0]) then (s1, true) else Collect(c, o, s1, finished[1..])
  }

  /** Collecting files each finished child once and spawns nothing. */
  lemma {:induction false} CollectFiles(c: Config, o: Oracle, s: State, finished: seq<nat>)
    ensures var (s', raised) := Collect(c, o, s, finished);
      && s'.spawned == s.spawned && s'.active == s.active && s'.runs == s.runs
      && Unfiled(s) - |finished| <= Unfiled(s')
      && (!raised ==> Unfiled(s') == Unfiled(s) - |finished|)
    decreases finished
  {
    if finished != [] {
      var s1 := Record(c, o, s, finished[0]);
      if o.outcome(finished[0]).Failed? {
        AgentErrorsAppend(s.errors, AgentError(o.outcome(finished[0]).message));
      }
      if !Raises(c, o, finished[0]) {
        CollectFiles(c, o, s1, finished[1..]);
      }
    }
  }

  // ---------------------------------------------------------------------
  // The whole delegation

  function Cancellations(events: seq<Event>): nat {
    if events == [] then 0
    else Cancellations(events[..|events| - 1]) + if events[|events| - 1].Cancel? then 1 else 0
  }

  /**
   The root, the pool until no worker is left at work, and the collection; None for what
   is no run of the pool. The flag tells whether it ends in an exception.
   */
  function Bfs(c: Config, o: Oracle, t: Tracker, r: Root, events: seq<Event>): Option<(State, bool)>
    requires c.budget.Valid()
  {
    var (base, raised, kids) := BfsRoot(c, o, Fresh(t, o), r);
    if raised then Some((base, true))
    else
      match PoolRun(c, kids, NewPool(base, kids), events)
      case None => None
      case Some(p) => if p.running != map[] then None else Some(Collect(c, o, p.context, p.finished))
  }

  /** Each number the pool hands out stands for one started child, and is finished at most once. */
  ghost predicate Numbered(first: nat, running: map<nat, nat>, started: seq<nat>, finished: seq<nat>) {
    && (forall i :: i in running ==>
          first <= running[i] < first + |started| && started[running[i] - first] == i)
    && (forall n :: n in finished ==> first <= n < first + |started| && started[n - first] !in running)
    && (forall i, j :: 0 <= i < j < |finished| ==> finished[i] != finished[j])
  }

  lemma StartKeepsNumbers(first: nat, running: map<nat, nat>, started: seq<nat>, finished: seq<nat>, i: nat)
    requires Numbered(first, running, started, finished) && i !in started
    ensures Numbered(first, running[i := first + |started|], started + [i], finished)
  {
    forall n | n in finished ensures (started + [i])[n - first] !in running[i := first + |started|] {
      assert started[n - first] in started;
    }
  }

  lemma CancelKeepsNumbers(first: nat, running: map<nat, nat>, started: seq<nat>, finished: seq<nat>, i: nat)
    requires Numbered(first, running, started, finished)
    ensures Numbered(first, running - {i}, started, finished)
  {
  }

  lemma FinishKeepsNumbers(first: nat, running: map<nat, nat>, started: seq<nat>, finished: seq<nat>, i: nat)
    requires Numbered(first, running, started, finished) && i in running
    ensures Numbered(first, running - {i}, started, finished + [running[i]])
  {
    assert running[i] !in finished;
    forall j, k | 0 <= j < k < |finished| + 1
      ensures (finished + [running[i]])[j] != (finished + [running[i]])[k]
    {
      assert finished[j] in finished;
    }
  }

  lemma StartStepNumbers(c: Config, kids: seq<Node>, base: State, p: Pool, i: nat)
    requires PoolInvariant(c, kids, base, p) && PoolStep(c, kids, p, Start(i)).Some?
    requires Numbered(base.spawned, p.running, p.started, p.finished)
    ensures var q := PoolStep(c, kids, p, Start(i)).value;
      Numbered(base.spawned, q.running, q.started, q.finished)
  {
    assert i !in p.started && p.context.spawned == base.spawned + |p.started|;
    StartKeepsNumbers(base.spawned, p.running, p.started, p.finished, i);
  }

  lemma PoolStepKeepsNumbers(c: Config, kids: seq<Node>, base: State, p: Pool, e: Event)
    requires PoolInvariant(c, kids, base, p) && PoolStep(c, kids, p, e).Some?
    requires Numbered(base.spawned, p.running, p.started, p.finished)
    ensures var q := PoolStep(c, kids, p, e).value;
      Numbered(base.spawned, q.running, q.started, q.finished)
  {
    match e
    case Start(i) => StartStepNumbers(c, kids, base, p, i);
    case Finish(i) => FinishKeepsNumbers(base.spawned, p.running, p.started, p.finished, i);
    case Cancel(i) => CancelKeepsNumbers(base.spawned, p.running, p.started, p.finished, i);
  }

  lemma PoolStepAccounts(c: Config, kids: seq<Node>, p: Pool, e: Event)
    requires PoolStep(c, kids, p, e).Some? && (e.Start? ==> e.child !in p.running)
    ensures var q := PoolStep(c, kids, p, e).value;
      |q.started| - |q.running| - |q.finished|
      == |p.started| - |p.running| - |p.finished| + if e.Cancel? then 1 else 0
  {
    match e
    case Start(i) => assert p.running[i := p.context.spawned].Keys == p.running.Keys + {i};
    case Finish(i) => assert (p.running - {i}).Keys == p.running.Keys - {i};
    case Cancel(i) => assert (p.running - {i}).Keys == p.running.Keys - {i};
  }

  lemma {:induction false} PoolAccounts(c: Config, kids: seq<Node>, base: State, events: seq<Event>)
    requires c.budget.Valid()
    ensures var run := PoolRun(c, kids, NewPool(base, kids), events);
      run.Some? ==>
        && Numbered(base.spawned, run.value.running, run.value.started, run.value.finished)
        && |run.value.started| == |run.value.running| + |run.value.finished| + Cancellations(events)
  {
    if events != [] {
      var before, e := PoolRun(c, kids, NewPool(base, kids), events[..|events| - 1]), events[|events| - 1];
      PoolAccounts(c, kids, base, events[..|events| - 1]);
      PoolKeepsInvariant(c, kids, base, events[..|events| - 1]);
      if before.Some? && PoolStep(c, kids, before.value, e).Some? {
        if e.Start? {
          StartIsNew(c, kids, base, before.value, e);
        }
        PoolStepKeepsNumbers(c, kids, base, before.value, e);
        PoolStepAccounts(c, kids, before.value, e);
      }
    }
  }

  lemma StartIsNew(c: Config, kids: seq<Node>, base: State, p: Pool, e: Event)
    requires PoolInvariant(c, kids, base, p) && PoolStep(c, kids, p, e).Some? && e.Start?
    ensures e.child !in p.running
  {
  }

  lemma BfsRootFiles(c: Config, o: Oracle, t: Tracker, r: Root)
    requires c.budget.Valid()
    ensures Unfiled(BfsRoot(c, o, Fresh(t, o), r).0) == 0
  {
    var s := Fresh(t, o);
    RunIsFiled(c, o, s, r.agent, r.prompt, false);
    CheckFiles(c, o, ExecuteAndRecord(c, o, s, r.agent, r.prompt, false));
  }

  /**
   A whole breadth-first delegation, in every interleaving: each child the pool finishes
   is filed once, so unless evidence raises, the results and agent errors are the agents
   spawned less those cancelled; if it raises, no more than those.
   */
  lemma BfsFilesWhatFinished(c: Config, o: Oracle, t: Tracker, r: Root, events: seq<Event>)
    requires c.budget.Valid() && Bfs(c, o, t, r, events).Some?
    ensures var (base, raised, kids) := BfsRoot(c, o, Fresh(t, o), r);
      var run := PoolRun(c, kids, NewPool(base, kids), events);
      var (s, failed) := Bfs(c, o, t, r, events).value;
      var filed := |s.results| + AgentErrors(s.errors);
      if raised then s == base && failed && filed == s.spawned == 1
      else
        && run.Some? && Numbered(base.spawned, map[], run.value.started, run.value.finished)
        && s.active == 0 && s.spawned == s.completed
        && filed <= s.spawned - Cancellations(events)
        && (!failed ==> filed == s.spawned - Cancellations(events))
  {
    var (base, raised, kids) := BfsRoot(c, o, Fresh(t, o), r);
    BfsRootFacts(c, o, t, r);
    BfsRootFiles(c, o, t, r);
    if !raised {
      PoolKeepsInvariant(c, kids, base, events);
      PoolAccounts(c, kids, base, events);
      var p := PoolRun(c, kids, NewPool(base, kids), events).value;
      assert |p.running| == 0;
      CollectFiles(c, o, p.context, p.finished);
      CollectFilesNoMore(c, o, p.context, p.finished);
    }
  }

  lemma {:induction false} CollectFilesNoMore(c: Config, o: Oracle, s: State, finished: seq<nat>)
    ensures var s' := Collect(c, o, s, finished).0;
      Unfiled(s') >= Unfiled(s) - |finished| && s'.completed == s.completed
    decreases finished
  {
    if finished != [] && !Raises(c, o, finished[0]) {
      CollectFilesNoMore(c, o, Record(c, o, s, finished[0]), finished[1..]);
    }
    if finished != [] && o.outcome(finished[0]).Failed? {
      AgentErrorsAppend(s.errors, AgentError(o.outcome(finished[0]).message));
    }
  }
}
