/**
 What a delegation hands back: whose answers and whose errors, in which order, read off
 the oracle alone; and which children a breadth-first delegation queues.
 */
module DelegationContent {
  import opened Prelude
  import opened Convergence
  import opened Delegation
  import opened DelegationResults
  import opened DelegationCount
  import opened DelegationEngine
  import opened DelegationPool

  function AnswerOf(o: Oracle, n: nat): seq<Evidence> {
    match o.outcome(n) { case Finished(r) => [r] case Failed(_) => [] }
  }

  function FailureOf(o: Oracle, n: nat): seq<string> {
    match o.outcome(n) { case Finished(_) => [] case Failed(m) => [m] }
  }

  /** A failure's message, or that the answer raised as evidence. */
  function ErrorOf(c: Config, o: Oracle, n: nat): seq<Error> {
    match o.outcome(n)
    case Failed(m) => [AgentError(m)]
    case Finished(_) => if Raises(c, o, n) then [SignatureError] else []
  }

  /** The answers of the agents numbered `ns`, in that order, leaving out those that failed. */
  function Answers(o: Oracle, ns: seq<nat>): seq<Evidence> {
    if ns == [] then []
    else Answers(o, ns[..|ns| - 1]) + AnswerOf(o, ns[|ns| - 1])
  }

  /** The messages of those that failed. */
  function Failures(o: Oracle, ns: seq<nat>): seq<string> {
    if ns == [] then []
    else Failures(o, ns[..|ns| - 1]) + FailureOf(o, ns[|ns| - 1])
  }

  /** The answers of the first `n` agents, in order. */
  function AnswersUpto(o: Oracle, n: nat): seq<Evidence> {
    if n == 0 then [] else AnswersUpto(o, n - 1) + AnswerOf(o, n - 1)
  }

  function FailuresUpto(o: Oracle, n: nat): seq<string> {
    if n == 0 then [] else FailuresUpto(o, n - 1) + FailureOf(o, n - 1)
  }

  /** The errors of the first `n` agents. */
  function ErrorsUpto(c: Config, o: Oracle, n: nat): seq<Error> {
    if n == 0 then [] else ErrorsUpto(c, o, n - 1) + ErrorOf(c, o, n - 1)
  }

  /** The messages of the agent errors, in order. */
  function Messages(es: seq<Error>): seq<string> {
    if es == [] then []
    else Messages(es[..|es| - 1]) + if es[|es| - 1].AgentError? then [es[|es| - 1].message] else []
  }

  // ---------------------------------------------------------------------
  // Depth first

  /** Everything the agents so far answered is filed, but for one exception still on its way up. */
  ghost predicate Filed(c: Config, o: Oracle, t: Tracker, s: State, raised: bool) {
    && s.results == AnswersUpto(o, s.spawned)
    && s.errors + (if raised then [SignatureError] else []) == ErrorsUpto(c, o, s.spawned)
    && s.tracker == TrackerAfter(c, o, t, s.spawned)
    && s.start == o.clock(0)
  }

  lemma RunFiles(c: Config, o: Oracle, t: Tracker, s: State, agent: string, prompt: string, again: bool)
    requires Filed(c, o, t, s, false)
    ensures Filed(c, o, t, ExecuteAndRecord(c, o, s, agent, prompt, again), Raises(c, o, s.spawned))
  {
    assert s.errors + [] == s.errors;
    assert AnswersUpto(o, s.spawned) + [] == AnswersUpto(o, s.spawned);
    var s1 := ExecuteAndRecord(c, o, s, agent, prompt, again);
    assert s1.errors + [] == s1.errors;
  }

  lemma CheckKeepsFiles(c: Config, o: Oracle, t: Tracker, s: State, raised: bool)
    requires Filed(c, o, t, s, raised)
    ensures Filed(c, o, t, CheckBoundaries(c, o, s).0, raised)
  {
  }

  lemma DfsFilesAll(c: Config, o: Oracle, t: Tracker, s: State, agent: string, prompt: string,
                    children: seq<Node>, again: bool)
    requires Filed(c, o, t, s, false)
    ensures var (s', raised) := Dfs(c, o, s, agent, prompt, children, again);
      Filed(c, o, t, s', raised) && (raised <==> Raises(c, o, s.spawned)) && (raised ==> s'.spawned == s.spawned + 1)
    decreases children, 1
  {
    var s1 := ExecuteAndRecord(c, o, s, agent, prompt, again);
    RunFiles(c, o, t, s, agent, prompt, again);
    if !Raises(c, o, s.spawned) {
      CheckKeepsFiles(c, o, t, s1, false);
      var (s2, stop) := CheckBoundaries(c, o, s1);
      if stop.None? && children != [] && s2.depth + 1 < c.budget.maxDepth {
        SiblingsFileAll(c, o, t, s2.(depth := s2.depth + 1), children);
      }
    }
  }

  lemma SiblingsFileAll(c: Config, o: Oracle, t: Tracker, s: State, kids: seq<Node>)
    requires Filed(c, o, t, s, false)
    ensures Filed(c, o, t, Siblings(c, o, s, kids), false)
    decreases kids, 0
  {
    if kids != [] && s.spawned < c.budget.maxTotalAgents {
      var (s1, stop) := CheckBoundaries(c, o, s);
      CheckKeepsFiles(c, o, t, s, false);
      if stop.None? {
        var (s2, raised) := Branch(c, o, s1, kids[0]);
        assert Filed(c, o, t, s2, raised) by { BranchFilesAll(c, o, t, s1, kids[0]); }
        var s3 := if raised then s2.(errors := s2.errors + [SignatureError]) else s2;
        assert s3.errors + [] == s3.errors;
        SiblingsFileAll(c, o, t, s3, kids[1..]);
      }
    }
  }

  lemma BranchFilesAll(c: Config, o: Oracle, t: Tracker, s: State, n: Node)
    requires Filed(c, o, t, s, false)
    ensures Filed(c, o, t, Branch(c, o, s, n).0, Branch(c, o, s, n).1)
    decreases n, 2
  {
    RunFiles(c, o, t, s, AgentOf(n), PromptOf(n), false);
    if !Raises(c, o, s.spawned) && n.children != [] {
      var s1 := ExecuteAndRecord(c, o, s, AgentOf(n), PromptOf(n), false);
      DfsFilesAll(c, o, t, s1, AgentOf(n), PromptOf(n), n.children, true);
    }
  }

  lemma {:induction false} MessagesConcat(a: seq<Error>, b: seq<Error>)
    ensures Messages(a + b) == Messages(a) + Messages(b)
  {
    if b == [] {
      assert a + b == a;
    } else {
      MessagesConcat(a, b[..|b| - 1]);
      assert (a + b)[..|a + b| - 1] == a + b[..|b| - 1];
    }
  }

  lemma OneMessage(e: Error)
    ensures Messages([e]) == if e.AgentError? then [e.message] else []
    ensures Messages([]) == []
  {
    assert [e][..0] == [];
  }

  lemma MessagesOfOne(c: Config, o: Oracle, n: nat)
    ensures Messages(ErrorOf(c, o, n)) == FailureOf(o, n)
  {
    if o.outcome(n).Failed? {
      OneMessage(AgentError(o.outcome(n).message));
    } else {
      OneMessage(SignatureError);
    }
  }

  lemma MessagesNext(c: Config, o: Oracle, n: nat, es: seq<Error>, ms: seq<string>)
    requires Messages(es) == ms
    ensures Messages(es + ErrorOf(c, o, n)) == ms + FailureOf(o, n)
  {
    MessagesOfOne(c, o, n);
    MessagesConcat(es, ErrorOf(c, o, n));
  }

  lemma NoMessagesAtFirst(c: Config, o: Oracle)
    ensures Messages(ErrorsUpto(c, o, 0)) == FailuresUpto(o, 0)
  {
  }

  lemma MessagesUptoNext(c: Config, o: Oracle, n: nat)
    requires Messages(ErrorsUpto(c, o, n)) == FailuresUpto(o, n)
    ensures Messages(ErrorsUpto(c, o, n + 1)) == FailuresUpto(o, n + 1)
  {
    MessagesNext(c, o, n, ErrorsUpto(c, o, n), FailuresUpto(o, n));
  }

  lemma MessagesUpto(c: Config, o: Oracle, n: nat)
    ensures Messages(ErrorsUpto(c, o, n)) == FailuresUpto(o, n)
  {
    NoMessagesAtFirst(c, o);
    for i := 0 to n
      invariant Messages(ErrorsUpto(c, o, i)) == FailuresUpto(o, i)
    {
      MessagesUptoNext(c, o, i);
    }
  }

  /**
   For every configuration, tracker, clock and root, the results of a depth-first
   delegation are the answers of the agents it ran, in the order they ran, and its agent
   errors the messages of those that failed. Every exception stands where it was raised,
   but the root's own, which the delegation ends with.
   */
  lemma DelegateFilesAnswers(c: Config, o: Oracle, t: Tracker, r: Root)
    ensures var (s, raised) := Delegate(c, o, t, r);
      && s.results == AnswersUpto(o, s.spawned)
      && Messages(s.errors) == FailuresUpto(o, s.spawned)
      && (raised <==> Raises(c, o, 0)) && (raised ==> s.spawned == 1 && s.errors == [])
      && (!raised ==> s.errors == ErrorsUpto(c, o, s.spawned))
      && s.tracker == TrackerAfter(c, o, t, s.spawned) && s.start == o.clock(0)
  {
    var (s, raised) := Delegate(c, o, t, r);
    DfsFilesAll(c, o, t, Fresh(t, o), r.agent, r.prompt, r.children, false);
    MessagesUpto(c, o, s.spawned);
    assert s.errors + [] == s.errors;
    if raised {
      assert ErrorsUpto(c, o, 1) == ErrorsUpto(c, o, 0) + [SignatureError] == [SignatureError];
      assert |s.errors + [SignatureError]| == |s.errors| + 1;
      assert FailuresUpto(o, 0) == [];
    }
  }

  /** The report of a delegation that did not raise, read off the oracle. */
  lemma ReportContents(c: Config, o: Oracle, t: Tracker, r: Root)
    requires !Delegate(c, o, t, r).1
    ensures var s := Delegate(c, o, t, r).0;
      var report := ReportOf(c, o, s);
      var final := TrackerAfter(c, o, t, report.totalAgents);
      && report.results == AnswersUpto(o, report.totalAgents)
      && report.errors == ErrorsUpto(c, o, report.totalAgents)
      && (report.success <==> ErrorsUpto(c, o, report.totalAgents) == [])
      && (report.converged <==> final.stagnation >= c.budget.stagnationThreshold)
      && (report.stagnationDetected <==> final.stagnation > 0)
      && (report.finalSignature.None? <==> final.signatures == [])
      && (final.signatures != [] ==> report.finalSignature == Some(final.signatures[|final.signatures| - 1]))
      && report.elapsed == o.clock(s.readings) - o.clock(0)
  {
    DelegateFilesAnswers(c, o, t, r);
  }

  // ---------------------------------------------------------------------
  // Breadth first

  /** Those of `ns` that are filed: all up to the first whose evidence raises. */
  function FiledOf(c: Config, o: Oracle, ns: seq<nat>): (r: seq<nat>)
    ensures r <= ns
    ensures forall i :: 0 <= i < |r| - 1 ==> !Raises(c, o, r[i])
    ensures r == ns || (r != [] && Raises(c, o, r[|r| - 1]))
  {
    if ns == [] then [] else [ns[0]] + if Raises(c, o, ns[0]) then [] else FiledOf(c, o, ns[1..])
  }

  lemma {:induction false} AnswersConcat(o: Oracle, a: seq<nat>, b: seq<nat>)
    ensures Answers(o, a + b) == Answers(o, a) + Answers(o, b)
    ensures Failures(o, a + b) == Failures(o, a) + Failures(o, b)
  {
    if b == [] {
      assert a + b == a;
    } else {
      var front, n := b[..|b| - 1], b[|b| - 1];
      AnswersConcat(o, a, front);
      assert (a + b)[..|a + b| - 1] == a + front && (a + b)[|a + b| - 1] == n;
      Regroup(Answers(o, a), Answers(o, front), AnswerOf(o, n));
      Regroup(Failures(o, a), Failures(o, front), FailureOf(o, n));
    }
  }

  lemma RecordOne(c: Config, o: Oracle, s: State, n: nat)
    ensures Record(c, o, s, n).results == s.results + Answers(o, [n])
    ensures Messages(Record(c, o, s, n).errors) == Messages(s.errors) + Failures(o, [n])
  {
    assert [n][..0] == [] && Answers(o, []) == [] && Failures(o, []) == [];
    assert s.results + [] == s.results && Messages(s.errors) + [] == Messages(s.errors);
    if o.outcome(n).Failed? {
      var e := AgentError(o.outcome(n).message);
      MessagesConcat(s.errors, [e]);
      OneMessage(e);
    }
  }

  lemma {:induction false} CollectContents(c: Config, o: Oracle, s: State, ns: seq<nat>)
    ensures var s' := Collect(c, o, s, ns).0;
      && s'.results == s.results + Answers(o, FiledOf(c, o, ns))
      && Messages(s'.errors) == Messages(s.errors) + Failures(o, FiledOf(c, o, ns))
    decreases ns
  {
    if ns == [] {
      assert s.results + [] == s.results && Messages(s.errors) + [] == Messages(s.errors);
    } else {
      var s1, rest := Record(c, o, s, ns[0]), if Raises(c, o, ns[0]) then [] else FiledOf(c, o, ns[1..]);
      RecordOne(c, o, s, ns[0]);
      AnswersConcat(o, [ns[0]], rest);
      if Raises(c, o, ns[0]) {
        assert Answers(o, []) == [] && Failures(o, []) == [];
      } else {
        CollectContents(c, o, s1, ns[1..]);
      }
      Regroup(s.results, Answers(o, [ns[0]]), Answers(o, rest));
      Regroup(Messages(s.errors), Failures(o, [ns[0]]), Failures(o, rest));
    }
  }

  lemma Regroup<T>(a: seq<T>, b: seq<T>, c: seq<T>)
    ensures a + b + c == a + (b + c) && a + b + [] == a + b
  {
  }

  lemma {:induction false} CollectRaises(c: Config, o: Oracle, s: State, ns: seq<nat>)
    ensures Collect(c, o, s, ns).1 <==> exists n :: n in ns && Raises(c, o, n)
    decreases ns
  {
    if ns != [] {
      assert forall n :: n in ns <==> n == ns[0] || n in ns[1..];
      if !Raises(c, o, ns[0]) {
        CollectRaises(c, o, Record(c, o, s, ns[0]), ns[1..]);
      }
    }
  }

  /**
   In every interleaving, a breadth-first delegation hands back the root's answer and
   then those of the children the pool finished, in the order they finished, up to the
   first whose evidence raises; and likewise the messages of those that failed.
   */
  lemma BfsFilesAnswers(c: Config, o: Oracle, t: Tracker, r: Root, events: seq<Event>)
    requires c.budget.Valid() && Bfs(c, o, t, r, events).Some?
    ensures var (base, raised, kids) := BfsRoot(c, o, Fresh(t, o), r);
      var run := PoolRun(c, kids, NewPool(base, kids), events);
      var (s, failed) := Bfs(c, o, t, r, events).value;
      && (raised <==> Raises(c, o, 0))
      && (raised || run.Some?)
      && var ns := if raised then [] else run.value.finished;
         var filed := [0] + FiledOf(c, o, ns);
         && s.results == Answers(o, filed) && Messages(s.errors) == Failures(o, filed)
         && (failed <==> raised || exists n :: n in ns && Raises(c, o, n))
  {
    var (base, raised, kids) := BfsRoot(c, o, Fresh(t, o), r);
    BfsRootAnswers(c, o, t, r);
    if raised {
      assert [0] + [] == [0];
    } else {
      var p := PoolRun(c, kids, NewPool(base, kids), events).value;
      PoolKeepsInvariant(c, kids, base, events);
      CollectContents(c, o, p.context, p.finished);
      CollectRaises(c, o, p.context, p.finished);
      AnswersConcat(o, [0], FiledOf(c, o, p.finished));
    }
  }

  lemma BfsRootAnswers(c: Config, o: Oracle, t: Tracker, r: Root)
    requires c.budget.Valid()
    ensures var (base, raised, _) := BfsRoot(c, o, Fresh(t, o), r);
      base.results == Answers(o, [0]) && Messages(base.errors) == Failures(o, [0]) && (raised <==> Raises(c, o, 0))
  {
    var s := Fresh(t, o);
    RecordOne(c, o, Execute(s, r.agent, r.prompt, false), 0);
    assert [] + Answers(o, [0]) == Answers(o, [0]) && [] + Failures(o, [0]) == Failures(o, [0]);
  }

  /** Whether a breadth-first delegation goes on after its root. */
  ghost predicate GoesDown(c: Config, o: Oracle, t: Tracker) {
    && !Raises(c, o, 0)
    && o.clock(1) - o.clock(0) < c.budget.maxWallTime
    && c.budget.maxTotalAgents > 1 && c.budget.maxDepth > 1
    && TrackerAfter(c, o, t, 1).stagnation < c.budget.stagnationThreshold
  }

  /**
   The children queued are the first ones, as many as the breadth and the agents left
   allow; none if the root raises, ends the budget, or may not be gone below.
   */
  lemma BfsQueuesFirstChildren(c: Config, o: Oracle, t: Tracker, r: Root)
    requires c.budget.Valid()
    ensures var n := Min(|r.children|, Min(c.budget.maxBreadth, c.budget.maxTotalAgents - 1));
      BfsRoot(c, o, Fresh(t, o), r).2 == if GoesDown(c, o, t) then r.children[..n] else []
  {
    var s1 := ExecuteAndRecord(c, o, Fresh(t, o), r.agent, r.prompt, false);
    assert s1.tracker == TrackerAfter(c, o, t, 1) && s1.readings == 1 && s1.start == o.clock(0);
    assert TrackerAfter(c, o, t, 0) == t;
    var b := c.budget.maxBreadth;
    if |r.children| > b && c.budget.maxTotalAgents > 1 && b > c.budget.maxTotalAgents - 1 {
      assert r.children[..b][..c.budget.maxTotalAgents - 1] == r.children[..c.budget.maxTotalAgents - 1];
    }
    assert r.children[..|r.children|] == r.children;
  }

  /** The first `n` children started one after another. */
  function Starts(n: nat): seq<Event> {
    if n == 0 then [] else Starts(n - 1) + [Start(n - 1)]
  }

  /** The first `n` children are at work, the others queued. */
  ghost predicate Working(p: Pool, all: nat, n: nat) {
    && |p.running| == n && (forall i :: i in p.running ==> i < n)
    && forall i :: i in p.queued <==> n <= i < all
  }

  lemma StartOneMore(c: Config, kids: seq<Node>, p: Pool, n: nat)
    requires Working(p, |kids|, n) && n < |kids|
    ensures var next := PoolStep(c, kids, p, Start(n));
      && (next.Some? <==> n < c.budget.maxConcurrent)
      && (next.Some? ==> Working(next.value, |kids|, n + 1))
  {
    assert p.running[n := p.context.spawned].Keys == p.running.Keys + {n};
  }

  lemma StartsNext(c: Config, kids: seq<Node>, p: Pool, n: nat)
    ensures PoolRun(c, kids, p, Starts(n + 1)) ==
      var before := PoolRun(c, kids, p, Starts(n));
      if before.None? then None else PoolStep(c, kids, before.value, Start(n))
  {
    assert Starts(n + 1)[..|Starts(n)|] == Starts(n) && Starts(n + 1)[|Starts(n)|] == Start(n);
  }

  /**
   The pool makes use of all its workers: the first `n` children can be at work at once
   exactly if there are so many workers.
   */
  lemma {:induction false} PoolUsesAllWorkers(c: Config, kids: seq<Node>, base: State, n: nat)
    requires c.budget.Valid() && n <= |kids|
    ensures var run := PoolRun(c, kids, NewPool(base, kids), Starts(n));
      && (run.Some? <==> n <= c.budget.maxConcurrent)
      && (run.Some? ==> Working(run.value, |kids|, n))
  {
    if n > 0 {
      PoolUsesAllWorkers(c, kids, base, n - 1);
      StartsNext(c, kids, NewPool(base, kids), n - 1);
      var before := PoolRun(c, kids, NewPool(base, kids), Starts(n - 1));
      if before.Some? {
        StartOneMore(c, kids, before.value, n - 1);
      }
    }
  }

  /** No pool stalls: while a child is queued or at work, some worker can go on. */
  lemma PoolNeverStalls(c: Config, kids: seq<Node>, base: State, events: seq<Event>) returns (e: Event)
    requires c.budget.Valid() && PoolRun(c, kids, NewPool(base, kids), events).Some?
    requires var p := PoolRun(c, kids, NewPool(base, kids), events).value; p.queued != {} || p.running != map[]
    ensures PoolRun(c, kids, NewPool(base, kids), events + [e]).Some? && !e.Cancel?
  {
    var p := PoolRun(c, kids, NewPool(base, kids), events).value;
    PoolKeepsInvariant(c, kids, base, events);
    if p.running != map[] {
      var i :| i in p.running;
      e := Finish(i);
    } else {
      var i :| i in p.queued;
      e := Start(i);
    }
    assert (events + [e])[..|events|] == events;
  }
}
