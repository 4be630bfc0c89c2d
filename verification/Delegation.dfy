/**
 The depth-first delegation engine of dawn_kestrel/delegation/engine.py with the
 budget and context of dawn_kestrel/delegation/types.py.

 Agents answer from an oracle indexed by the number of agents spawned before
 them; the clock is an oracle indexed by the number of readings before it.
 */
module Delegation {
  import opened Prelude
  import opened Convergence

  datatype Node = Node(agent: Option<string>, prompt: Option<string>, children: seq<Node>)

  function AgentOf(n: Node): string {
    if n.agent.Some? then n.agent.value else "general"
  }

  function PromptOf(n: Node): string {
    if n.prompt.Some? then n.prompt.value else ""
  }

  datatype Budget = Budget(
    maxDepth: int, maxBreadth: int, maxTotalAgents: int, maxWallTime: real,
    maxIterations: int, stagnationThreshold: int, maxConcurrent: int)
  {
    /** What DelegationBudget's __post_init__ accepts. */
    predicate Valid() {
      && maxDepth > 0 && maxBreadth > 0 && maxTotalAgents > 0 && maxWallTime > 0.0
      && maxIterations > 0 && stagnationThreshold > 0 && maxConcurrent > 0
    }
  }

  datatype Config = Config(budget: Budget, checkConvergence: bool, evidenceKeys: seq<string>, digest: Digest)

  datatype Outcome = Finished(result: Evidence) | Failed(message: string)

  datatype Oracle = Oracle(outcome: nat -> Outcome, clock: nat -> real)

  ghost predicate Monotone(clock: nat -> real) {
    forall i: nat, j: nat :: i <= j ==> clock(i) <= clock(j)
  }

  datatype StopReason = BudgetExhausted | Timeout | DepthLimit | BreadthLimit | Stagnant | Completed

  datatype Error = AgentError(message: string) | SignatureError

  /** One agent run; `again` marks the second run of a child that has children. */
  datatype Run = Run(agent: string, prompt: string, depth: int, again: bool)

  /** The delegation context, the tracker, the clock readings so far, and the runs so far. */
  datatype State = State(
    depth: int, spawned: nat, active: int, completed: nat,
    results: seq<Evidence>, errors: seq<Error>, iterations: int, start: real,
    tracker: Tracker, readings: nat, runs: seq<Run>)

  /** The context that `delegate` creates; the tracker outlives it. */
  function Fresh(t: Tracker, o: Oracle): State {
    State(0, 0, 0, 0, [], [], 0, o.clock(0), t, 1, [])
  }

  // ---------------------------------------------------------------------
  // The steps of the engine

  function Execute(s: State, agent: string, prompt: string, again: bool): State {
    s.(spawned := s.spawned + 1, completed := s.completed + 1,
       runs := s.runs + [Run(agent, prompt, s.depth, again)])
  }

  /** Whether recording the outcome of the agent spawned after `k` others raises. */
  predicate Raises(c: Config, o: Oracle, k: nat) {
    && c.checkConvergence
    && o.outcome(k).Finished?
    && Signature(c.digest, c.evidenceKeys, [o.outcome(k).result]).None?
  }

  /** Files the outcome of the run numbered `k`. */
  function Record(c: Config, o: Oracle, s: State, k: nat): State {
    match o.outcome(k)
    case Failed(m) => s.(errors := s.errors + [AgentError(m)])
    case Finished(r) =>
      var s1 := s.(results := s.results + [r]);
      if !c.checkConvergence then s1
      else
        match Signature(c.digest, c.evidenceKeys, [r])
        case None => s1
        case Some(sig) => s1.(tracker := Observe(s.tracker, sig))
  }

  function ExecuteAndRecord(c: Config, o: Oracle, s: State, agent: string, prompt: string, again: bool): State {
    Record(c, o, Execute(s, agent, prompt, again), s.spawned)
  }

  function CheckBoundaries(c: Config, o: Oracle, s: State): (State, Option<StopReason>) {
    var b := c.budget;
    if s.iterations >= b.maxIterations then (s, Some(BudgetExhausted))
    else
      var s1 := s.(readings := s.readings + 1);
      if o.clock(s.readings) - s.start >= b.maxWallTime then (s1, Some(Timeout))
      else if s.depth >= b.maxDepth then (s1, Some(DepthLimit))
      else if s.spawned >= b.maxTotalAgents then (s1, Some(BreadthLimit))
      else if Converged(s.tracker, b.stagnationThreshold) then (s1, Some(Stagnant))
      else (s1, None)
  }

  /** `_execute_dfs`; the flag tells whether it ends in an exception. */
  function Dfs(c: Config, o: Oracle, s: State, agent: string, prompt: string, children: seq<Node>, again: bool)
    : (State, bool)
    decreases children, 1
  {
    var s1 := ExecuteAndRecord(c, o, s, agent, prompt, again);
    if Raises(c, o, s.spawned) then (s1, true)
    else
      var (s2, stop) := CheckBoundaries(c, o, s1);
      if stop.Some? || children == [] || s2.depth + 1 >= c.budget.maxDepth then (s2, false)
      else
        var s3 := Siblings(c, o, s2.(depth := s2.depth + 1), children);
        (s3.(depth := s3.depth - 1), false)
  }

  /** The loop over children. */
  function Siblings(c: Config, o: Oracle, s: State, kids: seq<Node>): State
    decreases kids, 0
  {
    if kids == [] || s.spawned >= c.budget.maxTotalAgents then s
    else
      var (s1, stop) := CheckBoundaries(c, o, s);
      if stop.Some? then s1
      else
        var (s2, raised) := Branch(c, o, s1, kids[0]);
        NextSiblings(c, o, s2, raised, kids[1..])
  }

  /** The rest of the loop after a branch, which may have raised. */
  function NextSiblings(c: Config, o: Oracle, s: State, raised: bool, kids: seq<Node>): State
    decreases kids, 1
  {
    if raised then Siblings(c, o, s.(errors := s.errors + [SignatureError]), kids)
    else if c.checkConvergence && Converged(s.tracker, c.budget.stagnationThreshold) then s
    else Siblings(c, o, s, kids)
  }

  /** One child: its first run and, if it has children, the recursive call that runs it again. */
  function Branch(c: Config, o: Oracle, s: State, n: Node): (State, bool)
    decreases n, 2
  {
    var s1 := ExecuteAndRecord(c, o, s, AgentOf(n), PromptOf(n), false);
    if Raises(c, o, s.spawned) then (s1, true)
    else if n.children == [] then (s1, false)
    else Dfs(c, o, s1, AgentOf(n), PromptOf(n), n.children, true)
  }

  // ---------------------------------------------------------------------
  // The budget-free traces

  /** Every run of the tree: preorder, cut at `maxDepth`, inner children twice. */
  function Trace(maxDepth: int, depth: int, agent: string, prompt: string, children: seq<Node>, again: bool): seq<Run>
    decreases children, 1
  {
    [Run(agent, prompt, depth, again)] +
    if children == [] || depth + 1 >= maxDepth then [] else TraceKids(maxDepth, depth + 1, children)
  }

  function TraceKids(maxDepth: int, depth: int, kids: seq<Node>): seq<Run>
    decreases kids, 0
  {
    if kids == [] then [] else TraceNode(maxDepth, depth, kids[0]) + TraceKids(maxDepth, depth, kids[1..])
  }

  function TraceNode(maxDepth: int, depth: int, n: Node): seq<Run>
    decreases n, 2
  {
    [Run(AgentOf(n), PromptOf(n), depth, false)] +
    if n.children == [] then [] else Trace(maxDepth, depth, AgentOf(n), PromptOf(n), n.children, true)
  }

  /** The same trace without the parts below a run whose signature raises; `k` agents ran before it. */
  function Pruned(c: Config, o: Oracle, k: nat, depth: int, agent: string, prompt: string, children: seq<Node>, again: bool)
    : seq<Run>
    decreases children, 1
  {
    [Run(agent, prompt, depth, again)] +
    if Raises(c, o, k) || children == [] || depth + 1 >= c.budget.maxDepth then []
    else PrunedKids(c, o, k + 1, depth + 1, children)
  }

  function PrunedKids(c: Config, o: Oracle, k: nat, depth: int, kids: seq<Node>): seq<Run>
    decreases kids, 0
  {
    if kids == [] then []
    else
      var first := PrunedNode(c, o, k, depth, kids[0]);
      first + PrunedKids(c, o, k + |first|, depth, kids[1..])
  }

  function PrunedNode(c: Config, o: Oracle, k: nat, depth: int, n: Node): seq<Run>
    decreases n, 2
  {
    [Run(AgentOf(n), PromptOf(n), depth, false)] +
    if Raises(c, o, k) || n.children == [] then []
    else Pruned(c, o, k + 1, depth, AgentOf(n), PromptOf(n), n.children, true)
  }

  // ---------------------------------------------------------------------
  // Stopping

  ghost predicate Ready(c: Config, s: State) {
    c.budget.Valid() && s.iterations == 0 && 0 <= s.depth < c.budget.maxDepth && s.readings >= 1
  }

  /** A stop condition that, once true, stays true. */
  ghost predicate Stopped(c: Config, o: Oracle, s: State) {
    || s.spawned >= c.budget.maxTotalAgents
    || Converged(s.tracker, c.budget.stagnationThreshold)
    || (s.readings >= 1 && o.clock(s.readings - 1) - s.start >= c.budget.maxWallTime)
  }

  /** In a ready state the boundary check fires exactly for a lasting stop condition. */
  lemma CheckFiresWhenStopped(c: Config, o: Oracle, s: State)
    requires Ready(c, s) && Monotone(o.clock)
    ensures var (s1, stop) := CheckBoundaries(c, o, s);
      && s1 == s.(readings := s.readings + 1)
      && (stop.Some? <==> Stopped(c, o, s1))
      && (Stopped(c, o, s) ==> stop.Some?)
      && stop != Some(BudgetExhausted) && stop != Some(DepthLimit)
  {
    assert o.clock(s.readings - 1) <= o.clock(s.readings);
  }

  // ---------------------------------------------------------------------
  // The engine follows the trace

  /**
   `s'` comes from `s` by running a prefix of `p`; the context is balanced; and if
   the prefix is proper, a lasting stop condition holds and the cut does not
   separate a child's first run from its second.
   */
  ghost predicate Follows(c: Config, o: Oracle, s: State, s': State, p: seq<Run>) {
    var n := s'.spawned - s.spawned;
    && 0 <= n <= |p|
    && s'.runs == s.runs + p[..n]
    && s'.completed - s.completed == n
    && s'.active == s.active && s'.depth == s.depth
    && s'.iterations == s.iterations && s'.start == s.start && s.readings <= s'.readings
    && (n < |p| ==> Stopped(c, o, s') && !p[n].again)
  }

  lemma FollowsInSequence(c: Config, o: Oracle, s: State, m: State, e: State, p: seq<Run>, q: seq<Run>)
    requires Follows(c, o, s, m, p) && m.spawned - s.spawned == |p| && Follows(c, o, m, e, q)
    ensures Follows(c, o, s, e, p + q)
  {
    var n := e.spawned - m.spawned;
    assert p[..|p|] == p;
    assert (p + q)[..|p| + n] == p + q[..n];
    assert s.runs + p + q[..n] == s.runs + (p + q[..n]);
  }

  /** Once stopped short of the end of `p`, running nothing more of `q` follows `p + q`. */
  lemma FollowsStopped(c: Config, o: Oracle, s: State, m: State, e: State, p: seq<Run>, q: seq<Run>)
    requires Follows(c, o, s, m, p) && m.spawned - s.spawned < |p|
    requires Follows(c, o, m, e, []) && Stopped(c, o, e)
    ensures Follows(c, o, s, e, p + q)
  {
    var n := m.spawned - s.spawned;
    assert (p + q)[..n] == p[..n] && (p + q)[n] == p[n];
    assert m.runs + [] == m.runs;
  }

  lemma RunStep(c: Config, o: Oracle, s: State, agent: string, prompt: string, again: bool)
    ensures var s1 := ExecuteAndRecord(c, o, s, agent, prompt, again);
      Follows(c, o, s, s1, [Run(agent, prompt, s.depth, again)]) && s1.spawned == s.spawned + 1
      && s1.readings == s.readings
  {
    var p := [Run(agent, prompt, s.depth, again)];
    assert p[..1] == p;
  }

  /** Reading the clock runs nothing. */
  lemma ReadingFollows(c: Config, o: Oracle, s: State, e: State, p: seq<Run>)
    requires Follows(c, o, s.(readings := s.readings + 1), e, p)
    ensures Follows(c, o, s, e, p)
  {
  }

  lemma NothingFollows(c: Config, o: Oracle, s: State, e: State, p: seq<Run>)
    requires e == s.(readings := e.readings) && s.readings <= e.readings
    requires p != [] ==> Stopped(c, o, e) && !p[0].again
    ensures Follows(c, o, s, e, p)
  {
    assert s.runs + p[..0] == s.runs;
  }

  lemma KidsStartFresh(c: Config, o: Oracle, k: nat, depth: int, kids: seq<Node>)
    requires kids != []
    ensures PrunedKids(c, o, k, depth, kids) != [] && !PrunedKids(c, o, k, depth, kids)[0].again
  {
  }

  lemma DfsFollows(c: Config, o: Oracle, s: State, agent: string, prompt: string, children: seq<Node>, again: bool)
    requires Ready(c, s) && Monotone(o.clock)
    ensures var s' := Dfs(c, o, s, agent, prompt, children, again).0;
      && s'.spawned > s.spawned
      && Follows(c, o, s, s', Pruned(c, o, s.spawned, s.depth, agent, prompt, children, again))
    decreases children, 1
  {
    var first := [Run(agent, prompt, s.depth, again)];
    var s1 := ExecuteAndRecord(c, o, s, agent, prompt, again);
    RunStep(c, o, s, agent, prompt, again);
    assert first + [] == first;
    if !Raises(c, o, s.spawned) {
      if children == [] || s.depth + 1 >= c.budget.maxDepth {
        LeafFollows(c, o, s, s1, first);
      } else {
        DescentFollows(c, o, s1, children);
        FollowsInSequence(c, o, s, s1, Descend(c, o, s1, children), first,
                          PrunedKids(c, o, s.spawned + 1, s.depth + 1, children));
      }
    }
  }

  /** A run that leads no further down. */
  lemma LeafFollows(c: Config, o: Oracle, s: State, s1: State, first: seq<Run>)
    requires Ready(c, s1) && Monotone(o.clock) && Follows(c, o, s, s1, first) && s1.spawned - s.spawned == |first|
    ensures Follows(c, o, s, CheckBoundaries(c, o, s1).0, first)
  {
    CheckFiresWhenStopped(c, o, s1);
    NothingFollows(c, o, s1, CheckBoundaries(c, o, s1).0, []);
    FollowsInSequence(c, o, s, s1, CheckBoundaries(c, o, s1).0, first, []);
    assert first + [] == first;
  }

  /** The engine between the run of an agent with children and its return. */
  function Descend(c: Config, o: Oracle, s: State, children: seq<Node>): State {
    var (s1, stop) := CheckBoundaries(c, o, s);
    if stop.Some? then s1
    else
      var s2 := Siblings(c, o, s1.(depth := s1.depth + 1), children);
      s2.(depth := s2.depth - 1)
  }

  lemma DescentFollows(c: Config, o: Oracle, s: State, children: seq<Node>)
    requires Ready(c, s) && Monotone(o.clock) && children != [] && s.depth + 1 < c.budget.maxDepth
    ensures Follows(c, o, s, Descend(c, o, s, children), PrunedKids(c, o, s.spawned, s.depth + 1, children))
    decreases children, 0, 2
  {
    var below := PrunedKids(c, o, s.spawned, s.depth + 1, children);
    CheckFiresWhenStopped(c, o, s);
    if CheckBoundaries(c, o, s).1.Some? {
      KidsStartFresh(c, o, s.spawned, s.depth + 1, children);
      NothingFollows(c, o, s, CheckBoundaries(c, o, s).0, below);
    } else {
      SiblingsFollow(c, o, s.(readings := s.readings + 1, depth := s.depth + 1), children);
      ReadingFollows(c, o, s, Descend(c, o, s, children), below);
    }
  }

  lemma SiblingsFollow(c: Config, o: Oracle, s: State, kids: seq<Node>)
    requires Ready(c, s) && Monotone(o.clock)
    ensures Follows(c, o, s, Siblings(c, o, s, kids), PrunedKids(c, o, s.spawned, s.depth, kids))
    decreases kids, 0, 1
  {
    var p := PrunedKids(c, o, s.spawned, s.depth, kids);
    if kids == [] {
      NothingFollows(c, o, s, s, p);
    } else {
      KidsStartFresh(c, o, s.spawned, s.depth, kids);
      var (s1, stop) := CheckBoundaries(c, o, s);
      CheckFiresWhenStopped(c, o, s);
      if s.spawned >= c.budget.maxTotalAgents {
        NothingFollows(c, o, s, s, p);
      } else if stop.Some? {
        NothingFollows(c, o, s, s1, p);
      } else {
        IterationFollows(c, o, s1, kids);
        ReadingFollows(c, o, s, Siblings(c, o, s, kids), p);
      }
    }
  }

  function Iterate(c: Config, o: Oracle, s: State, kids: seq<Node>): State
    requires kids != []
  {
    var (m, raised) := Branch(c, o, s, kids[0]);
    NextSiblings(c, o, m, raised, kids[1..])
  }

  lemma IterationFollows(c: Config, o: Oracle, s: State, kids: seq<Node>)
    requires Ready(c, s) && Monotone(o.clock) && kids != []
    ensures Follows(c, o, s, Iterate(c, o, s, kids), PrunedKids(c, o, s.spawned, s.depth, kids))
    decreases kids, 0, 0
  {
    var (m, raised) := Branch(c, o, s, kids[0]);
    var first := PrunedNode(c, o, s.spawned, s.depth, kids[0]);
    assert Follows(c, o, s, m, first) by { BranchFollows(c, o, s, kids[0]); }
    PrunedKidsSplit(c, o, s.spawned, s.depth, kids);
    NextFollow(c, o, s, m, raised, first, kids[1..]);
  }

  lemma PrunedKidsSplit(c: Config, o: Oracle, k: nat, depth: int, kids: seq<Node>)
    requires kids != []
    ensures var first := PrunedNode(c, o, k, depth, kids[0]);
      PrunedKids(c, o, k, depth, kids) == first + PrunedKids(c, o, k + |first|, depth, kids[1..])
  {
  }

  lemma NextFollow(c: Config, o: Oracle, s: State, m: State, raised: bool, first: seq<Run>, kids: seq<Node>)
    requires Ready(c, s) && Monotone(o.clock) && Follows(c, o, s, m, first)
    ensures Follows(c, o, s, NextSiblings(c, o, m, raised, kids),
                    first + PrunedKids(c, o, s.spawned + |first|, s.depth, kids))
    decreases kids, 1
  {
    var rest := PrunedKids(c, o, s.spawned + |first|, s.depth, kids);
    if !raised && c.checkConvergence && Converged(m.tracker, c.budget.stagnationThreshold) {
      if kids != [] {
        KidsStartFresh(c, o, s.spawned + |first|, s.depth, kids);
      }
      StoppedFollows(c, o, s, m, first, rest);
    } else {
      var m' := if raised then m.(errors := m.errors + [SignatureError]) else m;
      assert Follows(c, o, s, m', first);
      if m.spawned - s.spawned == |first| {
        SiblingsFollow(c, o, m', kids);
        FollowsInSequence(c, o, s, m', Siblings(c, o, m', kids), first, rest);
      } else {
        StoppedStaysPut(c, o, m', kids);
        FollowsStopped(c, o, s, m', Siblings(c, o, m', kids), first, rest);
      }
    }
  }

  lemma BranchFollows(c: Config, o: Oracle, s: State, n: Node)
    requires Ready(c, s) && Monotone(o.clock)
    ensures Follows(c, o, s, Branch(c, o, s, n).0, PrunedNode(c, o, s.spawned, s.depth, n))
    decreases n, 2
  {
    var first := [Run(AgentOf(n), PromptOf(n), s.depth, false)];
    RunStep(c, o, s, AgentOf(n), PromptOf(n), false);
    assert first + [] == first;
    if !Raises(c, o, s.spawned) && n.children != [] {
      var s1 := ExecuteAndRecord(c, o, s, AgentOf(n), PromptOf(n), false);
      DfsFollows(c, o, s1, AgentOf(n), PromptOf(n), n.children, true);
      var below := Pruned(c, o, s.spawned + 1, s.depth, AgentOf(n), PromptOf(n), n.children, true);
      FollowsInSequence(c, o, s, s1, Branch(c, o, s, n).0, first, below);
    }
  }

  /** A stopped engine runs none of the remaining siblings. */
  lemma StoppedStaysPut(c: Config, o: Oracle, s: State, kids: seq<Node>)
    requires Ready(c, s) && Monotone(o.clock) && Stopped(c, o, s)
    ensures Follows(c, o, s, Siblings(c, o, s, kids), []) && Stopped(c, o, Siblings(c, o, s, kids))
  {
    CheckFiresWhenStopped(c, o, s);
    assert s.runs + [] == s.runs;
  }

  /** Leaving the loop on convergence, wherever the branch before it ended. */
  lemma StoppedFollows(c: Config, o: Oracle, s: State, m: State, first: seq<Run>, rest: seq<Run>)
    requires Follows(c, o, s, m, first) && Stopped(c, o, m)
    requires rest != [] ==> !rest[0].again
    ensures Follows(c, o, s, m, first + rest)
  {
    var n := m.spawned - s.spawned;
    assert (first + rest)[..n] == first[..n];
    assert n < |first + rest| ==> (first + rest)[n] == if n < |first| then first[n] else rest[0];
  }
}
