/**
 How many agents a depth-first delegation runs, for every configuration, tracker and
 oracle: the first place in the trace where a stop condition holds and no second run is due.
 */
module DelegationCount {
  import opened Prelude
  import opened Convergence
  import opened Delegation
  import opened DelegationResults

  /** The tracker `t` after the outcomes of the first `n` agents. */
  function TrackerAfter(c: Config, o: Oracle, t: Tracker, n: nat): Tracker {
    if n == 0 then t
    else
      var before := TrackerAfter(c, o, t, n - 1);
      match o.outcome(n - 1)
      case Failed(_) => before
      case Finished(r) =>
        if !c.checkConvergence then before
        else
          match Signature(c.digest, c.evidenceKeys, [r])
          case None => before
          case Some(sig) => Observe(before, sig)
  }

  /** The cap is reached, or the tracker has converged, after `n` agents. */
  predicate Halts(c: Config, o: Oracle, t: Tracker, n: nat) {
    n >= c.budget.maxTotalAgents || Converged(TrackerAfter(c, o, t, n), c.budget.stagnationThreshold)
  }

  /** The first `n` or later at which the trace ends, or a delegation halts before a first run. */
  function StopCount(c: Config, o: Oracle, t: Tracker, p: seq<Run>, n: nat): (r: nat)
    ensures n <= |p| ==> n <= r <= |p|
    decreases |p| - n
  {
    if n >= |p| then |p|
    else if !p[n].again && Halts(c, o, t, n) then n
    else StopCount(c, o, t, p, n + 1)
  }

  // ---------------------------------------------------------------------
  // The engine halts nowhere before it stops

  ghost predicate Tracks(c: Config, o: Oracle, t: Tracker, s: State) {
    s.tracker == TrackerAfter(c, o, t, s.spawned)
  }

  /** From `s` to `s'` no first run of `p`, from position `lo` on, was made where the delegation halts. */
  ghost predicate Passes(c: Config, o: Oracle, t: Tracker, s: State, s': State, p: seq<Run>, lo: nat) {
    var n := s'.spawned - s.spawned;
    && 0 <= n <= |p| && Tracks(c, o, t, s')
    && forall j :: lo <= j < n && !p[j].again ==> !Halts(c, o, t, s.spawned + j)
  }

  lemma PassesInSequence(c: Config, o: Oracle, t: Tracker, s: State, m: State, e: State,
                         p: seq<Run>, q: seq<Run>, lo: nat)
    requires Passes(c, o, t, s, m, p, lo) && m.spawned - s.spawned == |p| && Passes(c, o, t, m, e, q, 0)
    ensures Passes(c, o, t, s, e, p + q, lo)
  {
    var n := e.spawned - s.spawned;
    forall j | lo <= j < n && !(p + q)[j].again ensures !Halts(c, o, t, s.spawned + j) {
      if j >= |p| {
        assert (p + q)[j] == q[j - |p|];
      }
    }
  }

  lemma PassesAndStays(c: Config, o: Oracle, t: Tracker, s: State, m: State, e: State,
                       p: seq<Run>, q: seq<Run>, lo: nat)
    requires Passes(c, o, t, s, m, p, lo) && e.spawned == m.spawned && e.tracker == m.tracker
    ensures Passes(c, o, t, s, e, p + q, lo)
  {
  }

  lemma RunPasses(c: Config, o: Oracle, t: Tracker, s: State, agent: string, prompt: string, again: bool)
    requires Tracks(c, o, t, s)
    ensures Passes(c, o, t, s, ExecuteAndRecord(c, o, s, agent, prompt, again), [Run(agent, prompt, s.depth, again)], 1)
  {
  }

  lemma CheckedGoesOn(c: Config, o: Oracle, t: Tracker, s: State)
    requires Tracks(c, o, t, s)
    ensures CheckBoundaries(c, o, s).1.None? ==> !Halts(c, o, t, s.spawned)
    ensures CheckBoundaries(c, o, s).0 in [s, s.(readings := s.readings + 1)]
  {
  }

  lemma DfsPasses(c: Config, o: Oracle, t: Tracker, s: State, agent: string, prompt: string,
                  children: seq<Node>, again: bool)
    requires Ready(c, s) && Monotone(o.clock) && Tracks(c, o, t, s)
    ensures Passes(c, o, t, s, Dfs(c, o, s, agent, prompt, children, again).0,
                   Pruned(c, o, s.spawned, s.depth, agent, prompt, children, again), 1)
    decreases children, 1
  {
    var first := [Run(agent, prompt, s.depth, again)];
    var s1 := ExecuteAndRecord(c, o, s, agent, prompt, again);
    var s' := Dfs(c, o, s, agent, prompt, children, again).0;
    RunPasses(c, o, t, s, agent, prompt, again);
    assert first + [] == first;
    if !Raises(c, o, s.spawned) {
      CheckedGoesOn(c, o, t, s1);
      if children == [] || s.depth + 1 >= c.budget.maxDepth {
        PassesAndStays(c, o, t, s, s1, s', first, [], 1);
      } else {
        DescentPasses(c, o, t, s1, children);
        PassesInSequence(c, o, t, s, s1, s', first, PrunedKids(c, o, s.spawned + 1, s.depth + 1, children), 1);
      }
    }
  }

  lemma DescentPasses(c: Config, o: Oracle, t: Tracker, s: State, children: seq<Node>)
    requires Ready(c, s) && Monotone(o.clock) && Tracks(c, o, t, s)
    requires children != [] && s.depth + 1 < c.budget.maxDepth
    ensures Passes(c, o, t, s, Descend(c, o, s, children), PrunedKids(c, o, s.spawned, s.depth + 1, children), 0)
    decreases children, 0, 2
  {
    var (s1, stop) := CheckBoundaries(c, o, s);
    CheckedGoesOn(c, o, t, s);
    if stop.None? {
      SiblingsPass(c, o, t, s1.(depth := s1.depth + 1), children);
    }
  }

  lemma SiblingsPass(c: Config, o: Oracle, t: Tracker, s: State, kids: seq<Node>)
    requires Ready(c, s) && Monotone(o.clock) && Tracks(c, o, t, s)
    ensures Passes(c, o, t, s, Siblings(c, o, s, kids), PrunedKids(c, o, s.spawned, s.depth, kids), 0)
    decreases kids, 0, 1
  {
    if kids != [] && s.spawned < c.budget.maxTotalAgents {
      var (s1, stop) := CheckBoundaries(c, o, s);
      CheckedGoesOn(c, o, t, s);
      if stop.None? {
        IterationPasses(c, o, t, s1, kids);
      }
    }
  }

  lemma IterationPasses(c: Config, o: Oracle, t: Tracker, s: State, kids: seq<Node>)
    requires Ready(c, s) && Monotone(o.clock) && Tracks(c, o, t, s) && kids != []
    requires !Halts(c, o, t, s.spawned)
    ensures Passes(c, o, t, s, Iterate(c, o, s, kids), PrunedKids(c, o, s.spawned, s.depth, kids), 0)
    decreases kids, 0, 0
  {
    var (m, raised) := Branch(c, o, s, kids[0]);
    var first := PrunedNode(c, o, s.spawned, s.depth, kids[0]);
    assert Passes(c, o, t, s, m, first, 1) by { BranchPasses(c, o, t, s, kids[0]); }
    assert Follows(c, o, s, m, first) by { BranchFollows(c, o, s, kids[0]); }
    PrunedKidsSplit(c, o, s.spawned, s.depth, kids);
    NextPass(c, o, t, s, m, raised, first, kids[1..]);
  }

  lemma NextPass(c: Config, o: Oracle, t: Tracker, s: State, m: State, raised: bool, first: seq<Run>, kids: seq<Node>)
    requires Ready(c, s) && Monotone(o.clock) && Follows(c, o, s, m, first) && Passes(c, o, t, s, m, first, 0)
    ensures Passes(c, o, t, s, NextSiblings(c, o, m, raised, kids),
                   first + PrunedKids(c, o, s.spawned + |first|, s.depth, kids), 0)
    decreases kids, 1
  {
    var rest := PrunedKids(c, o, s.spawned + |first|, s.depth, kids);
    if !raised && c.checkConvergence && Converged(m.tracker, c.budget.stagnationThreshold) {
      PassesAndStays(c, o, t, s, m, m, first, rest, 0);
    } else {
      var m' := if raised then m.(errors := m.errors + [SignatureError]) else m;
      if m.spawned - s.spawned == |first| {
        SiblingsPass(c, o, t, m', kids);
        PassesInSequence(c, o, t, s, m', Siblings(c, o, m', kids), first, rest, 0);
      } else {
        CheckFiresWhenStopped(c, o, m');
        PassesAndStays(c, o, t, s, m', Siblings(c, o, m', kids), first, rest, 0);
      }
    }
  }

  lemma BranchPasses(c: Config, o: Oracle, t: Tracker, s: State, n: Node)
    requires Ready(c, s) && Monotone(o.clock) && Tracks(c, o, t, s)
    ensures Passes(c, o, t, s, Branch(c, o, s, n).0, PrunedNode(c, o, s.spawned, s.depth, n), 1)
    decreases n, 2
  {
    var first := [Run(AgentOf(n), PromptOf(n), s.depth, false)];
    RunPasses(c, o, t, s, AgentOf(n), PromptOf(n), false);
    assert first + [] == first;
    if !Raises(c, o, s.spawned) && n.children != [] {
      var s1 := ExecuteAndRecord(c, o, s, AgentOf(n), PromptOf(n), false);
      DfsPasses(c, o, t, s1, AgentOf(n), PromptOf(n), n.children, true);
      var below := Pruned(c, o, s.spawned + 1, s.depth, AgentOf(n), PromptOf(n), n.children, true);
      assert below[0].again;
      PassesInSequence(c, o, t, s, s1, Branch(c, o, s, n).0, first, below, 1);
    }
  }

  // ---------------------------------------------------------------------
  // Main results

  ghost predicate TimedOut(c: Config, o: Oracle, s: State) {
    s.readings >= 1 && o.clock(s.readings - 1) - s.start >= c.budget.maxWallTime
  }

  lemma {:induction false} StopCountIsFirst(c: Config, o: Oracle, t: Tracker, p: seq<Run>, n: nat, m: nat)
    requires n <= m <= |p|
    requires forall j :: n <= j < m && !p[j].again ==> !Halts(c, o, t, j)
    ensures m <= StopCount(c, o, t, p, n)
    ensures m == |p| || (!p[m].again && Halts(c, o, t, m)) ==> m == StopCount(c, o, t, p, n)
    decreases m - n
  {
    if n < m {
      StopCountIsFirst(c, o, t, p, n + 1, m);
    }
  }

  lemma NoHaltBefore(c: Config, o: Oracle, t: Tracker, r: Root)
    requires c.budget.Valid() && Monotone(o.clock)
    ensures var n, p := Delegate(c, o, t, r).0.spawned, PrunedTrace(c, o, r);
      1 <= n <= |p| && forall j :: 1 <= j < n && !p[j].again ==> !Halts(c, o, t, j)
  {
    SpawnsItsRoot(c, o, t, r);
    var s, s' := Fresh(t, o), Delegate(c, o, t, r).0;
    assert Passes(c, o, t, s, s', PrunedTrace(c, o, r), 1) by {
      DfsPasses(c, o, t, s, r.agent, r.prompt, r.children, false);
    }
  }

  lemma SpawnsItsRoot(c: Config, o: Oracle, t: Tracker, r: Root)
    requires c.budget.Valid() && Monotone(o.clock)
    ensures 1 <= Delegate(c, o, t, r).0.spawned
  {
    RunsArePrefix(c, o, t, r);
  }

  lemma WhyItStopped(c: Config, o: Oracle, t: Tracker, r: Root)
    requires c.budget.Valid() && Monotone(o.clock)
    ensures var s, p := Delegate(c, o, t, r).0, PrunedTrace(c, o, r);
      && s.spawned <= |p|
      && (s.spawned < |p| ==> !p[s.spawned].again && (Halts(c, o, t, s.spawned) || TimedOut(c, o, s)))
  {
    RunsArePrefix(c, o, t, r);
    DfsPasses(c, o, t, Fresh(t, o), r.agent, r.prompt, r.children, false);
  }

  /**
   For every configuration, tracker and oracle: a delegation runs as many agents as the
   first n >= 1 at which its trace ends or, with no second run due, the cap is reached or
   the tracker fed the first n outcomes has converged. Only the clock can end it before.
   */
  lemma ExactCount(c: Config, o: Oracle, t: Tracker, r: Root)
    requires c.budget.Valid() && Monotone(o.clock)
    ensures var s := Delegate(c, o, t, r).0;
      var n := StopCount(c, o, t, PrunedTrace(c, o, r), 1);
      s.spawned <= n && (s.spawned < n ==> TimedOut(c, o, s))
  {
    var s, p := Delegate(c, o, t, r).0, PrunedTrace(c, o, r);
    NoHaltBefore(c, o, t, r);
    WhyItStopped(c, o, t, r);
    StopCountIsFirst(c, o, t, p, 1, s.spawned);
  }

  /** Within the time limit the count is exact. */
  lemma CountIsStopCount(c: Config, o: Oracle, t: Tracker, r: Root)
    requires c.budget.Valid() && Monotone(o.clock)
    requires forall n: nat :: o.clock(n) - o.clock(0) < c.budget.maxWallTime
    ensures Delegate(c, o, t, r).0.spawned == StopCount(c, o, t, PrunedTrace(c, o, r), 1)
  {
    var s := Delegate(c, o, t, r).0;
    ExactCount(c, o, t, r);
    DfsFollows(c, o, Fresh(t, o), r.agent, r.prompt, r.children, false);
    assert o.clock(s.readings - 1) - o.clock(0) < c.budget.maxWallTime;
  }

  /**
   With or without convergence checks and timeouts, the cap is exceeded exactly when a
   delegation reaches it between the two runs of a child.
   */
  lemma CapExceededIff(c: Config, o: Oracle, t: Tracker, r: Root)
    requires c.budget.Valid() && Monotone(o.clock)
    ensures var s, p, max := Delegate(c, o, t, r).0, PrunedTrace(c, o, r), c.budget.maxTotalAgents;
      s.spawned > max <==> s.spawned >= max && |p| > max && p[max].again
  {
    RunsArePrefix(c, o, t, r);
    AtMostOneBeyondCap(c, o, t, r);
    var s, p, max := Delegate(c, o, t, r).0, PrunedTrace(c, o, r), c.budget.maxTotalAgents;
    if s.spawned > max {
      assert s.runs[max] == p[..s.spawned][max];
    }
  }
}
