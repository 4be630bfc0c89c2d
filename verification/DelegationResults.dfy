/**
 What depth-first delegation guarantees over whole runs: which agents run, how
 many, and what the context says afterwards.
 */
module DelegationResults {
  import opened Prelude
  import opened Convergence
  import opened Delegation

  datatype Root = Root(agent: string, prompt: string, children: seq<Node>)

  /** A depth-first delegation, from the fresh context to the end. */
  function Delegate(c: Config, o: Oracle, t: Tracker, r: Root): (State, bool) {
    Dfs(c, o, Fresh(t, o), r.agent, r.prompt, r.children, false)
  }

  function FullTrace(c: Config, r: Root): seq<Run> {
    Trace(c.budget.maxDepth, 0, r.agent, r.prompt, r.children, false)
  }

  function PrunedTrace(c: Config, o: Oracle, r: Root): seq<Run> {
    Pruned(c, o, 0, 0, r.agent, r.prompt, r.children, false)
  }

  // ---------------------------------------------------------------------
  // The pruned trace and the full trace

  /** For each run of the trace, whether a subtree hangs below it. */
  function Inner(maxDepth: int, depth: int, children: seq<Node>): seq<bool>
    decreases children, 1
  {
    if children == [] || depth + 1 >= maxDepth then [false]
    else [true] + InnerKids(maxDepth, depth + 1, children)
  }

  function InnerKids(maxDepth: int, depth: int, kids: seq<Node>): seq<bool>
    decreases kids, 0
  {
    if kids == [] then [] else InnerNode(maxDepth, depth, kids[0]) + InnerKids(maxDepth, depth, kids[1..])
  }

  function InnerNode(maxDepth: int, depth: int, n: Node): seq<bool>
    decreases n, 2
  {
    if n.children == [] then [false] else [true] + Inner(maxDepth, depth, n.children)
  }

  /** No run with a subtree below it has evidence that raises; `k` agents ran before. */
  ghost predicate Harmless(c: Config, o: Oracle, k: nat, inner: seq<bool>) {
    forall i :: 0 <= i < |inner| && inner[i] ==> !Raises(c, o, k + i)
  }

  lemma HarmlessConcat(c: Config, o: Oracle, k: nat, a: seq<bool>, b: seq<bool>)
    ensures Harmless(c, o, k, a + b) <==> Harmless(c, o, k, a) && Harmless(c, o, k + |a|, b)
  {
    if Harmless(c, o, k, a + b) {
      forall i | 0 <= i < |a| && a[i] ensures !Raises(c, o, k + i) {
        assert (a + b)[i];
      }
      forall i | 0 <= i < |b| && b[i] ensures !Raises(c, o, k + |a| + i) {
        assert (a + b)[|a| + i];
      }
    }
    if Harmless(c, o, k, a) && Harmless(c, o, k + |a|, b) {
      forall i | 0 <= i < |a + b| && (a + b)[i] ensures !Raises(c, o, k + i) {
        if i >= |a| {
          assert b[i - |a|];
        }
      }
    }
  }

  /** How a pruned trace `p` relates to the full trace `t` of the same tree. */
  ghost predicate Compares(c: Config, o: Oracle, k: nat, p: seq<Run>, t: seq<Run>, inner: seq<bool>) {
    && |inner| == |t| && 1 <= |p| <= |t|
    && (Harmless(c, o, k, inner) ==> p == t)
    && (|p| == |t| ==> Harmless(c, o, k, inner))
  }

  lemma PrunedCompares(c: Config, o: Oracle, k: nat, depth: int, agent: string, prompt: string,
                       children: seq<Node>, again: bool)
    ensures var d := c.budget.maxDepth;
      Compares(c, o, k, Pruned(c, o, k, depth, agent, prompt, children, again),
               Trace(d, depth, agent, prompt, children, again), Inner(d, depth, children))
    decreases children, 1
  {
    var d := c.budget.maxDepth;
    var first := [Run(agent, prompt, depth, again)];
    assert first + [] == first;
    if children != [] && depth + 1 < d {
      HarmlessConcat(c, o, k, [true], InnerKids(d, depth + 1, children));
      KidsCompare(c, o, k + 1, depth + 1, children);
      assert [true][0];
    }
  }

  lemma KidsCompare(c: Config, o: Oracle, k: nat, depth: int, kids: seq<Node>)
    ensures var d := c.budget.maxDepth;
      var p := PrunedKids(c, o, k, depth, kids);
      var t := TraceKids(d, depth, kids);
      if kids == [] then p == t == [] && InnerKids(d, depth, kids) == []
      else Compares(c, o, k, p, t, InnerKids(d, depth, kids))
    decreases kids, 0
  {
    var d := c.budget.maxDepth;
    if kids != [] {
      var p1, t1, i1 := PrunedNode(c, o, k, depth, kids[0]), TraceNode(d, depth, kids[0]), InnerNode(d, depth, kids[0]);
      NodeCompares(c, o, k, depth, kids[0]);
      KidsCompare(c, o, k + |p1|, depth, kids[1..]);
      HarmlessConcat(c, o, k, i1, InnerKids(d, depth, kids[1..]));
      assert t1 + [] == t1 && i1 + [] == i1;
    }
  }

  lemma NodeCompares(c: Config, o: Oracle, k: nat, depth: int, n: Node)
    ensures var d := c.budget.maxDepth;
      Compares(c, o, k, PrunedNode(c, o, k, depth, n), TraceNode(d, depth, n), InnerNode(d, depth, n))
    decreases n, 2
  {
    var d := c.budget.maxDepth;
    var first := [Run(AgentOf(n), PromptOf(n), depth, false)];
    assert first + [] == first;
    if n.children != [] {
      HarmlessConcat(c, o, k, [true], Inner(d, depth, n.children));
      PrunedCompares(c, o, k + 1, depth, AgentOf(n), PromptOf(n), n.children, true);
      assert [true][0];
    }
  }

  /** The pruned trace is the full one exactly when no run with a subtree below it raises. */
  lemma PrunedIsFullIffHarmless(c: Config, o: Oracle, r: Root)
    ensures PrunedTrace(c, o, r) == FullTrace(c, r) <==>
      Harmless(c, o, 0, Inner(c.budget.maxDepth, 0, r.children))
  {
    PrunedCompares(c, o, 0, 0, r.agent, r.prompt, r.children, false);
  }

  // ---------------------------------------------------------------------
  // Which agents run

  /**
   For every tree, budget, oracle and non-decreasing clock the agents run are a
   prefix of one budget-free trace, in which only raising evidence prunes
   subtrees. A proper prefix means a lasting stop condition, never cuts between
   the two runs of a child, and leaves the context balanced at depth 0.
   */
  lemma RunsArePrefix(c: Config, o: Oracle, t: Tracker, r: Root)
    requires c.budget.Valid() && Monotone(o.clock)
    ensures var s := Delegate(c, o, t, r).0;
      var p := PrunedTrace(c, o, r);
      && 1 <= |s.runs| <= |p| && s.runs == p[..|s.runs|]
      && s.spawned == s.completed == |s.runs| && s.active == 0 && s.depth == 0 && s.iterations == 0
      && (|s.runs| < |p| ==> Stopped(c, o, s) && !p[|s.runs|].again)
      && (Harmless(c, o, 0, Inner(c.budget.maxDepth, 0, r.children)) ==>
            |s.runs| <= |FullTrace(c, r)| && s.runs == FullTrace(c, r)[..|s.runs|])
  {
    DfsFollows(c, o, Fresh(t, o), r.agent, r.prompt, r.children, false);
    var s := Delegate(c, o, t, r).0;
    assert [] + PrunedTrace(c, o, r)[..s.spawned] == PrunedTrace(c, o, r)[..s.spawned];
    PrunedIsFullIffHarmless(c, o, r);
  }

  /** The context is balanced when a delegation ends. */
  lemma DelegationBalanced(c: Config, o: Oracle, t: Tracker, r: Root)
    requires c.budget.Valid() && Monotone(o.clock)
    ensures var s := Delegate(c, o, t, r).0;
      s.spawned == s.completed == |s.runs| && s.active == 0 && s.depth == 0
  {
    RunsArePrefix(c, o, t, r);
  }

  lemma PrunedDepths(c: Config, o: Oracle, k: nat, depth: int, agent: string, prompt: string,
                     children: seq<Node>, again: bool)
    requires depth < c.budget.maxDepth
    ensures forall x :: x in Pruned(c, o, k, depth, agent, prompt, children, again) ==> depth <= x.depth < c.budget.maxDepth
    decreases children, 1
  {
    if children != [] && depth + 1 < c.budget.maxDepth {
      PrunedKidsDepths(c, o, k + 1, depth + 1, children);
    }
  }

  lemma PrunedKidsDepths(c: Config, o: Oracle, k: nat, depth: int, kids: seq<Node>)
    requires depth < c.budget.maxDepth
    ensures forall x :: x in PrunedKids(c, o, k, depth, kids) ==> depth <= x.depth < c.budget.maxDepth
    decreases kids, 0
  {
    if kids != [] {
      var n := kids[0];
      PrunedDepths(c, o, k + 1, depth, AgentOf(n), PromptOf(n), n.children, true);
      PrunedKidsDepths(c, o, k + |PrunedNode(c, o, k, depth, n)|, depth, kids[1..]);
    }
  }

  /** No agent ever runs at or beyond the depth limit. */
  lemma RunsStayAboveDepthLimit(c: Config, o: Oracle, t: Tracker, r: Root)
    requires c.budget.Valid() && Monotone(o.clock)
    ensures forall x :: x in Delegate(c, o, t, r).0.runs ==> 0 <= x.depth < c.budget.maxDepth
  {
    RunsArePrefix(c, o, t, r);
    PrunedDepths(c, o, 0, 0, r.agent, r.prompt, r.children, false);
  }

  // ---------------------------------------------------------------------
  // How many agents run

  /** At most one agent beyond `max`, and then only as the second run of a child. */
  ghost predicate WithinCap(s: State, max: int) {
    && s.spawned <= max + 1
    && (s.spawned == max + 1 ==> s.runs != [] && s.runs[|s.runs| - 1].again)
  }

  lemma DfsCap(c: Config, o: Oracle, s: State, agent: string, prompt: string, children: seq<Node>, again: bool)
    requires s.spawned <= c.budget.maxTotalAgents && (s.spawned == c.budget.maxTotalAgents ==> again)
    ensures WithinCap(Dfs(c, o, s, agent, prompt, children, again).0, c.budget.maxTotalAgents)
    decreases children, 1
  {
    var s1 := ExecuteAndRecord(c, o, s, agent, prompt, again);
    if !Raises(c, o, s.spawned) && children != [] {
      var s2 := CheckBoundaries(c, o, s1).0;
      SiblingsCap(c, o, s2.(depth := s2.depth + 1), children);
    }
  }

  lemma SiblingsCap(c: Config, o: Oracle, s: State, kids: seq<Node>)
    requires WithinCap(s, c.budget.maxTotalAgents)
    ensures WithinCap(Siblings(c, o, s, kids), c.budget.maxTotalAgents)
    decreases kids, 0
  {
    if kids != [] && s.spawned < c.budget.maxTotalAgents {
      var (s1, stop) := CheckBoundaries(c, o, s);
      if stop.None? {
        var (s2, raised) := Branch(c, o, s1, kids[0]);
        assert WithinCap(s2, c.budget.maxTotalAgents) by { BranchCap(c, o, s1, kids[0]); }
        var s2' := if raised then s2.(errors := s2.errors + [SignatureError]) else s2;
        SiblingsCap(c, o, s2', kids[1..]);
      }
    }
  }

  lemma BranchCap(c: Config, o: Oracle, s: State, n: Node)
    requires s.spawned < c.budget.maxTotalAgents
    ensures WithinCap(Branch(c, o, s, n).0, c.budget.maxTotalAgents)
    decreases n, 2
  {
    if n.children != [] {
      var s1 := ExecuteAndRecord(c, o, s, AgentOf(n), PromptOf(n), false);
      DfsCap(c, o, s1, AgentOf(n), PromptOf(n), n.children, true);
    }
  }

  /** Depth-first delegation spawns at most one agent too many, always a second run. */
  lemma AtMostOneBeyondCap(c: Config, o: Oracle, t: Tracker, r: Root)
    requires c.budget.Valid()
    ensures WithinCap(Delegate(c, o, t, r).0, c.budget.maxTotalAgents)
  {
    DfsCap(c, o, Fresh(t, o), r.agent, r.prompt, r.children, false);
  }

  /** No run ever reaches the tracker. */
  ghost predicate Silent(c: Config, o: Oracle) {
    forall k: nat :: c.checkConvergence && o.outcome(k).Finished? ==> Raises(c, o, k)
  }

  lemma TrackerUntouched(c: Config, o: Oracle, s: State, agent: string, prompt: string, children: seq<Node>, again: bool)
    requires Silent(c, o)
    ensures Dfs(c, o, s, agent, prompt, children, again).0.tracker == s.tracker
    decreases children, 1
  {
    var s1 := ExecuteAndRecord(c, o, s, agent, prompt, again);
    if children != [] {
      var s2 := CheckBoundaries(c, o, s1).0;
      SiblingsKeepTracker(c, o, s2.(depth := s2.depth + 1), children);
    }
  }

  lemma SiblingsKeepTracker(c: Config, o: Oracle, s: State, kids: seq<Node>)
    requires Silent(c, o)
    ensures Siblings(c, o, s, kids).tracker == s.tracker
    decreases kids, 0
  {
    if kids != [] && s.spawned < c.budget.maxTotalAgents {
      var (s1, stop) := CheckBoundaries(c, o, s);
      if stop.None? {
        var (s2, raised) := Branch(c, o, s1, kids[0]);
        assert s2.tracker == s.tracker by { BranchKeepsTracker(c, o, s1, kids[0]); }
        SiblingsKeepTracker(c, o, if raised then s2.(errors := s2.errors + [SignatureError]) else s2, kids[1..]);
      }
    }
  }

  lemma BranchKeepsTracker(c: Config, o: Oracle, s: State, n: Node)
    requires Silent(c, o)
    ensures Branch(c, o, s, n).0.tracker == s.tracker
    decreases n, 2
  {
    if n.children != [] {
      var s1 := ExecuteAndRecord(c, o, s, AgentOf(n), PromptOf(n), false);
      TrackerUntouched(c, o, s1, AgentOf(n), PromptOf(n), n.children, true);
    }
  }

  /** Where the cap, and nothing else, stops a delegation. */
  function CappedCount(max: nat, trace: seq<Run>): nat {
    if |trace| <= max then |trace| else if trace[max].again then max + 1 else max
  }

  /**
   Without convergence checks and within the time limit, the count of agents is
   exact: the whole trace, or the cap, or one more when the cap falls between the
   two runs of a child. So the cap is exceeded exactly when the trace has a
   second run at position `maxTotalAgents`.
   */
  lemma CountWithoutConvergence(c: Config, o: Oracle, r: Root)
    requires c.budget.Valid() && Monotone(o.clock) && !c.checkConvergence
    requires forall n: nat :: o.clock(n) - o.clock(0) < c.budget.maxWallTime
    ensures var s := Delegate(c, o, FRESH_TRACKER, r).0;
      var trace := FullTrace(c, r);
      var max := c.budget.maxTotalAgents;
      && s.runs <= trace && |s.runs| == s.spawned
      && s.spawned == CappedCount(max, trace)
      && (s.spawned > max <==> |trace| > max && trace[max].again)
  {
    RunsArePrefix(c, o, FRESH_TRACKER, r);
    AtMostOneBeyondCap(c, o, FRESH_TRACKER, r);
    TrackerUntouched(c, o, Fresh(FRESH_TRACKER, o), r.agent, r.prompt, r.children, false);
    var s, trace := Delegate(c, o, FRESH_TRACKER, r).0, FullTrace(c, r);
    PrunedIsFullIffHarmless(c, o, r);
    DfsFollows(c, o, Fresh(FRESH_TRACKER, o), r.agent, r.prompt, r.children, false);
    assert o.clock(s.readings - 1) - o.clock(0) < c.budget.maxWallTime;
    if s.spawned == c.budget.maxTotalAgents + 1 {
      assert s.runs[s.spawned - 1] == trace[c.budget.maxTotalAgents];
    }
  }

  // ---------------------------------------------------------------------
  // Every run is filed once

  function AgentErrors(es: seq<Error>): nat {
    if es == [] then 0 else (if es[|es| - 1].AgentError? then 1 else 0) + AgentErrors(es[..|es| - 1])
  }

  lemma AgentErrorsAppend(es: seq<Error>, e: Error)
    ensures AgentErrors(es + [e]) == AgentErrors(es) + if e.AgentError? then 1 else 0
  {
    assert (es + [e])[..|es|] == es;
  }

  /** Runs minus what was filed about them. */
  function Unfiled(s: State): int {
    s.spawned - |s.results| - AgentErrors(s.errors)
  }

  lemma RunIsFiled(c: Config, o: Oracle, s: State, agent: string, prompt: string, again: bool)
    ensures Unfiled(ExecuteAndRecord(c, o, s, agent, prompt, again)) == Unfiled(s)
  {
    if o.outcome(s.spawned).Failed? {
      AgentErrorsAppend(s.errors, AgentError(o.outcome(s.spawned).message));
    }
  }

  lemma DfsCases(c: Config, o: Oracle, s: State, agent: string, prompt: string, children: seq<Node>, again: bool)
    ensures var s1 := ExecuteAndRecord(c, o, s, agent, prompt, again);
      var s' := Dfs(c, o, s, agent, prompt, children, again).0;
      s' == s1 || s' == CheckBoundaries(c, o, s1).0 || (children != [] && s' == Descend(c, o, s1, children))
  {
  }

  lemma CheckFiles(c: Config, o: Oracle, s: State)
    ensures Unfiled(CheckBoundaries(c, o, s).0) == Unfiled(s)
  {
  }

  lemma DfsFiles(c: Config, o: Oracle, s: State, agent: string, prompt: string, children: seq<Node>, again: bool)
    ensures Unfiled(Dfs(c, o, s, agent, prompt, children, again).0) == Unfiled(s)
    decreases children, 1
  {
    var s1 := ExecuteAndRecord(c, o, s, agent, prompt, again);
    DfsCases(c, o, s, agent, prompt, children, again);
    RunIsFiled(c, o, s, agent, prompt, again);
    CheckFiles(c, o, s1);
    if children != [] {
      DescentFiles(c, o, s1, children);
    }
  }

  lemma DescentFiles(c: Config, o: Oracle, s: State, children: seq<Node>)
    ensures Unfiled(Descend(c, o, s, children)) == Unfiled(s)
    decreases children, 0, 1
  {
    var s1 := CheckBoundaries(c, o, s).0;
    SiblingsFile(c, o, s1.(depth := s1.depth + 1), children);
  }

  lemma SiblingsFile(c: Config, o: Oracle, s: State, kids: seq<Node>)
    ensures Unfiled(Siblings(c, o, s, kids)) == Unfiled(s)
    decreases kids, 0, 0
  {
    if kids != [] && s.spawned < c.budget.maxTotalAgents {
      var (s1, stop) := CheckBoundaries(c, o, s);
      if stop.None? {
        var (s2, raised) := Branch(c, o, s1, kids[0]);
        assert Unfiled(s2) == Unfiled(s) by { BranchFiles(c, o, s1, kids[0]); }
        AgentErrorsAppend(s2.errors, SignatureError);
        SiblingsFile(c, o, if raised then s2.(errors := s2.errors + [SignatureError]) else s2, kids[1..]);
      }
    }
  }

  lemma BranchFiles(c: Config, o: Oracle, s: State, n: Node)
    ensures Unfiled(Branch(c, o, s, n).0) == Unfiled(s)
    decreases n, 2
  {
    RunIsFiled(c, o, s, AgentOf(n), PromptOf(n), false);
    if n.children != [] {
      var s1 := ExecuteAndRecord(c, o, s, AgentOf(n), PromptOf(n), false);
      DfsFiles(c, o, s1, AgentOf(n), PromptOf(n), n.children, true);
    }
  }

  /** Every run leaves exactly one result or one agent error. */
  lemma EveryRunIsFiled(c: Config, o: Oracle, t: Tracker, r: Root)
    ensures var s := Delegate(c, o, t, r).0;
      |s.results| + AgentErrors(s.errors) == s.spawned
  {
    DfsFiles(c, o, Fresh(t, o), r.agent, r.prompt, r.children, false);
  }

  // ---------------------------------------------------------------------
  // Evidence that raises skips a subtree and resumes after it

  /**
   A child whose evidence cannot be sorted loses its second run and its subtree,
   and its sibling still runs: the runs are no prefix of the full trace.
   */
  lemma RaisingEvidenceSkipsSubtree()
    ensures exists c: Config, o: Oracle, r: Root ::
      && c.budget.Valid() && Monotone(o.clock)
      && var s := Delegate(c, o, FRESH_TRACKER, r).0;
         !(s.runs <= FullTrace(c, r))
  {
    var leaf := Node(Some("b"), Some(""), []);
    var inner, last := Node(Some("a"), Some(""), [leaf]), Node(Some("c"), Some(""), []);
    var r := Root("r", "", [inner, last]);
    var c := Config(Budget(5, 5, 20, 300.0, 10, 20, 3), true, ["k"], Digest(items => "", text => text));
    var bad := Finished(Dictionary(map["k" := Unorderable]));
    var o := Oracle((n: nat) => if n == 1 then bad else Failed(""), (n: nat) => 0.0);
    RaisingRuns(c, o, r, leaf, inner, last);
    assert Monotone(o.clock);
  }

  lemma SecondRunFollows(maxDepth: int, depth: int, kids: seq<Node>)
    requires kids != [] && kids[0].children != []
    ensures |TraceKids(maxDepth, depth, kids)| >= 2
    ensures TraceKids(maxDepth, depth, kids)[1] == Run(AgentOf(kids[0]), PromptOf(kids[0]), depth, true)
  {
    var n := kids[0];
    var rerun := Trace(maxDepth, depth, AgentOf(n), PromptOf(n), n.children, true);
    assert rerun[0] == Run(AgentOf(n), PromptOf(n), depth, true);
    assert TraceNode(maxDepth, depth, n)[1] == rerun[0];
  }

  lemma RaisingRuns(c: Config, o: Oracle, r: Root, leaf: Node, inner: Node, last: Node)
    requires c.budget == Budget(5, 5, 20, 300.0, 10, 20, 3) && c.checkConvergence && c.evidenceKeys == ["k"]
    requires forall n: nat :: n != 1 ==> o.outcome(n).Failed?
    requires o.outcome(1) == Finished(Dictionary(map["k" := Unorderable]))
    requires forall n: nat :: o.clock(n) == 0.0
    requires leaf == Node(Some("b"), Some(""), []) && inner == Node(Some("a"), Some(""), [leaf])
    requires last == Node(Some("c"), Some(""), []) && r == Root("r", "", [inner, last])
    ensures !(Delegate(c, o, FRESH_TRACKER, r).0.runs <= FullTrace(c, r))
  {
    var x, a, z := Run("r", "", 0, false), Run("a", "", 1, false), Run("c", "", 1, false);
    var kids := [inner, last];
    assert kids[1..] == [last] && [last][1..] == [];
    assert Raises(c, o, 1) by {
      var e := Dictionary(map["k" := Unorderable]);
      assert Extract(c.digest, c.evidenceKeys, e.entries).None?;
      assert BatchParts(c.digest, c.evidenceKeys, [e]).None?;
    }
    assert PrunedNode(c, o, 1, 1, inner) == [a];
    assert PrunedNode(c, o, 2, 1, last) == [z];
    assert PrunedKids(c, o, 3, 1, []) == [];
    assert PrunedKids(c, o, 2, 1, [last]) == [z];
    assert PrunedKids(c, o, 1, 1, kids) == [a, z];
    assert PrunedTrace(c, o, r) == [x, a, z];
    SecondRunFollows(c.budget.maxDepth, 1, kids);
    assert FullTrace(c, r) == [x] + TraceKids(c.budget.maxDepth, 1, kids);
    assert FullTrace(c, r)[2] == Run("a", "", 1, true);
    RunsArePrefix(c, o, FRESH_TRACKER, r);
    assert Silent(c, o);
    TrackerUntouched(c, o, Fresh(FRESH_TRACKER, o), r.agent, r.prompt, r.children, false);
    DfsFollows(c, o, Fresh(FRESH_TRACKER, o), r.agent, r.prompt, r.children, false);
    var s := Delegate(c, o, FRESH_TRACKER, r).0;
    assert s.start == 0.0 && !Stopped(c, o, s);
    assert s.runs == [x, a, z] && s.runs[2] == z;
  }
}
