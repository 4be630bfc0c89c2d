/**
 When the agents a depth-first delegation runs are a prefix of the whole tree's trace:
 exactly when none but the last of them both raises and has a subtree below it.
 */
module DelegationPrefix {
  import opened Prelude
  import opened Convergence
  import opened Delegation
  import opened DelegationResults

  /** Of the first `n` runs, none but the last raises with a subtree below it; `k` agents ran before. */
  ghost predicate HarmlessBefore(c: Config, o: Oracle, k: nat, inner: seq<bool>, n: nat)
    requires n <= |inner|
  {
    forall i :: 0 <= i < n - 1 && inner[i] ==> !Raises(c, o, k + i)
  }

  /** A run at which the pruned trace cannot be: one below `depth`, or a second run. */
  predicate Below(depth: int, r: Run) {
    r.again || r.depth > depth
  }

  /**
   How the pruned trace `p` of something at `depth` keeps to its full trace `t`: it does
   up to the first run after one that raises, and where it then ends early the full trace
   goes on below.
   */
  ghost predicate Keeps(c: Config, o: Oracle, k: nat, depth: int, p: seq<Run>, t: seq<Run>, inner: seq<bool>) {
    && |inner| == |t| && |p| <= |t|
    && (forall n :: 1 <= n <= |p| ==> (p[..n] == t[..n] <==> HarmlessBefore(c, o, k, inner, n)))
    && (1 <= |p| < |t| && p == t[..|p|] ==>
          inner[|p| - 1] && Raises(c, o, k + |p| - 1) && Below(depth, t[|p|]))
  }

  lemma HarmlessBeforeCons(c: Config, o: Oracle, k: nat, inner: seq<bool>, n: nat)
    requires 1 <= n <= |inner| && !Raises(c, o, k)
    ensures HarmlessBefore(c, o, k, [true] + inner, n + 1) <==> HarmlessBefore(c, o, k + 1, inner, n)
  {
    var whole := [true] + inner;
    if HarmlessBefore(c, o, k, whole, n + 1) {
      forall i | 0 <= i < n - 1 && inner[i] ensures !Raises(c, o, k + 1 + i) {
        assert whole[i + 1];
      }
    }
    if HarmlessBefore(c, o, k + 1, inner, n) {
      forall i | 0 <= i < n && whole[i] ensures !Raises(c, o, k + i) {
        if i > 0 {
          assert inner[i - 1];
        }
      }
    }
  }

  /** A run that does not raise, before what hangs below it. */
  lemma KeepsCons(c: Config, o: Oracle, k: nat, depth: int, below: int, x: Run,
                  p: seq<Run>, t: seq<Run>, inner: seq<bool>)
    requires Keeps(c, o, k + 1, below, p, t, inner) && p != [] && !Raises(c, o, k) && depth <= below
    ensures Keeps(c, o, k, depth, [x] + p, [x] + t, [true] + inner)
  {
    var p', t' := [x] + p, [x] + t;
    forall n | 1 <= n <= |p'|
      ensures p'[..n] == t'[..n] <==> HarmlessBefore(c, o, k, [true] + inner, n)
    {
      assert p'[..n] == [x] + p[..n - 1] && t'[..n] == [x] + t[..n - 1];
      assert p'[..n][1..] == p[..n - 1] && t'[..n][1..] == t[..n - 1];
      if n > 1 {
        HarmlessBeforeCons(c, o, k, inner, n - 1);
      }
    }
    if |p'| < |t'| && p' == t'[..|p'|] {
      assert p == p'[1..] && t'[..|p'|][1..] == t[..|p|];
    }
  }

  /** A run that raises, before what would have been below it. */
  lemma KeepsRaised(c: Config, o: Oracle, k: nat, depth: int, x: Run, t: seq<Run>, inner: seq<bool>)
    requires |inner| == |t| && t != [] && Raises(c, o, k) && Below(depth, t[0])
    ensures Keeps(c, o, k, depth, [x], [x] + t, [true] + inner)
  {
    assert [x][..1] == ([x] + t)[..1] == [x];
  }

  lemma HarmlessBeforeConcat(c: Config, o: Oracle, k: nat, a: seq<bool>, b: seq<bool>, n: nat)
    requires 1 <= n <= |b|
    ensures HarmlessBefore(c, o, k, a + b, |a| + n)
      <==> Harmless(c, o, k, a) && HarmlessBefore(c, o, k + |a|, b, n)
  {
    var whole := a + b;
    if HarmlessBefore(c, o, k, whole, |a| + n) {
      forall i | 0 <= i < |a| && a[i] ensures !Raises(c, o, k + i) {
        assert whole[i];
      }
      forall i | 0 <= i < n - 1 && b[i] ensures !Raises(c, o, k + |a| + i) {
        assert whole[|a| + i];
      }
    }
    if Harmless(c, o, k, a) && HarmlessBefore(c, o, k + |a|, b, n) {
      forall i | 0 <= i < |a| + n - 1 && whole[i] ensures !Raises(c, o, k + i) {
        if i >= |a| {
          assert b[i - |a|];
        }
      }
    }
  }

  lemma HarmlessBeforeFirst(c: Config, o: Oracle, k: nat, a: seq<bool>, b: seq<bool>, n: nat)
    requires n <= |a|
    ensures HarmlessBefore(c, o, k, a + b, n) <==> HarmlessBefore(c, o, k, a, n)
  {
    assert forall i :: 0 <= i < n ==> (a + b)[i] == a[i];
  }

  /** One node that is not pruned, before its siblings. */
  lemma KeepsAfterWhole(c: Config, o: Oracle, k: nat, depth: int, p: seq<Run>, i: seq<bool>,
                        q: seq<Run>, u: seq<Run>, j: seq<bool>)
    requires p != [] && |i| == |p| && Harmless(c, o, k, i)
    requires Keeps(c, o, k, depth, p, p, i) && Keeps(c, o, k + |p|, depth, q, u, j) && (u != [] ==> q != [])
    ensures Keeps(c, o, k, depth, p + q, p + u, i + j)
  {
    forall n | 1 <= n <= |p + q|
      ensures (p + q)[..n] == (p + u)[..n] <==> HarmlessBefore(c, o, k, i + j, n)
    {
      if n <= |p| {
        assert (p + q)[..n] == p[..n] == (p + u)[..n];
        HarmlessBeforeFirst(c, o, k, i, j, n);
      } else {
        assert (p + q)[..n] == p + q[..n - |p|] && (p + u)[..n] == p + u[..n - |p|];
        assert (p + q)[..n][|p|..] == q[..n - |p|] && (p + u)[..n][|p|..] == u[..n - |p|];
        HarmlessBeforeConcat(c, o, k, i, j, n - |p|);
      }
    }
    if |p + q| < |p + u| && p + q == (p + u)[..|p + q|] {
      assert (p + u)[..|p + q|] == p + u[..|q|];
      assert q == (p + q)[|p|..] && u[..|q|] == (p + u)[..|p + q|][|p|..];
    }
  }

  /** One node that is pruned, before its siblings, which start afresh. */
  lemma KeepsAfterPruned(c: Config, o: Oracle, k: nat, depth: int, p: seq<Run>, t: seq<Run>, i: seq<bool>,
                         q: seq<Run>, u: seq<Run>, j: seq<bool>)
    requires 1 <= |p| < |t| && Keeps(c, o, k, depth, p, t, i) && |j| == |u| && |q| <= |u|
    requires q != [] ==> !Below(depth, q[0])
    ensures Keeps(c, o, k, depth, p + q, t + u, i + j)
  {
    forall n | 1 <= n <= |p + q|
      ensures (p + q)[..n] == (t + u)[..n] <==> HarmlessBefore(c, o, k, i + j, n)
    {
      if n <= |p| {
        assert (p + q)[..n] == p[..n] && (t + u)[..n] == t[..n];
        HarmlessBeforeFirst(c, o, k, i, j, n);
      } else {
        PrunedParts(c, o, k, depth, p, t, i, q, u, n);
        assert (i + j)[|p| - 1] == i[|p| - 1];
        HarmlessBeforeFirst(c, o, k, i, j, |p|);
      }
    }
    assert (p + q)[..|p + q|] == p + q;
    if q != [] {
      PrunedParts(c, o, k, depth, p, t, i, q, u, |p + q|);
    } else {
      assert p + q == p && (t + u)[..|p|] == t[..|p|];
    }
  }

  /** Past a pruned node the two traces differ, and the run before the gap says why. */
  lemma PrunedParts(c: Config, o: Oracle, k: nat, depth: int, p: seq<Run>, t: seq<Run>, i: seq<bool>,
                    q: seq<Run>, u: seq<Run>, n: nat)
    requires 1 <= |p| < |t| && Keeps(c, o, k, depth, p, t, i) && |p| < n <= |p + q| && n <= |t + u|
    requires !Below(depth, q[0])
    ensures (p + q)[..n] != (t + u)[..n]
    ensures HarmlessBefore(c, o, k, i, |p|) ==> i[|p| - 1] && Raises(c, o, k + |p| - 1)
  {
    assert p[..|p|] == p;
    if p == t[..|p|] {
      assert (p + q)[..n][|p|] == q[0] && (t + u)[..n][|p|] == t[|p|];
    } else {
      assert (p + q)[..n][..|p|] == p && (t + u)[..n][..|p|] == t[..|p|];
    }
  }

  // ---------------------------------------------------------------------
  // Over the tree

  lemma KidsStart(c: Config, o: Oracle, k: nat, depth: int, kids: seq<Node>)
    requires kids != []
    ensures PrunedKids(c, o, k, depth, kids) != [] && TraceKids(c.budget.maxDepth, depth, kids) != []
    ensures var r := PrunedKids(c, o, k, depth, kids)[0];
      r == TraceKids(c.budget.maxDepth, depth, kids)[0] && !r.again && r.depth == depth
  {
  }

  lemma PrunedKeeps(c: Config, o: Oracle, k: nat, depth: int, agent: string, prompt: string,
                    children: seq<Node>, again: bool)
    ensures var d := c.budget.maxDepth;
      Keeps(c, o, k, depth, Pruned(c, o, k, depth, agent, prompt, children, again),
            Trace(d, depth, agent, prompt, children, again), Inner(d, depth, children))
    decreases children, 2
  {
    var d := c.budget.maxDepth;
    var x := Run(agent, prompt, depth, again);
    PrunedCompares(c, o, k, depth, agent, prompt, children, again);
    if children == [] || depth + 1 >= d {
      assert [x] + [] == [x];
    } else {
      var t, inner := TraceKids(d, depth + 1, children), InnerKids(d, depth + 1, children);
      KidsCompare(c, o, k + 1, depth + 1, children);
      KidsStart(c, o, k + 1, depth + 1, children);
      if Raises(c, o, k) {
        KeepsRaised(c, o, k, depth, x, t, inner);
        assert [x] + [] == [x];
      } else {
        KidsKeep(c, o, k + 1, depth + 1, children);
        KeepsCons(c, o, k, depth, depth + 1, x, PrunedKids(c, o, k + 1, depth + 1, children), t, inner);
      }
    }
  }

  lemma KidsSplit(c: Config, o: Oracle, k: nat, depth: int, kids: seq<Node>)
    requires kids != []
    ensures var d := c.budget.maxDepth;
      var p := PrunedNode(c, o, k, depth, kids[0]);
      && PrunedKids(c, o, k, depth, kids) == p + PrunedKids(c, o, k + |p|, depth, kids[1..])
      && TraceKids(d, depth, kids) == TraceNode(d, depth, kids[0]) + TraceKids(d, depth, kids[1..])
      && InnerKids(d, depth, kids) == InnerNode(d, depth, kids[0]) + InnerKids(d, depth, kids[1..])
  {
  }

  lemma KeepsAfter(c: Config, o: Oracle, k: nat, depth: int, p: seq<Run>, t: seq<Run>, i: seq<bool>,
                   q: seq<Run>, u: seq<Run>, j: seq<bool>)
    requires Compares(c, o, k, p, t, i) && Keeps(c, o, k, depth, p, t, i)
    requires Keeps(c, o, k + |p|, depth, q, u, j)
    requires (u != [] ==> q != []) && (q != [] ==> !Below(depth, q[0]))
    ensures Keeps(c, o, k, depth, p + q, t + u, i + j)
  {
    if |p| == |t| {
      KeepsAfterWhole(c, o, k, depth, p, i, q, u, j);
    } else {
      KeepsAfterPruned(c, o, k, depth, p, t, i, q, u, j);
    }
  }

  lemma RestStartsFresh(c: Config, o: Oracle, k: nat, depth: int, kids: seq<Node>)
    ensures var q := PrunedKids(c, o, k, depth, kids);
      && (TraceKids(c.budget.maxDepth, depth, kids) != [] ==> q != [])
      && (q != [] ==> !Below(depth, q[0]))
  {
    if kids != [] {
      KidsStart(c, o, k, depth, kids);
    }
  }

  lemma KidsKeep(c: Config, o: Oracle, k: nat, depth: int, kids: seq<Node>)
    ensures var d := c.budget.maxDepth;
      Keeps(c, o, k, depth, PrunedKids(c, o, k, depth, kids), TraceKids(d, depth, kids), InnerKids(d, depth, kids))
    decreases kids, 1
  {
    if kids != [] {
      SplitKidsKeep(c, o, k, depth, kids);
      KidsSplit(c, o, k, depth, kids);
    }
  }

  lemma SplitKidsKeep(c: Config, o: Oracle, k: nat, depth: int, kids: seq<Node>)
    requires kids != []
    ensures var d, rest := c.budget.maxDepth, kids[1..];
      var p := PrunedNode(c, o, k, depth, kids[0]);
      Keeps(c, o, k, depth, p + PrunedKids(c, o, k + |p|, depth, rest),
            TraceNode(d, depth, kids[0]) + TraceKids(d, depth, rest),
            InnerNode(d, depth, kids[0]) + InnerKids(d, depth, rest))
    decreases kids, 0
  {
    var d, rest := c.budget.maxDepth, kids[1..];
    var p := PrunedNode(c, o, k, depth, kids[0]);
    NodeCompares(c, o, k, depth, kids[0]);
    NodeKeeps(c, o, k, depth, kids[0]);
    KidsKeep(c, o, k + |p|, depth, rest);
    RestStartsFresh(c, o, k + |p|, depth, rest);
    KeepsAfter(c, o, k, depth, p, TraceNode(d, depth, kids[0]), InnerNode(d, depth, kids[0]),
               PrunedKids(c, o, k + |p|, depth, rest), TraceKids(d, depth, rest), InnerKids(d, depth, rest));
  }

  lemma NodeKeeps(c: Config, o: Oracle, k: nat, depth: int, n: Node)
    ensures var d := c.budget.maxDepth;
      Keeps(c, o, k, depth, PrunedNode(c, o, k, depth, n), TraceNode(d, depth, n), InnerNode(d, depth, n))
    decreases n, 2
  {
    var d := c.budget.maxDepth;
    var x := Run(AgentOf(n), PromptOf(n), depth, false);
    assert [x] + [] == [x];
    if n.children != [] {
      var t, inner := Trace(d, depth, AgentOf(n), PromptOf(n), n.children, true), Inner(d, depth, n.children);
      PrunedCompares(c, o, k + 1, depth, AgentOf(n), PromptOf(n), n.children, true);
      if Raises(c, o, k) {
        KeepsRaised(c, o, k, depth, x, t, inner);
      } else {
        PrunedKeeps(c, o, k + 1, depth, AgentOf(n), PromptOf(n), n.children, true);
        KeepsCons(c, o, k, depth, depth, x, Pruned(c, o, k + 1, depth, AgentOf(n), PromptOf(n), n.children, true), t, inner);
      }
    }
  }

  // ---------------------------------------------------------------------
  // Main results

  lemma PrefixOfBoth(p: seq<Run>, t: seq<Run>, n: nat)
    requires n <= |p| && n <= |t|
    ensures p[..n] <= t <==> p[..n] == t[..n]
  {
  }

  /**
   The agents run are a prefix of the whole tree's trace exactly when no run before the
   last one raises with a subtree below it.
   */
  lemma RunsAreFullPrefixIff(c: Config, o: Oracle, t: Tracker, r: Root)
    requires c.budget.Valid() && Monotone(o.clock)
    ensures var runs := Delegate(c, o, t, r).0.runs;
      var inner := Inner(c.budget.maxDepth, 0, r.children);
      && 1 <= |runs| <= |inner|
      && (runs <= FullTrace(c, r) <==> forall i :: 0 <= i < |runs| - 1 && inner[i] ==> !Raises(c, o, i))
  {
    var runs := Delegate(c, o, t, r).0.runs;
    var inner := Inner(c.budget.maxDepth, 0, r.children);
    RunsArePrefix(c, o, t, r);
    PrunedCompares(c, o, 0, 0, r.agent, r.prompt, r.children, false);
    PrunedKeeps(c, o, 0, 0, r.agent, r.prompt, r.children, false);
    PrefixOfBoth(PrunedTrace(c, o, r), FullTrace(c, r), |runs|);
    assert HarmlessBefore(c, o, 0, inner, |runs|) <==>
      forall i :: 0 <= i < |runs| - 1 && inner[i] ==> !Raises(c, o, i);
  }

  /** The same for the trace that no budget cuts, whatever a budget lets run of it. */
  lemma PrunedIsFullPrefixIff(c: Config, o: Oracle, r: Root)
    ensures var p := PrunedTrace(c, o, r);
      var inner := Inner(c.budget.maxDepth, 0, r.children);
      && 1 <= |p| <= |inner|
      && (p <= FullTrace(c, r) <==> forall i :: 0 <= i < |p| - 1 && inner[i] ==> !Raises(c, o, i))
  {
    var p := PrunedTrace(c, o, r);
    var inner := Inner(c.budget.maxDepth, 0, r.children);
    PrunedCompares(c, o, 0, 0, r.agent, r.prompt, r.children, false);
    PrunedKeeps(c, o, 0, 0, r.agent, r.prompt, r.children, false);
    PrefixOfBoth(p, FullTrace(c, r), |p|);
    assert p[..|p|] == p;
    assert HarmlessBefore(c, o, 0, inner, |p|) <==>
      forall i :: 0 <= i < |p| - 1 && inner[i] ==> !Raises(c, o, i);
  }
}
