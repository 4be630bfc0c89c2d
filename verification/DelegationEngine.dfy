/**
 The delegation engine as an object that updates its context: the depth-first
 methods of dawn_kestrel/delegation/engine.py, proved against `Delegation`.
 */
module DelegationEngine {
  import opened Prelude
  import opened Convergence
  import opened Delegation
  import opened DelegationResults

  datatype Report = Report(
    success: bool, stopReason: StopReason, results: seq<Evidence>, errors: seq<Error>,
    totalAgents: nat, maxDepthReached: int, elapsed: real, iterations: int,
    converged: bool, stagnationDetected: bool, finalSignature: Option<string>)

  function ReportOf(c: Config, o: Oracle, s: State): Report {
    Report(s.errors == [], Completed, s.results, s.errors, s.spawned, s.depth, o.clock(s.readings) - s.start,
           s.iterations, Converged(s.tracker, c.budget.stagnationThreshold), s.tracker.stagnation > 0,
           if s.tracker.signatures == [] then None
           else Some(s.tracker.signatures[|s.tracker.signatures| - 1]))
  }

  /**
   Whatever stopped a depth-first delegation, its report says "completed" with no
   depth and no iterations, counts the agents run, and succeeds exactly when every
   run produced a result and no evidence raised.
   */
  lemma ReportMeaning(c: Config, o: Oracle, t: Tracker, r: Root)
    requires c.budget.Valid() && Monotone(o.clock)
    ensures var s := Delegate(c, o, t, r).0;
      var report := ReportOf(c, o, s);
      && report.maxDepthReached == 0 && report.iterations == 0 && report.stopReason == Completed
      && report.totalAgents == |s.runs|
      && (report.success ==> |report.results| == report.totalAgents)
      && (|report.results| == report.totalAgents && SignatureError !in report.errors ==> report.success)
  {
    RunsArePrefix(c, o, t, r);
    EveryRunIsFiled(c, o, t, r);
    NoAgentErrors(Delegate(c, o, t, r).0.errors);
  }

  lemma NoAgentErrors(es: seq<Error>)
    ensures AgentErrors(es) == 0 && SignatureError !in es ==> es == []
    ensures es == [] ==> AgentErrors(es) == 0
  {
    if es != [] {
      assert es[|es| - 1] in es;
    }
  }

  class Engine {
    const config: Config
    const oracle: Oracle
    const convergence: ConvergenceTracker
    var depth: int
    var spawned: nat
    var active: int
    var completed: nat
    var results: seq<Evidence>
    var errors: seq<Error>
    var iterations: int
    var start: real
    var readings: nat
    ghost var runs: seq<Run>

    ghost predicate Valid()
      reads this
    {
      && convergence.digest == config.digest && convergence.evidenceKeys == config.evidenceKeys
      && config.budget.Valid()
    }

    ghost function Context(): State
      reads this, convergence
    {
      State(depth, spawned, active, completed, results, errors, iterations, start,
            convergence.State(), readings, runs)
    }

    constructor (config: Config, oracle: Oracle)
      requires config.budget.Valid()
      ensures Valid() && fresh(convergence)
      ensures this.config == config && this.oracle == oracle && convergence.State() == FRESH_TRACKER
    {
      this.config, this.oracle := config, oracle;
      convergence := new ConvergenceTracker(config.digest, config.evidenceKeys);
      depth, spawned, active, completed := 0, 0, 0, 0;
      results, errors, iterations := [], [], 0;
      start, readings, runs := 0.0, 0, [];
    }

    method ExecuteAgent(agent: string, prompt: string, ghost again: bool) returns (outcome: Outcome)
      requires Valid()
      modifies this
      ensures Valid()
      ensures Context() == Execute(old(Context()), agent, prompt, again)
      ensures outcome == oracle.outcome(old(spawned))
    {
      outcome := oracle.outcome(spawned);
      spawned := spawned + 1;
      active := active + 1;
      runs := runs + [Run(agent, prompt, depth, again)];
      // While the agent runs, spawned agents are the active and the completed ones.
      assert spawned - active - completed == old(spawned - active - completed);
      active := active - 1;
      completed := completed + 1;
    }

    /** Files an outcome; true when computing its signature raises. */
    method FileOutcome(outcome: Outcome, ghost k: nat) returns (raised: bool)
      requires Valid() && outcome == oracle.outcome(k)
      modifies this, convergence
      ensures Valid()
      ensures Context() == Record(config, oracle, old(Context()), k)
      ensures raised == Raises(config, oracle, k)
    {
      raised := false;
      match outcome {
        case Failed(message) =>
          errors := errors + [AgentError(message)];
        case Finished(result) =>
          results := results + [result];
          if config.checkConvergence {
            var novel := convergence.CheckNovelty([result]);
            raised := novel.None?;
          }
      }
    }

    method CheckLimits() returns (stop: Option<StopReason>)
      requires Valid()
      modifies this
      ensures Valid()
      ensures (Context(), stop) == CheckBoundaries(config, oracle, old(Context()))
    {
      var budget := config.budget;
      if iterations >= budget.maxIterations {
        return Some(BudgetExhausted);
      }
      var now := oracle.clock(readings);
      readings := readings + 1;
      if now - start >= budget.maxWallTime {
        return Some(Timeout);
      }
      if depth >= budget.maxDepth {
        return Some(DepthLimit);
      }
      if spawned >= budget.maxTotalAgents {
        return Some(BreadthLimit);
      }
      var converged := convergence.IsConverged(budget.stagnationThreshold);
      stop := if converged then Some(Stagnant) else None;
    }

    /** `_execute_dfs`: true when it ends in an exception. */
    method ExecuteDfs(agent: string, prompt: string, children: seq<Node>, ghost again: bool) returns (raised: bool)
      requires Valid()
      modifies this, convergence
      ensures Valid()
      ensures (Context(), raised) == Dfs(config, oracle, old(Context()), agent, prompt, children, again)
      decreases children
    {
      ghost var k := spawned;
      var outcome := ExecuteAgent(agent, prompt, again);
      raised := FileOutcome(outcome, k);
      if raised {
        return;
      }
      var stop := CheckLimits();
      if stop.Some? || children == [] || depth + 1 >= config.budget.maxDepth {
        return;
      }
      depth := depth + 1;
      ExecuteChildren(children);
      depth := depth - 1;
    }

    /** The loop over the children of one agent. */
    method ExecuteChildren(children: seq<Node>)
      requires Valid()
      modifies this, convergence
      ensures Valid()
      ensures Context() == Siblings(config, oracle, old(Context()), children)
      decreases children, 0
    {
      var i := 0;
      while i < |children|
        invariant 0 <= i <= |children|
        invariant Valid()
        invariant Siblings(config, oracle, old(Context()), children)
          == Siblings(config, oracle, Context(), children[i..])
      {
        if spawned >= config.budget.maxTotalAgents {
          return;
        }
        var child := children[i];
        assert children[i..][0] == child && children[i..][1..] == children[i + 1..];
        var stop := CheckLimits();
        if stop.Some? {
          return;
        }
        var raised := ExecuteBranch(child);
        if raised {
          errors := errors + [SignatureError];
        } else if config.checkConvergence {
          var converged := convergence.IsConverged(config.budget.stagnationThreshold);
          if converged {
            return;
          }
        }
        i := i + 1;
      }
    }

    /** The guarded part of the loop body: a child's run and the descent below it. */
    method ExecuteBranch(child: Node) returns (raised: bool)
      requires Valid()
      modifies this, convergence
      ensures Valid()
      ensures (Context(), raised) == Branch(config, oracle, old(Context()), child)
      decreases child, 2
    {
      ghost var k := spawned;
      var agent := if child.agent.Some? then child.agent.value else "general";
      var prompt := if child.prompt.Some? then child.prompt.value else "";
      var outcome := ExecuteAgent(agent, prompt, false);
      raised := FileOutcome(outcome, k);
      if !raised && child.children != [] {
        raised := ExecuteDfs(agent, prompt, child.children, true);
      }
    }

    /** `_build_result`, always called with the reason "completed". */
    method BuildResult() returns (report: Report)
      requires Valid()
      modifies this
      ensures Valid()
      ensures report == ReportOf(config, oracle, old(Context()))
      ensures Context() == old(Context()).(readings := readings)
    {
      var now := oracle.clock(readings);
      readings := readings + 1;
      var converged := convergence.IsConverged(config.budget.stagnationThreshold);
      var signatures := convergence.signatures;
      report := Report(
        |errors| == 0, Completed, results, errors, spawned, depth, now - start, iterations, converged,
        convergence.stagnationCount > 0,
        if signatures == [] then None else Some(signatures[|signatures| - 1]));
    }

    /** A fresh context, as `delegate` starts with. */
    method Begin()
      requires Valid()
      modifies this
      ensures Valid()
      ensures Context() == Fresh(old(convergence.State()), oracle)
    {
      depth, spawned, active, completed := 0, 0, 0, 0;
      results, errors, iterations := [], [], 0;
      start, readings, runs := oracle.clock(0), 1, [];
    }

    /** `delegate` in depth-first mode; None stands for the error it returns when the root raises. */
    method Delegate(agent: string, prompt: string, children: seq<Node>) returns (report: Option<Report>)
      requires Valid() && Monotone(oracle.clock)
      modifies this, convergence
      ensures Valid()
      ensures var (s, raised) :=
          DelegationResults.Delegate(config, oracle, old(convergence.State()), Root(agent, prompt, children));
        && Context() == s.(readings := Context().readings)
        && report == if raised then None else Some(ReportOf(config, oracle, s))
      ensures depth == 0 && active == 0 && spawned == completed == |runs|
    {
      Begin();
      DelegationBalanced(config, oracle, convergence.State(), Root(agent, prompt, children));
      var raised := ExecuteDfs(agent, prompt, children, false);
      if raised {
        return None;
      }
      var r := BuildResult();
      report := Some(r);
    }
  }
}
