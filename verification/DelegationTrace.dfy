/**
 What the budget-free trace of a depth-first delegation lists: every node of the tree above
 the depth limit, in preorder, and each inner one below the root a second time at once.
 */
module DelegationTrace {
  import opened Prelude
  import opened Delegation

  function NameOf(n: Node): string {
    match n.agent { case Some(name) => name case None => "general" }
  }

  function TextOf(n: Node): string {
    match n.prompt { case Some(text) => text case None => "" }
  }

  /** The nodes in preorder, each once, as far down as `maxDepth` allows. */
  function Preorder(maxDepth: int, depth: int, kids: seq<Node>): seq<Run>
    decreases kids
  {
    if kids == [] || depth >= maxDepth then []
    else
      var n := kids[0];
      [Run(NameOf(n), TextOf(n), depth, false)] + Preorder(maxDepth, depth + 1, n.children) +
      Preorder(maxDepth, depth, kids[1..])
  }

  /** The inner nodes in preorder. */
  function InnerPreorder(maxDepth: int, depth: int, kids: seq<Node>): seq<Run>
    decreases kids
  {
    if kids == [] || depth >= maxDepth then []
    else
      var n := kids[0];
      (if n.children == [] then [] else [Run(NameOf(n), TextOf(n), depth, true)]) +
      InnerPreorder(maxDepth, depth + 1, n.children) + InnerPreorder(maxDepth, depth, kids[1..])
  }

  /** The runs of `p` that are second runs, or that are not. */
  function Only(p: seq<Run>, again: bool): seq<Run> {
    if p == [] then [] else (if p[0].again == again then [p[0]] else []) + Only(p[1..], again)
  }

  lemma {:induction false} OnlyConcat(p: seq<Run>, q: seq<Run>, again: bool)
    ensures Only(p + q, again) == Only(p, again) + Only(q, again)
  {
    if p == [] {
      assert p + q == q;
    } else {
      assert (p + q)[1..] == p[1..] + q;
      OnlyConcat(p[1..], q, again);
    }
  }

  lemma OnlyCons(r: Run, p: seq<Run>, again: bool)
    ensures Only([r] + p, again) == (if r.again == again then [r] else []) + Only(p, again)
  {
    assert ([r] + p)[1..] == p;
  }

  lemma KidsPreorder(maxDepth: int, depth: int, kids: seq<Node>)
    requires depth < maxDepth
    ensures Only(TraceKids(maxDepth, depth, kids), false) == Preorder(maxDepth, depth, kids)
    ensures Only(TraceKids(maxDepth, depth, kids), true) == InnerPreorder(maxDepth, depth, kids)
    decreases kids, 1
  {
    if kids != [] {
      var first, rest := TraceNode(maxDepth, depth, kids[0]), TraceKids(maxDepth, depth, kids[1..]);
      NodePreorder(maxDepth, depth, kids[0]);
      KidsPreorder(maxDepth, depth, kids[1..]);
      OnlyConcat(first, rest, false);
      OnlyConcat(first, rest, true);
    }
  }

  lemma NodePreorder(maxDepth: int, depth: int, n: Node)
    requires depth < maxDepth
    ensures Only(TraceNode(maxDepth, depth, n), false) ==
      [Run(NameOf(n), TextOf(n), depth, false)] + Preorder(maxDepth, depth + 1, n.children)
    ensures Only(TraceNode(maxDepth, depth, n), true) ==
      (if n.children == [] then [] else [Run(NameOf(n), TextOf(n), depth, true)]) +
      InnerPreorder(maxDepth, depth + 1, n.children)
    decreases n, 0
  {
    var once := Run(NameOf(n), TextOf(n), depth, false);
    if n.children == [] {
      OnlyCons(once, [], false);
      OnlyCons(once, [], true);
    } else {
      var below := Below(maxDepth, depth + 1, n.children);
      NodeIsTwice(maxDepth, depth, n);
      if depth + 1 < maxDepth {
        KidsPreorder(maxDepth, depth + 1, n.children);
      }
      OnlyTwice(once, below);
    }
  }

  /** The part of the trace below a node. */
  function Below(maxDepth: int, depth: int, kids: seq<Node>): seq<Run> {
    if depth >= maxDepth then [] else TraceKids(maxDepth, depth, kids)
  }

  lemma NodeIsTwice(maxDepth: int, depth: int, n: Node)
    requires n.children != []
    ensures var once := Run(NameOf(n), TextOf(n), depth, false);
      TraceNode(maxDepth, depth, n) == [once, once.(again := true)] + Below(maxDepth, depth + 1, n.children)
  {
  }

  lemma OnlyTwice(once: Run, below: seq<Run>)
    requires !once.again
    ensures Only([once, once.(again := true)] + below, false) == [once] + Only(below, false)
    ensures Only([once, once.(again := true)] + below, true) == [once.(again := true)] + Only(below, true)
  {
    var twice := once.(again := true);
    assert [once, twice] + below == [once] + ([twice] + below);
    OnlyCons(once, [twice] + below, false);
    OnlyCons(once, [twice] + below, true);
    OnlyCons(twice, below, false);
    OnlyCons(twice, below, true);
  }

  /**
   Among the first runs of the trace each node above the depth limit stands once, in preorder,
   under its own name and prompt, or "general" and none; the second runs are those of the
   inner nodes other than the root, in the same order.
   */
  lemma TraceIsPreorder(maxDepth: int, agent: string, prompt: string, children: seq<Node>)
    ensures var p := Trace(maxDepth, 0, agent, prompt, children, false);
      && Only(p, false) == [Run(agent, prompt, 0, false)] + Preorder(maxDepth, 1, children)
      && Only(p, true) == InnerPreorder(maxDepth, 1, children)
  {
    var below := if children == [] || 1 >= maxDepth then [] else TraceKids(maxDepth, 1, children);
    OnlyCons(Run(agent, prompt, 0, false), below, false);
    OnlyCons(Run(agent, prompt, 0, false), below, true);
    if children != [] && 1 < maxDepth {
      KidsPreorder(maxDepth, 1, children);
    }
  }

  /** A second run follows the first run of the same node at once. */
  ghost predicate Paired(p: seq<Run>) {
    forall i :: 0 <= i < |p| && p[i].again ==> i > 0 && p[i - 1] == p[i].(again := false)
  }

  lemma PairedConcat(p: seq<Run>, q: seq<Run>)
    requires Paired(p) && Paired(q)
    ensures Paired(p + q)
  {
    forall i | 0 <= i < |p + q| && (p + q)[i].again
      ensures i > 0 && (p + q)[i - 1] == (p + q)[i].(again := false)
    {
      if i >= |p| {
        assert q[i - |p|].again;
      }
    }
  }

  lemma KidsPaired(maxDepth: int, depth: int, kids: seq<Node>)
    ensures Paired(TraceKids(maxDepth, depth, kids))
    decreases kids, 1
  {
    if kids != [] {
      NodePaired(maxDepth, depth, kids[0]);
      KidsPaired(maxDepth, depth, kids[1..]);
      PairedConcat(TraceNode(maxDepth, depth, kids[0]), TraceKids(maxDepth, depth, kids[1..]));
    }
  }

  lemma NodePaired(maxDepth: int, depth: int, n: Node)
    ensures Paired(TraceNode(maxDepth, depth, n))
    decreases n, 0
  {
    if n.children != [] {
      var once := Run(NameOf(n), TextOf(n), depth, false);
      if depth + 1 < maxDepth {
        KidsPaired(maxDepth, depth + 1, n.children);
      }
      NodeIsTwice(maxDepth, depth, n);
      PairedConcat([once, once.(again := true)], Below(maxDepth, depth + 1, n.children));
    }
  }

  /** In the trace every second run comes right after the first. */
  lemma TraceIsPaired(maxDepth: int, agent: string, prompt: string, children: seq<Node>)
    ensures Paired(Trace(maxDepth, 0, agent, prompt, children, false))
  {
    var below := if children == [] || 1 >= maxDepth then [] else TraceKids(maxDepth, 1, children);
    KidsPaired(maxDepth, 1, children);
    PairedConcat([Run(agent, prompt, 0, false)], below);
  }
}
