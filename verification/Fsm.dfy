/**
 The finite state machine, its builder and its workflow table, from
 dawn_kestrel/core/fsm.py. Hooks, mediator and observers never change the outcome
 of a transition there, so they do not appear here.
 */
module Fsm {
  import opened Prelude

  type StateName = string

  type Transitions = map<StateName, set<StateName>>

  predicate Allowed(t: Transitions, from: StateName, to: StateName) {
    from in t && to in t[from]
  }

  // ---------------------------------------------------------------------
  // The builder

  datatype Builder = Builder(states: set<StateName>, transitions: Transitions, initial: StateName)

  const NEW_BUILDER := Builder({}, map[], "idle")

  datatype BuilderOp =
    | WithState(state: StateName)
    | WithTransition(from: StateName, to: StateName)
    | WithInitialState(state: StateName)

  function Targets(t: Transitions, from: StateName): set<StateName> {
    if from in t then t[from] else {}
  }

  function Configure(b: Builder, op: BuilderOp): Builder {
    match op
    case WithState(s) => b.(states := b.states + {s})
    case WithTransition(f, t) =>
      b.(transitions := b.transitions[f := Targets(b.transitions, f) + {t}], states := b.states + {f, t})
    case WithInitialState(s) => b.(initial := s)
  }

  function ConfigureAll(b: Builder, ops: seq<BuilderOp>): Builder
    decreases ops
  {
    if ops == [] then b else ConfigureAll(Configure(b, ops[0]), ops[1..])
  }

  /** Every state a transition mentions is declared. */
  ghost predicate Closed(b: Builder) {
    forall f, t :: Allowed(b.transitions, f, t) ==> f in b.states && t in b.states
  }

  ghost predicate KeysDeclared(b: Builder) {
    b.transitions.Keys <= b.states
  }

  datatype BuildOutcome = Built(state: StateName) | UndefinedState | InvalidInitialState | ValueError

  /** `build`: the constructor it ends with raises ValueError for an undeclared initial state. */
  function BuildResult(b: Builder, initial: Option<StateName>): BuildOutcome {
    var start := if initial.Some? then initial.value else b.initial;
    var undefined := (set f | f in b.transitions && f !in b.states)
      + (set f, t | f in b.transitions && t in b.transitions[f] && t !in b.states :: t);
    if undefined != {} then UndefinedState
    else if b.states != {} && start !in b.states then InvalidInitialState
    else if start !in b.states then ValueError
    else Built(start)
  }

  lemma ConfigureKeepsClosed(b: Builder, op: BuilderOp)
    requires Closed(b) && KeysDeclared(b)
    ensures Closed(Configure(b, op)) && KeysDeclared(Configure(b, op))
    ensures b.states <= Configure(b, op).states
    ensures forall f, t :: Allowed(b.transitions, f, t) ==> Allowed(Configure(b, op).transitions, f, t)
  {
    forall f, t | Allowed(Configure(b, op).transitions, f, t)
      ensures f in Configure(b, op).states && t in Configure(b, op).states
    {
      assert Allowed(b.transitions, f, t) || op == WithTransition(f, t);
    }
  }

  lemma {:induction false} ConfiguredIsClosed(b: Builder, ops: seq<BuilderOp>)
    requires Closed(b) && KeysDeclared(b)
    ensures Closed(ConfigureAll(b, ops)) && KeysDeclared(ConfigureAll(b, ops))
    decreases ops
  {
    if ops != [] {
      ConfigureKeepsClosed(b, ops[0]);
      ConfiguredIsClosed(Configure(b, ops[0]), ops[1..]);
    }
  }

  /**
   However a builder is configured, `build` never reports an undefined state: it
   succeeds exactly when the initial state is declared, and otherwise returns an
   error, or raises when no state at all is declared.
   */
  lemma BuildOutcomes(ops: seq<BuilderOp>, initial: Option<StateName>)
    ensures var b := ConfigureAll(NEW_BUILDER, ops);
      var start := if initial.Some? then initial.value else b.initial;
      BuildResult(b, initial) ==
        if start in b.states then Built(start)
        else if b.states == {} then ValueError else InvalidInitialState
  {
    var b := ConfigureAll(NEW_BUILDER, ops);
    ConfiguredIsClosed(NEW_BUILDER, ops);
    forall f, t | f in b.transitions && t in b.transitions[f] ensures t in b.states {
      assert Allowed(b.transitions, f, t);
    }
    assert (set f | f in b.transitions && f !in b.states) == {};
    assert (set f, t | f in b.transitions && t in b.transitions[f] && t !in b.states :: t) == {};
  }

  /** Whether a step of the configuration names the state. */
  predicate Names(op: BuilderOp, s: StateName) {
    match op
    case WithState(x) => x == s
    case WithTransition(f, t) => f == s || t == s
    case WithInitialState(_) => false
  }

  lemma {:induction false} ConfiguredFrom(b: Builder, ops: seq<BuilderOp>, s: StateName, t: StateName)
    ensures s in ConfigureAll(b, ops).states <==> s in b.states || exists i :: 0 <= i < |ops| && Names(ops[i], s)
    ensures Allowed(ConfigureAll(b, ops).transitions, s, t) <==>
      Allowed(b.transitions, s, t) || WithTransition(s, t) in ops
    ensures (forall i :: 0 <= i < |ops| ==> !ops[i].WithInitialState?) ==> ConfigureAll(b, ops).initial == b.initial
    ensures ops != [] && ops[|ops| - 1].WithInitialState? ==>
      ConfigureAll(b, ops).initial == ops[|ops| - 1].state
    decreases ops
  {
    if ops != [] {
      var b1, rest := Configure(b, ops[0]), ops[1..];
      ConfiguredFrom(b1, rest, s, t);
      assert ops == [ops[0]] + rest;
      if i :| 0 <= i < |rest| && Names(rest[i], s) {
        assert Names(ops[i + 1], s);
      }
      if i :| 0 <= i < |ops| && Names(ops[i], s) {
        assert i > 0 ==> Names(rest[i - 1], s);
      }
      assert s in b1.states <==> s in b.states || Names(ops[0], s);
      assert Allowed(b1.transitions, s, t) <==> Allowed(b.transitions, s, t) || ops[0] == WithTransition(s, t);
      if forall i :: 0 <= i < |ops| ==> !ops[i].WithInitialState? {
        forall i | 0 <= i < |rest| ensures !rest[i].WithInitialState? {
          assert rest[i] == ops[i + 1];
        }
      }
    }
  }

  /**
   A builder declares exactly the states its configuration names and exactly the edges it
   lists, in whatever order; its initial state is the last one set, or else "idle".
   */
  lemma BuilderDeclaresWhatItIsTold(ops: seq<BuilderOp>, n: nat, s: StateName, t: StateName)
    requires n <= |ops| && forall i :: n <= i < |ops| ==> !ops[i].WithInitialState?
    ensures var b := ConfigureAll(NEW_BUILDER, ops);
      && (s in b.states <==> exists i :: 0 <= i < |ops| && Names(ops[i], s))
      && (Allowed(b.transitions, s, t) <==> WithTransition(s, t) in ops)
      && (n == 0 ==> b.initial == "idle")
      && (n > 0 && ops[n - 1].WithInitialState? ==> b.initial == ops[n - 1].state)
  {
    ConfiguredFrom(NEW_BUILDER, ops, s, t);
    ConfiguredFrom(NEW_BUILDER, ops[..n], s, t);
    ConfiguredFrom(ConfigureAll(NEW_BUILDER, ops[..n]), ops[n..], s, t);
    ConfigureTwice(NEW_BUILDER, ops[..n], ops[n..]);
    assert ops == ops[..n] + ops[n..];
  }

  lemma {:induction false} ConfigureTwice(b: Builder, first: seq<BuilderOp>, then_: seq<BuilderOp>)
    ensures ConfigureAll(b, first + then_) == ConfigureAll(ConfigureAll(b, first), then_)
    decreases first
  {
    if first == [] {
      assert first + then_ == then_;
    } else {
      assert (first + then_)[1..] == first[1..] + then_;
      ConfigureTwice(Configure(b, first[0]), first[1..], then_);
    }
  }

  // ---------------------------------------------------------------------
  // Runs of a machine

  datatype Command = Command(from: StateName, to: StateName)

  /** `persisted` lists the successful writes to the repository. */
  datatype Machine = Machine(state: StateName, history: seq<Command>, persisted: seq<StateName>)

  datatype Reply = Moved(command: Command) | InvalidTransition | PersistenceError

  /** `transition_to`; `writeOk` is how the repository, if there is one, answers the write. */
  function Transition(t: Transitions, hasRepository: bool, m: Machine, to: StateName, writeOk: bool): (Machine, Reply) {
    if !Allowed(t, m.state, to) then (m, InvalidTransition)
    else
      var command := Command(m.state, to);
      if hasRepository && !writeOk then (m.(state := to), PersistenceError)
      else
        (Machine(to, m.history + [command], if hasRepository then m.persisted + [to] else m.persisted), Moved(command))
  }

  /** A machine shares its table with its builder, which may go on configuring it. */
  datatype Event = Configured(op: BuilderOp) | Requested(to: StateName, writeOk: bool)

  /** `walk` records every change of state, whatever the reply. */
  datatype World = World(builder: Builder, machine: Machine, walk: seq<Command>)

  function Happen(w: World, hasRepository: bool, e: Event): World {
    match e
    case Configured(op) => w.(builder := Configure(w.builder, op))
    case Requested(to, ok) =>
      var (m, reply) := Transition(w.builder.transitions, hasRepository, w.machine, to, ok);
      World(w.builder, m,
            if reply == InvalidTransition then w.walk else w.walk + [Command(w.machine.state, to)])
  }

  function Live(start: World, hasRepository: bool, events: seq<Event>): World {
    if events == [] then start
    else Happen(Live(start, hasRepository, events[..|events| - 1]), hasRepository, events[|events| - 1])
  }

  function Start(b: Builder, initial: StateName): World {
    World(b, Machine(initial, [], []), [])
  }

  /** A contiguous path of commands. */
  ghost predicate Path(from: StateName, cs: seq<Command>, to: StateName) {
    if cs == [] then from == to
    else cs[|cs| - 1].to == to && Path(from, cs[..|cs| - 1], cs[|cs| - 1].from)
  }

  function Destinations(cs: seq<Command>): seq<StateName> {
    if cs == [] then [] else Destinations(cs[..|cs| - 1]) + [cs[|cs| - 1].to]
  }

  ghost predicate Declared(b: Builder, cs: seq<Command>) {
    forall c :: c in cs ==> Allowed(b.transitions, c.from, c.to)
  }

  /** `h` is `w` with some commands left out. */
  ghost predicate PartOf(h: seq<Command>, w: seq<Command>) {
    if w == [] then h == []
    else
      || PartOf(h, w[..|w| - 1])
      || (h != [] && h[|h| - 1] == w[|w| - 1] && PartOf(h[..|h| - 1], w[..|w| - 1]))
  }

  lemma PathAppend(from: StateName, cs: seq<Command>, mid: StateName, to: StateName)
    requires Path(from, cs, mid)
    ensures Path(from, cs + [Command(mid, to)], to)
  {
    assert (cs + [Command(mid, to)])[..|cs|] == cs;
  }

  ghost predicate LiveInvariant(initial: StateName, hasRepository: bool, w: World) {
    && Closed(w.builder) && KeysDeclared(w.builder)
    && w.machine.state in w.builder.states
    && Declared(w.builder, w.walk)
    && Path(initial, w.walk, w.machine.state)
    && PartOf(w.machine.history, w.walk)
    && |w.machine.history| <= |w.walk|
    && (hasRepository ==> Destinations(w.machine.history) == w.machine.persisted)
    && (!hasRepository ==> w.machine.history == w.walk)
  }

  lemma HappenKeepsInvariant(initial: StateName, hasRepository: bool, w: World, e: Event)
    requires LiveInvariant(initial, hasRepository, w)
    ensures LiveInvariant(initial, hasRepository, Happen(w, hasRepository, e))
  {
    match e
    case Configured(op) => ConfigureKeepsClosed(w.builder, op);
    case Requested(to, ok) =>
      if Allowed(w.builder.transitions, w.machine.state, to) {
        var c := Command(w.machine.state, to);
        PathAppend(initial, w.walk, w.machine.state, to);
        assert (w.walk + [c])[..|w.walk|] == w.walk;
        var h := w.machine.history;
        assert (h + [c])[..|h|] == h;
      }
  }

  /**
   For any configuration and any run, even one that goes on configuring the shared
   table: the state stays declared; every change of state is a declared edge of
   one contiguous walk from the initial to the current state; the command history
   is part of that walk, and with a repository it is exactly what was persisted.
   */
  lemma {:induction false} AuditTrail(b: Builder, initial: StateName, hasRepository: bool, events: seq<Event>)
    requires Closed(b) && KeysDeclared(b) && initial in b.states
    ensures LiveInvariant(initial, hasRepository, Live(Start(b, initial), hasRepository, events))
  {
    if events != [] {
      AuditTrail(b, initial, hasRepository, events[..|events| - 1]);
      HappenKeepsInvariant(initial, hasRepository,
        Live(Start(b, initial), hasRepository, events[..|events| - 1]), events[|events| - 1]);
    }
  }

  /** Whether some allowed transition of the run failed to persist. */
  ghost predicate WriteFailed(start: World, hasRepository: bool, events: seq<Event>) {
    events != [] &&
      var w, e := Live(start, hasRepository, events[..|events| - 1]), events[|events| - 1];
      || WriteFailed(start, hasRepository, events[..|events| - 1])
      || (hasRepository && e.Requested? && !e.writeOk && Allowed(w.builder.transitions, w.machine.state, e.to))
  }

  /** The history is the whole walk, hence a contiguous path, exactly when no write failed. */
  lemma {:induction false} HistoryIsWholeWalk(b: Builder, initial: StateName, hasRepository: bool, events: seq<Event>)
    requires Closed(b) && KeysDeclared(b) && initial in b.states
    ensures var w := Live(Start(b, initial), hasRepository, events);
      && (w.machine.history == w.walk <==> !WriteFailed(Start(b, initial), hasRepository, events))
      && (|w.machine.history| == |w.walk| <==> w.machine.history == w.walk)
      && (!WriteFailed(Start(b, initial), hasRepository, events) ==>
            Path(initial, w.machine.history, w.machine.state))
  {
    AuditTrail(b, initial, hasRepository, events);
    if events != [] {
      var before := events[..|events| - 1];
      AuditTrail(b, initial, hasRepository, before);
      HistoryIsWholeWalk(b, initial, hasRepository, before);
    }
  }

  /** What the requests of a run were answered, in order. */
  function Replies(start: World, hasRepository: bool, events: seq<Event>): seq<Reply> {
    if events == [] then []
    else
      var before, e := events[..|events| - 1], events[|events| - 1];
      var w := Live(start, hasRepository, before);
      Replies(start, hasRepository, before) +
      if e.Requested? then [Transition(w.builder.transitions, hasRepository, w.machine, e.to, e.writeOk).1] else []
  }

  /** The commands that the answers confirm. */
  function Confirmed(rs: seq<Reply>): seq<Command> {
    if rs == [] then []
    else Confirmed(rs[..|rs| - 1]) + if rs[|rs| - 1].Moved? then [rs[|rs| - 1].command] else []
  }

  function Unconfirmed(rs: seq<Reply>): nat {
    if rs == [] then 0 else Unconfirmed(rs[..|rs| - 1]) + if rs[|rs| - 1].PersistenceError? then 1 else 0
  }

  lemma RepliesSnoc(rs: seq<Reply>, r: Reply)
    ensures Confirmed(rs + [r]) == Confirmed(rs) + if r.Moved? then [r.command] else []
    ensures Unconfirmed(rs + [r]) == Unconfirmed(rs) + if r.PersistenceError? then 1 else 0
  {
    assert (rs + [r])[..|rs|] == rs;
  }

  /**
   Over every run the history is exactly the moves that were confirmed to the caller, and the
   changes of state missing from it are as many as the persistence errors returned.
   */
  lemma {:induction false} HistoryIsWhatWasConfirmed(
      b: Builder, initial: StateName, hasRepository: bool, events: seq<Event>)
    ensures var w, rs := Live(Start(b, initial), hasRepository, events), Replies(Start(b, initial), hasRepository, events);
      && w.machine.history == Confirmed(rs)
      && |w.walk| == |w.machine.history| + Unconfirmed(rs)
  {
    if events != [] {
      var before, e := events[..|events| - 1], events[|events| - 1];
      HistoryIsWhatWasConfirmed(b, initial, hasRepository, before);
      var rs := Replies(Start(b, initial), hasRepository, before);
      if e.Requested? {
        var w := Live(Start(b, initial), hasRepository, before);
        var r := Transition(w.builder.transitions, hasRepository, w.machine, e.to, e.writeOk).1;
        RepliesSnoc(rs, r);
        assert Confirmed(rs) + [] == Confirmed(rs);
      } else {
        assert rs + [] == rs;
      }
    }
  }

  /**
   A move is confirmed exactly when the history grew; a persistence error is returned exactly
   for a declared edge whose write failed, and then too the state has changed.
   */
  lemma ReplyTellsWhatHappened(t: Transitions, hasRepository: bool, m: Machine, to: StateName, writeOk: bool)
    ensures var (m', reply) := Transition(t, hasRepository, m, to, writeOk);
      && (reply.Moved? <==> m'.history != m.history)
      && (reply.Moved? ==> reply.command == Command(m.state, to) && m'.history == m.history + [reply.command])
      && (reply.PersistenceError? <==> Allowed(t, m.state, to) && hasRepository && !writeOk)
      && (reply.InvalidTransition? <==> !Allowed(t, m.state, to))
      && m'.state == (if reply.InvalidTransition? then m.state else to)
      && m'.persisted == (if reply.Moved? && hasRepository then m.persisted + [to] else m.persisted)
  {
    assert |m.history + [Command(m.state, to)]| == |m.history| + 1;
  }

  /** A failed write moves the state, returns an error and leaves a hole in the history. */
  lemma FailedWriteLeavesHole()
    ensures var b := ConfigureAll(NEW_BUILDER, [WithTransition("a", "b"), WithTransition("b", "c")]);
      var w := Live(Start(b, "a"), true, [Requested("b", false), Requested("c", true)]);
      && w.machine.history == [Command("b", "c")] && w.machine.state == "c"
      && !Path("a", w.machine.history, "c")
      && Replies(Start(b, "a"), true, [Requested("b", false), Requested("c", true)])
           == [PersistenceError, Moved(Command("b", "c"))]
  {
    var o1, o2 := WithTransition("a", "b"), WithTransition("b", "c");
    var b1 := Configure(NEW_BUILDER, o1);
    var b := Configure(b1, o2);
    assert [o1, o2][1..] == [o2] && [o2][1..] == [];
    assert ConfigureAll(b, []) == b && ConfigureAll(b1, [o2]) == b;
    assert ConfigureAll(NEW_BUILDER, [o1, o2]) == b;
    var e1, e2 := Requested("b", false), Requested("c", true);
    assert [e1, e2][..1] == [e1] && [e1][..0] == [];
    var w1 := Happen(Start(b, "a"), true, e1);
    assert w1.machine == Machine("b", [], []);
    assert Live(Start(b, "a"), true, [e1]) == w1;
    var w := Happen(w1, true, e2);
    assert w.machine.history == [Command("b", "c")];
    assert [Command("b", "c")][..0] == [];
    assert Replies(Start(b, "a"), true, []) == [] && Replies(Start(b, "a"), true, [e1]) == [] + [PersistenceError];
    assert [] + [PersistenceError] + [Moved(Command("b", "c"))] == [PersistenceError, Moved(Command("b", "c"))];
  }

  // ---------------------------------------------------------------------
  // The workflow

  const WORKFLOW_STATES: set<StateName> := {"intake", "plan", "reason", "act", "synthesize", "check", "done"}

  const WORKFLOW_TRANSITIONS: Transitions := map[
    "intake" := {"plan", "reason"},
    "plan" := {"act", "reason"},
    "reason" := {"act", "synthesize", "check", "done"},
    "act" := {"synthesize"},
    "synthesize" := {"check"},
    "check" := {"plan", "reason", "act", "done"},
    "done" := {}]

  /** How many more steps a workflow can take before it enters "check". */
  function Rank(s: StateName): nat {
    if s == "intake" || s == "check" then 4
    else if s == "plan" then 3
    else if s == "reason" then 2
    else if s == "act" then 1
    else 0
  }

  function Entries(cs: seq<Command>, s: StateName): nat {
    if cs == [] then 0 else Entries(cs[..|cs| - 1], s) + if cs[|cs| - 1].to == s then 1 else 0
  }

  ghost predicate WorkflowPath(from: StateName, cs: seq<Command>, to: StateName) {
    Path(from, cs, to) && forall c :: c in cs ==> Allowed(WORKFLOW_TRANSITIONS, c.from, c.to)
  }

  lemma EdgeRanks(from: StateName, to: StateName)
    requires Allowed(WORKFLOW_TRANSITIONS, from, to)
    ensures to != "check" ==> Rank(to) < Rank(from)
    ensures from != "done"
    ensures from == "act" ==> to == "synthesize"
    ensures from == "synthesize" ==> to == "check"
  {
  }

  lemma {:induction false} PathLinks(from: StateName, cs: seq<Command>, to: StateName, i: nat)
    requires Path(from, cs, to) && i + 1 < |cs|
    ensures cs[i + 1].from == cs[i].to
  {
    if i + 2 < |cs| {
      PathLinks(from, cs[..|cs| - 1], cs[|cs| - 1].from, i);
    }
  }

  /** In every workflow walk "act" is followed by "synthesize" and then by "check", as far as it goes. */
  ghost predicate ActLeadsToCheck(cs: seq<Command>) {
    forall i :: 0 <= i < |cs| && cs[i].to == "act" ==>
      && (i + 1 < |cs| ==> cs[i + 1].to == "synthesize")
      && (i + 2 < |cs| ==> cs[i + 2].to == "check")
  }

  lemma WalkActLeadsToCheck(from: StateName, cs: seq<Command>, to: StateName)
    requires WorkflowPath(from, cs, to)
    ensures ActLeadsToCheck(cs)
  {
    forall i | 0 <= i < |cs| && cs[i].to == "act"
      ensures i + 1 < |cs| ==> cs[i + 1].to == "synthesize"
      ensures i + 2 < |cs| ==> cs[i + 2].to == "check"
    {
      if i + 1 < |cs| {
        PathLinks(from, cs, to, i);
        EdgeRanks(cs[i + 1].from, cs[i + 1].to);
      }
      if i + 2 < |cs| {
        PathLinks(from, cs, to, i + 1);
        EdgeRanks(cs[i + 2].from, cs[i + 2].to);
      }
    }
  }

  /** A run from "intake" that enters "check" k times makes at most 5k + 4 transitions. */
  lemma {:induction false} WorkflowBound(cs: seq<Command>, to: StateName)
    requires WorkflowPath("intake", cs, to)
    ensures |cs| + Rank(to) <= 5 * Entries(cs, "check") + 4
  {
    if cs != [] {
      var before, c := cs[..|cs| - 1], cs[|cs| - 1];
      assert c in cs;
      EdgeRanks(c.from, c.to);
      WorkflowBound(before, c.from);
    }
  }

  lemma ExtendPath(from: StateName, cs: seq<Command>, mid: StateName, to: StateName)
    requires WorkflowPath(from, cs, mid) && Allowed(WORKFLOW_TRANSITIONS, mid, to)
    ensures WorkflowPath(from, cs + [Command(mid, to)], to)
    ensures Entries(cs + [Command(mid, to)], "check") == Entries(cs, "check") + if to == "check" then 1 else 0
  {
    PathAppend(from, cs, mid, to);
    assert (cs + [Command(mid, to)])[..|cs|] == cs;
  }

  /** From "plan" the long way to "synthesize". */
  lemma LongWay(cs: seq<Command>) returns (r: seq<Command>)
    requires WorkflowPath("intake", cs, "plan")
    ensures WorkflowPath("intake", r, "synthesize")
    ensures Entries(r, "check") == Entries(cs, "check") && |r| == |cs| + 3
  {
    ExtendPath("intake", cs, "plan", "reason");
    ExtendPath("intake", cs + [Command("plan", "reason")], "reason", "act");
    ExtendPath("intake", cs + [Command("plan", "reason")] + [Command("reason", "act")], "act", "synthesize");
    r := cs + [Command("plan", "reason")] + [Command("reason", "act")] + [Command("act", "synthesize")];
  }

  /** Once around, by the longest way, from "synthesize" back to it. */
  lemma Lap(cs: seq<Command>) returns (r: seq<Command>)
    requires WorkflowPath("intake", cs, "synthesize")
    ensures WorkflowPath("intake", r, "synthesize")
    ensures Entries(r, "check") == Entries(cs, "check") + 1 && |r| == |cs| + 5
  {
    ExtendPath("intake", cs, "synthesize", "check");
    ExtendPath("intake", cs + [Command("synthesize", "check")], "check", "plan");
    r := LongWay(cs + [Command("synthesize", "check")] + [Command("check", "plan")]);
  }

  /** The bound is attained for every k. */
  lemma {:induction false} WorkflowBoundIsTight(k: nat) returns (cs: seq<Command>)
    ensures WorkflowPath("intake", cs, "synthesize")
    ensures Entries(cs, "check") == k && |cs| == 5 * k + 4
  {
    if k == 0 {
      ExtendPath("intake", [], "intake", "plan");
      cs := LongWay([] + [Command("intake", "plan")]);
    } else {
      cs := WorkflowBoundIsTight(k - 1);
      cs := Lap(cs);
    }
  }

  /** A state on the way from `s` to "done"; "done" is one step from "reason" and from "check". */
  function Towards(s: StateName): StateName {
    if s == "intake" || s == "plan" then "reason"
    else if s == "act" then "synthesize"
    else if s == "synthesize" then "check"
    else "done"
  }

  lemma {:induction false} ReachesDone(from: StateName, cs: seq<Command>, s: StateName) returns (all: seq<Command>)
    requires WorkflowPath(from, cs, s) && s in WORKFLOW_STATES
    ensures WorkflowPath(from, all, "done") && |all| <= |cs| + 3
    ensures s == "check" || s == "reason" ==> |all| <= |cs| + 1
    ensures s == "synthesize" ==> |all| <= |cs| + 2
    decreases if s == "act" then 3 else if s == "done" then 0 else if s == "check" || s == "reason" then 1 else 2
  {
    if s == "done" {
      all := cs;
    } else {
      ExtendPath(from, cs, s, Towards(s));
      if Towards(s) == "done" {
        all := cs + [Command(s, "done")];
      } else {
        all := ReachesDone(from, cs + [Command(s, Towards(s))], Towards(s));
      }
    }
  }

  /** "done" can be reached from every workflow state in three steps and is never left. */
  lemma DoneIsReachableAndFinal(s: StateName)
    requires s in WORKFLOW_STATES
    ensures exists cs :: WorkflowPath(s, cs, "done") && |cs| <= 3
    ensures forall to :: !Allowed(WORKFLOW_TRANSITIONS, "done", to)
  {
    assert WorkflowPath(s, [], s);
    var all := ReachesDone(s, [], s);
  }

  lemma {:induction false} RequestsKeepBuilder(b: Builder, hasRepository: bool, events: seq<Event>)
    requires forall e :: e in events ==> e.Requested?
    ensures Live(Start(b, "intake"), hasRepository, events).builder == b
  {
    if events != [] {
      assert events[|events| - 1] in events;
      RequestsKeepBuilder(b, hasRepository, events[..|events| - 1]);
    }
  }

  /**
   A machine with the workflow's table, whatever is requested of it and whether or
   not its writes succeed, changes state at most 5k + 4 times with k entries to "check".
   */
  lemma WorkflowMachineBound(b: Builder, hasRepository: bool, events: seq<Event>)
    requires b.states == WORKFLOW_STATES && b.transitions.Keys <= b.states
    requires forall f, t :: Allowed(b.transitions, f, t) <==> Allowed(WORKFLOW_TRANSITIONS, f, t)
    requires forall e :: e in events ==> e.Requested?
    ensures var walk := Live(Start(b, "intake"), hasRepository, events).walk;
      |walk| <= 5 * Entries(walk, "check") + 4 && ActLeadsToCheck(walk)
  {
    AuditTrail(b, "intake", hasRepository, events);
    RequestsKeepBuilder(b, hasRepository, events);
    var w := Live(Start(b, "intake"), hasRepository, events);
    WorkflowBound(w.walk, w.machine.state);
    WalkActLeadsToCheck("intake", w.walk, w.machine.state);
  }

  // ---------------------------------------------------------------------
  // The objects

  /** The states and transitions that a builder shares with the machines it builds. */
  class Table {
    var states: set<StateName>
    var transitions: Transitions

    constructor ()
      ensures states == {} && transitions == map[]
    {
      states, transitions := {}, map[];
    }
  }

  class FsmImpl {
    const table: Table
    const hasRepository: bool
    var state: StateName
    var history: seq<Command>
    ghost var persisted: seq<StateName>

    ghost function Value(): Machine
      reads this
    {
      Machine(state, history, persisted)
    }

    constructor (initial: StateName, table: Table, hasRepository: bool)
      requires initial in table.states
      ensures this.table == table && this.hasRepository == hasRepository
      ensures Value() == Machine(initial, [], [])
    {
      this.table, this.hasRepository := table, hasRepository;
      state, history, persisted := initial, [], [];
    }

    method IsTransitionValid(from: StateName, to: StateName) returns (r: bool)
      ensures r == Allowed(table.transitions, from, to)
    {
      if from !in table.transitions {
        return false;
      }
      r := to in table.transitions[from];
    }

    method TransitionTo(to: StateName, writeOk: bool) returns (reply: Reply)
      modifies this
      ensures (Value(), reply) == Transition(table.transitions, hasRepository, old(Value()), to, writeOk)
    {
      var valid := IsTransitionValid(state, to);
      if !valid {
        return InvalidTransition;
      }
      var from := state;
      var command := Command(from, to);
      state := to;
      if hasRepository {
        if !writeOk {
          return PersistenceError;
        }
        persisted := persisted + [to];
      }
      history := history + [command];
      reply := Moved(command);
    }
  }

  class FsmBuilder {
    const table: Table
    var initial: StateName
    var hasRepository: bool

    ghost function Value(): Builder
      reads this, table
    {
      Builder(table.states, table.transitions, initial)
    }

    constructor ()
      ensures Value() == NEW_BUILDER && fresh(table) && !hasRepository
    {
      table := new Table();
      initial := "idle";
      hasRepository := false;
    }

    method WithInitial(s: StateName)
      modifies this
      ensures Value() == Configure(old(Value()), WithInitialState(s)) && hasRepository == old(hasRepository)
    {
      initial := s;
    }

    method AddState(s: StateName)
      modifies table
      ensures Value() == Configure(old(Value()), WithState(s))
    {
      table.states := table.states + {s};
    }

    method AddTransition(from: StateName, to: StateName)
      modifies table
      ensures Value() == Configure(old(Value()), WithTransition(from, to))
    {
      if from !in table.transitions {
        table.transitions := table.transitions[from := {}];
      }
      table.transitions := table.transitions[from := table.transitions[from] + {to}];
      table.states := table.states + {from};
      table.states := table.states + {to};
      assert table.states == old(table.states) + {from, to};
      assert table.transitions == old(table.transitions)[from := table.transitions[from]];
    }

    method WithPersistence()
      modifies this
      ensures hasRepository && Value() == old(Value())
    {
      hasRepository := true;
    }

    /** The machine built shares the builder's table. */
    method Build(start: Option<StateName>) returns (outcome: BuildOutcome, fsm: FsmImpl?)
      ensures outcome == BuildResult(Value(), start)
      ensures outcome.Built? <==> fsm != null
      ensures fsm != null ==> fresh(fsm) && fsm.table == table
      ensures fsm != null ==> fsm.Value() == Machine(outcome.state, [], []) && fsm.hasRepository == hasRepository
    {
      fsm := null;
      var actual := if start.Some? then start.value else initial;
      var undefined := set f | f in table.transitions && f !in table.states;
      undefined := undefined
        + set f, t | f in table.transitions && t in table.transitions[f] && t !in table.states :: t;
      if undefined != {} {
        return UndefinedState, null;
      }
      if table.states != {} && actual !in table.states {
        return InvalidInitialState, null;
      }
      if actual !in table.states {
        return ValueError, null;
      }
      fsm := new FsmImpl(actual, table, hasRepository);
      outcome := Built(actual);
    }

    /** What WorkflowFSMBuilder's constructor adds to an empty builder, in any iteration order. */
    method AddWorkflow()
      requires Value() == NEW_BUILDER
      modifies this, table
      ensures table.states == WORKFLOW_STATES && initial == "intake"
      ensures forall f, t :: Allowed(table.transitions, f, t) <==> Allowed(WORKFLOW_TRANSITIONS, f, t)
    {
      var pending := WORKFLOW_STATES;
      while pending != {}
        invariant table.states == WORKFLOW_STATES - pending && pending <= WORKFLOW_STATES
        invariant table.transitions == map[]
        decreases pending
      {
        var s :| s in pending;
        pending := pending - {s};
        AddState(s);
      }
      var froms := WORKFLOW_TRANSITIONS.Keys;
      while froms != {}
        invariant froms <= WORKFLOW_TRANSITIONS.Keys && table.states == WORKFLOW_STATES
        invariant forall f, t :: Allowed(table.transitions, f, t) <==>
          Allowed(WORKFLOW_TRANSITIONS, f, t) && f !in froms
        decreases froms
      {
        var f :| f in froms;
        froms := froms - {f};
        var tos := WORKFLOW_TRANSITIONS[f];
        while tos != {}
          invariant tos <= WORKFLOW_TRANSITIONS[f] && table.states == WORKFLOW_STATES
          invariant forall g, t :: Allowed(table.transitions, g, t) <==>
            Allowed(WORKFLOW_TRANSITIONS, g, t) && g !in froms && (g == f ==> t !in tos)
          decreases tos
        {
          var t :| t in tos;
          tos := tos - {t};
          assert f in WORKFLOW_STATES && t in WORKFLOW_STATES;
          label before:
          AddTransition(f, t);
          forall g, u ensures Allowed(table.transitions, g, u) <==>
            old@before(Allowed(table.transitions, g, u)) || (g == f && u == t)
          {
          }
        }
      }
      WithInitial("intake");
    }
  }
}
