/**
 The limits of dawn_kestrel/llm/bulkhead.py read off a run's events alone: which limit is
 in force, with which one a semaphore is created, and how many of its permits are out.
 */
module BulkheadLimits {
  import opened Prelude
  import opened Bulkhead

  /** The position of the call's `Begin`, the last one with its id; the length if there is none. */
  function BeginOf(events: seq<Event>, id: nat): (j: nat)
    ensures j <= |events|
    ensures j < |events| ==> events[j].Begin? && events[j].id == id
  {
    if events == [] then 0
    else if events[|events| - 1].Begin? && events[|events| - 1].id == id then |events| - 1
    else
      var j := BeginOf(events[..|events| - 1], id);
      if j < |events| - 1 then j else |events|
  }

  /**
   The limit in force for `r`: the last one set, or overridden by a call, or put back when
   that call ended; 1 if there was none. An override that cannot create a semaphore is
   put back at once.
   */
  function InForce(events: seq<Event>, r: Resource): int
    decreases |events|, 1
  {
    if events == [] then 1
    else
      var before, e := events[..|events| - 1], events[|events| - 1];
      match e
      case Configure(x, n) => if x == r then n else InForce(before, r)
      case Begin(_, x, max) =>
        if x == r && max.Some? && CreatedWith(events, r).Some? then max.value else InForce(before, r)
      case Granted(_) => InForce(before, r)
      case _ =>
        var j := BeginOf(before, e.id);
        if j < |before| && before[j].resource == r && before[j].maxConcurrent.Some? then InForce(before[..j], r)
        else InForce(before, r)
  }

  /** The limit `r`'s semaphore is created with: that of the first call for which it is not negative. */
  function CreatedWith(events: seq<Event>, r: Resource): Option<int>
    decreases |events|, 0
  {
    if events == [] then None
    else
      var before, e := events[..|events| - 1], events[|events| - 1];
      if CreatedWith(before, r).Some? || !e.Begin? || e.resource != r then CreatedWith(before, r)
      else
        var n := if e.maxConcurrent.Some? then e.maxConcurrent.value else InForce(before, r);
        if n >= 0 then Some(n) else None
  }

  /** Whether the last grant of `r` has not been followed by the end of an operation on it. */
  predicate Managed(events: seq<Event>, r: Resource) {
    events != [] &&
    var before, e := events[..|events| - 1], events[|events| - 1];
    if (e.Granted? || e.Finish?) && Concerns(before, e.id, r) then e.Granted? else Managed(before, r)
  }

  predicate Concerns(events: seq<Event>, id: nat, r: Resource) {
    var j := BeginOf(events, id);
    j < |events| && events[j].resource == r
  }

  /** The permits of `r` that are out: those granted, less the ends of operations that gave one back. */
  function Out(events: seq<Event>, r: Resource): int {
    if events == [] then 0
    else
      var before, e := events[..|events| - 1], events[|events| - 1];
      if e.Granted? && Concerns(before, e.id, r) then Out(before, r) + 1
      else if e.Finish? && Concerns(before, e.id, r) && Managed(before, r) then Out(before, r) - 1
      else Out(before, r)
  }

  // ---------------------------------------------------------------------
  // Runs agree with their events

  /** The calls in progress are those the events began, with what they will put back. */
  ghost predicate CallsAgree(events: seq<Event>, s: System) {
    forall id :: id in s.calls ==>
      var j := BeginOf(events, id);
      && j < |events| && events[j].resource == s.calls[id].resource
      && s.calls[id].restore ==
         if events[j].maxConcurrent.Some? then Some(InForce(events[..j], events[j].resource)) else None
  }

  ghost predicate LimitsAgree(events: seq<Event>, b: State, r: Resource) {
    && GetLimit(b, r) == InForce(events, r)
    && (Exists(b, r) <==> CreatedWith(events, r).Some?)
    && (Exists(b, r) ==> SemaphoreOf(b, r).limit == CreatedWith(events, r).value)
  }

  ghost predicate PermitsAgree(events: seq<Event>, b: State, r: Resource) {
    && (r in b.managed <==> Managed(events, r))
    && (Exists(b, r) ==> SemaphoreOf(b, r).permits == SemaphoreOf(b, r).limit - Out(events, r))
    && (!Exists(b, r) ==> Out(events, r) == 0)
  }

  lemma BeginOfSnoc(events: seq<Event>, e: Event, id: nat)
    ensures var j := BeginOf(events + [e], id);
      if e.Begin? && e.id == id then j == |events|
      else if BeginOf(events, id) < |events| then j == BeginOf(events, id)
      else j == |events| + 1
  {
    assert (events + [e])[..|events|] == events;
  }

  lemma CallsStep(events: seq<Event>, s: System, e: Event)
    requires CallsAgree(events, s) && Step(s, e).Some?
    requires forall r :: GetLimit(s.bulkhead, r) == InForce(events, r)
    ensures CallsAgree(events + [e], Step(s, e).value)
  {
    var s' := Step(s, e).value;
    forall id | id in s'.calls
      ensures var j := BeginOf(events + [e], id);
        && j < |events + [e]| && (events + [e])[j].resource == s'.calls[id].resource
        && s'.calls[id].restore ==
           if (events + [e])[j].maxConcurrent.Some? then Some(InForce((events + [e])[..j], (events + [e])[j].resource)) else None
    {
      BeginOfSnoc(events, e, id);
      var j := BeginOf(events + [e], id);
      assert (events + [e])[..j] == if j == |events| then events else events[..j];
    }
  }

  /** What a request leaves of the limits and the semaphores. */
  lemma RequestFacts(b: State, x: Resource, r: Resource)
    requires Request(b, x).Some?
    ensures var b' := Request(b, x).value;
      && GetLimit(b', r) == GetLimit(b, r) && b'.managed == b.managed
      && (Exists(b', r) <==> Exists(b, r) || r == x)
      && (Exists(b, r) ==> SemaphoreOf(b', r) == SemaphoreOf(b, r))
      && (!Exists(b, r) && r == x ==> SemaphoreOf(b', r) == Semaphore(r, GetLimit(b, r), GetLimit(b, r)))
  {
    if !Exists(b, x) {
      IndexOfAppend(b.semaphores, Semaphore(x, GetLimit(b, x), GetLimit(b, x)), r);
    }
  }

  lemma SameSemaphores(b: State, b': State, r: Resource)
    requires b'.semaphores == b.semaphores
    ensures Exists(b', r) == Exists(b, r) && (Exists(b, r) ==> SemaphoreOf(b', r) == SemaphoreOf(b, r))
  {
  }

  lemma Snoc(events: seq<Event>, e: Event)
    ensures (events + [e])[..|events|] == events && (events + [e])[|events|] == e
  {
  }

  lemma BeginStep(events: seq<Event>, s: System, e: Event, r: Resource)
    requires e.Begin? && LimitsAgree(events, s.bulkhead, r) && PermitsAgree(events, s.bulkhead, r) && Step(s, e).Some?
    ensures LimitsAgree(events + [e], Step(s, e).value.bulkhead, r)
    ensures PermitsAgree(events + [e], Step(s, e).value.bulkhead, r)
  {
    var b, b' := s.bulkhead, Step(s, e).value.bulkhead;
    var x, max := e.resource, e.maxConcurrent;
    var b1 := if max.Some? then WithLimit(b, x, max.value) else b;
    Snoc(events, e);
    SameSemaphores(b, b1, r);
    if Request(b1, x).Some? {
      RequestFacts(b1, x, r);
    } else {
      SameSemaphores(b, b', r);
    }
  }

  /** What a release leaves of the limits and the semaphores. */
  lemma ReleaseFacts(b: State, x: Resource, r: Resource)
    requires Exists(b, x)
    ensures var b' := Release(b, x);
      && GetLimit(b', r) == GetLimit(b, r)
      && (r in b'.managed <==> r in b.managed && r != x)
      && (Exists(b', r) <==> Exists(b, r))
      && (Exists(b, r) ==>
            var m := SemaphoreOf(b, r);
            SemaphoreOf(b', r) == if r == x && x in b.managed then m.(permits := m.permits + 1) else m)
  {
    if x in b.managed {
      var i := IndexOf(b.semaphores, x);
      IndexOfSetPermits(b.semaphores, i, b.semaphores[i].permits + 1, r);
    }
  }

  lemma FinishStep(events: seq<Event>, s: System, e: Event, r: Resource)
    requires e.Finish? && CallsAgree(events, s) && Step(s, e).Some?
    requires LimitsAgree(events, s.bulkhead, r) && PermitsAgree(events, s.bulkhead, r)
    requires Exists(s.bulkhead, s.calls[e.id].resource)
    ensures LimitsAgree(events + [e], Step(s, e).value.bulkhead, r)
    ensures PermitsAgree(events + [e], Step(s, e).value.bulkhead, r)
  {
    var c := s.calls[e.id];
    Snoc(events, e);
    ReleaseFacts(s.bulkhead, c.resource, r);
    SameSemaphores(Release(s.bulkhead, c.resource), Step(s, e).value.bulkhead, r);
  }

  lemma TimeoutStep(events: seq<Event>, s: System, e: Event, r: Resource)
    requires e.AcquireTimeout? && CallsAgree(events, s) && Step(s, e).Some?
    requires LimitsAgree(events, s.bulkhead, r) && PermitsAgree(events, s.bulkhead, r)
    ensures LimitsAgree(events + [e], Step(s, e).value.bulkhead, r)
    ensures PermitsAgree(events + [e], Step(s, e).value.bulkhead, r)
  {
    Snoc(events, e);
    SameSemaphores(s.bulkhead, Step(s, e).value.bulkhead, r);
  }

  lemma GrantStep(events: seq<Event>, s: System, e: Event, r: Resource)
    requires e.Granted? && CallsAgree(events, s) && Step(s, e).Some?
    requires LimitsAgree(events, s.bulkhead, r) && PermitsAgree(events, s.bulkhead, r)
    ensures LimitsAgree(events + [e], Step(s, e).value.bulkhead, r)
    ensures PermitsAgree(events + [e], Step(s, e).value.bulkhead, r)
  {
    var b, c := s.bulkhead, s.calls[e.id];
    Snoc(events, e);
    var i := IndexOf(b.semaphores, c.resource);
    IndexOfSetPermits(b.semaphores, i, b.semaphores[i].permits - 1, r);
  }

  lemma ConfigureStep(events: seq<Event>, s: System, e: Event, r: Resource)
    requires e.Configure? && LimitsAgree(events, s.bulkhead, r) && PermitsAgree(events, s.bulkhead, r)
    ensures LimitsAgree(events + [e], Step(s, e).value.bulkhead, r)
    ensures PermitsAgree(events + [e], Step(s, e).value.bulkhead, r)
  {
    Snoc(events, e);
    SameSemaphores(s.bulkhead, Step(s, e).value.bulkhead, r);
  }

  /** What both sides say about one resource. */
  ghost predicate Agree(events: seq<Event>, b: State, r: Resource) {
    LimitsAgree(events, b, r) && PermitsAgree(events, b, r)
  }

  lemma StepAgrees(events: seq<Event>, s: System, e: Event, r: Resource)
    requires CallsAgree(events, s) && Shape(s) && Step(s, e).Some?
    requires Agree(events, s.bulkhead, r)
    ensures Agree(events + [e], Step(s, e).value.bulkhead, r)
  {
    match e
    case Configure(_, _) => ConfigureStep(events, s, e, r);
    case Begin(_, _, _) => BeginStep(events, s, e, r);
    case Granted(_) => GrantStep(events, s, e, r);
    case Finish(_) => FinishStep(events, s, e, r);
    case AcquireTimeout(_) => TimeoutStep(events, s, e, r);
  }

  lemma {:induction false} RunsAgree(events: seq<Event>)
    requires Run(events).Some?
    ensures CallsAgree(events, Run(events).value)
    ensures forall r :: Agree(events, Run(events).value.bulkhead, r)
  {
    if events == [] {
      forall r ensures Agree(events, INITIAL.bulkhead, r) {
      }
    } else {
      var before, e := events[..|events| - 1], events[|events| - 1];
      var s := Run(before).value;
      RunsAgree(before);
      RunKeepsInvariant(before);
      assert events == before + [e];
      forall r ensures GetLimit(s.bulkhead, r) == InForce(before, r) {
        assert Agree(before, s.bulkhead, r);
      }
      CallsStep(before, s, e);
      forall r ensures Agree(events, Run(events).value.bulkhead, r) {
        StepAgrees(before, s, e, r);
      }
    }
  }

  // ---------------------------------------------------------------------
  // Main results

  /**
   For every run: operations on a resource never outnumber the limit that was in force,
   by the events, when its semaphore was created; and none run before that.
   */
  lemma RunningWithinConfigured(events: seq<Event>, r: Resource)
    requires Run(events).Some?
    ensures var n := |RunningOn(Run(events).value.calls, r)|;
      match CreatedWith(events, r)
      case None => n == 0
      case Some(limit) => n <= Out(events, r) <= limit
  {
    var s := Run(events).value;
    RunsAgree(events);
    RunKeepsInvariant(events);
    assert Agree(events, s.bulkhead, r);
    if Exists(s.bulkhead, r) {
      RunningWithinLimit(events, r);
    } else {
      assert RunningOn(s.calls, r) == {};
    }
  }

  /**
   And they may come up to it: a call that waits is granted its permit exactly while fewer
   permits are out, by the events, than the limit its semaphore was created with.
   */
  lemma GrantedIffPermitsLeft(events: seq<Event>, id: nat)
    requires Run(events).Some? && id in Run(events).value.calls && !Run(events).value.calls[id].running
    ensures var r := Run(events).value.calls[id].resource;
      && CreatedWith(events, r).Some?
      && (Run(events + [Granted(id)]).Some? <==> Out(events, r) < CreatedWith(events, r).value)
  {
    var s := Run(events).value;
    RunsAgree(events);
    RunKeepsInvariant(events);
    assert Agree(events, s.bulkhead, s.calls[id].resource);
    RunSnoc(events, Granted(id));
  }

  /** The limit a resource is configured with, in every run, is the one in force by the events. */
  lemma ConfiguredIsInForce(events: seq<Event>, r: Resource)
    requires Run(events).Some?
    ensures GetLimit(Run(events).value.bulkhead, r) == InForce(events, r)
  {
    RunsAgree(events);
    assert Agree(events, Run(events).value.bulkhead, r);
  }
}
