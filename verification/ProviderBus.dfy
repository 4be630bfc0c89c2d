/**
 Concurrent calls of ProviderBus.execute in dawn_kestrel/llm/provider_bus.py, as
 a machine over the atomic steps between its awaits: every interleaving of any
 number of calls is a run.
 */
module ProviderBus {
  import opened Prelude

  type Provider = string

  /** The concurrent_requests of each provider in dawn_kestrel/llm/provider_limits.py. */
  function ConcurrentLimit(p: Provider): nat {
    if p == "openai" then 10 else if p == "zai_coding_plan" then 3 else 5
  }

  datatype Phase =
    | Entered                          // counted as a request, about to ask the rate tracker
    | Sleeping                         // denied, waiting out the returned time
    | Queued                           // waiting for the provider's semaphore
    | Admitted                         // holds the semaphore, not yet counted as active
    | Calling(attempt: nat)            // the operation is running
    | BackingOff(attempt: nat)         // sleeping after a 429
    | Leaving(ok: bool, retries: nat)  // the result is known, still counted as active
    | Releasing(ok: bool, retries: nat) // no longer counted, still holds the semaphore
    | Done(ok: bool, retries: nat)
    | Refused                          // the rate check itself failed

  /** `waited` is the wait in milliseconds of a call that was denied. */
  datatype Call = Call(provider: Provider, maxRetries: int, phase: Phase, waited: Option<int>)

  datatype Stats = Stats(total: nat, successful: nat, rateLimited: nat, errors429: nat, waitedMs: int)

  /** `drawn` counts the tokens drawn from the rate tracker. */
  datatype State = State(
    permits: map<Provider, nat>, active: map<Provider, nat>, stats: Stats, drawn: nat, calls: seq<Call>)

  const INITIAL := State(map[], map[], Stats(0, 0, 0, 0, 0), 0, [])

  datatype Event =
    | Enter(provider: Provider, maxRetries: int)
    | CheckFails(id: nat)
    | CheckAllows(id: nat)
    | CheckDenies(id: nat, wait: real)
    | Wake(id: nat)
    | Acquire(id: nat)
    | CountUp(id: nat)
    | Succeed(id: nat)
    | Fail(id: nat, is429: bool)
    | Retry(id: nat)
    | CountDown(id: nat)
    | Release(id: nat)

  function Active(s: State, p: Provider): nat {
    if p in s.active then s.active[p] else 0
  }

  function Max0(n: int): nat {
    if n > 0 then n else 0
  }

  function To(s: State, id: nat, phase: Phase): State
    requires id < |s.calls|
  {
    s.(calls := s.calls[id := s.calls[id].(phase := phase)])
  }

  /** `int(seconds * 1000)`, which drops the fraction. */
  function Millis(seconds: real): int {
    var x := seconds * 1000.0;
    if x >= 0.0 then x.Floor else -((-x).Floor)
  }

  /** A denied call counts as limited and adds its wait to the total. */
  function Deny(s: State, id: nat, wait: int): State
    requires id < |s.calls|
  {
    s.(calls := s.calls[id := s.calls[id].(phase := Sleeping, waited := Some(wait))],
       stats := s.stats.(rateLimited := s.stats.rateLimited + 1, waitedMs := s.stats.waitedMs + wait))
  }

  /** The loop `for attempt in range(max + 1)` at `attempt`; an empty range leaves at once. */
  function Attempt(maxRetries: int, attempt: nat): Phase {
    if attempt < maxRetries + 1 then Calling(attempt) else Leaving(false, attempt)
  }

  function Step(s: State, e: Event): Option<State> {
    if e.Enter? then
      var p := e.provider;
      Some(s.(
        permits := if p in s.permits then s.permits else s.permits[p := ConcurrentLimit(p)],
        stats := s.stats.(total := s.stats.total + 1),
        calls := s.calls + [Call(p, e.maxRetries, Entered, None)]))
    else if e.id >= |s.calls| then None
    else
      var c := s.calls[e.id];
      var p := c.provider;
      match (e, c.phase)
      case (CheckFails(id), Entered) => Some(To(s, id, Refused))
      case (CheckAllows(id), Entered) => Some(To(s, id, Queued).(drawn := s.drawn + 1))
      case (CheckDenies(id, wait), Entered) => Some(Deny(s, id, Millis(wait)))
      case (Wake(id), Sleeping) => Some(To(s, id, Queued))
      case (Acquire(id), Queued) =>
        if p in s.permits && s.permits[p] > 0 then
          Some(To(s, id, Admitted).(permits := s.permits[p := s.permits[p] - 1]))
        else None
      case (CountUp(id), Admitted) =>
        Some(To(s, id, Attempt(c.maxRetries, 0)).(active := s.active[p := Active(s, p) + 1]))
      case (Succeed(id), Calling(a)) =>
        Some(To(s, id, Leaving(true, a)).(stats := s.stats.(successful := s.stats.successful + 1)))
      case (Fail(id, is429), Calling(a)) =>
        if is429 && a < c.maxRetries then
          Some(To(s, id, BackingOff(a)).(stats := s.stats.(errors429 := s.stats.errors429 + 1)))
        else Some(To(s, id, Leaving(false, a)))
      case (Retry(id), BackingOff(a)) => Some(To(s, id, Attempt(c.maxRetries, a + 1)))
      case (CountDown(id), Leaving(ok, n)) =>
        Some(To(s, id, Releasing(ok, n)).(active := s.active[p := Max0(Active(s, p) - 1)]))
      case (Release(id), Releasing(ok, n)) =>
        if p in s.permits then Some(To(s, id, Done(ok, n)).(permits := s.permits[p := s.permits[p] + 1])) else None
      case _ => None
  }

  function Run(events: seq<Event>): Option<State> {
    if events == [] then Some(INITIAL)
    else
      var before := Run(events[..|events| - 1]);
      if before.None? then None else Step(before.value, events[|events| - 1])
  }

  // ---------------------------------------------------------------------
  // Counting calls

  function Sum(calls: seq<Call>, f: Call -> int): int {
    if calls == [] then 0 else f(calls[0]) + Sum(calls[1..], f)
  }

  lemma {:induction false} SumUpdate(calls: seq<Call>, id: nat, c: Call, f: Call -> int)
    requires id < |calls|
    ensures Sum(calls[id := c], f) == Sum(calls, f) - f(calls[id]) + f(c)
  {
    if id == 0 {
      assert calls[0 := c][1..] == calls[1..];
    } else {
      SumUpdate(calls[1..], id - 1, c, f);
      assert calls[id := c][1..] == calls[1..][id - 1 := c];
    }
  }

  lemma {:induction false} SumAppend(calls: seq<Call>, c: Call, f: Call -> int)
    ensures Sum(calls + [c], f) == Sum(calls, f) + f(c)
  {
    if calls == [] {
      assert calls + [c] == [c];
    } else {
      SumAppend(calls[1..], c, f);
      assert (calls + [c])[1..] == calls[1..] + [c];
    }
  }

  lemma {:induction false} SumAtLeast(calls: seq<Call>, id: nat, f: Call -> int)
    requires id < |calls| && forall c :: f(c) >= 0
    ensures Sum(calls, f) >= f(calls[id])
  {
    if id == 0 {
      SumNonNegative(calls[1..], f);
    } else {
      SumAtLeast(calls[1..], id - 1, f);
    }
  }

  lemma {:induction false} SumNonNegative(calls: seq<Call>, f: Call -> int)
    requires forall c :: f(c) >= 0
    ensures Sum(calls, f) >= 0
  {
    if calls != [] {
      SumNonNegative(calls[1..], f);
    }
  }

  /** A positive sum has a positive term. */
  lemma {:induction false} SumWitness(calls: seq<Call>, f: Call -> int) returns (id: nat)
    requires Sum(calls, f) > 0
    ensures id < |calls| && f(calls[id]) > 0
  {
    if f(calls[0]) > 0 {
      id := 0;
    } else {
      id := SumWitness(calls[1..], f);
      id := id + 1;
    }
  }

  predicate HoldsPhase(ph: Phase) {
    ph.Admitted? || ph.Calling? || ph.BackingOff? || ph.Leaving? || ph.Releasing?
  }

  predicate CountedPhase(ph: Phase) {
    ph.Calling? || ph.BackingOff? || ph.Leaving?
  }

  function HoldsOn(p: Provider): Call -> int {
    (c: Call) => if c.provider == p && HoldsPhase(c.phase) then 1 else 0
  }

  function CountedOn(p: Provider): Call -> int {
    (c: Call) => if c.provider == p && CountedPhase(c.phase) then 1 else 0
  }

  function CallingOn(p: Provider): Call -> int {
    (c: Call) => if c.provider == p && c.phase.Calling? then 1 else 0
  }

  /** The calls of `p` that hold its semaphore. */
  function Holders(s: State, p: Provider): int {
    Sum(s.calls, HoldsOn(p))
  }

  /** The calls of `p` between their increment and their decrement. */
  function Counted(s: State, p: Provider): int {
    Sum(s.calls, CountedOn(p))
  }

  function Succeeded(c: Call): int {
    if (c.phase.Leaving? || c.phase.Releasing? || c.phase.Done?) && c.phase.ok then 1 else 0
  }

  function Retries(c: Call): int {
    match c.phase
    case Calling(a) => a
    case BackingOff(a) => a + 1
    case Leaving(_, n) => n
    case Releasing(_, n) => n
    case Done(_, n) => n
    case _ => 0
  }

  function Denials(c: Call): int {
    if c.waited.Some? then 1 else 0
  }

  function WaitedMs(c: Call): int {
    if c.waited.Some? then c.waited.value else 0
  }

  /** Calls that passed their rate check, with a token or after a wait. */
  function Dispatched(c: Call): int {
    if c.phase.Entered? || c.phase.Refused? then 0 else 1
  }

  // ---------------------------------------------------------------------
  // The invariant

  ghost predicate CallValid(s: State, c: Call) {
    && c.provider in s.permits
    && Retries(c) <= Max0(c.maxRetries)
    && (c.phase.Calling? ==> c.phase.attempt <= c.maxRetries)
    && (c.phase.Entered? ==> c.waited.None?)
  }

  ghost predicate ProviderValid(s: State, p: Provider) {
    && (p in s.permits ==> s.permits[p] + Holders(s, p) == ConcurrentLimit(p))
    && Active(s, p) == Counted(s, p)
  }

  ghost predicate StatsValid(s: State) {
    && s.stats.total == |s.calls|
    && s.stats.successful == Sum(s.calls, Succeeded)
    && s.stats.errors429 == Sum(s.calls, Retries)
    && s.drawn + s.stats.rateLimited == Sum(s.calls, Dispatched)
    && s.stats.rateLimited == Sum(s.calls, Denials)
    && s.stats.waitedMs == Sum(s.calls, WaitedMs)
  }

  ghost predicate Invariant(s: State) {
    && (forall c :: c in s.calls ==> CallValid(s, c))
    && (forall p :: ProviderValid(s, p))
    && StatsValid(s)
  }

  lemma {:induction false} NoHolders(s: State, calls: seq<Call>, p: Provider)
    requires p !in s.permits && forall c :: c in calls ==> CallValid(s, c)
    ensures Sum(calls, HoldsOn(p)) == 0
  {
    if calls != [] {
      assert calls[0] in calls;
      NoHolders(s, calls[1..], p);
    }
  }

  lemma EnterKeepsInvariant(s: State, p: Provider, maxRetries: int)
    requires Invariant(s)
    ensures Invariant(Step(s, Enter(p, maxRetries)).value)
  {
    var s' := Step(s, Enter(p, maxRetries)).value;
    var c := Call(p, maxRetries, Entered, None);
    forall q ensures ProviderValid(s', q) {
      assert ProviderValid(s, q);
      SumAppend(s.calls, c, HoldsOn(q));
      SumAppend(s.calls, c, CountedOn(q));
      if q !in s.permits {
        NoHolders(s, s.calls, q);
      }
    }
    SumAppend(s.calls, c, Succeeded);
    SumAppend(s.calls, c, Retries);
    SumAppend(s.calls, c, Dispatched);
    SumAppend(s.calls, c, Denials);
    SumAppend(s.calls, c, WaitedMs);
    forall x | x in s'.calls ensures CallValid(s', x) {
      assert x in s.calls || x == c;
    }
  }

  /** The decrement of an active counter never meets its clamp at zero. */
  lemma ClampNeverBites(s: State, e: Event)
    requires Invariant(s) && e.CountDown? && Step(s, e).Some?
    ensures Active(s, s.calls[e.id].provider) >= 1
  {
    var p := s.calls[e.id].provider;
    assert ProviderValid(s, p);
    SumAtLeast(s.calls, e.id, CountedOn(p));
  }

  /** What a step of one call gives and takes: a permit when it starts or stops holding, a count likewise. */
  lemma MoveEffect(s: State, e: Event, q: Provider)
    requires !e.Enter? && Step(s, e).Some?
    requires e.CountDown? ==> Active(s, s.calls[e.id].provider) >= 1
    ensures var s' := Step(s, e).value;
      var c, c' := s.calls[e.id], s'.calls[e.id];
      && s'.calls == s.calls[e.id := c']
      && s'.permits.Keys == s.permits.Keys
      && (q in s.permits ==> s'.permits[q] + HoldsOn(q)(c') == s.permits[q] + HoldsOn(q)(c))
      && Active(s', q) - Active(s, q) == CountedOn(q)(c') - CountedOn(q)(c)
  {
    var c := s.calls[e.id];
    match e
    case CheckFails(_) =>
    case CheckAllows(_) =>
    case CheckDenies(_, _) =>
    case Wake(_) =>
    case Acquire(_) =>
    case CountUp(_) =>
    case Succeed(_) =>
    case Fail(_, _) =>
    case Retry(_) =>
    case CountDown(_) =>
    case Release(_) =>
  }

  lemma MoveKeepsProvider(s: State, e: Event, q: Provider)
    requires Invariant(s) && !e.Enter? && Step(s, e).Some?
    ensures ProviderValid(Step(s, e).value, q)
  {
    var c' := Step(s, e).value.calls[e.id];
    assert ProviderValid(s, q);
    if e.CountDown? {
      ClampNeverBites(s, e);
    }
    MoveEffect(s, e, q);
    SumUpdate(s.calls, e.id, c', HoldsOn(q));
    SumUpdate(s.calls, e.id, c', CountedOn(q));
  }

  /** The statistics follow the call that moves. */
  lemma MoveStatistics(s: State, e: Event)
    requires !e.Enter? && Step(s, e).Some?
    requires CallValid(s, s.calls[e.id])
    ensures var s' := Step(s, e).value;
      var c, c' := s.calls[e.id], s'.calls[e.id];
      && s'.stats.total == s.stats.total
      && s'.stats.successful - s.stats.successful == Succeeded(c') - Succeeded(c)
      && s'.stats.errors429 - s.stats.errors429 == Retries(c') - Retries(c)
      && s'.drawn + s'.stats.rateLimited - s.drawn - s.stats.rateLimited == Dispatched(c') - Dispatched(c)
      && s'.stats.rateLimited - s.stats.rateLimited == Denials(c') - Denials(c)
      && s'.stats.waitedMs - s.stats.waitedMs == WaitedMs(c') - WaitedMs(c)
      && CallValid(s, c')
  {
    match e
    case CheckFails(_) =>
    case CheckAllows(_) =>
    case CheckDenies(_, _) =>
    case Wake(_) =>
    case Acquire(_) =>
    case CountUp(_) =>
    case Succeed(_) =>
    case Fail(_, _) =>
    case Retry(_) =>
    case CountDown(_) =>
    case Release(_) =>
  }

  lemma MoveKeepsInvariant(s: State, e: Event)
    requires Invariant(s) && !e.Enter? && Step(s, e).Some?
    ensures Invariant(Step(s, e).value)
  {
    var s' := Step(s, e).value;
    var c, c' := s.calls[e.id], s'.calls[e.id];
    assert CallValid(s, c);
    forall q ensures ProviderValid(s', q) {
      MoveKeepsProvider(s, e, q);
    }
    if e.CountDown? {
      ClampNeverBites(s, e);
    }
    MoveEffect(s, e, c.provider);
    MoveStatistics(s, e);
    SumUpdate(s.calls, e.id, c', Succeeded);
    SumUpdate(s.calls, e.id, c', Retries);
    SumUpdate(s.calls, e.id, c', Dispatched);
    SumUpdate(s.calls, e.id, c', Denials);
    SumUpdate(s.calls, e.id, c', WaitedMs);
    forall x | x in s'.calls ensures CallValid(s', x) {
      assert x == c' || x in s.calls;
    }
  }

  lemma {:induction false} RunKeepsInvariant(events: seq<Event>)
    ensures Run(events).Some? ==> Invariant(Run(events).value)
  {
    if events != [] {
      var before, e := events[..|events| - 1], events[|events| - 1];
      RunKeepsInvariant(before);
      if Run(events).Some? {
        if e.Enter? {
          EnterKeepsInvariant(Run(before).value, e.provider, e.maxRetries);
        } else {
          MoveKeepsInvariant(Run(before).value, e);
        }
      }
    }
  }

  // ---------------------------------------------------------------------
  // Main results

  lemma {:induction false} CallingAreHolders(calls: seq<Call>, p: Provider)
    ensures 0 <= Sum(calls, CallingOn(p)) <= Sum(calls, CountedOn(p)) <= Sum(calls, HoldsOn(p))
  {
    if calls != [] {
      CallingAreHolders(calls[1..], p);
    }
  }

  /**
   In every interleaving: permits and holders add up to the provider's limit, the
   active counter counts the calls between increment and decrement, and the
   operations in flight never exceed the limit.
   */
  lemma PermitsAndCounters(events: seq<Event>, p: Provider)
    requires Run(events).Some?
    ensures var s := Run(events).value;
      && (p in s.permits ==> s.permits[p] + Holders(s, p) == ConcurrentLimit(p))
      && Active(s, p) == Counted(s, p)
      && Sum(s.calls, CallingOn(p)) <= ConcurrentLimit(p)
  {
    RunKeepsInvariant(events);
    var s := Run(events).value;
    assert ProviderValid(s, p);
    CallingAreHolders(s.calls, p);
    if p !in s.permits {
      NoHolders(s, s.calls, p);
    }
  }

  /**
   The statistics are exact: successes, 429 errors, denials and the time waited for
   them are those of the calls, no call retries more than it may, and calls go on with a token or after a denial,
   the denied ones without ever drawing a token.
   */
  lemma StatisticsAreExact(events: seq<Event>, id: nat)
    requires Run(events).Some? && id < |Run(events).value.calls|
    ensures var s := Run(events).value;
      && s.stats.total == |s.calls|
      && s.stats.successful == Sum(s.calls, Succeeded)
      && s.stats.errors429 == Sum(s.calls, Retries)
      && Sum(s.calls, Dispatched) == s.drawn + s.stats.rateLimited
      && s.stats.rateLimited == Sum(s.calls, Denials) && s.stats.waitedMs == Sum(s.calls, WaitedMs)
      && Retries(s.calls[id]) <= Max0(s.calls[id].maxRetries)
  {
    RunKeepsInvariant(events);
    assert Run(events).value.calls[id] in Run(events).value.calls;
  }

  predicate Finished(c: Call) {
    c.phase.Done? || c.phase.Refused?
  }

  ghost predicate Quiescent(s: State) {
    forall c :: c in s.calls ==> Finished(c)
  }

  lemma {:induction false} FinishedHoldNothing(calls: seq<Call>, p: Provider)
    requires forall c :: c in calls ==> Finished(c)
    ensures Sum(calls, HoldsOn(p)) == 0 && Sum(calls, CountedOn(p)) == 0
  {
    if calls != [] {
      assert calls[0] in calls;
      FinishedHoldNothing(calls[1..], p);
    }
  }

  /** When every call has returned, all counters are zero and all permits are back. */
  lemma QuiescenceRestoresEverything(events: seq<Event>, p: Provider)
    requires Run(events).Some? && Quiescent(Run(events).value)
    ensures var s := Run(events).value;
      Active(s, p) == 0 && (p in s.permits ==> s.permits[p] == ConcurrentLimit(p))
  {
    RunKeepsInvariant(events);
    var s := Run(events).value;
    assert ProviderValid(s, p);
    FinishedHoldNothing(s.calls, p);
  }

  /** The event that moves a call on, whatever the operation answers. */
  function NextEvent(id: nat, ph: Phase): Event {
    match ph
    case Entered => CheckAllows(id)
    case Sleeping => Wake(id)
    case Queued => Acquire(id)
    case Admitted => CountUp(id)
    case Calling(_) => Succeed(id)
    case BackingOff(_) => Retry(id)
    case Leaving(_, _) => CountDown(id)
    case _ => Release(id)
  }

  lemma NextIsPossible(s: State, id: nat)
    requires id < |s.calls| && CallValid(s, s.calls[id]) && !Finished(s.calls[id])
    requires s.calls[id].phase.Queued? ==> s.permits[s.calls[id].provider] > 0
    ensures var e := NextEvent(id, s.calls[id].phase);
      !e.Enter? && Step(s, e).Some?
  {
  }

  /** No deadlock: as long as some call has not returned, some call can move. */
  lemma NoDeadlock(events: seq<Event>, id: nat)
    requires Run(events).Some? && id < |Run(events).value.calls| && !Finished(Run(events).value.calls[id])
    ensures exists e: Event :: !e.Enter? && Step(Run(events).value, e).Some?
  {
    RunKeepsInvariant(events);
    var s := Run(events).value;
    var c := s.calls[id];
    assert c in s.calls && CallValid(s, c);
    if c.phase.Queued? && s.permits[c.provider] == 0 {
      assert ProviderValid(s, c.provider);
      var h := SumWitness(s.calls, HoldsOn(c.provider));
      assert s.calls[h] in s.calls;
      NextIsPossible(s, h);
    } else {
      NextIsPossible(s, id);
    }
  }

  /** An upper bound on the steps a call still takes. */
  function StepsLeft(c: Call): int {
    var r := Max0(c.maxRetries);
    match c.phase
    case Entered => 2 * r + 7
    case Sleeping => 2 * r + 6
    case Queued => 2 * r + 5
    case Admitted => 2 * r + 4
    case Calling(a) => 2 * Max0(c.maxRetries - a) + 3
    case BackingOff(a) => 2 * Max0(c.maxRetries - a) + 2
    case Leaving(_, _) => 2
    case Releasing(_, _) => 1
    case _ => 0
  }

  function CountMoves(events: seq<Event>): nat {
    if events == [] then 0
    else CountMoves(events[..|events| - 1]) + if events[|events| - 1].Enter? then 0 else 1
  }

  function Allowance(events: seq<Event>): nat {
    if events == [] then 0
    else
      var e := events[|events| - 1];
      Allowance(events[..|events| - 1]) + if e.Enter? then 2 * Max0(e.maxRetries) + 7 else 0
  }

  lemma MoveTakesStep(s: State, e: Event)
    requires !e.Enter? && Step(s, e).Some? && CallValid(s, s.calls[e.id])
    ensures var s' := Step(s, e).value;
      s'.calls == s.calls[e.id := s'.calls[e.id]] && 0 <= StepsLeft(s'.calls[e.id]) < StepsLeft(s.calls[e.id])
  {
    match e
    case CheckFails(_) =>
    case CheckAllows(_) =>
    case CheckDenies(_, _) =>
    case Wake(_) =>
    case Acquire(_) =>
    case CountUp(_) =>
    case Succeed(_) =>
    case Fail(_, _) =>
    case Retry(_) =>
    case CountDown(_) =>
    case Release(_) =>
  }

  /**
   Every run is finite for its calls: a call takes at most seven steps and two
   more for each retry it may make. With NoDeadlock, every call returns.
   */
  lemma {:induction false} EveryCallReturns(events: seq<Event>)
    requires Run(events).Some?
    ensures CountMoves(events) + Sum(Run(events).value.calls, StepsLeft) <= Allowance(events)
    ensures CountMoves(events) <= Allowance(events)
  {
    if events != [] {
      var before, e := events[..|events| - 1], events[|events| - 1];
      var s, s' := Run(before).value, Run(events).value;
      EveryCallReturns(before);
      if e.Enter? {
        SumAppend(s.calls, s'.calls[|s.calls|], StepsLeft);
      } else {
        RunKeepsInvariant(before);
        assert CallValid(s, s.calls[e.id]);
        MoveTakesStep(s, e);
        SumUpdate(s.calls, e.id, s'.calls[e.id], StepsLeft);
      }
    }
    if Run(events).Some? {
      SumNonNegative(Run(events).value.calls, StepsLeft);
    }
  }

  // ---------------------------------------------------------------------
  // The bus itself, by the segments between its awaits

  /** How one attempt of the operation ends. */
  datatype Reply = Success | TooManyRequests | Failure

  /** How a call ends whose operation answers `reply(a)` on attempt a: its success, and its retries. */
  function Attempts(maxRetries: int, a: nat, reply: nat -> Reply): (bool, nat)
    decreases maxRetries - a
  {
    if a > maxRetries then (false, a)
    else if reply(a).Success? then (true, a)
    else if reply(a).TooManyRequests? && a < maxRetries then Attempts(maxRetries, a + 1, reply)
    else (false, a)
  }

  /**
   A call succeeds exactly when some attempt within the allowance succeeds and every one
   before it is refused with a 429; it never tries again after anything else.
   */
  lemma {:induction false} SucceedsIff(maxRetries: int, a: nat, reply: nat -> Reply)
    requires a <= maxRetries
    ensures var (ok, n) := Attempts(maxRetries, a, reply);
      && a <= n <= maxRetries
      && (forall i :: a <= i < n ==> reply(i).TooManyRequests?)
      && (ok <==> reply(n).Success?)
      && (!ok ==> reply(n).Failure? || n == maxRetries)
    decreases maxRetries - a
  {
    if reply(a).TooManyRequests? && a < maxRetries {
      SucceedsIff(maxRetries, a + 1, reply);
    }
  }

  function StepAll(s: State, events: seq<Event>): Option<State>
    decreases events
  {
    if events == [] then Some(s)
    else
      match Step(s, events[0])
      case None => None
      case Some(s') => StepAll(s', events[1..])
  }

  /** The events of call `id` from attempt `a` to the end of its retry loop. */
  function RetryEvents(id: nat, maxRetries: int, a: nat, reply: nat -> Reply): seq<Event>
    decreases maxRetries - a
  {
    if a > maxRetries then []
    else if reply(a).Success? then [Succeed(id)]
    else if reply(a).TooManyRequests? && a < maxRetries then
      [Fail(id, true), Retry(id)] + RetryEvents(id, maxRetries, a + 1, reply)
    else [Fail(id, reply(a).TooManyRequests?)]
  }

  /** What the retry loop of a call does to the state when nothing interleaves. */
  function AfterRetries(s: State, id: nat, a: nat, reply: nat -> Reply): State
    requires id < |s.calls|
  {
    var (ok, n) := Attempts(s.calls[id].maxRetries, a, reply);
    To(s, id, Leaving(ok, n)).(stats := s.stats.(
      successful := s.stats.successful + if ok then 1 else 0,
      errors429 := s.stats.errors429 + if n > a then n - a else 0))
  }

  lemma StepTwice(s: State, e: Event, f: Event, rest: seq<Event>)
    requires Step(s, e).Some? && Step(Step(s, e).value, f).Some?
    ensures StepAll(s, [e, f] + rest) == StepAll(Step(Step(s, e).value, f).value, rest)
  {
    assert ([e, f] + rest)[1..] == [f] + rest && ([f] + rest)[1..] == rest;
  }

  /** After a 429 at attempt `a`, the backoff, and the start of the next attempt. */
  function Retried(s: State, id: nat, a: nat): State
    requires id < |s.calls|
  {
    To(s, id, Attempt(s.calls[id].maxRetries, a + 1)).(stats := s.stats.(errors429 := s.stats.errors429 + 1))
  }

  lemma RetryOnce(s: State, id: nat, a: nat)
    requires id < |s.calls| && s.calls[id].phase == Calling(a) && a < s.calls[id].maxRetries
    ensures Step(s, Fail(id, true)).Some?
    ensures Step(Step(s, Fail(id, true)).value, Retry(id)) == Some(Retried(s, id, a))
  {
    var failed := Step(s, Fail(id, true)).value;
    var c := s.calls[id].(phase := Attempt(s.calls[id].maxRetries, a + 1));
    assert failed.calls[id := c] == s.calls[id := c];
  }

  lemma RetriedThen(s: State, id: nat, a: nat, reply: nat -> Reply)
    requires id < |s.calls| && a < s.calls[id].maxRetries && reply(a).TooManyRequests?
    ensures AfterRetries(Retried(s, id, a), id, a + 1, reply) == AfterRetries(s, id, a, reply)
  {
    var max, next := s.calls[id].maxRetries, Retried(s, id, a);
    SucceedsIff(max, a + 1, reply);
    var (ok, n) := Attempts(max, a + 1, reply);
    assert next.calls[id := next.calls[id].(phase := Leaving(ok, n))]
      == s.calls[id := s.calls[id].(phase := Leaving(ok, n))];
  }

  /** The retry loop takes its call through the machine's steps, and ends as `Attempts` says. */
  lemma {:induction false} RetryLoopIsRun(s: State, id: nat, a: nat, reply: nat -> Reply)
    requires id < |s.calls| && s.calls[id].phase == Attempt(s.calls[id].maxRetries, a)
    ensures StepAll(s, RetryEvents(id, s.calls[id].maxRetries, a, reply)) == Some(AfterRetries(s, id, a, reply))
    decreases s.calls[id].maxRetries - a
  {
    var max := s.calls[id].maxRetries;
    if a > max {
      assert s.calls[id := s.calls[id].(phase := Leaving(false, a))] == s.calls;
    } else if reply(a).TooManyRequests? && a < max {
      RetryOnce(s, id, a);
      var next := Retried(s, id, a);
      StepTwice(s, Fail(id, true), Retry(id), RetryEvents(id, max, a + 1, reply));
      RetryLoopIsRun(next, id, a + 1, reply);
      RetriedThen(s, id, a, reply);
    } else {
      var e := if reply(a).Success? then Succeed(id) else Fail(id, reply(a).TooManyRequests?);
      assert StepAll(s, [e]) == Step(s, e);
    }
  }

  datatype Check = Broken | Allowed | Denied(wait: real)

  class Bus {
    var semaphores: map<Provider, nat>
    var activeRequests: map<Provider, nat>
    var stats: Stats
    ghost var drawn: nat
    ghost var calls: seq<Call>

    ghost function Snapshot(): State
      reads this
    {
      State(semaphores, activeRequests, stats, drawn, calls)
    }

    constructor ()
      ensures Snapshot() == INITIAL
    {
      semaphores, activeRequests, stats, drawn, calls := map[], map[], Stats(0, 0, 0, 0, 0), 0, [];
    }

    /** `_get_semaphore`, and the count of requests. */
    method EnterCall(p: Provider, maxRetries: int)
      modifies this
      ensures Some(Snapshot()) == Step(old(Snapshot()), Enter(p, maxRetries))
    {
      if p !in semaphores {
        semaphores := semaphores[p := ConcurrentLimit(p)];
      }
      stats := stats.(total := stats.total + 1);
      calls := calls + [Call(p, maxRetries, Entered, None)];
    }

    /** What follows the rate check; a denied call waits and goes on. */
    method AfterCheck(ghost id: nat, check: Check) returns (goesOn: bool)
      requires id < |calls| && calls[id].phase == Entered
      modifies this
      ensures goesOn == !check.Broken?
      ensures check.Broken? ==> Some(Snapshot()) == Step(old(Snapshot()), CheckFails(id))
      ensures check.Allowed? ==> Some(Snapshot()) == Step(old(Snapshot()), CheckAllows(id))
      ensures check.Denied? ==> Some(Snapshot()) == Step(old(Snapshot()), CheckDenies(id, check.wait))
    {
      match check
      case Broken =>
        calls := calls[id := calls[id].(phase := Refused)];
        return false;
      case Allowed =>
        calls, drawn := calls[id := calls[id].(phase := Queued)], drawn + 1;
        return true;
      case Denied(wait) =>
        var ms := Millis(wait);
        stats := stats.(rateLimited := stats.rateLimited + 1, waitedMs := stats.waitedMs + ms);
        calls := calls[id := calls[id].(phase := Sleeping, waited := Some(ms))];
        return true;
    }

    /** Entering the semaphore, once it yields a permit. */
    method TakeSemaphore(p: Provider, ghost id: nat)
      requires id < |calls| && calls[id].provider == p && calls[id].phase == Queued
      requires p in semaphores && semaphores[p] > 0
      modifies this
      ensures Some(Snapshot()) == Step(old(Snapshot()), Acquire(id))
    {
      semaphores := semaphores[p := semaphores[p] - 1];
      calls := calls[id := calls[id].(phase := Admitted)];
    }

    method StartRequest(p: Provider, ghost id: nat)
      requires id < |calls| && calls[id].provider == p && calls[id].phase == Admitted
      modifies this
      ensures Some(Snapshot()) == Step(old(Snapshot()), CountUp(id))
    {
      var current := if p in activeRequests then activeRequests[p] else 0;
      activeRequests := activeRequests[p := current + 1];
      calls := calls[id := calls[id].(phase := Attempt(calls[id].maxRetries, 0))];
    }

    /** The retry loop. */
    method TryOperation(maxRetries: int, reply: nat -> Reply, ghost id: nat) returns (ok: bool, retries: nat)
      requires id < |calls| && calls[id].maxRetries == maxRetries && calls[id].phase == Attempt(maxRetries, 0)
      modifies this`stats, this`calls
      ensures (ok, retries) == Attempts(maxRetries, 0, reply)
      ensures Snapshot() == AfterRetries(old(Snapshot()), id, 0, reply)
    {
      var attempt := 0;
      while attempt < maxRetries + 1
        invariant Attempts(maxRetries, attempt, reply) == Attempts(maxRetries, 0, reply)
        invariant calls == old(calls)[id := old(calls)[id].(phase := Attempt(maxRetries, attempt))]
        invariant stats == old(stats).(errors429 := old(stats).errors429 + attempt)
      {
        var answer := reply(attempt);
        if answer.Success? {
          stats := stats.(successful := stats.successful + 1);
          calls := calls[id := calls[id].(phase := Leaving(true, attempt))];
          return true, attempt;
        }
        if answer.TooManyRequests? && attempt < maxRetries {
          stats := stats.(errors429 := stats.errors429 + 1);
          attempt := attempt + 1;
          calls := calls[id := calls[id].(phase := Attempt(maxRetries, attempt))];
        } else {
          break;
        }
      }
      ok, retries := false, attempt;
      calls := calls[id := calls[id].(phase := Leaving(false, attempt))];
    }

    /** The `finally` block. */
    method FinishRequest(p: Provider, ghost id: nat)
      requires id < |calls| && calls[id].provider == p && calls[id].phase.Leaving?
      modifies this
      ensures Some(Snapshot()) == Step(old(Snapshot()), CountDown(id))
    {
      var current := if p in activeRequests then activeRequests[p] else 0;
      activeRequests := activeRequests[p := if current > 0 then current - 1 else 0];
      calls := calls[id := calls[id].(phase := Releasing(calls[id].phase.ok, calls[id].phase.retries))];
    }

    method LeaveSemaphore(p: Provider, ghost id: nat)
      requires id < |calls| && calls[id].provider == p && calls[id].phase.Releasing? && p in semaphores
      modifies this
      ensures Some(Snapshot()) == Step(old(Snapshot()), Release(id))
    {
      semaphores := semaphores[p := semaphores[p] + 1];
      calls := calls[id := calls[id].(phase := Done(calls[id].phase.ok, calls[id].phase.retries))];
    }
  }
}
