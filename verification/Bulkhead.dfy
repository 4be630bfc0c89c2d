/**
 The bulkhead of dawn_kestrel/llm/bulkhead.py: one semaphore per resource, a set
 of managed semaphores and a table of active counts. Concurrent `try_execute`
 calls are modelled by their atomic steps, in every interleaving with calls of
 `set_limit`.

 A semaphore is identified with its resource, since each resource gets one.
 */
module Bulkhead {
  import opened Prelude

  type Resource = string

  /** `limit` is the value the semaphore was created with. */
  datatype Semaphore = Semaphore(resource: Resource, limit: nat, permits: nat)

  datatype Count = Count(resource: Resource, active: nat)

  /** The fields of BulkheadImpl; dictionaries keep their insertion order. */
  datatype State = State(
    semaphores: seq<Semaphore>, limits: map<Resource, int>, counts: seq<Count>, managed: set<Resource>)

  const DEFAULT_LIMIT := 1

  function GetLimit(b: State, r: Resource): int {
    if r in b.limits then b.limits[r] else DEFAULT_LIMIT
  }

  function WithLimit(b: State, r: Resource, limit: int): State {
    b.(limits := b.limits[r := limit])
  }

  /** The position of a resource's semaphore, or the length if there is none. */
  function IndexOf(ss: seq<Semaphore>, r: Resource): (i: nat)
    ensures i <= |ss|
    ensures i < |ss| ==> ss[i].resource == r
    ensures forall j :: 0 <= j < i ==> ss[j].resource != r
  {
    if ss == [] || ss[0].resource == r then 0
    else
      var i := IndexOf(ss[1..], r);
      assert forall j :: 0 < j <= i ==> ss[j].resource == ss[1..][j - 1].resource || j == |ss|;
      1 + i
  }

  predicate Exists(b: State, r: Resource) {
    IndexOf(b.semaphores, r) < |b.semaphores|
  }

  /** The first part of `try_acquire`: creates a missing semaphore; None when the limit is negative. */
  function Request(b: State, r: Resource): Option<State> {
    if Exists(b, r) then Some(b)
    else if GetLimit(b, r) < 0 then None
    else Some(b.(semaphores := b.semaphores + [Semaphore(r, GetLimit(b, r), GetLimit(b, r))]))
  }

  /** `active_counts[r] = active_counts.get(r, 0) + 1`. */
  function Increment(cs: seq<Count>, r: Resource): seq<Count> {
    if cs == [] then [Count(r, 1)]
    else if cs[0].resource == r then [Count(r, cs[0].active + 1)] + cs[1..]
    else [cs[0]] + Increment(cs[1..], r)
  }

  /** Decrements the first positive count, whatever its resource. */
  function DecrementFirst(cs: seq<Count>): seq<Count> {
    if cs == [] then []
    else if cs[0].active > 0 then [Count(cs[0].resource, cs[0].active - 1)] + cs[1..]
    else [cs[0]] + DecrementFirst(cs[1..])
  }

  function SetPermits(ss: seq<Semaphore>, i: nat, permits: nat): seq<Semaphore>
    requires i < |ss|
  {
    ss[i := ss[i].(permits := permits)]
  }

  /** The second part of `try_acquire`, once the semaphore yields a permit. */
  function Grant(b: State, r: Resource): Option<State> {
    var i := IndexOf(b.semaphores, r);
    if i < |b.semaphores| && b.semaphores[i].permits > 0 then
      Some(b.(semaphores := SetPermits(b.semaphores, i, b.semaphores[i].permits - 1),
              managed := b.managed + {r},
              counts := Increment(b.counts, r)))
    else None
  }

  /** `release`: refused unless the semaphore is in the managed set, which it then leaves. */
  function Release(b: State, r: Resource): State {
    var i := IndexOf(b.semaphores, r);
    if r !in b.managed || i == |b.semaphores| then b
    else
      b.(semaphores := SetPermits(b.semaphores, i, b.semaphores[i].permits + 1),
         managed := b.managed - {r},
         counts := DecrementFirst(b.counts))
  }

  // ---------------------------------------------------------------------
  // Concurrent calls of try_execute, and of set_limit

  /** `restore` is the limit to put back at the end, when the call overrides it. */
  datatype Call = Call(resource: Resource, restore: Option<int>, running: bool)

  datatype System = System(bulkhead: State, calls: map<nat, Call>)

  datatype Event =
    | Configure(resource: Resource, limit: int)
    | Begin(id: nat, resource: Resource, maxConcurrent: Option<int>)
    | Granted(id: nat)
    | AcquireTimeout(id: nat)
    | Finish(id: nat)

  const INITIAL := System(State([], map[], [], {}), map[])

  function Restore(b: State, c: Call): State {
    if c.restore.Some? then WithLimit(b, c.resource, c.restore.value) else b
  }

  function Step(s: System, e: Event): Option<System> {
    match e
    case Configure(r, limit) => Some(s.(bulkhead := WithLimit(s.bulkhead, r, limit)))
    case Begin(id, r, max) =>
      if id in s.calls then None
      else
        var c := Call(r, if max.Some? then Some(GetLimit(s.bulkhead, r)) else None, false);
        var b := if max.Some? then WithLimit(s.bulkhead, r, max.value) else s.bulkhead;
        (match Request(b, r)
         case None => Some(s.(bulkhead := Restore(b, c)))
         case Some(b') => Some(System(b', s.calls[id := c])))
    case Granted(id) =>
      if id !in s.calls || s.calls[id].running then None
      else
        (match Grant(s.bulkhead, s.calls[id].resource)
         case None => None
         case Some(b) => Some(System(b, s.calls[id := s.calls[id].(running := true)])))
    case AcquireTimeout(id) =>
      if id !in s.calls || s.calls[id].running then None
      else Some(System(Restore(s.bulkhead, s.calls[id]), s.calls - {id}))
    case Finish(id) =>
      if id !in s.calls || !s.calls[id].running then None
      else Some(System(Restore(Release(s.bulkhead, s.calls[id].resource), s.calls[id]), s.calls - {id}))
  }

  function Run(events: seq<Event>): Option<System> {
    if events == [] then Some(INITIAL)
    else
      var before := Run(events[..|events| - 1]);
      if before.None? then None else Step(before.value, events[|events| - 1])
  }

  // ---------------------------------------------------------------------
  // Accounting

  function RunningOn(calls: map<nat, Call>, r: Resource): set<nat> {
    set id | id in calls && calls[id].running && calls[id].resource == r
  }

  function Outstanding(m: Semaphore): int {
    m.limit - m.permits
  }

  /** Permits missing beyond the one the managed set still accounts for. */
  function Leak(b: State, m: Semaphore): int {
    Outstanding(m) - if m.resource in b.managed then 1 else 0
  }

  function TotalOutstanding(ss: seq<Semaphore>): int {
    if ss == [] then 0 else Outstanding(ss[0]) + TotalOutstanding(ss[1..])
  }

  function TotalActive(cs: seq<Count>): nat {
    if cs == [] then 0 else cs[0].active + TotalActive(cs[1..])
  }

  ghost predicate SemaphoreInvariant(s: System, m: Semaphore) {
    var n := |RunningOn(s.calls, m.resource)|;
    && Leak(s.bulkhead, m) >= 0
    && n <= Outstanding(m)
    && (m.resource in s.bulkhead.managed ==> n >= 1)
  }

  /** One semaphore a resource, and one for whatever is managed or called. */
  ghost predicate Shape(s: System) {
    var b := s.bulkhead;
    && (forall i, j :: 0 <= i < j < |b.semaphores| ==> b.semaphores[i].resource != b.semaphores[j].resource)
    && (forall r :: r in b.managed ==> Exists(b, r))
    && (forall id :: id in s.calls ==> Exists(b, s.calls[id].resource))
  }

  ghost predicate Accounted(s: System) {
    forall m :: m in s.bulkhead.semaphores ==> SemaphoreInvariant(s, m)
  }

  ghost predicate Balanced(b: State) {
    TotalActive(b.counts) == TotalOutstanding(b.semaphores)
  }

  ghost predicate Invariant(s: System) {
    Shape(s) && Accounted(s) && Balanced(s.bulkhead)
  }

  lemma {:induction false} TotalUpdate(ss: seq<Semaphore>, i: nat, m: Semaphore)
    requires i < |ss|
    ensures TotalOutstanding(ss[i := m]) == TotalOutstanding(ss) - Outstanding(ss[i]) + Outstanding(m)
  {
    if i == 0 {
      assert ss[0 := m][1..] == ss[1..];
    } else {
      TotalUpdate(ss[1..], i - 1, m);
      assert ss[i := m][1..] == ss[1..][i - 1 := m];
    }
  }

  lemma {:induction false} TotalAppend(ss: seq<Semaphore>, m: Semaphore)
    ensures TotalOutstanding(ss + [m]) == TotalOutstanding(ss) + Outstanding(m)
  {
    if ss == [] {
      assert ss + [m] == [m];
    } else {
      TotalAppend(ss[1..], m);
      assert (ss + [m])[1..] == ss[1..] + [m];
    }
  }

  lemma {:induction false} CountsChange(cs: seq<Count>, r: Resource)
    ensures TotalActive(Increment(cs, r)) == TotalActive(cs) + 1
    ensures TotalActive(DecrementFirst(cs)) == if TotalActive(cs) > 0 then TotalActive(cs) - 1 else 0
  {
    if cs != [] {
      CountsChange(cs[1..], r);
    }
  }

  lemma {:induction false} TotalAtLeast(ss: seq<Semaphore>, i: nat)
    requires i < |ss| && forall m :: m in ss ==> Outstanding(m) >= 0
    ensures TotalOutstanding(ss) >= Outstanding(ss[i])
    ensures TotalOutstanding(ss) >= 0
  {
    if i == 0 {
      if |ss| > 1 {
        assert forall m :: m in ss[1..] ==> m in ss;
        TotalAtLeast(ss[1..], 0);
        assert ss[1] in ss;
      }
    } else {
      assert forall m :: m in ss[1..] ==> m in ss;
      TotalAtLeast(ss[1..], i - 1);
      assert ss[0] in ss;
    }
  }

  lemma {:induction false} IndexOfSetPermits(ss: seq<Semaphore>, i: nat, permits: nat, r: Resource)
    requires i < |ss|
    ensures IndexOf(SetPermits(ss, i, permits), r) == IndexOf(ss, r)
  {
    if i > 0 {
      assert SetPermits(ss, i, permits)[1..] == SetPermits(ss[1..], i - 1, permits);
      IndexOfSetPermits(ss[1..], i - 1, permits, r);
    } else {
      assert SetPermits(ss, i, permits)[1..] == ss[1..];
    }
  }

  lemma {:induction false} IndexOfAppend(ss: seq<Semaphore>, m: Semaphore, r: Resource)
    ensures IndexOf(ss + [m], r) ==
      if IndexOf(ss, r) < |ss| then IndexOf(ss, r) else if m.resource == r then |ss| else |ss| + 1
  {
    if ss != [] {
      assert (ss + [m])[1..] == ss[1..] + [m];
      IndexOfAppend(ss[1..], m, r);
    }
  }

  lemma StartKeepsInvariant(s: System, id: nat, c: Call)
    requires Invariant(s) && id !in s.calls && !c.running
    requires Exists(s.bulkhead, c.resource) || GetLimit(s.bulkhead, c.resource) >= 0
    ensures Request(s.bulkhead, c.resource).Some?
    ensures Invariant(System(Request(s.bulkhead, c.resource).value, s.calls[id := c]))
  {
    var b, b' := s.bulkhead, Request(s.bulkhead, c.resource).value;
    var s' := System(b', s.calls[id := c]);
    forall r ensures RunningOn(s'.calls, r) == RunningOn(s.calls, r) {
    }
    if !Exists(b, c.resource) {
      var m := Semaphore(c.resource, GetLimit(b, c.resource), GetLimit(b, c.resource));
      TotalAppend(b.semaphores, m);
      forall r ensures Exists(b, r) ==> Exists(b', r) {
        IndexOfAppend(b.semaphores, m, r);
      }
      IndexOfAppend(b.semaphores, m, c.resource);
      assert RunningOn(s.calls, m.resource) == {};
    }
    forall x | x in b'.semaphores ensures SemaphoreInvariant(s', x) {
      assert RunningOn(s'.calls, x.resource) == RunningOn(s.calls, x.resource);
    }
  }

  /** Dropping a waiting call, or changing configured limits, touches no accounting. */
  lemma DropKeepsInvariant(s: System, id: nat, limits: map<Resource, int>)
    requires Invariant(s) && (id in s.calls ==> !s.calls[id].running)
    ensures Invariant(System(s.bulkhead.(limits := limits), s.calls - {id}))
  {
    var s' := System(s.bulkhead.(limits := limits), s.calls - {id});
    forall m | m in s'.bulkhead.semaphores ensures SemaphoreInvariant(s', m) {
      assert RunningOn(s'.calls, m.resource) == RunningOn(s.calls, m.resource);
    }
  }

  function AfterGrant(s: System, id: nat): System
    requires id in s.calls && Grant(s.bulkhead, s.calls[id].resource).Some?
  {
    System(Grant(s.bulkhead, s.calls[id].resource).value, s.calls[id := s.calls[id].(running := true)])
  }

  function AfterRelease(s: System, id: nat): System
    requires id in s.calls
  {
    System(Release(s.bulkhead, s.calls[id].resource), s.calls - {id})
  }

  lemma GrantKeepsShape(s: System, id: nat)
    requires Shape(s) && id in s.calls && Grant(s.bulkhead, s.calls[id].resource).Some?
    ensures Shape(AfterGrant(s, id))
  {
    var b := s.bulkhead;
    var i := IndexOf(b.semaphores, s.calls[id].resource);
    forall x ensures Exists(AfterGrant(s, id).bulkhead, x) == Exists(b, x) {
      IndexOfSetPermits(b.semaphores, i, b.semaphores[i].permits - 1, x);
    }
  }

  lemma GrantKeepsAccounts(s: System, id: nat)
    requires Shape(s) && Accounted(s) && id in s.calls && !s.calls[id].running
    requires Grant(s.bulkhead, s.calls[id].resource).Some?
    ensures Accounted(AfterGrant(s, id))
  {
    var b, r, s' := s.bulkhead, s.calls[id].resource, AfterGrant(s, id);
    var i := IndexOf(b.semaphores, r);
    forall j | 0 <= j < |b.semaphores| ensures SemaphoreInvariant(s', s'.bulkhead.semaphores[j]) {
      var m := b.semaphores[j];
      assert SemaphoreInvariant(s, m);
      if j == i {
        assert RunningOn(s'.calls, r) == RunningOn(s.calls, r) + {id};
      } else {
        assert m.resource != r && RunningOn(s'.calls, m.resource) == RunningOn(s.calls, m.resource);
      }
    }
  }

  lemma GrantKeepsBalance(b: State, r: Resource)
    requires Balanced(b) && Grant(b, r).Some?
    ensures Balanced(Grant(b, r).value)
  {
    var i := IndexOf(b.semaphores, r);
    TotalUpdate(b.semaphores, i, b.semaphores[i].(permits := b.semaphores[i].permits - 1));
    CountsChange(b.counts, r);
  }

  lemma ReleaseKeepsShape(s: System, id: nat)
    requires Shape(s) && id in s.calls
    ensures Shape(AfterRelease(s, id))
  {
    var b := s.bulkhead;
    var i := IndexOf(b.semaphores, s.calls[id].resource);
    var b' := AfterRelease(s, id).bulkhead;
    forall x ensures Exists(b', x) == Exists(b, x) {
      IndexOfSetPermits(b.semaphores, i, b.semaphores[i].permits + 1, x);
    }
    assert forall j :: 0 <= j < |b.semaphores| ==> b'.semaphores[j].resource == b.semaphores[j].resource;
  }

  lemma ReleaseKeepsAccounts(s: System, id: nat)
    requires Shape(s) && Accounted(s) && id in s.calls && s.calls[id].running
    ensures Accounted(AfterRelease(s, id))
  {
    var b, r, s' := s.bulkhead, s.calls[id].resource, AfterRelease(s, id);
    var i := IndexOf(b.semaphores, r);
    forall j | 0 <= j < |b.semaphores| ensures SemaphoreInvariant(s', s'.bulkhead.semaphores[j]) {
      var m := b.semaphores[j];
      assert SemaphoreInvariant(s, m);
      if j == i {
        assert id in RunningOn(s.calls, r);
        assert RunningOn(s'.calls, r) == RunningOn(s.calls, r) - {id};
      } else {
        assert m.resource != r && RunningOn(s'.calls, m.resource) == RunningOn(s.calls, m.resource);
      }
    }
  }

  lemma ReleaseKeepsBalance(b: State, r: Resource)
    requires Balanced(b) && forall m :: m in b.semaphores ==> Outstanding(m) >= 0
    requires r in b.managed ==> Exists(b, r) && Outstanding(b.semaphores[IndexOf(b.semaphores, r)]) >= 1
    ensures Balanced(Release(b, r))
  {
    if r in b.managed {
      var i := IndexOf(b.semaphores, r);
      TotalUpdate(b.semaphores, i, b.semaphores[i].(permits := b.semaphores[i].permits + 1));
      TotalAtLeast(b.semaphores, i);
      CountsChange(b.counts, r);
    }
  }

  lemma GrantKeepsInvariant(s: System, id: nat)
    requires Invariant(s) && id in s.calls && !s.calls[id].running
    requires Grant(s.bulkhead, s.calls[id].resource).Some?
    ensures Invariant(AfterGrant(s, id))
  {
    GrantKeepsShape(s, id);
    GrantKeepsAccounts(s, id);
    GrantKeepsBalance(s.bulkhead, s.calls[id].resource);
  }

  lemma FinishKeepsInvariant(s: System, id: nat)
    requires Invariant(s) && id in s.calls && s.calls[id].running
    ensures Invariant(AfterRelease(s, id))
  {
    var b, r := s.bulkhead, s.calls[id].resource;
    ReleaseKeepsShape(s, id);
    ReleaseKeepsAccounts(s, id);
    forall m | m in b.semaphores ensures Outstanding(m) >= 0 && (m.resource in b.managed ==> Outstanding(m) >= 1) {
      assert SemaphoreInvariant(s, m);
    }
    ReleaseKeepsBalance(b, r);
  }

  lemma LimitsDoNotCount(s: System, limits: map<Resource, int>)
    requires Invariant(s)
    ensures Invariant(System(s.bulkhead.(limits := limits), s.calls))
  {
    var s' := System(s.bulkhead.(limits := limits), s.calls);
    forall m | m in s'.bulkhead.semaphores ensures SemaphoreInvariant(s', m) {
      assert SemaphoreInvariant(s, m);
    }
  }

  lemma StepKeepsInvariant(s: System, e: Event)
    requires Invariant(s) && Step(s, e).Some?
    ensures Invariant(Step(s, e).value)
  {
    match e
    case Configure(r, limit) =>
      LimitsDoNotCount(s, WithLimit(s.bulkhead, r, limit).limits);
    case Begin(id, r, max) =>
      var c := Call(r, if max.Some? then Some(GetLimit(s.bulkhead, r)) else None, false);
      var b := if max.Some? then WithLimit(s.bulkhead, r, max.value) else s.bulkhead;
      LimitsDoNotCount(s, b.limits);
      assert System(s.bulkhead.(limits := b.limits), s.calls) == System(b, s.calls);
      if Request(b, r).Some? {
        StartKeepsInvariant(System(b, s.calls), id, c);
      } else {
        LimitsDoNotCount(s, Restore(b, c).limits);
      }
    case Granted(id) => GrantKeepsInvariant(s, id);
    case AcquireTimeout(id) =>
      DropKeepsInvariant(s, id, Restore(s.bulkhead, s.calls[id]).limits);
    case Finish(id) =>
      FinishKeepsInvariant(s, id);
      var t := System(Release(s.bulkhead, s.calls[id].resource), s.calls - {id});
      LimitsDoNotCount(t, Restore(t.bulkhead, s.calls[id]).limits);
  }

  lemma {:induction false} RunKeepsInvariant(events: seq<Event>)
    ensures Run(events).Some? ==> Invariant(Run(events).value)
  {
    if events != [] {
      RunKeepsInvariant(events[..|events| - 1]);
      if Run(events).Some? {
        StepKeepsInvariant(Run(events[..|events| - 1]).value, events[|events| - 1]);
      }
    }
  }

  // ---------------------------------------------------------------------
  // Main results

  function SemaphoreOf(b: State, r: Resource): Semaphore
    requires Exists(b, r)
  {
    b.semaphores[IndexOf(b.semaphores, r)]
  }

  /**
   Safety, in every interleaving: running operations and outstanding permits stay
   within the limit the semaphore was created with, and the active counts add up
   to the outstanding permits.
   */
  lemma RunningWithinLimit(events: seq<Event>, r: Resource)
    requires Run(events).Some? && Exists(Run(events).value.bulkhead, r)
    ensures var s := Run(events).value;
      var m := SemaphoreOf(s.bulkhead, r);
      && |RunningOn(s.calls, r)| <= m.limit - m.permits <= m.limit
      && TotalActive(s.bulkhead.counts) == TotalOutstanding(s.bulkhead.semaphores)
  {
    RunKeepsInvariant(events);
    var s := Run(events).value;
    assert SemaphoreInvariant(s, SemaphoreOf(s.bulkhead, r));
  }

  function LeakOf(b: State, r: Resource): int {
    if Exists(b, r) then Leak(b, SemaphoreOf(b, r)) else 0
  }

  lemma RequestKeepsSemaphores(b: State, x: Resource, r: Resource)
    requires Request(b, x).Some? && (r in b.managed ==> Exists(b, r))
    ensures Exists(b, r) ==> Exists(Request(b, x).value, r) && SemaphoreOf(Request(b, x).value, r) == SemaphoreOf(b, r)
    ensures LeakOf(Request(b, x).value, r) == LeakOf(b, r)
  {
    if !Exists(b, x) {
      IndexOfAppend(b.semaphores, Semaphore(x, GetLimit(b, x), GetLimit(b, x)), r);
    }
  }

  lemma GrantLeaks(b: State, x: Resource, r: Resource)
    requires Grant(b, x).Some?
    ensures var b' := Grant(b, x).value;
      && LeakOf(b', r) == LeakOf(b, r) + (if x == r && r in b.managed then 1 else 0)
      && Exists(b', r) == Exists(b, r)
      && (Exists(b, r) ==> SemaphoreOf(b', r).limit == SemaphoreOf(b, r).limit)
  {
    var i := IndexOf(b.semaphores, x);
    IndexOfSetPermits(b.semaphores, i, b.semaphores[i].permits - 1, r);
  }

  lemma ReleaseNeverLeaks(b: State, x: Resource, r: Resource)
    ensures var b' := Release(b, x);
      && LeakOf(b', r) == LeakOf(b, r)
      && Exists(b', r) == Exists(b, r)
      && (Exists(b, r) ==> SemaphoreOf(b', r).limit == SemaphoreOf(b, r).limit)
  {
    var i := IndexOf(b.semaphores, x);
    if i < |b.semaphores| {
      IndexOfSetPermits(b.semaphores, i, b.semaphores[i].permits + 1, r);
    }
  }

  lemma LimitsNeverLeak(b: State, limits: map<Resource, int>, r: Resource)
    ensures var b' := b.(limits := limits);
      && LeakOf(b', r) == LeakOf(b, r)
      && Exists(b', r) == Exists(b, r)
      && (Exists(b, r) ==> SemaphoreOf(b', r) == SemaphoreOf(b, r))
  {
  }

  /** A permit leaks exactly when one is granted while the semaphore is still in the managed set. */
  lemma LeakStep(s: System, e: Event, r: Resource)
    requires Invariant(s) && Step(s, e).Some?
    ensures var s' := Step(s, e).value;
      && LeakOf(s'.bulkhead, r) == LeakOf(s.bulkhead, r)
         + (if e.Granted? && s.calls[e.id].resource == r && r in s.bulkhead.managed then 1 else 0)
      && (Exists(s.bulkhead, r) ==>
            Exists(s'.bulkhead, r) && SemaphoreOf(s'.bulkhead, r).limit == SemaphoreOf(s.bulkhead, r).limit)
  {
    var b, b' := s.bulkhead, Step(s, e).value.bulkhead;
    match e
    case Configure(_, _) =>
      LimitsNeverLeak(b, b'.limits, r);
    case Begin(id, x, max) =>
      var b1 := if max.Some? then WithLimit(b, x, max.value) else b;
      LimitsNeverLeak(b, b1.limits, r);
      if Request(b1, x).Some? {
        RequestKeepsSemaphores(b1, x, r);
      } else {
        LimitsNeverLeak(b, b'.limits, r);
      }
    case Granted(id) =>
      GrantLeaks(b, s.calls[id].resource, r);
    case AcquireTimeout(id) =>
      LimitsNeverLeak(b, b'.limits, r);
    case Finish(id) =>
      ReleaseNeverLeaks(b, s.calls[id].resource, r);
      LimitsNeverLeak(Release(b, s.calls[id].resource), b'.limits, r);
  }

  lemma RunningAfterAdd(calls: map<nat, Call>, id: nat, c: Call, r: Resource)
    requires id !in calls && !c.running
    ensures RunningOn(calls[id := c], r) == RunningOn(calls, r)
  {
  }

  lemma RunningAfterGrant(calls: map<nat, Call>, id: nat, r: Resource)
    requires id in calls && !calls[id].running
    ensures |RunningOn(calls[id := calls[id].(running := true)], r)|
      == |RunningOn(calls, r)| + if calls[id].resource == r then 1 else 0
  {
    assert RunningOn(calls[id := calls[id].(running := true)], r)
      == RunningOn(calls, r) + if calls[id].resource == r then {id} else {};
    assert id !in RunningOn(calls, r);
  }

  lemma RunningAfterDrop(calls: map<nat, Call>, id: nat, r: Resource)
    ensures |RunningOn(calls - {id}, r)| <= |RunningOn(calls, r)|
  {
    assert RunningOn(calls - {id}, r) == RunningOn(calls, r) - {id};
  }

  lemma RunningStep(s: System, e: Event, r: Resource)
    requires Step(s, e).Some?
    ensures var n, n' := |RunningOn(s.calls, r)|, |RunningOn(Step(s, e).value.calls, r)|;
      if e.Granted? && s.calls[e.id].resource == r then n' == n + 1 else n' <= n
  {
    match e
    case Configure(_, _) =>
    case Begin(id, x, max) =>
      RunningAfterAdd(s.calls, id, Call(x, if max.Some? then Some(GetLimit(s.bulkhead, x)) else None, false), r);
    case Granted(id) =>
      RunningAfterGrant(s.calls, id, r);
    case AcquireTimeout(id) =>
      RunningAfterDrop(s.calls, id, r);
    case Finish(id) =>
      RunningAfterDrop(s.calls, id, r);
  }

  /** Whether two operations on `r` were running at once at some moment of the run. */
  ghost predicate EverOverlapped(events: seq<Event>, r: Resource) {
    && Run(events).Some?
    && (|RunningOn(Run(events).value.calls, r)| >= 2 || (events != [] && EverOverlapped(events[..|events| - 1], r)))
  }

  lemma {:induction false} LeakIffOverlap(events: seq<Event>, r: Resource)
    requires Run(events).Some?
    ensures LeakOf(Run(events).value.bulkhead, r) >= 0
    ensures LeakOf(Run(events).value.bulkhead, r) == 0 <==> !EverOverlapped(events, r)
  {
    RunKeepsInvariant(events);
    if events == [] {
      assert RunningOn(INITIAL.calls, r) == {};
    } else {
      var before, e := events[..|events| - 1], events[|events| - 1];
      var s := Run(before).value;
      RunKeepsInvariant(before);
      LeakIffOverlap(before, r);
      LeakStep(s, e, r);
      RunningStep(s, e, r);
      if Exists(s.bulkhead, r) {
        assert SemaphoreInvariant(s, SemaphoreOf(s.bulkhead, r));
      } else {
        assert RunningOn(s.calls, r) == {};
      }
    }
  }

  /**
   Permits come back exactly when operations never overlap: once nothing is
   running on `r`, its semaphore holds every permit if and only if no two
   operations on `r` ever ran at the same time.
   */
  lemma PermitsReturnIffNeverOverlapped(events: seq<Event>, r: Resource)
    requires Run(events).Some? && Exists(Run(events).value.bulkhead, r)
    requires RunningOn(Run(events).value.calls, r) == {}
    ensures var m := SemaphoreOf(Run(events).value.bulkhead, r);
      m.permits == m.limit <==> !EverOverlapped(events, r)
  {
    RunKeepsInvariant(events);
    var s := Run(events).value;
    assert SemaphoreInvariant(s, SemaphoreOf(s.bulkhead, r));
    LeakIffOverlap(events, r);
  }

  ghost predicate LimitAtMostOne(events: seq<Event>, r: Resource) {
    && Run(events).Some? && Exists(Run(events).value.bulkhead, r)
    && SemaphoreOf(Run(events).value.bulkhead, r).limit <= 1
  }

  /** With a limit of at most 1, the default, every permit always comes back. */
  lemma {:induction false} LimitOneNeverLeaks(events: seq<Event>, r: Resource)
    ensures LimitAtMostOne(events, r) ==> !EverOverlapped(events, r)
    ensures LimitAtMostOne(events, r) ==>
      var s := Run(events).value;
      SemaphoreOf(s.bulkhead, r).limit - SemaphoreOf(s.bulkhead, r).permits == |RunningOn(s.calls, r)|
  {
    if LimitAtMostOne(events, r) {
      LeakIffOverlap(events, r);
      RunKeepsInvariant(events);
      assert SemaphoreInvariant(Run(events).value, SemaphoreOf(Run(events).value.bulkhead, r));
      if events != [] {
        var before, e := events[..|events| - 1], events[|events| - 1];
        var s := Run(before).value;
        RunKeepsInvariant(before);
        LeakStep(s, e, r);
        if Exists(s.bulkhead, r) {
          LimitOneNeverLeaks(before, r);
          assert SemaphoreInvariant(s, SemaphoreOf(s.bulkhead, r));
          LeakIffOverlap(before, r);
        }
      }
    }
  }

  lemma RunSnoc(events: seq<Event>, e: Event)
    ensures Run(events + [e]) == if Run(events).None? then None else Step(Run(events).value, e)
  {
    assert (events + [e])[..|events|] == events;
  }

  /** A leaked permit never returns. */
  lemma {:induction false} LeakIsPermanent(events: seq<Event>, more: seq<Event>, r: Resource)
    requires Run(events + more).Some?
    ensures Run(events).Some?
    ensures LeakOf(Run(events).value.bulkhead, r) <= LeakOf(Run(events + more).value.bulkhead, r)
  {
    if more == [] {
      assert events + more == events;
    } else {
      var init, e := more[..|more| - 1], more[|more| - 1];
      assert events + more == (events + init) + [e];
      RunSnoc(events + init, e);
      LeakIsPermanent(events, init, r);
      RunKeepsInvariant(events + init);
      LeakStep(Run(events + init).value, e, r);
    }
  }

  /** `e` leads from `s` to `t`, compared field by field. */
  ghost predicate Reaches(s: System, e: Event, t: System) {
    && Step(s, e).Some?
    && Step(s, e).value.calls == t.calls
    && Step(s, e).value.bulkhead.semaphores == t.bulkhead.semaphores
    && Step(s, e).value.bulkhead.limits == t.bulkhead.limits
    && Step(s, e).value.bulkhead.counts == t.bulkhead.counts
    && Step(s, e).value.bulkhead.managed == t.bulkhead.managed
  }

  lemma Next(events: seq<Event>, s: System, e: Event, t: System)
    requires Run(events) == Some(s) && Reaches(s, e, t)
    ensures Run(events + [e]) == Some(t)
  {
    RunSnoc(events, e);
  }

  const TWO_BEGIN := [Begin(0, "r", Some(2)), Begin(1, "r", Some(2))]

  lemma TwoBegun()
    ensures Run(TWO_BEGIN) == Some(System(
      State([Semaphore("r", 2, 2)], map["r" := 2], [], {}),
      map[0 := Call("r", Some(1), false), 1 := Call("r", Some(2), false)]))
  {
    var c0, c1 := Call("r", Some(1), false), Call("r", Some(2), false);
    var s1 := System(State([Semaphore("r", 2, 2)], map["r" := 2], [], {}), map[0 := c0]);
    var s2 := System(State([Semaphore("r", 2, 2)], map["r" := 2], [], {}), map[0 := c0, 1 := c1]);
    Next([], INITIAL, TWO_BEGIN[0], s1);
    assert [] + [TWO_BEGIN[0]] == [TWO_BEGIN[0]];
    Next([TWO_BEGIN[0]], s1, TWO_BEGIN[1], s2);
    assert [TWO_BEGIN[0]] + [TWO_BEGIN[1]] == TWO_BEGIN;
  }

  lemma TwoRunning()
    ensures Run(TWO_BEGIN + [Granted(0)] + [Granted(1)]) == Some(System(
      State([Semaphore("r", 2, 0)], map["r" := 2], [Count("r", 2)], {"r"}),
      map[0 := Call("r", Some(1), true), 1 := Call("r", Some(2), true)]))
  {
    var c0, c1 := Call("r", Some(1), false), Call("r", Some(2), false);
    var d0, d1 := Call("r", Some(1), true), Call("r", Some(2), true);
    var s2 := System(State([Semaphore("r", 2, 2)], map["r" := 2], [], {}), map[0 := c0, 1 := c1]);
    var s3 := System(State([Semaphore("r", 2, 1)], map["r" := 2], [Count("r", 1)], {"r"}), map[0 := d0, 1 := c1]);
    var s4 := System(State([Semaphore("r", 2, 0)], map["r" := 2], [Count("r", 2)], {"r"}), map[0 := d0, 1 := d1]);
    TwoBegun();
    Next(TWO_BEGIN, s2, Granted(0), s3);
    Next(TWO_BEGIN + [Granted(0)], s3, Granted(1), s4);
  }

  lemma FirstFinished()
    ensures Run(TWO_BEGIN + [Granted(0)] + [Granted(1)] + [Finish(0)]) == Some(System(
      State([Semaphore("r", 2, 1)], map["r" := 1], [Count("r", 1)], {}), map[1 := Call("r", Some(2), true)]))
  {
    var d0, d1 := Call("r", Some(1), true), Call("r", Some(2), true);
    var s4 := System(State([Semaphore("r", 2, 0)], map["r" := 2], [Count("r", 2)], {"r"}), map[0 := d0, 1 := d1]);
    var s5 := System(State([Semaphore("r", 2, 1)], map["r" := 1], [Count("r", 1)], {}), map[1 := d1]);
    TwoRunning();
    Next(TWO_BEGIN + [Granted(0)] + [Granted(1)], s4, Finish(0), s5);
  }

  /** Two overlapping operations on a resource of limit 2 lose a permit for good. */
  lemma OverlapLosesPermit()
    ensures var run := Run(TWO_BEGIN + [Granted(0)] + [Granted(1)] + [Finish(0)] + [Finish(1)]);
      && run.Some? && run.value.calls == map[]
      && run.value.bulkhead.semaphores == [Semaphore("r", 2, 1)]
  {
    var s5 := System(State([Semaphore("r", 2, 1)], map["r" := 1], [Count("r", 1)], {}),
                     map[1 := Call("r", Some(2), true)]);
    var s6 := System(State([Semaphore("r", 2, 1)], map["r" := 2], [Count("r", 1)], {}), map[]);
    FirstFinished();
    Next(TWO_BEGIN + [Granted(0)] + [Granted(1)] + [Finish(0)], s5, Finish(1), s6);
  }

  const ONE_ON_A := [Begin(0, "a", None), Granted(0)]

  lemma OneRunningOnA()
    ensures Run(ONE_ON_A) == Some(System(
      State([Semaphore("a", 1, 0)], map[], [Count("a", 1)], {"a"}), map[0 := Call("a", None, true)]))
  {
    var s1 := System(State([Semaphore("a", 1, 1)], map[], [], {}), map[0 := Call("a", None, false)]);
    var s2 := System(State([Semaphore("a", 1, 0)], map[], [Count("a", 1)], {"a"}), map[0 := Call("a", None, true)]);
    Next([], INITIAL, ONE_ON_A[0], s1);
    assert [] + [ONE_ON_A[0]] == [ONE_ON_A[0]];
    Next([ONE_ON_A[0]], s1, ONE_ON_A[1], s2);
    assert [ONE_ON_A[0]] + [ONE_ON_A[1]] == ONE_ON_A;
  }

  lemma OneRunningOnEach()
    ensures Run(ONE_ON_A + [Begin(1, "b", None)] + [Granted(1)]) == Some(System(
      State([Semaphore("a", 1, 0), Semaphore("b", 1, 0)], map[], [Count("a", 1), Count("b", 1)], {"a", "b"}),
      map[0 := Call("a", None, true), 1 := Call("b", None, true)]))
  {
    var a, u := Call("a", None, true), Semaphore("a", 1, 0);
    var s2 := System(State([u], map[], [Count("a", 1)], {"a"}), map[0 := a]);
    var s3 := System(State([u, Semaphore("b", 1, 1)], map[], [Count("a", 1)], {"a"}),
                     map[0 := a, 1 := Call("b", None, false)]);
    var s4 := System(State([u, Semaphore("b", 1, 0)], map[], [Count("a", 1), Count("b", 1)], {"a", "b"}),
                     map[0 := a, 1 := Call("b", None, true)]);
    OneRunningOnA();
    assert IndexOf([u], "b") == 1;
    Next(ONE_ON_A, s2, Begin(1, "b", None), s3);
    assert IndexOf([Semaphore("b", 1, 1)], "b") == 0;
    assert Increment([], "b") == [Count("b", 1)];
    Next(ONE_ON_A + [Begin(1, "b", None)], s3, Granted(1), s4);
  }

  /** Finishing on one resource can decrement the count of another: the attribution drifts. */
  lemma AttributionDrifts()
    ensures var run := Run(ONE_ON_A + [Begin(1, "b", None)] + [Granted(1)] + [Finish(1)]);
      && run.Some? && run.value.calls == map[0 := Call("a", None, true)]
      && run.value.bulkhead.counts == [Count("a", 0), Count("b", 1)]
  {
    var a, u := Call("a", None, true), Semaphore("a", 1, 0);
    var s4 := System(State([u, Semaphore("b", 1, 0)], map[], [Count("a", 1), Count("b", 1)], {"a", "b"}),
                     map[0 := a, 1 := Call("b", None, true)]);
    var s5 := System(State([u, Semaphore("b", 1, 1)], map[], [Count("a", 0), Count("b", 1)], {"a"}), map[0 := a]);
    OneRunningOnEach();
    assert IndexOf([Semaphore("b", 1, 0)], "b") == 0;
    Next(ONE_ON_A + [Begin(1, "b", None)] + [Granted(1)], s4, Finish(1), s5);
  }

  // ---------------------------------------------------------------------
  // The implementation, by its uninterrupted segments

  lemma {:induction false} DecrementsAt(cs: seq<Count>, j: nat)
    requires j < |cs| && cs[j].active > 0 && forall k :: 0 <= k < j ==> cs[k].active == 0
    ensures DecrementFirst(cs) == cs[j := Count(cs[j].resource, cs[j].active - 1)]
  {
    if j > 0 {
      DecrementsAt(cs[1..], j - 1);
    }
  }

  lemma {:induction false} NothingToDecrement(cs: seq<Count>)
    requires forall k :: 0 <= k < |cs| ==> cs[k].active == 0
    ensures DecrementFirst(cs) == cs
  {
    if cs != [] {
      NothingToDecrement(cs[1..]);
    }
  }

  class BulkheadImpl {
    var semaphores: seq<Semaphore>
    var limits: map<Resource, int>
    var counts: seq<Count>
    var managed: set<Resource>

    function Fields(): State
      reads this
    {
      State(semaphores, limits, counts, managed)
    }

    constructor ()
      ensures Fields() == INITIAL.bulkhead
    {
      semaphores, limits, counts, managed := [], map[], [], {};
    }

    method SetLimit(resource: Resource, limit: int)
      modifies this
      ensures Fields() == WithLimit(old(Fields()), resource, limit)
    {
      limits := limits[resource := limit];
    }

    /** `try_acquire` up to its wait; false when the semaphore cannot be created. */
    method RequestPermit(resource: Resource) returns (ok: bool)
      modifies this
      ensures match Request(old(Fields()), resource)
        case None => !ok && Fields() == old(Fields())
        case Some(b) => ok && Fields() == b
    {
      var limit := if resource in limits then limits[resource] else DEFAULT_LIMIT;
      if IndexOf(semaphores, resource) == |semaphores| {
        if limit < 0 {
          return false;
        }
        semaphores := semaphores + [Semaphore(resource, limit, limit)];
      }
      ok := true;
    }

    /** `try_acquire` after its wait succeeds. */
    method TakePermit(resource: Resource)
      requires Grant(Fields(), resource).Some?
      modifies this
      ensures Some(Fields()) == Grant(old(Fields()), resource)
    {
      var i := IndexOf(semaphores, resource);
      semaphores := semaphores[i := semaphores[i].(permits := semaphores[i].permits - 1)];
      managed := managed + {resource};
      counts := Increment(counts, resource);
    }

    method ReleasePermit(resource: Resource) returns (ok: bool)
      requires resource in managed ==> Exists(Fields(), resource)
      modifies this
      ensures Fields() == Release(old(Fields()), resource)
      ensures ok == (resource in old(managed))
    {
      if resource !in managed {
        return false;
      }
      var i := IndexOf(semaphores, resource);
      semaphores := semaphores[i := semaphores[i].(permits := semaphores[i].permits + 1)];
      managed := managed - {resource};
      DecrementOne();
      ok := true;
    }

    /** The loop at the end of `release`. */
    method DecrementOne()
      modifies this`counts
      ensures counts == DecrementFirst(old(counts))
    {
      for j := 0 to |counts|
        invariant counts == old(counts)
        invariant forall k :: 0 <= k < j ==> counts[k].active == 0
      {
        if counts[j].active > 0 {
          DecrementsAt(counts, j);
          counts := counts[j := Count(counts[j].resource, counts[j].active - 1)];
          return;
        }
      }
      NothingToDecrement(counts);
    }
  }
}
