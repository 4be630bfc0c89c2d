/**
 When the active count of each resource is its own: exactly while every release that
 takes effect is by the first resource, in the order of the counts, that holds a permit.
 */
module BulkheadAttribution {
  import opened Prelude
  import opened Bulkhead

  function CountOf(cs: seq<Count>, r: Resource): nat {
    if cs == [] then 0 else if cs[0].resource == r then cs[0].active else CountOf(cs[1..], r)
  }

  predicate Counted(cs: seq<Count>, r: Resource) {
    cs != [] && (cs[0].resource == r || Counted(cs[1..], r))
  }

  predicate CountedOnce(cs: seq<Count>) {
    cs == [] || (!Counted(cs[1..], cs[0].resource) && CountedOnce(cs[1..]))
  }

  /** The resources counted before `r`. */
  function CountedBefore(cs: seq<Count>, r: Resource): seq<Resource> {
    if cs == [] || cs[0].resource == r then [] else [cs[0].resource] + CountedBefore(cs[1..], r)
  }

  /** Permits of `r` that are out. */
  function Held(b: State, r: Resource): int {
    if Exists(b, r) then Outstanding(SemaphoreOf(b, r)) else 0
  }

  /** Every active count is the number of permits its resource holds. */
  ghost predicate Attributed(b: State) {
    forall r :: CountOf(b.counts, r) == Held(b, r)
  }

  /** `r` holds a permit, and no resource counted before it does. */
  ghost predicate FirstHolder(b: State, r: Resource) {
    Held(b, r) > 0 && forall x :: x in CountedBefore(b.counts, r) ==> Held(b, x) == 0
  }

  /** A release that takes effect is by the first holder. */
  ghost predicate ReleasesFirst(s: System, e: Event) {
    e.Finish? && e.id in s.calls && s.calls[e.id].resource in s.bulkhead.managed ==>
      FirstHolder(s.bulkhead, s.calls[e.id].resource)
  }

  // ---------------------------------------------------------------------
  // The counts

  function FirstPositive(cs: seq<Count>): Option<Resource> {
    if cs == [] then None else if cs[0].active > 0 then Some(cs[0].resource) else FirstPositive(cs[1..])
  }

  lemma {:induction false} UncountedIsZero(cs: seq<Count>, r: Resource)
    requires !Counted(cs, r)
    ensures CountOf(cs, r) == 0 && FirstPositive(cs) != Some(r)
  {
    if cs != [] {
      UncountedIsZero(cs[1..], r);
    }
  }

  lemma {:induction false} IncrementCounts(cs: seq<Count>, r: Resource, x: Resource)
    requires CountedOnce(cs)
    ensures CountOf(Increment(cs, r), x) == CountOf(cs, x) + if x == r then 1 else 0
    ensures CountedOnce(Increment(cs, r))
    ensures Counted(Increment(cs, r), x) <==> Counted(cs, x) || x == r
  {
    if cs != [] && cs[0].resource != r {
      IncrementCounts(cs[1..], r, x);
      IncrementCounts(cs[1..], r, cs[0].resource);
    }
  }

  lemma {:induction false} DecrementCounts(cs: seq<Count>, x: Resource)
    requires CountedOnce(cs)
    ensures CountOf(DecrementFirst(cs), x) == CountOf(cs, x) - if FirstPositive(cs) == Some(x) then 1 else 0
    ensures CountedOnce(DecrementFirst(cs))
    ensures Counted(DecrementFirst(cs), x) <==> Counted(cs, x)
  {
    if cs != [] {
      DecrementCounts(cs[1..], x);
      DecrementCounts(cs[1..], cs[0].resource);
      UncountedIsZero(cs[1..], cs[0].resource);
    }
  }

  lemma {:induction false} FirstPositiveIs(cs: seq<Count>, r: Resource)
    requires CountedOnce(cs)
    ensures FirstPositive(cs) == Some(r) <==>
      CountOf(cs, r) > 0 && forall x :: x in CountedBefore(cs, r) ==> CountOf(cs, x) == 0
  {
    if cs == [] {
    } else if cs[0].resource == r {
      UncountedIsZero(cs[1..], r);
    } else {
      var head, rest := cs[0].resource, cs[1..];
      FirstPositiveIs(rest, r);
      BeforeAreCounted(rest, r);
      assert CountedBefore(cs, r) == [head] + CountedBefore(rest, r);
      assert head in CountedBefore(cs, r) && CountOf(cs, head) == cs[0].active;
      assert forall x :: x in CountedBefore(rest, r) ==> x in CountedBefore(cs, r) && CountOf(cs, x) == CountOf(rest, x);
      assert forall x :: x in CountedBefore(cs, r) ==> x == head || x in CountedBefore(rest, r);
    }
  }

  lemma {:induction false} BeforeAreCounted(cs: seq<Count>, r: Resource)
    ensures forall x :: x in CountedBefore(cs, r) ==> Counted(cs, x)
  {
    if cs != [] && cs[0].resource != r {
      BeforeAreCounted(cs[1..], r);
    }
  }

  // ---------------------------------------------------------------------
  // The permits

  lemma HeldAfterRequest(b: State, x: Resource, r: Resource)
    requires Request(b, x).Some?
    ensures Held(Request(b, x).value, r) == Held(b, r)
  {
    if !Exists(b, x) {
      IndexOfAppend(b.semaphores, Semaphore(x, GetLimit(b, x), GetLimit(b, x)), r);
    }
  }

  lemma HeldAfterGrant(b: State, x: Resource, r: Resource)
    requires Grant(b, x).Some?
    ensures Held(Grant(b, x).value, r) == Held(b, r) + if r == x then 1 else 0
  {
    var i := IndexOf(b.semaphores, x);
    IndexOfSetPermits(b.semaphores, i, b.semaphores[i].permits - 1, r);
  }

  lemma HeldAfterRelease(b: State, x: Resource, r: Resource)
    requires x in b.managed && Exists(b, x)
    ensures Held(Release(b, x), r) == Held(b, r) - if r == x then 1 else 0
  {
    var i := IndexOf(b.semaphores, x);
    IndexOfSetPermits(b.semaphores, i, b.semaphores[i].permits + 1, r);
  }

  // ---------------------------------------------------------------------
  // Steps and runs

  lemma ReleaseAttributedIff(b: State, r: Resource)
    requires CountedOnce(b.counts) && Attributed(b) && r in b.managed && Exists(b, r) && Held(b, r) > 0
    ensures Attributed(Release(b, r)) <==> FirstHolder(b, r)
  {
    var b' := Release(b, r);
    FirstPositiveIs(b.counts, r);
    assert FirstHolder(b, r) <==> FirstPositive(b.counts) == Some(r) by {
      assert forall x :: CountOf(b.counts, x) == Held(b, x);
    }
    if FirstHolder(b, r) {
      forall x ensures CountOf(b'.counts, x) == Held(b', x) {
        DecrementCounts(b.counts, x);
        HeldAfterRelease(b, r, x);
        assert CountOf(b.counts, x) == Held(b, x);
      }
    } else {
      DecrementCounts(b.counts, r);
      HeldAfterRelease(b, r, r);
      assert CountOf(b.counts, r) == Held(b, r);
      assert CountOf(b'.counts, r) != Held(b', r);
    }
  }

  lemma RequestKeepsAttribution(b: State, x: Resource)
    requires Attributed(b) && Request(b, x).Some?
    ensures Attributed(Request(b, x).value)
  {
    forall r ensures CountOf(Request(b, x).value.counts, r) == Held(Request(b, x).value, r) {
      HeldAfterRequest(b, x, r);
      assert CountOf(b.counts, r) == Held(b, r);
    }
  }

  lemma GrantKeepsAttribution(b: State, x: Resource)
    requires CountedOnce(b.counts) && Attributed(b) && Grant(b, x).Some?
    ensures Attributed(Grant(b, x).value)
  {
    forall r ensures CountOf(Grant(b, x).value.counts, r) == Held(Grant(b, x).value, r) {
      HeldAfterGrant(b, x, r);
      IncrementCounts(b.counts, x, r);
      assert CountOf(b.counts, r) == Held(b, r);
    }
  }

  lemma LimitsKeepAttribution(b: State, limits: map<Resource, int>)
    ensures Attributed(b.(limits := limits)) <==> Attributed(b)
  {
    var b' := b.(limits := limits);
    assert forall r :: Held(b', r) == Held(b, r);
    if Attributed(b') {
      forall r ensures CountOf(b.counts, r) == Held(b, r) {
        assert CountOf(b'.counts, r) == Held(b', r);
      }
    }
  }

  lemma StepCountsOnce(s: System, e: Event)
    requires CountedOnce(s.bulkhead.counts) && Step(s, e).Some?
    ensures CountedOnce(Step(s, e).value.bulkhead.counts)
  {
    if e.Granted? {
      IncrementCounts(s.bulkhead.counts, s.calls[e.id].resource, "");
    } else if e.Finish? {
      DecrementCounts(s.bulkhead.counts, "");
    }
  }

  /** From an attributed state, a step keeps attribution exactly if any release it makes is the first holder's. */
  lemma StepAttributedIff(s: System, e: Event)
    requires Invariant(s) && CountedOnce(s.bulkhead.counts) && Attributed(s.bulkhead) && Step(s, e).Some?
    ensures Attributed(Step(s, e).value.bulkhead) <==> ReleasesFirst(s, e)
  {
    var b, b' := s.bulkhead, Step(s, e).value.bulkhead;
    match e
    case Configure(_, _) => LimitsKeepAttribution(b, b'.limits);
    case Begin(id, r, max) =>
      var b1 := if max.Some? then WithLimit(b, r, max.value) else b;
      LimitsKeepAttribution(b, b1.limits);
      assert b1 == b.(limits := b1.limits);
      if Request(b1, r).Some? {
        RequestKeepsAttribution(b1, r);
      } else {
        LimitsKeepAttribution(b, b'.limits);
      }
    case Granted(id) => GrantKeepsAttribution(b, s.calls[id].resource);
    case AcquireTimeout(id) => LimitsKeepAttribution(b, b'.limits);
    case Finish(id) =>
      var r := s.calls[id].resource;
      LimitsKeepAttribution(Release(b, r), b'.limits);
      if r in b.managed {
        assert SemaphoreInvariant(s, SemaphoreOf(b, r));
        ReleaseAttributedIff(b, r);
      }
  }

  /** The counts were right at every moment of the run. */
  ghost predicate AlwaysAttributed(events: seq<Event>) {
    && Run(events).Some? && Attributed(Run(events).value.bulkhead)
    && (events != [] ==> AlwaysAttributed(events[..|events| - 1]))
  }

  /** Every release that took effect in the run was the first holder's. */
  ghost predicate AlwaysReleasesFirst(events: seq<Event>) {
    events != [] ==>
      var before := events[..|events| - 1];
      && AlwaysReleasesFirst(before)
      && (Run(before).Some? ==> ReleasesFirst(Run(before).value, events[|events| - 1]))
  }

  /**
   Over every run each active count is its own resource's at every moment, if and only if
   every release that takes effect is by a resource with no earlier-counted one holding a
   permit; the first other release makes the counts drift.
   */
  lemma {:induction false} AttributionIff(events: seq<Event>)
    requires Run(events).Some?
    ensures CountedOnce(Run(events).value.bulkhead.counts)
    ensures AlwaysAttributed(events) <==> AlwaysReleasesFirst(events)
  {
    if events == [] {
      assert forall r :: CountOf([], r) == 0 && Held(INITIAL.bulkhead, r) == 0;
    } else {
      var before, e := events[..|events| - 1], events[|events| - 1];
      AttributionIff(before);
      RunKeepsInvariant(before);
      StepCountsOnce(Run(before).value, e);
      if AlwaysAttributed(before) {
        StepAttributedIff(Run(before).value, e);
      }
    }
  }
}
