/**
 The statistics of dawn_kestrel/llm/provider_bus.py against the events of a run alone.
 */
module ProviderBusEvents {
  import opened Prelude
  import opened ProviderBus

  function Entries(events: seq<Event>): nat {
    if events == [] then 0
    else Entries(events[..|events| - 1]) + if events[|events| - 1].Enter? then 1 else 0
  }

  function Successes(events: seq<Event>): nat {
    if events == [] then 0
    else Successes(events[..|events| - 1]) + if events[|events| - 1].Succeed? then 1 else 0
  }

  function TokensDrawn(events: seq<Event>): nat {
    if events == [] then 0
    else TokensDrawn(events[..|events| - 1]) + if events[|events| - 1].CheckAllows? then 1 else 0
  }

  function Denied(events: seq<Event>): nat {
    if events == [] then 0
    else Denied(events[..|events| - 1]) + if events[|events| - 1].CheckDenies? then 1 else 0
  }

  /** The seconds that the denied calls were told to wait. */
  function SecondsToWait(events: seq<Event>): real {
    if events == [] then 0.0
    else
      SecondsToWait(events[..|events| - 1]) +
      if events[|events| - 1].CheckDenies? then events[|events| - 1].wait else 0.0
  }

  /** The retries a call has made. */
  function RetriesOf(events: seq<Event>, id: nat): nat {
    if events == [] then 0
    else
      var e := events[|events| - 1];
      RetriesOf(events[..|events| - 1], id) + if e.Retry? && e.id == id then 1 else 0
  }

  /** The event by which call `id`, the one entered after `id` others, came in. */
  function EntryOf(events: seq<Event>, id: nat): Option<Event> {
    if events == [] then None
    else
      var before, e := events[..|events| - 1], events[|events| - 1];
      if e.Enter? && Entries(before) == id then Some(e) else EntryOf(before, id)
  }

  /** The 429s met by calls that had a retry left. */
  function Errors429(events: seq<Event>): nat {
    if events == [] then 0
    else
      var before, e := events[..|events| - 1], events[|events| - 1];
      Errors429(before) +
      if e.Fail? && e.is429 && RetriedLess(before, e.id) then 1 else 0
  }

  predicate RetriedLess(events: seq<Event>, id: nat) {
    var entry := EntryOf(events, id);
    entry.Some? && entry.value.Enter? && RetriesOf(events, id) < entry.value.maxRetries
  }

  // ---------------------------------------------------------------------
  // Runs agree with their events

  ghost predicate CallAgrees(events: seq<Event>, c: Call, id: nat) {
    && EntryOf(events, id) == Some(Enter(c.provider, c.maxRetries))
    && (c.phase.Calling? || c.phase.BackingOff? ==> c.phase.attempt == RetriesOf(events, id))
    && (c.phase.Entered? || c.phase.Sleeping? || c.phase.Queued? || c.phase.Admitted? ==> RetriesOf(events, id) == 0)
  }

  ghost predicate CallsAgree(events: seq<Event>, s: State) {
    && |s.calls| == Entries(events)
    && (forall id :: 0 <= id < |s.calls| ==> CallAgrees(events, s.calls[id], id))
    && (forall id :: id >= |s.calls| ==> RetriesOf(events, id) == 0)
  }

  lemma Snoc(events: seq<Event>, e: Event)
    ensures (events + [e])[..|events|] == events && (events + [e])[|events|] == e
  {
  }

  lemma CallsAgreeStep(events: seq<Event>, s: State, e: Event)
    requires CallsAgree(events, s) && Step(s, e).Some?
    ensures CallsAgree(events + [e], Step(s, e).value)
  {
    var s' := Step(s, e).value;
    Snoc(events, e);
    forall id | 0 <= id < |s'.calls| ensures CallAgrees(events + [e], s'.calls[id], id) {
      if id < |s.calls| {
        assert CallAgrees(events, s.calls[id], id);
      } else {
        assert RetriesOf(events, id) == 0;
      }
    }
  }

  ghost predicate CountsAgree(events: seq<Event>, s: State) {
    && s.stats.total == Entries(events)
    && s.stats.successful == Successes(events)
    && s.stats.rateLimited == Denied(events)
    && s.drawn == TokensDrawn(events)
    && s.stats.errors429 == Errors429(events)
  }

  lemma CountsAgreeStep(events: seq<Event>, s: State, e: Event)
    requires CallsAgree(events, s) && CountsAgree(events, s) && Step(s, e).Some?
    ensures CountsAgree(events + [e], Step(s, e).value)
  {
    Snoc(events, e);
    if e.Fail? {
      assert CallAgrees(events, s.calls[e.id], e.id);
    }
  }

  lemma MillisBounds(seconds: real)
    ensures -1.0 < Millis(seconds) as real - seconds * 1000.0 < 1.0
    ensures seconds >= 0.0 ==> Millis(seconds) as real <= seconds * 1000.0
  {
  }

  ghost predicate WaitsAgree(events: seq<Event>, ms: int) {
    var due, n := SecondsToWait(events) * 1000.0, Denied(events) as real;
    && due - n <= ms as real <= due + n
    && ((forall e :: e in events && e.CheckDenies? ==> e.wait >= 0.0) ==> ms as real <= due)
  }

  lemma WaitsAgreeStep(events: seq<Event>, s: State, e: Event)
    requires WaitsAgree(events, s.stats.waitedMs) && Step(s, e).Some?
    ensures WaitsAgree(events + [e], Step(s, e).value.stats.waitedMs)
  {
    Snoc(events, e);
    assert forall x :: x in events ==> x in events + [e];
    assert e in events + [e];
    if e.CheckDenies? {
      MillisBounds(e.wait);
    }
  }

  /**
   For every run the statistics count its events: a request for each call entered, a success
   for each operation that succeeded, a limited call for each denial, a 429 for each one met
   with a retry left. The milliseconds waited are a thousand times the seconds asked for,
   to within one for each denial, and never more when no wait is negative.
   */
  lemma {:induction false} StatisticsCountTheEvents(events: seq<Event>)
    requires Run(events).Some?
    ensures var s := Run(events).value;
      && CallsAgree(events, s) && CountsAgree(events, s) && WaitsAgree(events, s.stats.waitedMs)
  {
    if events == [] {
      assert forall id :: RetriesOf(events, id) == 0;
    } else {
      var before, e := events[..|events| - 1], events[|events| - 1];
      var s := Run(before).value;
      StatisticsCountTheEvents(before);
      assert events == before + [e];
      CallsAgreeStep(before, s, e);
      CountsAgreeStep(before, s, e);
      WaitsAgreeStep(before, s, e);
    }
  }
}
