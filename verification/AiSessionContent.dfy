/**
 What a processed stream holds, read off its events and the calls of the session before it:
 which tool calls are executed and with what, which usage is returned, where agent parts
 stand in the text, when text parts were made, and what is sent to the model again.
 */
module AiSessionContent {
  import opened Prelude
  import opened AiSession

  // ---------------------------------------------------------------------
  // Tool calls

  /** The same tool with the same input has the same signature, and nothing else has it. */
  lemma SameSignatureIff(t: string, i: string, u: string, j: string)
    requires ':' !in t && ':' !in u
    ensures SignatureOf(t, i) == SignatureOf(u, j) <==> t == u && i == j
  {
    var x, y := SignatureOf(t, i), SignatureOf(u, j);
    assert x[|t|] == ':' && y[|u|] == ':';
    assert |t| < |u| ==> y[|t|] == u[|t|];
    assert |u| < |t| ==> x[|u|] == t[|u|];
    if x == y {
      assert t == x[..|t|] && u == y[..|u|];
      assert i == x[|t| + 1..] && j == y[|u| + 1..];
    }
  }

  /** A colon in a tool's name lets two different calls pass for one. */
  lemma ColonsCollide()
    ensures SignatureOf("a:b", "c") == SignatureOf("a", "b:c")
  {
    assert SignatureOf("a:b", "c") == ['a', ':', 'b', ':', 'c'] == SignatureOf("a", "b:c");
  }

  /** A call is taken unless one taken before it, with its signature, is less than eight seconds older. */
  predicate Taken(calls: seq<Seen>, j: nat)
    requires j < |calls|
    decreases j
  {
    forall i :: 0 <= i < j && calls[i].sig == calls[j].sig && Taken(calls, i) ==> calls[j].now - calls[i].now >= 8.0
  }

  lemma {:induction false} TakenIsAccepted(calls: seq<Seen>, j: nat)
    requires InOrder(calls) && j < |calls|
    ensures Taken(calls, j) <==> Accepted(calls, j)
    decreases j
  {
    forall i | 0 <= i < j ensures Taken(calls, i) <==> Accepted(calls, i) {
      TakenIsAccepted(calls, i);
    }
    DeduplicationWindow(calls, j);
  }

  predicate AreCalls(xs: seq<nat>, events: seq<Event>) {
    forall n :: 0 <= n < |xs| ==> xs[n] < |events| && events[xs[n]].ToolCall?
  }

  /** The events of a stream that are taken tool calls, by position. */
  function TakenCalls(history: seq<Seen>, events: seq<Event>): (xs: seq<nat>)
    ensures AreCalls(xs, events)
  {
    if events == [] then []
    else
      var before, e := events[..|events| - 1], events[|events| - 1];
      var calls := history + CallsOf(events);
      TakenCalls(history, before) +
      if e.ToolCall? && Taken(calls, |calls| - 1) then [|before|] else []
  }

  /** A JSON value that Python takes for false, by its repr. */
  predicate CountsAsFalse(input: string) {
    || input == "None" || input == "False" || input == "0" || input == "0.0" || input == "-0.0"
    || input == "''" || input == "[]" || input == "{}"
  }

  /** What is executed for the n-th taken call. */
  function Execution(e: Event, n: nat): PendingCall
    requires e.ToolCall?
  {
    PendingCall(e.tool, if CountsAsFalse(e.input) then "{}" else e.input,
                if e.callId.Some? then Given(e.callId.value) else Numbered(e.tool, n))
  }

  lemma ArgumentOf(input: string)
    ensures Argument(input) == if CountsAsFalse(input) then "{}" else input
  {
  }

  lemma InOrderPrefix(calls: seq<Seen>, more: seq<Seen>)
    requires InOrder(calls + more)
    ensures InOrder(calls)
  {
    forall i, j | 0 <= i <= j < |calls| ensures calls[i].now <= calls[j].now {
      assert (calls + more)[i].now <= (calls + more)[j].now;
    }
  }

  lemma CallDecided(calls: seq<Seen>, e: Event)
    requires e.ToolCall? && InOrder(calls + CallOf(e))
    ensures Duplicate(Bounded(calls), SignatureOf(e.tool, e.input), e.now) <==> !Taken(calls + CallOf(e), |calls|)
  {
    TakenIsAccepted(calls + CallOf(e), |calls|);
    assert (calls + CallOf(e))[..|calls|] == calls;
  }

  lemma TakenCallsSnoc(history: seq<Seen>, before: seq<Event>, e: Event)
    ensures TakenCalls(history, before + [e]) ==
      TakenCalls(history, before) +
      if e.ToolCall? && Taken(history + CallsOf(before) + CallOf(e), |history + CallsOf(before)|) then [|before|] else []
  {
    var events := before + [e];
    assert events[..|before|] == before;
    assert history + CallsOf(events) == history + CallsOf(before) + CallOf(e);
  }

  /** The executions are those of the listed calls. */
  ghost predicate ExecutionsOf(pending: seq<PendingCall>, xs: seq<nat>, events: seq<Event>)
    requires AreCalls(xs, events)
  {
    |pending| == |xs| && forall n :: 0 <= n < |xs| ==> pending[n] == Execution(events[xs[n]], n)
  }

  lemma ExecutionsGrow(pending: seq<PendingCall>, xs: seq<nat>, before: seq<Event>, e: Event)
    requires AreCalls(xs, before) && ExecutionsOf(pending, xs, before)
    ensures AreCalls(xs, before + [e]) && ExecutionsOf(pending, xs, before + [e])
    ensures e.ToolCall? ==>
      && AreCalls(xs + [|before|], before + [e])
      && ExecutionsOf(pending + [Execution(e, |pending|)], xs + [|before|], before + [e])
  {
    forall n | 0 <= n < |xs| ensures (before + [e])[xs[n]] == before[xs[n]] {
    }
  }

  /** The executions after one more event. */
  lemma PendingAfter(calls: seq<Seen>, s: Stream, e: Event)
    requires InOrder(calls + CallOf(e)) && s.memory == Bounded(calls)
    ensures Consume(s, e).pending ==
      if e.ToolCall? && Taken(calls + CallOf(e), |calls|) then s.pending + [Execution(e, |s.pending|)] else s.pending
  {
    if e.ToolCall? {
      CallDecided(calls, e);
      ArgumentOf(e.input);
    }
  }

  lemma ExecutedNext(history: seq<Seen>, before: seq<Event>, calls: seq<Seen>, s: Stream, e: Event)
    requires calls == history + CallsOf(before) && InOrder(calls + CallOf(e)) && s.memory == Bounded(calls)
    requires ExecutionsOf(s.pending, TakenCalls(history, before), before)
    ensures ExecutionsOf(Consume(s, e).pending, TakenCalls(history, before + [e]), before + [e])
  {
    TakenCallsSnoc(history, before, e);
    PendingAfter(calls, s, e);
    ExecutionsGrow(s.pending, TakenCalls(history, before), before, e);
    assert TakenCalls(history, before) + [] == TakenCalls(history, before);
  }

  /**
   What is executed after a stream: one execution for each tool call of the stream that is
   taken in the session's whole history, in stream order, with the call's own tool and input
   (or no arguments for an input that counts as false) and the id it gave, or else one made of its tool and of how many were taken before it.
   */
  lemma {:induction false} TakenCallsAreExecuted(history: seq<Seen>, events: seq<Event>)
    requires InOrder(history + CallsOf(events))
    ensures ExecutionsOf(ConsumeAll(Bounded(history), events).pending, TakenCalls(history, events), events)
  {
    if events != [] {
      var before, e := events[..|events| - 1], events[|events| - 1];
      var calls := history + CallsOf(before);
      assert history + CallsOf(events) == calls + CallOf(e);
      InOrderPrefix(calls, CallOf(e));
      TakenCallsAreExecuted(history, before);
      StreamExtendsHistory(history, before);
      ExecutedNext(history, before, calls, ConsumeAll(Bounded(history), before), e);
      assert events == before + [e];
    }
  }

  /** The executions, among the first `n`, that succeed. */
  function Succeeding(n: nat, outcome: nat -> Option<string>): (ok: seq<nat>)
    ensures forall r :: 0 <= r < |ok| ==> ok[r] < n && outcome(ok[r]).Some?
  {
    if n == 0 then [] else Succeeding(n - 1, outcome) + if outcome(n - 1).Some? then [n - 1] else []
  }

  function Completed(call: PendingCall, output: string): Part {
    ToolPart(call.callId, call.tool, call.input, output)
  }

  /** The parts are those of the executions `ok`, each with its own output. */
  ghost predicate CompletedAre(parts: seq<Part>, pending: seq<PendingCall>, ok: seq<nat>, outcome: nat -> Option<string>)
    requires forall r :: 0 <= r < |ok| ==> ok[r] < |pending| && outcome(ok[r]).Some?
  {
    |parts| == |ok| && forall r :: 0 <= r < |ok| ==> parts[r] == Completed(pending[ok[r]], outcome(ok[r]).value)
  }

  lemma CompletedGrow(parts: seq<Part>, before: seq<PendingCall>, call: PendingCall, ok: seq<nat>, outcome: nat -> Option<string>)
    requires forall r :: 0 <= r < |ok| ==> ok[r] < |before| && outcome(ok[r]).Some?
    requires CompletedAre(parts, before, ok, outcome)
    ensures CompletedAre(parts, before + [call], ok, outcome)
    ensures outcome(|before|).Some? ==>
      CompletedAre(parts + [Completed(call, outcome(|before|).value)], before + [call], ok + [|before|], outcome)
  {
    forall r | 0 <= r < |ok| ensures (before + [call])[ok[r]] == before[ok[r]] {
    }
  }

  lemma {:induction false} ToolPartsOfSucceeding(pending: seq<PendingCall>, outcome: nat -> Option<string>)
    ensures CompletedAre(ToolParts(pending, outcome), pending, Succeeding(|pending|, outcome), outcome)
  {
    if pending != [] {
      var before, call := pending[..|pending| - 1], pending[|pending| - 1];
      ToolPartsOfSucceeding(before, outcome);
      CompletedGrow(ToolParts(before, outcome), before, call, Succeeding(|before|, outcome), outcome);
      assert pending == before + [call];
      assert ToolParts(before, outcome) + [] == ToolParts(before, outcome);
    }
  }

  /**
   The tool parts of a stream: one for each taken call whose execution succeeds, in stream
   order, with the call's tool, input and id, and the output of its own execution.
   */
  lemma ToolPartsAreTheTakenCalls(history: seq<Seen>, events: seq<Event>, outcome: nat -> Option<string>)
    requires InOrder(history + CallsOf(events))
    ensures var xs := TakenCalls(history, events);
      var ok, parts := Succeeding(|xs|, outcome), ToolParts(ConsumeAll(Bounded(history), events).pending, outcome);
      && |parts| == |ok|
      && forall r :: 0 <= r < |ok| ==>
           var call := Execution(events[xs[ok[r]]], ok[r]);
           parts[r] == ToolPart(call.callId, call.tool, call.input, outcome(ok[r]).value)
  {
    TakenCallsAreExecuted(history, events);
    ToolPartsOfSucceeding(ConsumeAll(Bounded(history), events).pending, outcome);
  }

  lemma {:induction false} TakenInPrefix(calls: seq<Seen>, more: seq<Seen>, j: nat)
    requires j < |calls|
    ensures Taken(calls + more, j) <==> Taken(calls, j)
    decreases j
  {
    forall i | 0 <= i < j ensures Taken(calls + more, i) <==> Taken(calls, i) {
      TakenInPrefix(calls, more, i);
    }
  }

  lemma {:induction false} TakenCallsIncrease(history: seq<Seen>, events: seq<Event>)
    ensures var xs := TakenCalls(history, events); forall m, n :: 0 <= m < n < |xs| ==> xs[m] < xs[n]
  {
    if events != [] {
      var before := events[..|events| - 1];
      TakenCallsIncrease(history, before);
      assert events == before + [events[|before|]];
      TakenCallsSnoc(history, before, events[|before|]);
    }
  }

  /** What the listed positions are: exactly the tool calls taken in the whole history. */
  lemma {:induction false} TakenCallsAreExact(history: seq<Seen>, events: seq<Event>, i: nat)
    requires i < |events| && events[i].ToolCall?
    ensures var before := |history + CallsOf(events[..i])|;
      && before < |history + CallsOf(events)|
      && (i in TakenCalls(history, events) <==> Taken(history + CallsOf(events), before))
  {
    var init, e := events[..|events| - 1], events[|events| - 1];
    assert events == init + [e];
    TakenCallsSnoc(history, init, e);
    var calls := history + CallsOf(init);
    assert history + CallsOf(events) == calls + CallOf(e);
    assert i in TakenCalls(history, events) <==>
      i in TakenCalls(history, init) || (i == |init| && Taken(calls + CallOf(e), |calls|));
    if i == |init| {
      assert events[..i] == init;
    } else {
      assert init[..i] == events[..i];
      TakenCallsAreExact(history, init, i);
      TakenInPrefix(calls, CallOf(e), |history + CallsOf(events[..i])|);
    }
  }

  // ---------------------------------------------------------------------
  // Usage

  predicate CarriesUsage(e: Event) {
    e.Finish? && e.usage.Some?
  }

  /** The usage returned is that of the last finish event that carries one, and zero if none does. */
  lemma {:induction false} UsageIsTheLastCarried(m: Memory, events: seq<Event>, i: nat)
    requires forall j :: i < j < |events| ==> !CarriesUsage(events[j])
    ensures i < |events| && CarriesUsage(events[i]) ==> ConsumeAll(m, events).usage == events[i].usage.value
    ensures (forall j :: 0 <= j < |events| ==> !CarriesUsage(events[j])) ==>
      ConsumeAll(m, events).usage == Usage(0, 0, 0, 0, 0)
  {
    if events != [] {
      var before := events[..|events| - 1];
      forall j | i < j < |before| ensures !CarriesUsage(before[j]) {
        assert before[j] == events[j];
      }
      UsageIsTheLastCarried(m, before, i);
    }
  }

  // ---------------------------------------------------------------------
  // Agent parts and text parts

  predicate IsMark(e: Event) {
    e.Finish? && e.reason == "tool-calls"
  }

  /** The positions of the events that ask for tool calls. */
  function Marks(events: seq<Event>): (xs: seq<nat>)
    ensures forall n :: 0 <= n < |xs| ==> xs[n] < |events|
  {
    if events == [] then []
    else Marks(events[..|events| - 1]) + if IsMark(events[|events| - 1]) then [|events| - 1] else []
  }

  function AgentPlaces(parts: seq<Part>): (xs: seq<nat>)
    ensures forall n :: 0 <= n < |xs| ==> xs[n] < |parts|
  {
    if parts == [] then []
    else AgentPlaces(parts[..|parts| - 1]) + if parts[|parts| - 1].AgentPart? then [|parts| - 1] else []
  }

  /** Each agent part stands, in the text, where its event stood among the deltas. */
  ghost predicate InPlace(parts: seq<Part>, events: seq<Event>) {
    var places, marks := AgentPlaces(parts), Marks(events);
    && |places| == |marks|
    && forall n :: 0 <= n < |marks| ==> PartText(parts[..places[n]]) == DeltaText(events[..marks[n]])
  }

  /** How one event changes the parts: the last one grows, one is added, or nothing happens. */
  ghost predicate Grown(parts: seq<Part>, parts': seq<Part>, mark: bool) {
    || (!mark && parts' == parts)
    || (|parts'| == |parts| + 1 && parts'[..|parts|] == parts && parts'[|parts|].AgentPart? == mark)
    || (!mark && |parts'| == |parts| > 0 && parts'[..|parts| - 1] == parts[..|parts| - 1] &&
        parts[|parts| - 1].TextPart? && parts'[|parts| - 1].TextPart?)
  }

  lemma ConsumeGrows(s: Stream, e: Event)
    ensures Grown(s.parts, Consume(s, e).parts, IsMark(e))
  {
  }

  lemma PlacesAppend(parts: seq<Part>, p: Part)
    ensures AgentPlaces(parts + [p]) == AgentPlaces(parts) + if p.AgentPart? then [|parts|] else []
  {
    assert (parts + [p])[..|parts|] == parts;
  }

  lemma PlacesOfLast(front: seq<Part>, p: Part, q: Part)
    requires p.AgentPart? == q.AgentPart?
    ensures AgentPlaces(front + [p]) == AgentPlaces(front + [q])
  {
    PlacesAppend(front, p);
    PlacesAppend(front, q);
  }

  lemma GrownPlaces(parts: seq<Part>, parts': seq<Part>, mark: bool)
    requires Grown(parts, parts', mark)
    ensures AgentPlaces(parts') == AgentPlaces(parts) + if mark then [|parts|] else []
  {
    if |parts'| == |parts| + 1 && parts'[..|parts|] == parts {
      assert parts' == parts + [parts'[|parts|]];
      PlacesAppend(parts, parts'[|parts|]);
    } else if parts' != parts {
      var front := parts[..|parts| - 1];
      assert parts == front + [parts[|parts| - 1]] && parts' == front + [parts'[|parts| - 1]];
      PlacesOfLast(front, parts[|parts| - 1], parts'[|parts| - 1]);
    }
  }

  /** An agent part already there keeps what is before it. */
  lemma GrownKeepsBefore(parts: seq<Part>, parts': seq<Part>, mark: bool, k: nat)
    requires Grown(parts, parts', mark) && k < |parts|
    ensures k < |parts'| && parts'[..k] == parts[..k]
  {
    if |parts'| == |parts| + 1 {
      assert parts'[..k] == parts'[..|parts|][..k];
    } else if parts' != parts {
      assert parts'[..k] == parts'[..|parts| - 1][..k];
      assert parts[..k] == parts[..|parts| - 1][..k];
    }
  }

  lemma GrownKeepsPlaces(parts: seq<Part>, parts': seq<Part>, mark: bool)
    requires Grown(parts, parts', mark)
    ensures AgentPlaces(parts') == AgentPlaces(parts) + if mark then [|parts|] else []
    ensures forall n :: 0 <= n < |AgentPlaces(parts)| ==>
      AgentPlaces(parts)[n] < |parts'| && parts'[..AgentPlaces(parts)[n]] == parts[..AgentPlaces(parts)[n]]
    ensures mark ==> |parts| < |parts'| && parts'[..|parts|] == parts
  {
    GrownPlaces(parts, parts', mark);
    forall n | 0 <= n < |AgentPlaces(parts)|
      ensures AgentPlaces(parts)[n] < |parts'| && parts'[..AgentPlaces(parts)[n]] == parts[..AgentPlaces(parts)[n]]
    {
      GrownKeepsBefore(parts, parts', mark, AgentPlaces(parts)[n]);
    }
  }

  lemma InPlaceStep(parts: seq<Part>, parts': seq<Part>, before: seq<Event>, e: Event)
    requires InPlace(parts, before) && Grown(parts, parts', IsMark(e)) && PartText(parts) == DeltaText(before)
    ensures InPlace(parts', before + [e])
  {
    var events := before + [e];
    assert events[..|before|] == before;
    GrownKeepsPlaces(parts, parts', IsMark(e));
    assert Marks(events) == Marks(before) + if IsMark(e) then [|before|] else [];
    forall n | 0 <= n < |Marks(before)| ensures events[..Marks(before)[n]] == before[..Marks(before)[n]] {
    }
  }

  /**
   There is one agent part for each event that asks for tool calls, in order, and the text
   before it is that of the deltas before the event.
   */
  lemma {:induction false} AgentPartsStandInPlace(m: Memory, events: seq<Event>)
    ensures InPlace(ConsumeAll(m, events).parts, events)
  {
    if events != [] {
      var before, e := events[..|events| - 1], events[|events| - 1];
      AgentPartsStandInPlace(m, before);
      StreamText(m, before);
      ConsumeGrows(ConsumeAll(m, before), e);
      assert events == before + [e];
      InPlaceStep(ConsumeAll(m, before).parts, ConsumeAll(m, events).parts, before, e);
    }
  }

  /** The text deltas since the last event that asked for tool calls. */
  function LastRun(events: seq<Event>): (run: seq<Event>)
    ensures forall n :: 0 <= n < |run| ==> run[n].TextDelta?
  {
    if events == [] then []
    else
      var e := events[|events| - 1];
      if IsMark(e) then []
      else LastRun(events[..|events| - 1]) + if e.TextDelta? then [e] else []
  }

  /** The parts end with one text part made of the run of deltas, or with an agent part if it is empty. */
  ghost predicate EndsWithRun(parts: seq<Part>, run: seq<Event>)
    requires forall n :: 0 <= n < |run| ==> run[n].TextDelta?
  {
    if run == [] then parts == [] || parts[|parts| - 1] == AgentPart(|parts| - 1)
    else
      var at := run[|run| - 1].timestamp;
      && parts != []
      && parts[|parts| - 1] == TextPart(|parts| - 1, DeltaText(run), if |run| == 1 then Created(at) else Updated(at))
  }

  lemma RunGrows(parts: seq<Part>, run: seq<Event>, e: Event)
    requires e.TextDelta? && (forall n :: 0 <= n < |run| ==> run[n].TextDelta?) && EndsWithRun(parts, run)
    ensures EndsWithRun(AddDelta(parts, e.delta, e.timestamp), run + [e])
  {
    assert (run + [e])[..|run|] == run;
    assert DeltaText(run + [e]) == DeltaText(run) + e.delta;
    assert run == [] ==> DeltaText(run + [e]) == e.delta;
  }

  /**
   The last part of a stream: the deltas since the last agent part, if any, are one text part
   with their text in order, created at the only one's time or updated at the last one's.
   */
  lemma {:induction false} LastPartIsTheRun(m: Memory, events: seq<Event>)
    ensures EndsWithRun(ConsumeAll(m, events).parts, LastRun(events))
  {
    if events != [] {
      var before, e := events[..|events| - 1], events[|events| - 1];
      LastPartIsTheRun(m, before);
      if e.TextDelta? {
        RunGrows(ConsumeAll(m, before).parts, LastRun(before), e);
      } else {
        assert LastRun(before) + [] == LastRun(before);
      }
    }
  }

  lemma GrownSeals(sealed: seq<Part>, parts: seq<Part>, parts': seq<Part>, mark: bool)
    requires Grown(parts, parts', mark) && sealed <= parts
    requires sealed != [] && sealed[|sealed| - 1].AgentPart?
    ensures sealed <= parts'
  {
    assert parts[|sealed| - 1].AgentPart?;
  }

  /** Once an agent part stands, neither it nor anything before it changes. */
  lemma {:induction false} AgentPartSeals(m: Memory, events: seq<Event>, i: nat)
    requires i < |events| && IsMark(events[i])
    ensures ConsumeAll(m, events[..i + 1]).parts <= ConsumeAll(m, events).parts
  {
    if i == |events| - 1 {
      assert events[..i + 1] == events;
    } else {
      var before, e := events[..|events| - 1], events[|events| - 1];
      AgentPartSeals(m, before, i);
      assert before[..i + 1] == events[..i + 1];
      SealIsAgentPart(m, events[..i + 1]);
      ConsumeGrows(ConsumeAll(m, before), e);
      GrownSeals(ConsumeAll(m, events[..i + 1]).parts, ConsumeAll(m, before).parts, ConsumeAll(m, events).parts, IsMark(e));
    }
  }

  lemma SealIsAgentPart(m: Memory, events: seq<Event>)
    requires events != [] && IsMark(events[|events| - 1])
    ensures var parts := ConsumeAll(m, events).parts; parts != [] && parts[|parts| - 1].AgentPart?
  {
  }

  // ---------------------------------------------------------------------
  // What the model is sent again

  /** How many of the first `n` messages are sent. */
  function SentBefore(ms: seq<Message>, n: nat): nat
    requires n <= |ms|
  {
    if n == 0 then 0 else SentBefore(ms, n - 1) + if ms[n - 1].OtherMessage? then 0 else 1
  }

  lemma {:induction false} SentBeforePrefix(ms: seq<Message>, k: nat, n: nat)
    requires n <= k <= |ms|
    ensures SentBefore(ms[..k], n) == SentBefore(ms, n) && SentBefore(ms, n) <= SentBefore(ms, k)
    ensures n < k && !ms[n].OtherMessage? ==> SentBefore(ms, n) < SentBefore(ms, k)
    decreases k + n
  {
    if n > 0 {
      SentBeforePrefix(ms, k, n - 1);
    }
    if n < k {
      SentBeforePrefix(ms, k - 1, n);
    }
  }

  /** Every user and assistant message is sent once, in order, and nothing else is. */
  lemma {:induction false} MessagesAreSentInOrder(ms: seq<Message>, i: nat)
    requires i < |ms|
    ensures var sent, r := LlmMessages(ms), SentBefore(ms, i);
      && |sent| == SentBefore(ms, |ms|)
      && (!ms[i].OtherMessage? ==> r < |sent|)
      && (ms[i].UserMessage? ==> sent[r] == Sent(true, ms[i].text))
      && (ms[i].AssistantMessage? ==> sent[r] == Sent(false, PartText(ms[i].parts)))
  {
    var before := ms[..|ms| - 1];
    SentBeforePrefix(ms, |ms| - 1, |ms| - 1);
    SentBeforePrefix(ms, |ms|, i);
    if before != [] {
      MessagesAreSentInOrder(before, if i < |before| then i else 0);
    }
    if i < |before| {
      SentBeforePrefix(ms, |before|, i);
    }
  }

  /** A stream's answer, kept as a message, is sent to the model again as the text it streamed. */
  lemma AnswerIsSentAsStreamed(ms: seq<Message>, i: nat, m: Memory, events: seq<Event>, outcome: nat -> Option<string>)
    requires i < |ms|
    requires var s := ConsumeAll(m, events); ms[i] == AssistantMessage(s.parts + ToolParts(s.pending, outcome))
    ensures SentBefore(ms, i) < |LlmMessages(ms)| && LlmMessages(ms)[SentBefore(ms, i)] == Sent(false, DeltaText(events))
  {
    MessagesAreSentInOrder(ms, i);
    TextIsConserved(m, events, outcome);
  }
}
