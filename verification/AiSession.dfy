/**
 Stream processing of dawn_kestrel/ai_session.py: merging of text deltas,
 de-duplication of tool calls over a session, and assembly of message text.
 */
module AiSession {
  import opened Prelude

  type Signature = string

  datatype Usage = Usage(input: int, output: int, reasoning: int, cacheRead: int, cacheWrite: int)

  /** `input` is the repr of the tool input; `now` is the monotonic clock at a tool call. */
  datatype Event =
    | TextDelta(delta: string, timestamp: real)
    | ToolCall(tool: string, input: string, callId: Option<string>, now: real)
    | Finish(usage: Option<Usage>, reason: string)
    | Ignored

  datatype PartTime = Created(at: real) | Updated(at: real)

  datatype CallId = Given(id: string) | Numbered(tool: string, position: nat)

  datatype PendingCall = PendingCall(tool: string, input: string, callId: CallId)

  /** Text and agent parts are numbered by the length of the list when they were made. */
  datatype Part =
    | TextPart(number: nat, text: string, time: PartTime)
    | AgentPart(number: nat)
    | ToolPart(callId: CallId, tool: string, input: string, output: string)

  // ---------------------------------------------------------------------
  // De-duplication of tool calls

  const WINDOW := 8.0
  const CAPACITY := 128
  const STALE := 60.0

  type Memory = map<Signature, real>

  predicate Duplicate(m: Memory, sig: Signature, now: real) {
    sig in m && now - m[sig] < WINDOW
  }

  function Prune(m: Memory, now: real): Memory {
    if |m| > CAPACITY then map sig | sig in m && m[sig] >= now - STALE :: m[sig] else m
  }

  function Remember(m: Memory, sig: Signature, now: real): Memory {
    if Duplicate(m, sig, now) then m else Prune(m[sig := now], now)
  }

  datatype Seen = Seen(sig: Signature, now: real)

  /** What the session's memory is after a history of tool calls. */
  function Bounded(calls: seq<Seen>): Memory {
    if calls == [] then map[]
    else Remember(Bounded(calls[..|calls| - 1]), calls[|calls| - 1].sig, calls[|calls| - 1].now)
  }

  /** A memory that never forgets: the time each signature was last accepted. */
  function Unbounded(calls: seq<Seen>): Memory {
    if calls == [] then map[]
    else
      var m, c := Unbounded(calls[..|calls| - 1]), calls[|calls| - 1];
      if Duplicate(m, c.sig, c.now) then m else m[c.sig := c.now]
  }

  /** Whether call `i` of the history was accepted. */
  predicate Accepted(calls: seq<Seen>, i: nat)
    requires i < |calls|
  {
    !Duplicate(Bounded(calls[..i]), calls[i].sig, calls[i].now)
  }

  ghost predicate InOrder(calls: seq<Seen>) {
    forall i, j :: 0 <= i <= j < |calls| ==> calls[i].now <= calls[j].now
  }

  /** The bounded memory differs from the unbounded one only by entries a minute old. */
  ghost predicate Agrees(m: Memory, all: Memory, now: real) {
    && (forall sig :: sig in m ==> sig in all && m[sig] == all[sig])
    && (forall sig :: sig in all && sig !in m ==> all[sig] < now - STALE)
  }

  lemma {:induction false} MemoriesAgree(calls: seq<Seen>, now: real)
    requires InOrder(calls) && (calls != [] ==> calls[|calls| - 1].now <= now)
    ensures Agrees(Bounded(calls), Unbounded(calls), now)
  {
    if calls != [] {
      var before, c := calls[..|calls| - 1], calls[|calls| - 1];
      if before != [] {
        assert calls[|before| - 1].now <= c.now;
      }
      MemoriesAgree(before, c.now);
      var m := Bounded(before)[c.sig := c.now];
      assert forall sig :: sig in Prune(m, c.now) ==> sig in m && Prune(m, c.now)[sig] == m[sig];
      assert forall sig :: sig in m && sig !in Prune(m, c.now) ==> m[sig] < c.now - STALE;
    }
  }

  /** Pruning never changes a decision: every call is decided as an unbounded memory would. */
  lemma PruningIsInvisible(calls: seq<Seen>, i: nat)
    requires InOrder(calls) && i < |calls|
    ensures Accepted(calls, i) <==> !Duplicate(Unbounded(calls[..i]), calls[i].sig, calls[i].now)
  {
    var before := calls[..i];
    if before != [] {
      assert before[|before| - 1].now <= calls[i].now;
    }
    MemoriesAgree(before, calls[i].now);
  }

  /** The unbounded memory holds, for each signature, its last accepted call. */
  lemma {:induction false} UnboundedIsLastAccepted(calls: seq<Seen>, n: nat, sig: Signature)
    requires InOrder(calls) && n <= |calls|
    ensures var all := Unbounded(calls[..n]);
      && (sig in all ==> exists i :: 0 <= i < n && calls[i] == Seen(sig, all[sig]) && Accepted(calls, i))
      && (forall i :: 0 <= i < n && calls[i].sig == sig && Accepted(calls, i) ==>
            sig in all && calls[i].now <= all[sig])
  {
    if n > 0 {
      UnboundedIsLastAccepted(calls, n - 1, sig);
      assert calls[..n][..n - 1] == calls[..n - 1];
      PruningIsInvisible(calls, n - 1);
      var c := calls[n - 1];
      if Accepted(calls, n - 1) && c.sig == sig {
        assert calls[n - 1] == Seen(sig, Unbounded(calls[..n])[sig]);
      }
    }
  }

  /**
   Session-wide de-duplication: accepted calls with one signature are at least
   eight seconds apart, and every rejected call has an accepted twin less than
   eight seconds before it.
   */
  lemma DeduplicationWindow(calls: seq<Seen>, j: nat)
    requires InOrder(calls) && j < |calls|
    ensures Accepted(calls, j) <==>
      forall i :: 0 <= i < j && calls[i].sig == calls[j].sig && Accepted(calls, i) ==>
        calls[j].now - calls[i].now >= WINDOW
  {
    UnboundedIsLastAccepted(calls, j, calls[j].sig);
    PruningIsInvisible(calls, j);
  }

  // ---------------------------------------------------------------------
  // Streams

  datatype Stream = Stream(parts: seq<Part>, pending: seq<PendingCall>, memory: Memory, usage: Usage)

  const NO_USAGE := Usage(0, 0, 0, 0, 0)

  function SignatureOf(tool: string, input: string): Signature {
    tool + ":" + input
  }

  /** `tool_input or {}`, on the repr of a JSON value: one that counts as false is executed as no arguments. */
  function Argument(input: string): string {
    if input in {"None", "False", "0", "0.0", "-0.0", "''", "[]"} then "{}" else input
  }

  function AddDelta(parts: seq<Part>, delta: string, at: real): seq<Part> {
    if parts != [] && parts[|parts| - 1].TextPart? then
      var last := parts[|parts| - 1];
      parts[|parts| - 1 := TextPart(last.number, last.text + delta, Updated(at))]
    else
      parts + [TextPart(|parts|, delta, Created(at))]
  }

  function Consume(s: Stream, e: Event): Stream {
    match e
    case TextDelta(delta, at) => s.(parts := AddDelta(s.parts, delta, at))
    case ToolCall(tool, input, id, now) =>
      var sig := SignatureOf(tool, input);
      var id' := if id.Some? then Given(id.value) else Numbered(tool, |s.pending|);
      s.(memory := Remember(s.memory, sig, now),
         pending := if Duplicate(s.memory, sig, now) then s.pending
                    else s.pending + [PendingCall(tool, Argument(input), id')])
    case Finish(usage, reason) =>
      s.(usage := if usage.Some? then usage.value else s.usage,
         parts := if reason == "tool-calls" then s.parts + [AgentPart(|s.parts|)] else s.parts)
    case Ignored => s
  }

  function ConsumeAll(m: Memory, events: seq<Event>): Stream {
    if events == [] then Stream([], [], m, NO_USAGE)
    else Consume(ConsumeAll(m, events[..|events| - 1]), events[|events| - 1])
  }

  /** The tool parts of the pending calls whose execution succeeded, in order. */
  function ToolParts(pending: seq<PendingCall>, outcome: nat -> Option<string>): seq<Part> {
    if pending == [] then []
    else
      var n := |pending| - 1;
      ToolParts(pending[..n], outcome) +
      match outcome(n)
      case None => []
      case Some(output) => [ToolPart(pending[n].callId, pending[n].tool, pending[n].input, output)]
  }

  function DeltaText(events: seq<Event>): string {
    if events == [] then ""
    else
      DeltaText(events[..|events| - 1]) +
      if events[|events| - 1].TextDelta? then events[|events| - 1].delta else ""
  }

  /** The text that message assembly reads out of the parts. */
  function PartText(parts: seq<Part>): string {
    if parts == [] then ""
    else
      PartText(parts[..|parts| - 1]) + if parts[|parts| - 1].TextPart? then parts[|parts| - 1].text else ""
  }

  lemma {:induction false} PartTextConcat(a: seq<Part>, b: seq<Part>)
    ensures PartText(a + b) == PartText(a) + PartText(b)
  {
    if b == [] {
      assert a + b == a;
    } else {
      assert (a + b)[..|a + b| - 1] == a + b[..|b| - 1];
      PartTextConcat(a, b[..|b| - 1]);
    }
  }

  lemma {:induction false} ToolPartsHaveNoText(pending: seq<PendingCall>, outcome: nat -> Option<string>)
    ensures PartText(ToolParts(pending, outcome)) == ""
  {
    if pending != [] {
      var n := |pending| - 1;
      ToolPartsHaveNoText(pending[..n], outcome);
      assert ToolParts(pending[..n], outcome) + [] == ToolParts(pending[..n], outcome);
      if outcome(n).Some? {
        var one := [ToolPart(pending[n].callId, pending[n].tool, pending[n].input, outcome(n).value)];
        assert one[..0] == [] && PartText(one[..0]) == "" && PartText(one) == "";
        PartTextConcat(ToolParts(pending[..n], outcome), one);
      }
    }
  }

  lemma AddDeltaText(parts: seq<Part>, delta: string, at: real)
    ensures PartText(AddDelta(parts, delta, at)) == PartText(parts) + delta
  {
    var n := |parts| - 1;
    if parts != [] && parts[n].TextPart? {
      assert AddDelta(parts, delta, at)[..n] == parts[..n];
      assert PartText(parts[..n]) + (parts[n].text + delta) == PartText(parts[..n]) + parts[n].text + delta;
    } else {
      assert (parts + [TextPart(|parts|, delta, Created(at))])[..|parts|] == parts;
    }
  }

  ghost predicate Merged(parts: seq<Part>) {
    && (forall i :: 0 <= i < |parts| ==> !parts[i].ToolPart? && parts[i].number == i)
    && (forall i :: 0 < i < |parts| ==> !(parts[i - 1].TextPart? && parts[i].TextPart?))
  }

  lemma AddDeltaMerges(parts: seq<Part>, delta: string, at: real)
    requires Merged(parts)
    ensures Merged(AddDelta(parts, delta, at))
  {
  }

  lemma AgentPartKeepsText(parts: seq<Part>)
    requires Merged(parts)
    ensures Merged(parts + [AgentPart(|parts|)]) && PartText(parts + [AgentPart(|parts|)]) == PartText(parts)
  {
    assert (parts + [AgentPart(|parts|)])[..|parts|] == parts;
  }

  lemma ConsumeKeepsText(s: Stream, e: Event)
    requires Merged(s.parts)
    ensures Merged(Consume(s, e).parts)
    ensures PartText(Consume(s, e).parts) == PartText(s.parts) + if e.TextDelta? then e.delta else ""
  {
    assert PartText(s.parts) + "" == PartText(s.parts);
    match e
    case TextDelta(delta, at) =>
      AddDeltaText(s.parts, delta, at);
      AddDeltaMerges(s.parts, delta, at);
    case Finish(_, reason) => AgentPartKeepsText(s.parts);
    case ToolCall(_, _, _, _) =>
    case Ignored =>
  }

  lemma {:induction false} StreamText(m: Memory, events: seq<Event>)
    ensures PartText(ConsumeAll(m, events).parts) == DeltaText(events)
    ensures Merged(ConsumeAll(m, events).parts)
  {
    if events != [] {
      StreamText(m, events[..|events| - 1]);
      ConsumeKeepsText(ConsumeAll(m, events[..|events| - 1]), events[|events| - 1]);
    }
  }

  /**
   No text is lost, invented or reordered: the text assembled from the finished
   parts is the concatenation of the deltas; text parts are never adjacent, and
   every part made while streaming is numbered by its position.
   */
  lemma TextIsConserved(m: Memory, events: seq<Event>, outcome: nat -> Option<string>)
    ensures var s := ConsumeAll(m, events);
      && PartText(s.parts + ToolParts(s.pending, outcome)) == DeltaText(events)
      && Merged(s.parts)
  {
    var s := ConsumeAll(m, events);
    StreamText(m, events);
    ToolPartsHaveNoText(s.pending, outcome);
    PartTextConcat(s.parts, ToolParts(s.pending, outcome));
  }

  /** The deltas before the first agent part. */
  function OpeningDeltas(events: seq<Event>): nat {
    if events == [] then 0
    else
      var before, e := events[..|events| - 1], events[|events| - 1];
      OpeningDeltas(before) + if e.TextDelta? && !HasAgentPart(before) then 1 else 0
  }

  predicate HasAgentPart(events: seq<Event>) {
    exists e :: e in events && e.Finish? && e.reason == "tool-calls"
  }

  lemma HasAgentPartStep(events: seq<Event>, e: Event)
    ensures HasAgentPart(events + [e]) <==> HasAgentPart(events) || (e.Finish? && e.reason == "tool-calls")
  {
    if e.Finish? && e.reason == "tool-calls" {
      assert e in events + [e];
    }
    if x :| x in events && x.Finish? && x.reason == "tool-calls" {
      assert x in events + [x] && x in events + [e];
    }
  }

  /** How a stream's parts begin, after `n` opening deltas and with or without an agent part. */
  ghost predicate Opening(parts: seq<Part>, n: nat, agent: bool) {
    && (n == 0 && !agent ==> parts == [])
    && (n == 0 && agent ==> parts != [] && parts[0].AgentPart?)
    && (n >= 1 ==> parts != [] && parts[0].TextPart? && (parts[0].time.Created? <==> n == 1))
    && (n >= 1 && !agent ==> |parts| == 1)
    && (n >= 1 && agent ==> |parts| >= 2 && parts[1].AgentPart?)
  }

  /**
   The creation time of the opening text survives exactly when one delta made it:
   merging a second delta replaces the time by an update time.
   */
  lemma {:induction false} CreationTimeSurvivesOneDelta(m: Memory, events: seq<Event>)
    ensures Opening(ConsumeAll(m, events).parts, OpeningDeltas(events), HasAgentPart(events))
  {
    if events != [] {
      var before, e := events[..|events| - 1], events[|events| - 1];
      assert events == before + [e];
      HasAgentPartStep(before, e);
      CreationTimeSurvivesOneDelta(m, before);
      OpeningStep(ConsumeAll(m, before), e, OpeningDeltas(before), HasAgentPart(before));
    }
  }

  lemma OpeningStep(s: Stream, e: Event, n: nat, agent: bool)
    requires Opening(s.parts, n, agent)
    ensures Opening(Consume(s, e).parts, if e.TextDelta? && !agent then n + 1 else n,
                    agent || (e.Finish? && e.reason == "tool-calls"))
  {
  }

  /** The tool calls of a stream, as the memory sees them. */
  function CallsOf(events: seq<Event>): seq<Seen> {
    if events == [] then [] else CallsOf(events[..|events| - 1]) + CallOf(events[|events| - 1])
  }

  function CallOf(e: Event): seq<Seen> {
    if e.ToolCall? then [Seen(SignatureOf(e.tool, e.input), e.now)] else []
  }

  lemma EventExtendsHistory(s: Stream, history: seq<Seen>, e: Event)
    requires s.memory == Bounded(history)
    ensures Consume(s, e).memory == Bounded(history + CallOf(e))
  {
    if e.ToolCall? {
      BoundedAppend(history, CallOf(e)[0]);
    } else {
      assert history + [] == history;
    }
  }

  lemma BoundedAppend(calls: seq<Seen>, c: Seen)
    ensures Bounded(calls + [c]) == Remember(Bounded(calls), c.sig, c.now)
  {
    assert (calls + [c])[..|calls|] == calls;
  }

  /** A stream takes the session's memory from one history of calls to the next. */
  lemma {:induction false} StreamExtendsHistory(history: seq<Seen>, events: seq<Event>)
    ensures ConsumeAll(Bounded(history), events).memory == Bounded(history + CallsOf(events))
  {
    if events == [] {
      assert history + [] == history;
    } else {
      var before, e := events[..|events| - 1], events[|events| - 1];
      StreamExtendsHistory(history, before);
      EventExtendsHistory(ConsumeAll(Bounded(history), before), history + CallsOf(before), e);
      assert history + CallsOf(events) == history + CallsOf(before) + CallOf(e);
    }
  }

  datatype Message = UserMessage(text: string) | AssistantMessage(parts: seq<Part>) | OtherMessage

  datatype Sent = Sent(fromUser: bool, content: string)

  /** What `_build_llm_messages` sends for the messages it keeps. */
  function LlmMessages(ms: seq<Message>): seq<Sent> {
    if ms == [] then []
    else
      LlmMessages(ms[..|ms| - 1]) +
      match ms[|ms| - 1]
      case UserMessage(text) => [Sent(true, text)]
      case AssistantMessage(parts) => [Sent(false, PartText(parts))]
      case OtherMessage => []
  }

  class Session {
    var recent: Memory

    constructor ()
      ensures recent == Bounded([])
    {
      recent := map[];
    }

    method ProcessStream(events: seq<Event>, outcome: nat -> Option<string>) returns (parts: seq<Part>, usage: Usage)
      modifies this
      ensures var s := ConsumeAll(old(recent), events);
        && parts == s.parts + ToolParts(s.pending, outcome)
        && usage == s.usage && recent == s.memory
    {
      parts, usage := [], NO_USAGE;
      var pending: seq<PendingCall> := [];
      var i := 0;
      while i < |events|
        invariant 0 <= i <= |events|
        invariant Stream(parts, pending, recent, usage) == ConsumeAll(old(recent), events[..i])
      {
        assert events[..i + 1][..i] == events[..i];
        match events[i] {
          case TextDelta(delta, at) =>
            if parts != [] && parts[|parts| - 1].TextPart? {
              var last := parts[|parts| - 1];
              parts := parts[|parts| - 1 := TextPart(last.number, last.text + delta, Updated(at))];
            } else {
              parts := parts + [TextPart(|parts|, delta, Created(at))];
            }
          case ToolCall(tool, input, id, now) =>
            var sig := SignatureOf(tool, input);
            if !(sig in recent && now - recent[sig] < WINDOW) {
              recent := recent[sig := now];
              if |recent| > CAPACITY {
                var staleBefore := now - STALE;
                recent := map s | s in recent && recent[s] >= staleBefore :: recent[s];
              }
              var callId := if id.Some? then Given(id.value) else Numbered(tool, |pending|);
              pending := pending + [PendingCall(tool, Argument(input), callId)];
            }
          case Finish(data, reason) =>
            if data.Some? {
              usage := data.value;
            }
            if reason == "tool-calls" {
              parts := parts + [AgentPart(|parts|)];
            }
          case Ignored =>
        }
        i := i + 1;
      }
      assert events[..i] == events;
      ghost var streamed := parts;
      var j := 0;
      while j < |pending|
        invariant 0 <= j <= |pending|
        invariant parts == streamed + ToolParts(pending[..j], outcome)
      {
        assert pending[..j + 1][..j] == pending[..j];
        var output := outcome(j);
        if output.Some? {
          parts := parts + [ToolPart(pending[j].callId, pending[j].tool, pending[j].input, output.value)];
        }
        j := j + 1;
      }
      assert pending[..j] == pending;
    }

    /** The text of `create_assistant_message`, which skips empty parts, and its creation time. */
    method AssistantText(parts: seq<Part>) returns (text: string, created: Option<real>)
      ensures text == PartText(parts)
      ensures created.Some? <==> parts != [] && parts[0].TextPart? && parts[0].time.Created?
    {
      created := None;
      if parts != [] && parts[0].TextPart? && parts[0].time.Created? {
        created := Some(parts[0].time.at);
      }
      text := "";
      var i := 0;
      while i < |parts|
        invariant 0 <= i <= |parts| && text == PartText(parts[..i])
      {
        assert parts[..i + 1][..i] == parts[..i];
        if parts[i].TextPart? && parts[i].text != "" {
          text := text + parts[i].text;
        }
        i := i + 1;
      }
      assert parts[..i] == parts;
    }

    method BuildLlmMessages(ms: seq<Message>) returns (sent: seq<Sent>)
      ensures sent == LlmMessages(ms)
    {
      sent := [];
      var i := 0;
      while i < |ms|
        invariant 0 <= i <= |ms| && sent == LlmMessages(ms[..i])
      {
        assert ms[..i + 1][..i] == ms[..i];
        match ms[i] {
          case UserMessage(text) =>
            sent := sent + [Sent(true, text)];
          case AssistantMessage(parts) =>
            var content := "";
            var j := 0;
            while j < |parts|
              invariant 0 <= j <= |parts| && content == PartText(parts[..j])
            {
              assert parts[..j + 1][..j] == parts[..j];
              if parts[j].TextPart? {
                content := content + parts[j].text;
              }
              j := j + 1;
            }
            assert parts[..j] == parts;
            sent := sent + [Sent(false, content)];
          case OtherMessage =>
        }
        i := i + 1;
      }
      assert ms[..i] == ms;
    }
  }
}
