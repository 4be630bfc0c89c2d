/**
 The subscriptions of dawn_kestrel/core/event_bus.py over a whole run: each is the one that
 was asked for, whether between publishes or by a callback during one.
 */
module EventBusHistory {
  import opened Prelude
  import opened EventBus

  /** What the callbacks of a snapshot subscribe, in the order they are called. */
  function AskedDuring(snapshot: seq<Sub>, during: Sub -> seq<NewSub>): seq<NewSub> {
    if snapshot == [] then [] else during(snapshot[0]) + AskedDuring(snapshot[1..], during)
  }

  /** Every subscription a run asks for, in order. */
  ghost function Asked(ops: seq<Op>): seq<NewSub> {
    if ops == [] then []
    else
      var before, op := ops[..|ops| - 1], ops[|ops| - 1];
      Asked(before) +
      match op
      case Subscribing(n) => [n]
      case Publishing(e, during) => AskedDuring(ListOf(Run(before).lists, e), during)
      case _ => []
  }

  /** The subscriptions from the first `|made|` on are those asked for, numbered as they were made. */
  ghost predicate AsAsked(made: seq<Sub>, asked: seq<NewSub>, made': seq<Sub>) {
    && |made'| == |made| + |asked| && made'[..|made|] == made
    && forall i :: 0 <= i < |asked| ==>
         made'[|made| + i] == Sub(|made| + i, asked[i].event, asked[i].callback, asked[i].once)
  }

  lemma AsAskedJoins(a: seq<Sub>, xs: seq<NewSub>, b: seq<Sub>, ys: seq<NewSub>, c: seq<Sub>)
    requires AsAsked(a, xs, b) && AsAsked(b, ys, c)
    ensures AsAsked(a, xs + ys, c)
  {
    assert c[..|a|] == c[..|b|][..|a|];
    forall i | 0 <= i < |xs + ys|
      ensures c[|a| + i] ==
        Sub(|a| + i, (xs + ys)[i].event, (xs + ys)[i].callback, (xs + ys)[i].once)
    {
      if i < |xs| {
        assert c[|a| + i] == c[..|b|][|a| + i];
      } else {
        var j := i - |xs|;
        assert c[|b| + j] == Sub(|b| + j, ys[j].event, ys[j].callback, ys[j].once);
      }
    }
  }

  lemma {:induction false} SubscribeAllAsAsked(b: Bus, ns: seq<NewSub>)
    ensures AsAsked(b.made, ns, SubscribeAll(b, ns).made)
    decreases ns
  {
    if ns != [] {
      var b1 := Subscribe(b, ns[0]);
      SubscribeAllAsAsked(b1, ns[1..]);
      assert AsAsked(b.made, [ns[0]], b1.made);
      AsAskedJoins(b.made, [ns[0]], b1.made, ns[1..], SubscribeAll(b, ns).made);
      assert [ns[0]] + ns[1..] == ns;
    }
  }

  lemma {:induction false} CallAllAsAsked(b: Bus, snapshot: seq<Sub>, during: Sub -> seq<NewSub>)
    ensures AsAsked(b.made, AskedDuring(snapshot, during), CallAll(b, snapshot, during).made)
    decreases snapshot
  {
    if snapshot != [] {
      var b1 := b.(delivered := b.delivered + [snapshot[0].number]);
      var b2 := SubscribeAll(b1, during(snapshot[0]));
      SubscribeAllAsAsked(b1, during(snapshot[0]));
      CallAllAsAsked(b2, snapshot[1..], during);
      AsAskedJoins(b.made, during(snapshot[0]), b2.made, AskedDuring(snapshot[1..], during),
                   CallAll(b, snapshot, during).made);
    }
  }

  /**
   Over every run, the i-th subscription ever made has number i and the event, the callback
   and the `once` flag of the i-th one asked for, publishes included; and no other is made.
   */
  lemma {:induction false} SubscriptionsAreAsAsked(ops: seq<Op>)
    ensures AsAsked([], Asked(ops), Run(ops).made)
  {
    if ops != [] {
      var before, op := ops[..|ops| - 1], ops[|ops| - 1];
      var b := Run(before);
      SubscriptionsAreAsAsked(before);
      match op
      case Subscribing(n) =>
        assert AsAsked(b.made, [n], Run(ops).made);
        AsAskedJoins([], Asked(before), b.made, [n], Run(ops).made);
      case Publishing(e, during) =>
        CallAllAsAsked(Touch(b, e), ListOf(b.lists, e), during);
        AsAskedJoins([], Asked(before), b.made, AskedDuring(ListOf(b.lists, e), during), Run(ops).made);
      case Unsubscribing(_) => assert Asked(before) + [] == Asked(before);
      case Clearing(_) => assert Asked(before) + [] == Asked(before);
    }
  }

  /** Whether an operation could take subscriptions for `e` away. */
  predicate Takes(op: Op, e: Name) {
    match op
    case Subscribing(_) => false
    case Publishing(f, _) => f == e
    case Unsubscribing(s) => s.event == e
    case Clearing(f) => f == None || f == Some("") || f == Some(e)
  }

  /**
   What is listed stays listed, in order, under every operation on other events; a clear of
   its own event, or one without a name, takes all of it, and calls nothing.
   */
  lemma OnlyOwnOperationsTake(b: Bus, op: Op, e: Name)
    ensures !Takes(op, e) ==> ListOf(b.lists, e) <= ListOf(Apply(b, op).lists, e)
    ensures op.Clearing? && Takes(op, e) ==> ListOf(Apply(b, op).lists, e) == []
    ensures !op.Publishing? ==> Apply(b, op).delivered == b.delivered
  {
    if op.Publishing? {
      PublishLeaves(b, op.published, op.during);
    }
  }
}
