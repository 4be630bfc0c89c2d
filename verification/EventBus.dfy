/**
 The event bus of dawn_kestrel/core/event_bus.py. A subscription is compared by
 value, as its dataclass is; the number tells instances apart in statements only.
 Callbacks may subscribe while an event is being published.
 */
module EventBus {
  import opened Prelude

  type Name = string

  datatype Sub = Sub(number: nat, event: Name, callback: nat, once: bool)

  /** A subscription about to be made. */
  datatype NewSub = NewSub(event: Name, callback: nat, once: bool)

  predicate SameValue(a: Sub, b: Sub) {
    a.event == b.event && a.callback == b.callback && a.once == b.once
  }

  /** `made` lists every subscription ever made; `delivered` the numbers called, in order. */
  datatype Bus = Bus(lists: map<Name, seq<Sub>>, made: seq<Sub>, delivered: seq<nat>)

  const NEW_BUS := Bus(map[], [], [])

  function ListOf(lists: map<Name, seq<Sub>>, e: Name): seq<Sub> {
    if e in lists then lists[e] else []
  }

  function Subscribe(b: Bus, n: NewSub): Bus {
    var s := Sub(|b.made|, n.event, n.callback, n.once);
    b.(lists := b.lists[n.event := ListOf(b.lists, n.event) + [s]], made := b.made + [s])
  }

  function SubscribeAll(b: Bus, ns: seq<NewSub>): Bus
    decreases ns
  {
    if ns == [] then b else SubscribeAll(Subscribe(b, ns[0]), ns[1..])
  }

  /** Python's list.remove, after a membership test: drops the first equal element. */
  function RemoveFirst(list: seq<Sub>, s: Sub): seq<Sub> {
    if list == [] then []
    else if SameValue(list[0], s) then list[1..]
    else [list[0]] + RemoveFirst(list[1..], s)
  }

  function RemoveEach(list: seq<Sub>, ss: seq<Sub>): seq<Sub>
    decreases ss
  {
    if ss == [] then list else RemoveEach(RemoveFirst(list, ss[0]), ss[1..])
  }

  function Onces(list: seq<Sub>): seq<Sub> {
    if list == [] then [] else (if list[0].once then [list[0]] else []) + Onces(list[1..])
  }

  function Keepers(list: seq<Sub>): seq<Sub> {
    if list == [] then [] else (if list[0].once then [] else [list[0]]) + Keepers(list[1..])
  }

  function Numbers(list: seq<Sub>): seq<nat> {
    if list == [] then [] else [list[0].number] + Numbers(list[1..])
  }

  /** Calls each subscription of the snapshot; `during(s)` is what its callback subscribes. */
  function CallAll(b: Bus, snapshot: seq<Sub>, during: Sub -> seq<NewSub>): Bus
    decreases snapshot
  {
    if snapshot == [] then b
    else
      var b1 := b.(delivered := b.delivered + [snapshot[0].number]);
      CallAll(SubscribeAll(b1, during(snapshot[0])), snapshot[1..], during)
  }

  /** Looking a name up creates its list, as a defaultdict does. */
  function Touch(b: Bus, e: Name): Bus {
    b.(lists := b.lists[e := ListOf(b.lists, e)])
  }

  function Publish(b: Bus, e: Name, during: Sub -> seq<NewSub>): Bus {
    var snapshot := ListOf(b.lists, e);
    var b1 := CallAll(Touch(b, e), snapshot, during);
    b1.(lists := b1.lists[e := RemoveEach(ListOf(b1.lists, e), Onces(snapshot))])
  }

  datatype Op =
    | Subscribing(added: NewSub)
    | Publishing(published: Name, during: Sub -> seq<NewSub>)
    | Unsubscribing(sub: Sub)
    | Clearing(cleared: Option<Name>)

  /** An empty name clears everything, as no name does. */
  function Apply(b: Bus, op: Op): Bus {
    match op
    case Subscribing(n) => Subscribe(b, n)
    case Publishing(e, during) => Publish(b, e, during)
    case Unsubscribing(s) =>
      if s.event in b.lists then b.(lists := b.lists[s.event := RemoveFirst(b.lists[s.event], s)]) else b
    case Clearing(e) =>
      if e.Some? && e.value != "" then b.(lists := b.lists[e.value := []]) else b.(lists := map[])
  }

  ghost function Run(ops: seq<Op>): Bus {
    if ops == [] then NEW_BUS else Apply(Run(ops[..|ops| - 1]), ops[|ops| - 1])
  }

  // ---------------------------------------------------------------------
  // What a publish leaves

  lemma {:induction false} RemoveFirstSkips(keep: seq<Sub>, rest: seq<Sub>, s: Sub)
    requires s.once && forall k :: k in keep ==> !k.once
    ensures RemoveFirst(keep + rest, s) == keep + RemoveFirst(rest, s)
  {
    if keep == [] {
      assert keep + rest == rest && keep + RemoveFirst(rest, s) == RemoveFirst(rest, s);
    } else {
      assert keep[0] in keep;
      assert (keep + rest)[1..] == keep[1..] + rest;
      RemoveFirstSkips(keep[1..], rest, s);
    }
  }

  lemma {:induction false} RemovalKeepsOthers(keep: seq<Sub>, old_: seq<Sub>, added: seq<Sub>)
    requires forall k :: k in keep ==> !k.once
    ensures RemoveEach(keep + old_ + added, Onces(old_)) == keep + Keepers(old_) + added
    decreases old_
  {
    if old_ == [] {
      assert keep + [] + added == keep + added;
    } else {
      var s, rest := old_[0], old_[1..];
      assert old_ == [s] + rest;
      if s.once {
        assert keep + old_ + added == keep + ([s] + (rest + added));
        RemoveFirstSkips(keep, [s] + (rest + added), s);
        assert RemoveFirst([s] + (rest + added), s) == rest + added;
        assert keep + (rest + added) == keep + rest + added;
        assert ([s] + Onces(rest))[1..] == Onces(rest);
        RemovalKeepsOthers(keep, rest, added);
        assert [] + Keepers(rest) == Keepers(rest);
      } else {
        assert keep + old_ + added == (keep + [s]) + rest + added;
        assert [] + Onces(rest) == Onces(rest);
        RemovalKeepsOthers(keep + [s], rest, added);
        assert (keep + [s]) + Keepers(rest) == keep + ([s] + Keepers(rest));
      }
    }
  }

  lemma RemovalAfterPublish(old_: seq<Sub>, added: seq<Sub>)
    ensures RemoveEach(old_ + added, Onces(old_)) == Keepers(old_) + added
  {
    RemovalKeepsOthers([], old_, added);
    assert [] + old_ == old_ && [] + Keepers(old_) == Keepers(old_);
  }

  /** Subscriptions of `e` among those made from position `from` on. */
  function MadeFor(made: seq<Sub>, from: nat, e: Name): seq<Sub>
    requires from <= |made|
    decreases |made| - from
  {
    if from == |made| then []
    else (if made[from].event == e then [made[from]] else []) + MadeFor(made, from + 1, e)
  }

  lemma {:induction false} MadeForAppend(made: seq<Sub>, s: Sub, from: nat, e: Name)
    requires from <= |made|
    ensures MadeFor(made + [s], from, e) == MadeFor(made, from, e) + if s.event == e then [s] else []
    decreases |made| - from
  {
    if from < |made| {
      MadeForAppend(made, s, from + 1, e);
    }
  }

  /** What subscribing does: old subscriptions stay, new ones go to the ends of their lists. */
  ghost predicate Extends(b: Bus, b': Bus) {
    && |b.made| <= |b'.made| && b'.made[..|b.made|] == b.made
    && (forall i :: |b.made| <= i < |b'.made| ==> b'.made[i].number == i)
    && forall e :: ListOf(b'.lists, e) == ListOf(b.lists, e) + MadeFor(b'.made, |b.made|, e)
  }

  lemma SubscribeExtends(b: Bus, m: Bus, n: NewSub)
    requires Extends(b, m)
    ensures Extends(b, Subscribe(m, n))
  {
    var m' := Subscribe(m, n);
    var s := m'.made[|m.made|];
    forall e ensures ListOf(m'.lists, e) == ListOf(b.lists, e) + MadeFor(m'.made, |b.made|, e) {
      MadeForAppend(m.made, s, |b.made|, e);
    }
  }

  lemma {:induction false} SubscribeAllExtends(b: Bus, m: Bus, ns: seq<NewSub>)
    requires Extends(b, m)
    ensures Extends(b, SubscribeAll(m, ns)) && SubscribeAll(m, ns).delivered == m.delivered
    decreases ns
  {
    if ns != [] {
      SubscribeExtends(b, m, ns[0]);
      SubscribeAllExtends(b, Subscribe(m, ns[0]), ns[1..]);
    }
  }

  lemma {:induction false} CallAllExtends(b: Bus, m: Bus, snapshot: seq<Sub>, during: Sub -> seq<NewSub>)
    requires Extends(b, m)
    ensures var m' := CallAll(m, snapshot, during);
      Extends(b, m') && m'.delivered == m.delivered + Numbers(snapshot)
    decreases snapshot
  {
    if snapshot == [] {
      assert m.delivered + [] == m.delivered;
    } else {
      var m1 := m.(delivered := m.delivered + [snapshot[0].number]);
      assert Extends(b, m1);
      SubscribeAllExtends(b, m1, during(snapshot[0]));
      CallAllExtends(b, SubscribeAll(m1, during(snapshot[0])), snapshot[1..], during);
      assert m.delivered + [snapshot[0].number] + Numbers(snapshot[1..])
        == m.delivered + ([snapshot[0].number] + Numbers(snapshot[1..]));
    }
  }

  lemma TouchExtends(b: Bus, e: Name)
    ensures Extends(b, Touch(b, e))
  {
    forall f ensures ListOf(Touch(b, e).lists, f) == ListOf(b.lists, f) + MadeFor(b.made, |b.made|, f) {
      assert ListOf(Touch(b, e).lists, f) == ListOf(b.lists, f);
    }
  }

  /**
   A publish calls each subscription listed when it starts, once and in order, and
   leaves the old subscriptions that are not `once`, in order, followed by those
   made for the event meanwhile, although removal goes by value.
   */
  lemma PublishLeaves(b: Bus, e: Name, during: Sub -> seq<NewSub>)
    ensures var b' := Publish(b, e, during);
      && b'.delivered == b.delivered + Numbers(ListOf(b.lists, e))
      && |b.made| <= |b'.made| && b'.made[..|b.made|] == b.made
      && (forall i :: |b.made| <= i < |b'.made| ==> b'.made[i].number == i)
      && ListOf(b'.lists, e) == Keepers(ListOf(b.lists, e)) + MadeFor(b'.made, |b.made|, e)
      && forall f :: f != e ==> ListOf(b'.lists, f) == ListOf(b.lists, f) + MadeFor(b'.made, |b.made|, f)
  {
    var snapshot := ListOf(b.lists, e);
    TouchExtends(b, e);
    CallAllExtends(b, Touch(b, e), snapshot, during);
    var b1 := CallAll(Touch(b, e), snapshot, during);
    RemovalAfterPublish(snapshot, MadeFor(b1.made, |b.made|, e));
  }

  // ---------------------------------------------------------------------
  // Once means at most once

  /** Subscriptions for `e`, in the order they were made, none before number `from`. */
  ghost predicate InOrder(list: seq<Sub>, from: nat, made: seq<Sub>, e: Name) {
    list == []
    || (&& from <= list[0].number < |made| && made[list[0].number] == list[0] && list[0].event == e
        && InOrder(list[1..], list[0].number + 1, made, e))
  }

  lemma {:induction false} Members(list: seq<Sub>, from: nat, made: seq<Sub>, e: Name)
    requires InOrder(list, from, made, e)
    ensures forall s :: s in list ==> from <= s.number < |made| && made[s.number] == s && s.event == e
  {
    if list != [] {
      Members(list[1..], list[0].number + 1, made, e);
    }
  }

  function Deliveries(delivered: seq<nat>, n: nat): nat {
    if delivered == [] then 0 else (if delivered[0] == n then 1 else 0) + Deliveries(delivered[1..], n)
  }

  ghost predicate Valid(b: Bus) {
    && (forall i :: 0 <= i < |b.made| ==> b.made[i].number == i)
    && (forall e :: InOrder(ListOf(b.lists, e), 0, b.made, e))
    && (forall n :: 0 <= n < |b.made| && b.made[n].once ==> OnceValid(b, b.made[n]))
    && (forall n :: n in b.delivered ==> n < |b.made|)
  }

  /** A `once` subscription was delivered at most once, and not at all while it is listed. */
  ghost predicate OnceValid(b: Bus, s: Sub) {
    && Deliveries(b.delivered, s.number) <= 1
    && (s in ListOf(b.lists, s.event) ==> Deliveries(b.delivered, s.number) == 0)
  }

  lemma {:induction false} DeliveriesConcat(a: seq<nat>, b: seq<nat>, n: nat)
    ensures Deliveries(a + b, n) == Deliveries(a, n) + Deliveries(b, n)
  {
    if a == [] {
      assert a + b == b;
    } else {
      assert (a + b)[1..] == a[1..] + b;
      DeliveriesConcat(a[1..], b, n);
    }
  }

  lemma {:induction false} DeliveriesOfList(list: seq<Sub>, from: nat, made: seq<Sub>, e: Name, n: nat)
    requires InOrder(list, from, made, e)
    ensures Deliveries(Numbers(list), n) <= 1
    ensures n < from || n >= |made| || made[n] !in list ==> Deliveries(Numbers(list), n) == 0
    ensures forall k :: k in Numbers(list) ==> k < |made|
  {
    if list != [] {
      DeliveriesOfList(list[1..], list[0].number + 1, made, e, n);
    }
  }

  lemma ConsInOrder(s: Sub, rest: seq<Sub>, from: nat, made: seq<Sub>, e: Name)
    requires from <= s.number < |made| && made[s.number] == s && s.event == e
    requires InOrder(rest, s.number + 1, made, e)
    ensures InOrder([s] + rest, from, made, e)
  {
    assert ([s] + rest)[1..] == rest;
  }

  lemma LaterInOrder(list: seq<Sub>, from: nat, later: nat, made: seq<Sub>, e: Name)
    requires InOrder(list, later, made, e) && from <= later
    ensures InOrder(list, from, made, e)
  {
  }

  lemma {:induction false} KeepersInOrder(list: seq<Sub>, from: nat, made: seq<Sub>, e: Name)
    requires InOrder(list, from, made, e)
    ensures InOrder(Keepers(list), from, made, e)
  {
    if list != [] {
      var s, k := list[0], Keepers(list[1..]);
      KeepersInOrder(list[1..], s.number + 1, made, e);
      if s.once {
        LaterInOrder(k, from, s.number + 1, made, e);
        assert [] + k == k;
      } else {
        ConsInOrder(s, k, from, made, e);
      }
    }
  }

  lemma {:induction false} KeepersAre(list: seq<Sub>)
    ensures forall s :: s in Keepers(list) <==> s in list && !s.once
  {
    if list != [] {
      KeepersAre(list[1..]);
      assert list == [list[0]] + list[1..];
    }
  }

  lemma {:induction false} RemoveFirstInOrder(list: seq<Sub>, from: nat, made: seq<Sub>, e: Name, s: Sub)
    requires InOrder(list, from, made, e)
    ensures InOrder(RemoveFirst(list, s), from, made, e)
    ensures forall x :: x in RemoveFirst(list, s) ==> x in list
  {
    if list != [] {
      RemoveFirstInOrder(list[1..], list[0].number + 1, made, e, s);
      var r := RemoveFirst(list[1..], s);
      assert ([list[0]] + r)[1..] == r;
    }
  }

  lemma {:induction false} MadeForInOrder(made: seq<Sub>, from: nat, e: Name)
    requires from <= |made| && forall i :: from <= i < |made| ==> made[i].number == i
    ensures InOrder(MadeFor(made, from, e), from, made, e)
    decreases |made| - from
  {
    if from < |made| {
      MadeForInOrder(made, from + 1, e);
      var m := MadeFor(made, from + 1, e);
      assert ([made[from]] + m)[1..] == m && [] + m == m;
    }
  }

  lemma {:induction false} ConcatInOrder(a: seq<Sub>, from: nat, made: seq<Sub>, e: Name, made': seq<Sub>)
    requires InOrder(a, from, made, e) && from <= |made| <= |made'| && made'[..|made|] == made
    requires forall i :: |made| <= i < |made'| ==> made'[i].number == i
    ensures InOrder(a + MadeFor(made', |made|, e), from, made', e)
    decreases a
  {
    var b := MadeFor(made', |made|, e);
    if a == [] {
      MadeForInOrder(made', |made|, e);
      assert a + b == b;
    } else {
      assert made'[..|made|][a[0].number] == made'[a[0].number];
      ConcatInOrder(a[1..], a[0].number + 1, made, e, made');
      assert (a + b)[1..] == a[1..] + b;
    }
  }

  lemma {:induction false} NeverDelivered(delivered: seq<nat>, n: nat)
    requires n !in delivered
    ensures Deliveries(delivered, n) == 0
  {
    if delivered != [] {
      NeverDelivered(delivered[1..], n);
    }
  }

  lemma SubscribeKeepsOrder(b: Bus, n: NewSub, e: Name)
    requires Valid(b)
    ensures InOrder(ListOf(Subscribe(b, n).lists, e), 0, Subscribe(b, n).made, e)
  {
    var b' := Subscribe(b, n);
    var s := b'.made[|b.made|];
    assert InOrder(ListOf(b.lists, e), 0, b.made, e);
    ConcatInOrder(ListOf(b.lists, e), 0, b.made, e, b'.made);
    MadeForAppend(b.made, s, |b.made|, e);
    assert MadeFor(b'.made, |b.made|, e) == if s.event == e then [s] else [];
    assert ListOf(b.lists, e) + [] == ListOf(b.lists, e);
  }

  lemma SubscribeKeepsValid(b: Bus, n: NewSub)
    requires Valid(b)
    ensures Valid(Subscribe(b, n))
  {
    var b' := Subscribe(b, n);
    forall e ensures InOrder(ListOf(b'.lists, e), 0, b'.made, e) {
      SubscribeKeepsOrder(b, n, e);
    }
    forall k | 0 <= k < |b'.made| && b'.made[k].once ensures OnceValid(b', b'.made[k]) {
      var list := ListOf(b.lists, b'.made[k].event);
      Members(list, 0, b.made, b'.made[k].event);
      if k == |b.made| {
        NeverDelivered(b.delivered, k);
      } else {
        assert OnceValid(b, b.made[k]);
      }
    }
  }

  /** Dropping subscriptions, in any way that keeps their order, keeps the rest valid. */
  lemma ShrinkingKeepsValid(b: Bus, b': Bus)
    requires Valid(b) && b'.made == b.made && b'.delivered == b.delivered
    requires forall e :: InOrder(ListOf(b'.lists, e), 0, b.made, e)
    requires forall e, s :: s in ListOf(b'.lists, e) ==> s in ListOf(b.lists, e)
    ensures Valid(b')
  {
    forall k | 0 <= k < |b'.made| && b'.made[k].once ensures OnceValid(b', b'.made[k]) {
      assert OnceValid(b, b.made[k]);
    }
  }

  lemma PublishedOnce(b: Bus, e: Name, during: Sub -> seq<NewSub>, k: nat)
    requires Valid(b)
    requires var b' := Publish(b, e, during);
      k < |b'.made| && b'.made[k].once && b'.made[k].number == k
    ensures OnceValid(Publish(b, e, during), Publish(b, e, during).made[k])
  {
    var b' := Publish(b, e, during);
    var list := ListOf(b.lists, e);
    var s := b'.made[k];
    PublishLeaves(b, e, during);
    DeliveriesConcat(b.delivered, Numbers(list), k);
    DeliveriesOfList(list, 0, b.made, e, k);
    Members(list, 0, b.made, e);
    KeepersAre(list);
    MadeForInOrder(b'.made, |b.made|, s.event);
    Members(MadeFor(b'.made, |b.made|, s.event), |b.made|, b'.made, s.event);
    if k < |b.made| {
      assert s == b'.made[..|b.made|][k];
      assert OnceValid(b, s);
    } else {
      NeverDelivered(b.delivered, k);
      Members(ListOf(b.lists, s.event), 0, b.made, s.event);
    }
  }

  lemma PublishKeepsValid(b: Bus, e: Name, during: Sub -> seq<NewSub>)
    requires Valid(b)
    ensures Valid(Publish(b, e, during))
  {
    var b' := Publish(b, e, during);
    PublishLeaves(b, e, during);
    assert forall i :: 0 <= i < |b'.made| ==> b'.made[i].number == i by {
      assert forall i :: 0 <= i < |b.made| ==> b'.made[i] == b'.made[..|b.made|][i];
    }
    forall f ensures InOrder(ListOf(b'.lists, f), 0, b'.made, f) {
      var list := ListOf(b.lists, f);
      KeepersInOrder(list, 0, b.made, f);
      ConcatInOrder(if f == e then Keepers(list) else list, 0, b.made, f, b'.made);
    }
    forall k | 0 <= k < |b'.made| && b'.made[k].once ensures OnceValid(b', b'.made[k]) {
      PublishedOnce(b, e, during, k);
    }
    DeliveriesOfList(ListOf(b.lists, e), 0, b.made, e, 0);
  }

  lemma ApplyKeepsValid(b: Bus, op: Op)
    requires Valid(b)
    ensures Valid(Apply(b, op))
  {
    match op
    case Subscribing(n) => SubscribeKeepsValid(b, n);
    case Publishing(e, during) => PublishKeepsValid(b, e, during);
    case Unsubscribing(s) =>
      if s.event in b.lists {
        var b' := Apply(b, op);
        RemoveFirstInOrder(ListOf(b.lists, s.event), 0, b.made, s.event, s);
        forall e ensures InOrder(ListOf(b'.lists, e), 0, b.made, e) {
          assert e != s.event ==> ListOf(b'.lists, e) == ListOf(b.lists, e);
        }
        ShrinkingKeepsValid(b, b');
      }
    case Clearing(_) =>
      var b' := Apply(b, op);
      forall e ensures InOrder(ListOf(b'.lists, e), 0, b.made, e) {
        assert ListOf(b'.lists, e) == [] || ListOf(b'.lists, e) == ListOf(b.lists, e);
      }
      ShrinkingKeepsValid(b, b');
  }

  /**
   Over any run of subscriptions, publishes, removals and clears, a `once`
   subscription is delivered at most once, and one delivered is listed no more.
   */
  lemma {:induction false} OnceAtMostOnce(ops: seq<Op>)
    ensures Valid(Run(ops))
    ensures var b := Run(ops);
      forall k :: 0 <= k < |b.made| && b.made[k].once ==>
        && Deliveries(b.delivered, k) <= 1
        && (Deliveries(b.delivered, k) == 1 ==> b.made[k] !in ListOf(b.lists, b.made[k].event))
  {
    var b := Run(ops);
    if ops == [] {
    } else {
      OnceAtMostOnce(ops[..|ops| - 1]);
      ApplyKeepsValid(Run(ops[..|ops| - 1]), ops[|ops| - 1]);
    }
    forall k | 0 <= k < |b.made| && b.made[k].once
      ensures Deliveries(b.delivered, k) <= 1
      ensures Deliveries(b.delivered, k) == 1 ==> b.made[k] !in ListOf(b.lists, b.made[k].event)
    {
      assert OnceValid(b, b.made[k]);
    }
  }

  /** What a removal by value takes: the earliest equal subscription, if there is one. */
  lemma {:induction false} RemovalTakesEarliest(list: seq<Sub>, from: nat, made: seq<Sub>, e: Name, s: Sub, x: Sub)
    requires InOrder(list, from, made, e) && x in list
    ensures x !in RemoveFirst(list, s) <==>
      SameValue(x, s) && forall y :: y in list && SameValue(y, s) ==> x.number <= y.number
  {
    var rest := list[1..];
    assert list == [list[0]] + rest && list[0] in list;
    Members(rest, list[0].number + 1, made, e);
    if !SameValue(list[0], s) && x != list[0] {
      RemovalTakesEarliest(rest, list[0].number + 1, made, e, s, x);
    }
  }

  /** Whether `s` is listed with no equal one made before it. */
  ghost predicate EarliestListed(list: seq<Sub>, s: Sub) {
    s in list && forall x :: x in list && SameValue(x, s) ==> s.number <= x.number
  }

  ghost predicate NoEqualListed(list: seq<Sub>, s: Sub) {
    forall x :: x in list ==> !SameValue(x, s)
  }

  /**
   In every run, calling the function that a subscription returned takes that subscription
   away exactly when it is the earliest equal one listed, and takes nobody else's away
   exactly when it is, or when no equal one is listed at all.
   */
  lemma UnsubscribeTakesOwn(ops: seq<Op>, s: Sub)
    requires s in Run(ops).made
    ensures var before, after := ListOf(Run(ops).lists, s.event), ListOf(Run(ops + [Unsubscribing(s)]).lists, s.event);
      && (s in before && s !in after <==> EarliestListed(before, s))
      && ((forall x :: x in before && x != s ==> x in after) <==> EarliestListed(before, s) || NoEqualListed(before, s))
  {
    var b := Run(ops);
    var before := ListOf(b.lists, s.event);
    OnceAtMostOnce(ops);
    assert (ops + [Unsubscribing(s)])[..|ops|] == ops;
    var after := ListOf(Run(ops + [Unsubscribing(s)]).lists, s.event);
    assert after == RemoveFirst(before, s);
    assert InOrder(before, 0, b.made, s.event);
    Members(before, 0, b.made, s.event);
    forall x | x in before
      ensures x !in after <==> SameValue(x, s) && forall y :: y in before && SameValue(y, s) ==> x.number <= y.number
    {
      RemovalTakesEarliest(before, 0, b.made, s.event, s, x);
    }
    if !NoEqualListed(before, s) {
      var x := EarliestEqual(before, 0, b.made, s.event, s);
      assert x !in after;
      assert s in b.made && b.made[s.number] == s by {
        var i :| 0 <= i < |b.made| && b.made[i] == s;
      }
    }
  }

  lemma {:induction false} EarliestEqual(list: seq<Sub>, from: nat, made: seq<Sub>, e: Name, s: Sub) returns (x: Sub)
    requires InOrder(list, from, made, e) && !NoEqualListed(list, s)
    ensures x in list && SameValue(x, s) && forall y :: y in list && SameValue(y, s) ==> x.number <= y.number
  {
    var rest := list[1..];
    assert list == [list[0]] + rest;
    Members(rest, list[0].number + 1, made, e);
    if SameValue(list[0], s) {
      x := list[0];
    } else {
      x := EarliestEqual(rest, list[0].number + 1, made, e, s);
    }
  }

  /**
   A stale call takes another's: the function of a `once` subscription already delivered
   removes an equal one made since, which is then never delivered.
   */
  lemma StaleUnsubscribeTakesAnother(n: NewSub)
    requires n.once
    ensures var idle := (s: Sub) => [];
      var b := Run([Subscribing(n), Publishing(n.event, idle), Subscribing(n)]);
      && |b.made| == 2 && b.delivered == [0] && ListOf(b.lists, n.event) == [b.made[1]]
      && Apply(b, Unsubscribing(b.made[0])).lists == b.lists[n.event := []]
  {
    var idle := (s: Sub) => [];
    var o1, o2, o3 := Subscribing(n), Publishing(n.event, idle), Subscribing(n);
    var b1 := Apply(NEW_BUS, o1);
    var s0 := Sub(0, n.event, n.callback, n.once);
    assert [o1][..0] == [] && [o1, o2][..1] == [o1] && [o1, o2, o3][..2] == [o1, o2];
    assert Run([o1]) == b1 && ListOf(b1.lists, n.event) == [s0] && b1.made == [s0];
    assert CallAll(Touch(b1, n.event), [s0], idle) == Touch(b1, n.event).(delivered := [0]) by {
      assert [s0][1..] == [];
      CallAllStep(Touch(b1, n.event), [s0], idle);
    }
    assert Onces([s0]) == [s0] by {
      assert [s0][1..] == [] && Onces([]) == [];
    }
    assert RemoveEach([s0], [s0]) == [] by {
      assert [s0][1..] == [];
    }
    var b2 := Run([o1, o2]);
    assert b2 == Apply(b1, o2) && ListOf(b2.lists, n.event) == [] && b2.made == [s0] && b2.delivered == [0];
  }

  // ---------------------------------------------------------------------
  // The bus itself

  predicate Contains(list: seq<Sub>, s: Sub) {
    exists k :: 0 <= k < |list| && SameValue(list[k], s)
  }

  lemma {:induction false} RemoveAbsent(list: seq<Sub>, s: Sub)
    requires !Contains(list, s)
    ensures RemoveFirst(list, s) == list
  {
    if list != [] {
      assert forall k :: 0 <= k < |list| - 1 ==> list[1..][k] == list[k + 1];
      RemoveAbsent(list[1..], s);
    }
  }

  lemma CallAllStep(b: Bus, snapshot: seq<Sub>, during: Sub -> seq<NewSub>)
    requires snapshot != []
    ensures CallAll(b, snapshot, during)
      == CallAll(SubscribeAll(b.(delivered := b.delivered + [snapshot[0].number]), during(snapshot[0])),
                 snapshot[1..], during)
  {
  }

  class EventBus {
    var subscriptions: map<Name, seq<Sub>>
    var made: seq<Sub>
    ghost var delivered: seq<nat>

    ghost function State(): Bus
      reads this
    {
      Bus(subscriptions, made, delivered)
    }

    constructor ()
      ensures State() == NEW_BUS
    {
      subscriptions, made, delivered := map[], [], [];
    }

    method Subscribe(n: NewSub) returns (s: Sub)
      modifies this
      ensures State() == Apply(old(State()), Subscribing(n))
      ensures s == made[|made| - 1]
    {
      s := Sub(|made|, n.event, n.callback, n.once);
      subscriptions := subscriptions[n.event := ListOf(subscriptions, n.event) + [s]];
      made := made + [s];
    }

    /** The function that `subscribe` returns. */
    method Unsubscribe(s: Sub)
      modifies this`subscriptions
      ensures State() == Apply(old(State()), Unsubscribing(s))
    {
      var list := ListOf(subscriptions, s.event);
      if Contains(list, s) {
        subscriptions := subscriptions[s.event := RemoveFirst(list, s)];
      } else {
        RemoveAbsent(list, s);
      }
    }

    method SubscribeFrom(ns: seq<NewSub>, e: Name)
      requires e in subscriptions
      modifies this`subscriptions, this`made
      ensures State() == SubscribeAll(old(State()), ns) && e in subscriptions
    {
      ghost var was := State();
      for i := 0 to |ns|
        invariant SubscribeAll(State(), ns[i..]) == SubscribeAll(was, ns)
        invariant e in subscriptions && delivered == was.delivered
      {
        assert ns[i..][0] == ns[i] && ns[i..][1..] == ns[i + 1..];
        var s := Sub(|made|, ns[i].event, ns[i].callback, ns[i].once);
        subscriptions := subscriptions[s.event := ListOf(subscriptions, s.event) + [s]];
        made := made + [s];
      }
    }

    method RemoveAll(e: Name, toRemove: seq<Sub>)
      requires e in subscriptions
      modifies this`subscriptions
      ensures subscriptions == old(subscriptions)[e := RemoveEach(old(subscriptions)[e], toRemove)]
    {
      ghost var was := subscriptions;
      for i := 0 to |toRemove|
        invariant e in subscriptions && subscriptions == was[e := subscriptions[e]]
        invariant RemoveEach(subscriptions[e], toRemove[i..]) == RemoveEach(was[e], toRemove)
      {
        assert toRemove[i..][0] == toRemove[i] && toRemove[i..][1..] == toRemove[i + 1..];
        if Contains(subscriptions[e], toRemove[i]) {
          subscriptions := subscriptions[e := RemoveFirst(subscriptions[e], toRemove[i])];
        } else {
          RemoveAbsent(subscriptions[e], toRemove[i]);
        }
      }
    }

    /** The first loop of `publish`: the callbacks, and the subscriptions to remove. */
    method CallEach(e: Name, snapshot: seq<Sub>, during: Sub -> seq<NewSub>) returns (toRemove: seq<Sub>)
      requires e in subscriptions
      modifies this
      ensures State() == CallAll(old(State()), snapshot, during) && e in subscriptions
      ensures toRemove == Onces(snapshot)
    {
      ghost var final := CallAll(State(), snapshot, during);
      toRemove := [];
      for i := 0 to |snapshot|
        invariant CallAll(State(), snapshot[i..], during) == final
        invariant toRemove + Onces(snapshot[i..]) == Onces(snapshot)
        invariant e in subscriptions
      {
        ghost var rest := snapshot[i..];
        assert rest[0] == snapshot[i] && rest[1..] == snapshot[i + 1..];
        if snapshot[i].once {
          toRemove := toRemove + [snapshot[i]];
        } else {
          assert [] + Onces(rest[1..]) == Onces(rest[1..]);
        }
        CallAllStep(State(), rest, during);
        delivered := delivered + [snapshot[i].number];
        SubscribeFrom(during(snapshot[i]), e);
      }
      assert toRemove + [] == toRemove;
    }

    method Publish(e: Name, during: Sub -> seq<NewSub>)
      modifies this
      ensures State() == Apply(old(State()), Publishing(e, during))
    {
      var snapshot := ListOf(subscriptions, e);
      subscriptions := subscriptions[e := snapshot];
      var toRemove := CallEach(e, snapshot, during);
      RemoveAll(e, toRemove);
    }

    method ClearSubscriptions(e: Option<Name>)
      modifies this`subscriptions
      ensures State() == Apply(old(State()), Clearing(e))
    {
      if e.Some? && e.value != "" {
        subscriptions := subscriptions[e.value := []];
      } else {
        subscriptions := map[];
      }
    }
  }
}
