/**
 When the cache of dawn_kestrel/llm/evidence_sharing.py hits, read off the operations alone:
 a key is held exactly while fewer other keys than the capacity have been used since it was.
 */
module EvidenceCacheRecency {
  import opened Prelude
  import opened EvidenceCache

  function KeySet<V>(s: Store<V>): set<Key> {
    if s == [] then {} else {s[0].key} + KeySet(s[1..])
  }

  /** The keys that follow `k` in the store, all more recently used. */
  function KeysAfter<V>(s: Store<V>, k: Key): set<Key> {
    if s == [] then {} else if s[0].key == k then KeySet(s[1..]) else KeysAfter(s[1..], k)
  }

  lemma {:induction false} KeySetSize<V>(s: Store<V>, k: Key)
    requires Distinct(s)
    ensures |KeySet(s)| == |s| && (k in KeySet(s) <==> Find(s, k).Some?)
  {
    if s != [] {
      KeySetSize(s[1..], k);
      KeySetSize(s[1..], s[0].key);
    }
  }

  lemma {:induction false} KeysAfterSize<V>(s: Store<V>, k: Key)
    requires Distinct(s)
    ensures s != [] ==> |KeysAfter(s, k)| < |s|
  {
    if s != [] {
      KeySetSize(s[1..], k);
      KeysAfterSize(s[1..], k);
    }
  }

  lemma {:induction false} KeysWithout<V>(s: Store<V>, x: Key, k: Key)
    requires k != x && Distinct(s)
    ensures KeySet(Without(s, x)) == KeySet(s) - {x}
    ensures KeysAfter(Without(s, x), k) == KeysAfter(s, k) - {x}
  {
    if s != [] {
      KeysWithout(s[1..], x, k);
      assert s[0].key != x ==> Without(s, x)[1..] == Without(s[1..], x);
    }
  }

  lemma {:induction false} KeysAppended<V>(s: Store<V>, e: Entry<V>, k: Key)
    ensures KeySet(s + [e]) == KeySet(s) + {e.key}
    ensures Find(s, k).Some? ==> KeysAfter(s + [e], k) == KeysAfter(s, k) + {e.key}
    ensures Find(s, k).None? ==> KeysAfter(s + [e], k) == {}
  {
    if s == [] {
      assert s + [e] == [e] && [e][1..] == [];
    } else {
      KeysAppended(s[1..], e, k);
      assert (s + [e])[1..] == s[1..] + [e];
    }
  }

  /** Cutting the store to its last entries drops the keys that have too many after them. */
  lemma {:induction false} CutKeepsRecent<V>(s: Store<V>, cap: nat, k: Key)
    requires Distinct(s)
    ensures Find(LastN(s, cap), k).Some? <==> Find(s, k).Some? && |KeysAfter(s, k)| < cap
    ensures Find(LastN(s, cap), k).Some? ==> KeysAfter(LastN(s, cap), k) == KeysAfter(s, k)
  {
    if |s| <= cap {
      KeysAfterSize(s, k);
    } else {
      assert LastN(s, cap) == LastN(s[1..], cap);
      CutKeepsRecent(s[1..], cap, k);
      KeySetSize(s[1..], k);
      LastNFacts(s[1..], cap, k);
    }
  }

  /** A use of `e.key` makes it the latest, and puts it after every other key that stays. */
  lemma UseMovesLast<V>(s: Store<V>, cap: nat, e: Entry<V>, k: Key)
    requires Distinct(s) && cap >= 1
    ensures var t := LastN(Touch(s, e), cap);
      && (k == e.key ==> Find(t, k).Some? && KeysAfter(t, k) == {})
      && (k != e.key ==>
            && (Find(t, k).Some? <==> Find(s, k).Some? && |KeysAfter(s, k) + {e.key}| < cap)
            && (Find(t, k).Some? ==> KeysAfter(t, k) == KeysAfter(s, k) + {e.key}))
  {
    TouchFacts(s, e, k);
    CutKeepsRecent(Touch(s, e), cap, k);
    WithoutFind(s, e.key, k);
    KeysAppended(Without(s, e.key), e, k);
    if k != e.key {
      KeysWithout(s, e.key, k);
      assert KeysAfter(s, k) - {e.key} + {e.key} == KeysAfter(s, k) + {e.key};
    }
  }

  // ---------------------------------------------------------------------
  // Any run of gets, sets and clears

  /**
   The other keys used since `k` last was: by a set, or by a get of a key that is held.
   None if it has not been used since the last clear.
   */
  function OthersSince<V>(cap: nat, ops: seq<Op<V>>, k: Key): Option<set<Key>>
    decreases |ops|, 0
  {
    if ops == [] then None
    else
      var before, op := ops[..|ops| - 1], ops[|ops| - 1];
      if op.Clear? then None
      else if op.Get? && !Held(cap, before, op.key) then OthersSince(cap, before, k)
      else if op.key == k then Some({})
      else
        match OthersSince(cap, before, k)
        case None => None
        case Some(others) => Some(others + {op.key})
  }

  /** Fewer other keys than the capacity have been used since `k` was. */
  predicate Held<V>(cap: nat, ops: seq<Op<V>>, k: Key)
    decreases |ops|, 1
  {
    OthersSince(cap, ops, k).Some? && |OthersSince(cap, ops, k).value| < cap
  }

  /** What the store says of `k` is what the operations say. */
  ghost predicate Tells<V>(s: Store<V>, cap: nat, others: Option<set<Key>>, k: Key) {
    && (Find(s, k).Some? <==> others.Some? && |others.value| < cap)
    && (Find(s, k).Some? ==> KeysAfter(s, k) == others.value)
  }

  function Joined(others: Option<set<Key>>, x: Key, k: Key): Option<set<Key>> {
    if x == k then Some({}) else if others.None? then None else Some(others.value + {x})
  }

  lemma UseTells<V>(s: Store<V>, cap: nat, e: Entry<V>, others: Option<set<Key>>, k: Key)
    requires Distinct(s) && cap >= 1 && Tells(s, cap, others, k)
    ensures Tells(LastN(Touch(s, e), cap), cap, Joined(others, e.key, k), k)
  {
    UseMovesLast(s, cap, e, k);
    if others.Some? {
      Larger(others.value, e.key);
    }
  }

  lemma Larger(s: set<Key>, x: Key)
    ensures |s + {x}| >= |s|
  {
    assert s + {x} == if x in s then s else s + {x};
  }

  /**
   A key is held after a run exactly if, since it was last used, fewer other keys than the
   capacity have been used, and no clear has come; and those keys are the ones listed after it.
   */
  lemma {:induction false} HeldIffFewOthersSince<V>(cap: nat, ops: seq<Op<V>>, k: Key)
    requires cap >= 1
    ensures Find(Run(cap, ops), k).Some? <==> Held(cap, ops, k)
    ensures Tells(Run(cap, ops), cap, OthersSince(cap, ops, k), k)
    decreases |ops|
  {
    if ops != [] {
      var before, op := ops[..|ops| - 1], ops[|ops| - 1];
      var s := Run(cap, before);
      RunBounded(cap, before);
      HeldIffFewOthersSince(cap, before, k);
      match op
      case Clear =>
      case Set(x, v) => UseTells(s, cap, Entry(x, v), OthersSince(cap, before, k), k);
      case Get(x) =>
        HeldIffFewOthersSince(cap, before, x);
        if Find(s, x).Some? {
          HitTouches(s, cap, Entry(x, Find(s, x).value));
          UseTells(s, cap, Entry(x, Find(s, x).value), OthersSince(cap, before, k), k);
        }
    }
  }

  // ---------------------------------------------------------------------
  // The get-or-compute caller

  /** The other keys asked for since `k` last was; None if it was not since the last clear. */
  function CalledSince(calls: seq<Call>, k: Key): Option<set<Key>> {
    if calls == [] then None
    else
      var before, call := calls[..|calls| - 1], calls[|calls| - 1];
      if call.ClearCache? then None
      else if call.key == k then Some({})
      else
        match CalledSince(before, k)
        case None => None
        case Some(others) => Some(others + {call.key})
  }

  /** A call for `k` after `calls` needs no computation. */
  predicate Hits(cap: nat, calls: seq<Call>, k: Key) {
    CalledSince(calls, k).Some? && |CalledSince(calls, k).value| < cap
  }

  /** How many calls missed. */
  function Misses(cap: nat, calls: seq<Call>): nat {
    if calls == [] then 0
    else
      var before, call := calls[..|calls| - 1], calls[|calls| - 1];
      Misses(cap, before) + if call.Complete? && !Hits(cap, before, call.key) then 1 else 0
  }

  /** How many calls had missed before the last one for `k` that did, since the last clear. */
  function LatestMiss(cap: nat, calls: seq<Call>, k: Key): Option<nat> {
    if calls == [] then None
    else
      var before, call := calls[..|calls| - 1], calls[|calls| - 1];
      if call.ClearCache? then None
      else if call.key == k && !Hits(cap, before, k) then Some(Misses(cap, before))
      else LatestMiss(cap, before, k)
  }

  /** Whether it hits or misses, a call uses its key. */
  lemma CallUses<V>(c: Client<V>, cap: nat, provider: Provider<V>, x: Key) returns (e: Entry<V>)
    requires Distinct(c.store) && |c.store| <= cap
    ensures e.key == x && Serve(c, cap, provider, Complete(x)).store == LastN(Touch(c.store, e), cap)
  {
    if Find(c.store, x).Some? {
      e := Entry(x, Find(c.store, x).value);
      HitTouches(c.store, cap, e);
    } else {
      e := Entry(x, provider(x, c.computed));
    }
  }

  /**
   A call hits exactly if its key was asked for since the last clear and fewer other keys
   than the capacity have been asked for since, whatever the provider answers.
   */
  lemma {:induction false} HitIffFewOthersSince<V>(cap: nat, provider: Provider<V>, calls: seq<Call>, k: Key)
    requires cap >= 1
    ensures Find(ServeAll(cap, provider, calls).store, k).Some? <==> Hits(cap, calls, k)
    ensures Tells(ServeAll(cap, provider, calls).store, cap, CalledSince(calls, k), k)
  {
    if calls != [] {
      var before, call := calls[..|calls| - 1], calls[|calls| - 1];
      var c := ServeAll(cap, provider, before);
      HitIffFewOthersSince(cap, provider, before, k);
      if call.Complete? {
        ClientStoreValid(cap, provider, before, call.key);
        var e := CallUses(c, cap, provider, call.key);
        UseTells(c.store, cap, e, CalledSince(before, k), k);
        assert CalledSince(calls, k) == Joined(CalledSince(before, k), call.key, k);
      }
    }
  }

  /** The provider is asked once for each call that misses, and for no other. */
  lemma {:induction false} ComputedIsMisses<V>(cap: nat, provider: Provider<V>, calls: seq<Call>)
    requires cap >= 1
    ensures ServeAll(cap, provider, calls).computed == Misses(cap, calls)
  {
    if calls != [] {
      var before, call := calls[..|calls| - 1], calls[|calls| - 1];
      ComputedIsMisses(cap, provider, before);
      if call.Complete? {
        HitIffFewOthersSince(cap, provider, before, call.key);
      }
    }
  }

  lemma {:induction false} ComputationsAreMisses<V>(cap: nat, provider: Provider<V>, calls: seq<Call>, k: Key)
    requires cap >= 1
    ensures LatestComputation(cap, provider, calls, k) == LatestMiss(cap, calls, k)
  {
    if calls != [] {
      var before := calls[..|calls| - 1];
      ComputationsAreMisses(cap, provider, before, k);
      ComputedIsMisses(cap, provider, before);
      HitIffFewOthersSince(cap, provider, before, k);
    }
  }

  /** Every call is answered by the last computation made for its key, read off the calls alone. */
  lemma AnswersFollowTheCalls<V>(cap: nat, provider: Provider<V>, calls: seq<Call>, k: Key)
    requires cap >= 1
    ensures var all := calls + [Complete(k)];
      && LatestMiss(cap, all, k).Some?
      && ServeAll(cap, provider, all).answers ==
           ServeAll(cap, provider, calls).answers + [provider(k, LatestMiss(cap, all, k).value)]
  {
    AnswerIsLatestComputation(cap, provider, calls, k);
    ComputationsAreMisses(cap, provider, calls + [Complete(k)], k);
  }
}
