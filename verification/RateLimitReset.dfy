/**
 What a reset forgets, and what a tracker with no past admits: both trackers of
 dawn_kestrel/llm/provider_limits.py and dawn_kestrel/llm/distributed_limiter.py.
 */
module RateLimitReset {
  import opened Prelude
  import opened RateLimit
  import opened RateLimitTracker

  /** The answers to the checks of `k` in a run. */
  function LocalAnswers(m: Buckets, ls: Limits, ops: seq<Op>, k: Key): seq<Option<Verdict>>
    decreases ops
  {
    if ops == [] then []
    else
      var (m', v) := LocalStep(m, ls, ops[0]);
      (if ops[0].key == k && ops[0].Check? then [v] else []) + LocalAnswers(m', ls, ops[1..], k)
  }

  function RedisAnswers(s: Redis, ls: Limits, useRedis: bool, ops: seq<Op>, k: Key): seq<Option<Verdict>>
    decreases ops
  {
    if ops == [] then []
    else
      var (s', v) := RedisStep(s, ls, useRedis, ops[0]);
      (if ops[0].key == k && ops[0].Check? then [v] else []) + RedisAnswers(s', ls, useRedis, ops[1..], k)
  }

  /** A key's answers depend on its own bucket alone. */
  lemma {:induction false} SameBucketSameAnswers(m: Buckets, n: Buckets, ls: Limits, ops: seq<Op>, k: Key)
    requires Lookup(m, k) == Lookup(n, k)
    ensures LocalAnswers(m, ls, ops, k) == LocalAnswers(n, ls, ops, k)
    decreases ops
  {
    if ops != [] {
      SameBucketSameAnswers(LocalStep(m, ls, ops[0]).0, LocalStep(n, ls, ops[0]).0, ls, ops[1..], k);
    }
  }

  /**
   After a reset of `k`, every check of `k` is answered as by a tracker that has never been
   used, whatever happened before; and no other key notices.
   */
  lemma ResetForgets(m: Buckets, ls: Limits, k: Key, link: Link, ops: seq<Op>, x: Key)
    ensures var m' := LocalStep(m, ls, Reset(k, link)).0;
      LocalAnswers(m', ls, ops, x) == LocalAnswers(if x == k then map[] else m, ls, ops, x)
  {
    SameBucketSameAnswers(LocalStep(m, ls, Reset(k, link)).0, if x == k then map[] else m, ls, ops, x);
  }

  /** The two states behave alike for `k`. */
  ghost predicate Alike(s: Redis, t: Redis, k: Key) {
    && s.available == t.available && s.connected == t.connected && s.scriptLoaded == t.scriptLoaded
    && Lookup(s.fallback, k) == Lookup(t.fallback, k)
    && (s.available ==> Lookup(s.server, k) == Lookup(t.server, k))
  }

  lemma AlikeFallBack(s: Redis, t: Redis, ls: Limits, op: Op, k: Key)
    requires Alike(s, t, k)
    ensures Alike(FallBack(s, ls, op).0, FallBack(t, ls, op).0, k)
    ensures op.key == k ==> FallBack(s, ls, op).1 == FallBack(t, ls, op).1
  {
  }

  lemma AlikeEval(s: Redis, t: Redis, ls: Limits, x: Key, r: Request, k: Key)
    requires Alike(s, t, k) && s.available
    ensures Alike(Eval(s, ls, x, r).0, Eval(t, ls, x, r).0, k)
    ensures x == k ==> Eval(s, ls, x, r).1 == Eval(t, ls, x, r).1
  {
  }

  lemma AlikeStep(s: Redis, t: Redis, ls: Limits, useRedis: bool, op: Op, k: Key)
    requires Alike(s, t, k)
    ensures Alike(RedisStep(s, ls, useRedis, op).0, RedisStep(t, ls, useRedis, op).0, k)
    ensures op.key == k ==> RedisStep(s, ls, useRedis, op).1 == RedisStep(t, ls, useRedis, op).1
  {
    match op
    case Check(x, r, link) =>
      if !s.available || !useRedis {
        AlikeFallBack(s, t, ls, op, k);
      } else if !s.connected && link.ConnectFails? {
        AlikeFallBack(
          s.(available := false, connected := true), t.(available := false, connected := true), ls, op, k);
      } else {
        AlikeReached(s.(connected := true), t.(connected := true), ls, op, k);
      }
    case Reset(x, link) =>
      AlikeReset(s, t, ls, useRedis, op, k);
  }

  /** A check that reaches a connected server. */
  lemma AlikeReached(s: Redis, t: Redis, ls: Limits, op: Op, k: Key)
    requires Alike(s, t, k) && op.Check? && s.available && s.connected
    ensures Alike(RedisStep(s, ls, true, op).0, RedisStep(t, ls, true, op).0, k)
    ensures op.key == k ==> RedisStep(s, ls, true, op).1 == RedisStep(t, ls, true, op).1
  {
    if !s.scriptLoaded && op.link.LoadFails? {
      AlikeFallBack(s, t, ls, op, k);
    } else {
      var s2, t2 := s.(scriptLoaded := true), t.(scriptLoaded := true);
      AlikeEval(s2, t2, ls, op.key, op.request, k);
      if op.link.EvalFails? {
        AlikeFallBack(s2.(available := false), t2.(available := false), ls, op, k);
      } else if op.link.ReplyLost? {
        AlikeFallBack(
          Eval(s2, ls, op.key, op.request).0.(available := false),
          Eval(t2, ls, op.key, op.request).0.(available := false), ls, op, k);
      }
    }
  }

  lemma AlikeReset(s: Redis, t: Redis, ls: Limits, useRedis: bool, op: Op, k: Key)
    requires Alike(s, t, k) && op.Reset?
    ensures Alike(RedisStep(s, ls, useRedis, op).0, RedisStep(t, ls, useRedis, op).0, k)
    ensures op.key == k ==> RedisStep(s, ls, useRedis, op).1 == RedisStep(t, ls, useRedis, op).1
  {
    if !s.available {
      AlikeFallBack(s, t, ls, op, k);
    } else if !s.connected && op.link.ConnectFails? {
      AlikeFallBack(
        s.(available := false, connected := true), t.(available := false, connected := true), ls, op, k);
    } else if op.link.EvalFails? {
      AlikeFallBack(s.(connected := true), t.(connected := true), ls, op, k);
    } else {
      AlikeFallBack(
        s.(connected := true, server := s.server - {op.key}),
        t.(connected := true, server := t.server - {op.key}), ls, op, k);
    }
  }

  lemma {:induction false} AlikeSameAnswers(s: Redis, t: Redis, ls: Limits, useRedis: bool, ops: seq<Op>, k: Key)
    requires Alike(s, t, k)
    ensures RedisAnswers(s, ls, useRedis, ops, k) == RedisAnswers(t, ls, useRedis, ops, k)
    decreases ops
  {
    if ops != [] {
      AlikeStep(s, t, ls, useRedis, ops[0], k);
      AlikeSameAnswers(
        RedisStep(s, ls, useRedis, ops[0]).0, RedisStep(t, ls, useRedis, ops[0]).0, ls, useRedis, ops[1..], k);
    }
  }

  /**
   After a reset of `k`, unless its deletion on an available server failed, every check of
   `k` is answered as if neither the server nor the fallback had ever held a bucket.
   */
  lemma RedisResetForgets(s: Redis, ls: Limits, useRedis: bool, k: Key, link: Link, ops: seq<Op>)
    requires !(s.available && link.EvalFails?)
    ensures var s' := RedisStep(s, ls, useRedis, Reset(k, link)).0;
      RedisAnswers(s', ls, useRedis, ops, k) ==
      RedisAnswers(s'.(server := map[], fallback := map[]), ls, useRedis, ops, k)
  {
    var s' := RedisStep(s, ls, useRedis, Reset(k, link)).0;
    AlikeSameAnswers(s', s'.(server := map[], fallback := map[]), ls, useRedis, ops, k);
  }

  /** A failed deletion is swallowed: a key that has used up its limit stays denied after its reset. */
  lemma FailedDeletionForgetsNothing()
    ensures var ls, check := Limits(map[], 1), Check("k", Request(1, 0.0, 0.0), Healthy);
      var used := RedisStep(FRESH_REDIS, ls, true, check).0;
      && RedisStep(FRESH_REDIS, ls, true, check).1 == Some(Allowed)
      && RedisStep(RedisStep(used, ls, true, Reset("k", EvalFails)).0, ls, true, check).1.value.Denied?
      && RedisStep(RedisStep(used, ls, true, Reset("k", Healthy)).0, ls, true, check).1 == Some(Allowed)
  {
    var ls, r := Limits(map[], 1), Request(1, 0.0, 0.0);
    var l := ls.For("k");
    assert l == Limit(1.0, 1.0 / 60.0) && Gain(0.0, l.rate) == 0.0;
    assert LuaCheck(None, l, r) == (LuaEntry(0.0, 0.0, TTL), Allowed);
    assert LuaCheck(Some(LuaEntry(0.0, 0.0, TTL)), l, r).1.Denied?;
  }

  // ---------------------------------------------------------------------
  // No past

  /** The checks of `k` ask for one each, at one instant. */
  ghost predicate UnitChecks(ops: seq<Op>, k: Key, now: real) {
    forall op :: op in ops && op.key == k ==> op.Check? && op.request.cost == 1 && op.request.now == now
  }

  function ChecksOf(ops: seq<Op>, k: Key): nat {
    if ops == [] then 0 else (if ops[0].key == k then 1 else 0) + ChecksOf(ops[1..], k)
  }

  /** The requests per minute a key is allowed: its own, or the default. */
  function Allowance(ls: Limits, k: Key): int {
    if k in ls.table then ls.table[k] else ls.default
  }

  /** How many of `asked` unit requests `tokens` tokens admit. */
  function Admits(tokens: int, asked: int): int {
    if tokens <= 0 then 0 else Min(tokens, asked)
  }

  lemma UnitTail(ops: seq<Op>, k: Key, now: real)
    requires ops != [] && UnitChecks(ops, k, now)
    ensures UnitChecks(ops[1..], k, now)
    ensures ops[0].key == k ==> ops[0].Check? && ops[0].request.cost == 1 && ops[0].request.now == now
  {
    assert ops[0] in ops;
  }

  lemma UnitCheck(b: Option<Bucket>, l: Limit, r: Request, tokens: int)
    requires r.cost == 1 && tokens as real <= l.capacity
    requires Balance(b, l, r.now) == tokens as real
    ensures var (b', v) := LocalCheck(b, l, r);
      && (v.Allowed? <==> tokens >= 1)
      && b'.lastRefill == r.now
      && Balance(Some(b'), l, r.now) == (if tokens >= 1 then tokens - 1 else tokens) as real
  {
    var b' := LocalCheck(b, l, r).0;
    assert Gain(0.0, l.rate) == 0.0;
    assert r.now - b'.lastRefill == 0.0;
  }

  lemma {:induction false} UnitChecksAdmit(m: Buckets, ls: Limits, ops: seq<Op>, k: Key, now: real, tokens: int)
    requires UnitChecks(ops, k, now) && tokens as real <= ls.For(k).capacity
    requires Balance(Lookup(m, k), ls.For(k), now) == tokens as real
    ensures LocalAdmitted(m, ls, ops, k) == Admits(tokens, ChecksOf(ops, k))
    decreases ops
  {
    if ops != [] {
      UnitTail(ops, k, now);
      var m' := LocalStep(m, ls, ops[0]).0;
      if ops[0].key == k {
        UnitCheck(Lookup(m, k), ls.For(k), ops[0].request, tokens);
        UnitChecksAdmit(m', ls, ops[1..], k, now, if tokens >= 1 then tokens - 1 else tokens);
      } else {
        UnitChecksAdmit(m', ls, ops[1..], k, now, tokens);
      }
    }
  }

  /**
   A tracker with no past admits, of any number of unit requests for a key at one instant and
   whatever else is asked meanwhile, exactly as many as the key's requests per minute.
   */
  lemma FreshAdmitsTheLimit(ls: Limits, ops: seq<Op>, k: Key, now: real)
    requires UnitChecks(ops, k, now)
    ensures LocalAdmitted(map[], ls, ops, k) == Admits(Allowance(ls, k), ChecksOf(ops, k))
  {
    UnitChecksAdmit(map[], ls, ops, k, now, Allowance(ls, k));
  }

  ghost predicate AllHealthy(ops: seq<Op>) {
    forall op :: op in ops ==> op.link.Healthy?
  }

  lemma UnitLuaCheck(e: Option<LuaEntry>, l: Limit, r: Request, tokens: int)
    requires r.cost == 1 && tokens as real <= l.capacity
    requires e.Some? ==> e.value == LuaEntry(tokens as real, r.now, r.now + TTL)
    requires e.None? ==> l.capacity == tokens as real
    ensures var (e', v) := LuaCheck(e, l, r);
      && (v.Allowed? <==> tokens >= 1)
      && e' == LuaEntry((if tokens >= 1 then tokens - 1 else tokens) as real, r.now, r.now + TTL)
  {
    assert Gain(0.0, l.rate) == 0.0;
    assert r.now - r.now == 0.0;
  }

  lemma {:induction false} UnitChecksAdmitOnRedis(s: Redis, ls: Limits, ops: seq<Op>, k: Key, now: real, tokens: int)
    requires UnitChecks(ops, k, now) && tokens as real <= ls.For(k).capacity && AllHealthy(ops) && s.available
    requires k in s.server ==> s.server[k] == LuaEntry(tokens as real, now, now + TTL)
    requires k !in s.server ==> ls.For(k).capacity == tokens as real
    ensures RedisAdmitted(s, ls, true, ops, k) == Admits(tokens, ChecksOf(ops, k))
    decreases ops
  {
    if ops != [] {
      UnitTail(ops, k, now);
      assert ops[0] in ops;
      var s' := RedisStep(s, ls, true, ops[0]).0;
      if ops[0].key == k {
        UnitLuaCheck(Lookup(s.server, k), ls.For(k), ops[0].request, tokens);
        UnitChecksAdmitOnRedis(s', ls, ops[1..], k, now, if tokens >= 1 then tokens - 1 else tokens);
      } else {
        UnitChecksAdmitOnRedis(s', ls, ops[1..], k, now, tokens);
      }
    }
  }

  /** And so does the Redis tracker while its connection holds. */
  lemma FreshRedisAdmitsTheLimit(ls: Limits, ops: seq<Op>, k: Key, now: real)
    requires UnitChecks(ops, k, now) && AllHealthy(ops)
    ensures RedisAdmitted(FRESH_REDIS, ls, true, ops, k) == Admits(Allowance(ls, k), ChecksOf(ops, k))
  {
    UnitChecksAdmitOnRedis(FRESH_REDIS, ls, ops, k, now, Allowance(ls, k));
  }
}
