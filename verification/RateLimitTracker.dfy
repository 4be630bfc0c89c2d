/**
 The trackers over many keys: LocalRateLimitTracker in
 dawn_kestrel/llm/provider_limits.py and RedisRateLimitTracker, with its
 fallback, in dawn_kestrel/llm/distributed_limiter.py. The main results bound
 the cost admitted for a key over any window of a run.
 */
module RateLimitTracker {
  import opened Prelude
  import opened RateLimit

  /** The requests per minute of each provider, with the default for the others. */
  datatype Limits = Limits(table: map<Key, int>, default: int) {
    function For(k: Key): Limit {
      LimitOf(if k in table then table[k] else default)
    }
  }

  function Lookup<V>(m: map<Key, V>, k: Key): Option<V> {
    if k in m then Some(m[k]) else None
  }

  /** How the connection to Redis behaves during one call. */
  datatype Link =
    | Healthy
    | ConnectFails  // the first connection is refused
    | LoadFails     // the script cannot be loaded
    | EvalFails     // the script does not run
    | ReplyLost     // the script runs but its reply does not arrive

  datatype Op = Check(key: Key, request: Request, link: Link) | Reset(key: Key, link: Link)

  /** The cost an answered operation admitted for `k`. */
  function Cost(op: Op, v: Option<Verdict>, k: Key): int {
    if op.Check? && op.key == k && v == Some(Allowed) then op.request.cost else 0
  }

  /** The checks of `ops` have times in order between `from` and `to`. */
  ghost predicate InOrder(from: real, ops: seq<Op>, to: real)
    decreases ops
  {
    if ops == [] then from <= to
    else if ops[0].Check? then from <= ops[0].request.now && InOrder(ops[0].request.now, ops[1..], to)
    else InOrder(from, ops[1..], to)
  }

  /** A window for `k`: nothing resets the key, and its requests have costs of at least zero. */
  ghost predicate Undisturbed(k: Key, ops: seq<Op>) {
    forall op :: op in ops && op.key == k ==> op.Check? && op.request.cost >= 0
  }

  lemma UndisturbedTail(k: Key, ops: seq<Op>)
    requires ops != [] && Undisturbed(k, ops)
    ensures ops[0].key == k ==> ops[0].Check? && ops[0].request.cost >= 0
    ensures Undisturbed(k, ops[1..])
  {
    assert ops[0] in ops;
  }

  lemma {:induction false} InOrderEnds(from: real, ops: seq<Op>, to: real)
    requires InOrder(from, ops, to)
    ensures from <= to
    decreases ops
  {
    if ops != [] {
      InOrderEnds(if ops[0].Check? then ops[0].request.now else from, ops[1..], to);
    }
  }

  /** The clock after an operation that started no earlier than `t`. */
  function Clock(t: real, op: Op): real {
    if op.Check? then op.request.now else t
  }

  // ---------------------------------------------------------------------
  // One bucket, seen as a supply of tokens

  lemma BalanceGrows(b: Option<Bucket>, l: Limit, t: real, u: real)
    requires Positive(l) && ValidAt(b, t) && t <= u
    ensures Balance(b, l, u) <= Balance(b, l, t) + Gain(u - t, l.rate)
    ensures ValidAt(b, u) && Gain(u - t, l.rate) >= 0.0
  {
    RefillComposes(b, l, t, u);
    GainFacts(0.0, u - t, l.rate);
  }

  /** What a check admits comes out of the balance it had and the tokens that flowed in. */
  lemma CheckSpends(b: Option<Bucket>, l: Limit, t: real, r: Request)
    requires Positive(l) && ValidAt(b, t) && t <= r.now && r.cost >= 0
    ensures var b' := Some(LocalCheck(b, l, r).0);
      var v := LocalCheck(b, l, r).1;
      && ValidAt(b', r.now)
      && (if v.Allowed? then r.cost as real else 0.0) + Balance(b', l, r.now)
         <= Balance(b, l, t) + Gain(r.now - t, l.rate)
  {
    BalanceGrows(b, l, t, r.now);
    CheckBalance(b, l, r);
  }

  // ---------------------------------------------------------------------
  // The local tracker

  type Buckets = map<Key, Bucket>

  function LocalStep(m: Buckets, ls: Limits, op: Op): (Buckets, Option<Verdict>) {
    match op
    case Check(k, r, _) =>
      var (b, v) := LocalCheck(Lookup(m, k), ls.For(k), r);
      (m[k := b], Some(v))
    case Reset(k, _) => (m - {k}, None)
  }

  function LocalFinal(m: Buckets, ls: Limits, ops: seq<Op>): Buckets
    decreases ops
  {
    if ops == [] then m else LocalFinal(LocalStep(m, ls, ops[0]).0, ls, ops[1..])
  }

  function LocalAdmitted(m: Buckets, ls: Limits, ops: seq<Op>, k: Key): int
    decreases ops
  {
    if ops == [] then 0
    else
      var (m', v) := LocalStep(m, ls, ops[0]);
      Cost(ops[0], v, k) + LocalAdmitted(m', ls, ops[1..], k)
  }

  lemma {:induction false} LocalReachesValid(m: Buckets, ls: Limits, t: real, ops: seq<Op>, u: real, k: Key)
    requires Positive(ls.For(k)) && ValidAt(Lookup(m, k), t) && InOrder(t, ops, u)
    ensures ValidAt(Lookup(LocalFinal(m, ls, ops), k), u)
    decreases ops
  {
    InOrderEnds(t, ops, u);
    if ops != [] {
      var op := ops[0];
      InOrderEnds(Clock(t, op), ops[1..], u);
      if op.Check? && op.key == k {
        BalanceGrows(Lookup(m, k), ls.For(k), t, op.request.now);
        CheckBalance(Lookup(m, k), ls.For(k), op.request);
      }
      LocalReachesValid(LocalStep(m, ls, op).0, ls, Clock(t, op), ops[1..], u, k);
    }
  }

  lemma {:induction false} LocalWindow(m: Buckets, ls: Limits, t: real, ops: seq<Op>, u: real, k: Key)
    requires Positive(ls.For(k)) && ValidAt(Lookup(m, k), t) && InOrder(t, ops, u) && Undisturbed(k, ops)
    ensures LocalAdmitted(m, ls, ops, k) as real <=
      Balance(Lookup(m, k), ls.For(k), t) + Gain(u - t, ls.For(k).rate)
    decreases ops
  {
    var l := ls.For(k);
    InOrderEnds(t, ops, u);
    BalanceGrows(Lookup(m, k), l, t, u);
    if ops == [] {
      BalanceInRange(Lookup(m, k), l, t);
    } else {
      var op := ops[0];
      var t' := Clock(t, op);
      UndisturbedTail(k, ops);
      InOrderEnds(t', ops[1..], u);
      GainFacts(t' - t, u - t', l.rate);
      BalanceGrows(Lookup(m, k), l, t, t');
      if op.key == k {
        CheckSpends(Lookup(m, k), l, t, op.request);
      }
      LocalWindow(LocalStep(m, ls, op).0, ls, t', ops[1..], u, k);
    }
  }

  /**
   Sliding window. After any history, the cost admitted for a key over a window
   from `t1` to `t2` is at most the capacity plus what flows in meanwhile.
   */
  lemma LocalSlidingWindow(
      ls: Limits, t0: real, history: seq<Op>, t1: real, window: seq<Op>, t2: real, k: Key)
    requires Positive(ls.For(k))
    requires InOrder(t0, history, t1) && InOrder(t1, window, t2) && Undisturbed(k, window)
    ensures LocalAdmitted(LocalFinal(map[], ls, history), ls, window, k) as real
      <= ls.For(k).capacity + Gain(t2 - t1, ls.For(k).rate)
  {
    var m := LocalFinal(map[], ls, history);
    LocalReachesValid(map[], ls, t0, history, t1, k);
    BalanceInRange(Lookup(m, k), ls.For(k), t1);
    LocalWindow(m, ls, t1, window, t2, k);
  }

  /** With costs of at least zero on its key, a bucket always holds between nothing and its capacity. */
  lemma {:induction false} TokensStayInRange(m: Buckets, ls: Limits, t: real, ops: seq<Op>, u: real, k: Key)
    requires Positive(ls.For(k)) && InOrder(t, ops, u)
    requires ValidAt(Lookup(m, k), t) && (k in m ==> m[k].tokens <= ls.For(k).capacity)
    requires forall op :: op in ops && op.Check? && op.key == k ==> op.request.cost >= 0
    ensures var m' := LocalFinal(m, ls, ops);
      k in m' ==> 0.0 <= m'[k].tokens <= ls.For(k).capacity
    decreases ops
  {
    if ops != [] {
      var op := ops[0];
      assert op in ops;
      InOrderEnds(Clock(t, op), ops[1..], u);
      if op.Check? && op.key == k {
        BalanceGrows(Lookup(m, k), ls.For(k), t, op.request.now);
        BalanceInRange(Lookup(m, k), ls.For(k), op.request.now);
        CheckBalance(Lookup(m, k), ls.For(k), op.request);
      }
      TokensStayInRange(LocalStep(m, ls, op).0, ls, Clock(t, op), ops[1..], u, k);
    }
  }

  /** LocalRateLimitTracker, and _LocalFallbackTracker with the same body. */
  class LocalTracker {
    const limits: Limits
    var buckets: Buckets

    constructor (limits: Limits)
      ensures this.limits == limits && buckets == map[]
    {
      this.limits := limits;
      buckets := map[];
    }

    method CheckAllowed(key: Key, r: Request) returns (v: Verdict)
      modifies this
      ensures (buckets, Some(v)) == LocalStep(old(buckets), limits, Check(key, r, Healthy))
    {
      var limit := limits.For(key);
      if key !in buckets {
        buckets := buckets[key := Bucket(limit.capacity, r.now)];
      }
      var bucket := buckets[key];
      var elapsed := r.now - bucket.lastRefill;
      assert Gain(0.0, limit.rate) == 0.0;
      var tokens := MinReal(limit.capacity, bucket.tokens + elapsed * limit.rate);
      assert tokens == Balance(Lookup(old(buckets), key), limit, r.now);
      buckets := buckets[key := Bucket(tokens, r.now)];
      if tokens >= r.cost as real {
        buckets := buckets[key := Bucket(tokens - r.cost as real, r.now)];
        assert buckets == old(buckets)[key := buckets[key]];
        return Allowed;
      }
      assert buckets == old(buckets)[key := buckets[key]];
      var needed := r.cost as real - tokens;
      if limit.rate == 0.0 {
        return ZeroDivision;
      }
      v := Denied(Seconds(needed / limit.rate + r.jitter));
    }

    method Reset(key: Key)
      modifies this
      ensures buckets == LocalStep(old(buckets), limits, Op.Reset(key, Healthy)).0
    {
      buckets := buckets - {key};
    }
  }

  // ---------------------------------------------------------------------
  // The Redis tracker and its failover

  datatype Redis = Redis(
    available: bool, connected: bool, scriptLoaded: bool, server: map<Key, LuaEntry>, fallback: Buckets)

  const FRESH_REDIS := Redis(true, false, false, map[], map[])

  function FallBack(s: Redis, ls: Limits, op: Op): (Redis, Option<Verdict>) {
    var (m, v) := LocalStep(s.fallback, ls, op);
    (s.(fallback := m), v)
  }

  function Eval(s: Redis, ls: Limits, k: Key, r: Request): (Redis, Option<Verdict>) {
    var (e, v) := LuaCheck(Lookup(s.server, k), ls.For(k), r);
    (s.(server := s.server[k := e]), Some(v))
  }

  /** One call of the Redis tracker; `useRedis` is its fallback_on_error option. */
  function RedisStep(s: Redis, ls: Limits, useRedis: bool, op: Op): (Redis, Option<Verdict>) {
    match op
    case Check(k, r, link) =>
      if !s.available || !useRedis then FallBack(s, ls, op)
      else if !s.connected && link.ConnectFails? then
        FallBack(s.(available := false, connected := true), ls, op)
      else
        var s1 := s.(connected := true);
        if !s1.scriptLoaded && link.LoadFails? then FallBack(s1, ls, op)
        else
          var s2 := s1.(scriptLoaded := true);
          if link.EvalFails? then FallBack(s2.(available := false), ls, op)
          else if link.ReplyLost? then FallBack(Eval(s2, ls, k, r).0.(available := false), ls, op)
          else Eval(s2, ls, k, r)
    case Reset(k, link) =>
      var s1 :=
        if !s.available then s
        else if !s.connected && link.ConnectFails? then s.(available := false, connected := true)
        else if link.EvalFails? then s.(connected := true)
        else s.(connected := true, server := s.server - {k});
      FallBack(s1, ls, op)
  }

  function RedisFinal(s: Redis, ls: Limits, useRedis: bool, ops: seq<Op>): Redis
    decreases ops
  {
    if ops == [] then s else RedisFinal(RedisStep(s, ls, useRedis, ops[0]).0, ls, useRedis, ops[1..])
  }

  function RedisAdmitted(s: Redis, ls: Limits, useRedis: bool, ops: seq<Op>, k: Key): int
    decreases ops
  {
    if ops == [] then 0
    else
      var (s', v) := RedisStep(s, ls, useRedis, ops[0]);
      Cost(ops[0], v, k) + RedisAdmitted(s', ls, useRedis, ops[1..], k)
  }

  /** The server's entry as the bucket it stands for. */
  function ServerBucket(s: Redis, k: Key): Option<Bucket> {
    if k in s.server then Some(Bucket(s.server[k].tokens, s.server[k].lastRefill)) else None
  }

  ghost predicate RedisValid(s: Redis, k: Key, t: real) {
    && ValidAt(Lookup(s.fallback, k), t)
    && ValidAt(ServerBucket(s, k), t)
    && LuaMatches(Lookup(s.server, k), ServerBucket(s, k))
  }

  /** Whether a call gets the server to run its script. */
  predicate ScriptRuns(s: Redis, useRedis: bool, link: Link) {
    && s.available && useRedis
    && (s.connected || !link.ConnectFails?)
    && (s.scriptLoaded || !link.LoadFails?)
    && !link.EvalFails?
  }

  predicate AnsweredByServer(s: Redis, useRedis: bool, link: Link) {
    ScriptRuns(s, useRedis, link) && !link.ReplyLost?
  }

  /** Whether a call that fails makes the tracker give the server up. */
  predicate GivesUp(s: Redis, link: Link) {
    (!s.connected && link.ConnectFails?) || link.EvalFails? || link.ReplyLost?
  }

  lemma OtherKeysUntouched(s: Redis, ls: Limits, useRedis: bool, op: Op, k: Key)
    requires op.key != k
    ensures var s' := RedisStep(s, ls, useRedis, op).0;
      && Lookup(s'.server, k) == Lookup(s.server, k)
      && Lookup(s'.fallback, k) == Lookup(s.fallback, k)
      && ServerBucket(s', k) == ServerBucket(s, k)
  {
  }

  /**
   A check is answered by exactly one of the two buckets, the server's when the reply of its
   script arrives; a lost reply also spends on the server; and the server is given up exactly
   when the connection, the script's run or its reply fails.
   */
  lemma CheckCases(s: Redis, ls: Limits, useRedis: bool, k: Key, r: Request, link: Link)
    ensures var s' := RedisStep(s, ls, useRedis, Check(k, r, link)).0;
      var v := RedisStep(s, ls, useRedis, Check(k, r, link)).1;
      var lua := LuaCheck(Lookup(s.server, k), ls.For(k), r);
      var local := LocalCheck(Lookup(s.fallback, k), ls.For(k), r);
      && Lookup(s'.server, k) == (if ScriptRuns(s, useRedis, link) then Some(lua.0) else Lookup(s.server, k))
      && (s'.available <==> s.available && !(useRedis && GivesUp(s, link)))
      && if AnsweredByServer(s, useRedis, link) then
           Lookup(s'.fallback, k) == Lookup(s.fallback, k) && v == Some(lua.1)
         else
           Lookup(s'.fallback, k) == Some(local.0) && v == Some(local.1)
  {
  }

  lemma ServerBucketIsLookup(s: Redis, k: Key)
    ensures ServerBucket(s, k) ==
      match Lookup(s.server, k) { case None => None case Some(e) => Some(Bucket(e.tokens, e.lastRefill)) }
  {
  }

  /** What a check on `k` admits comes out of the supply of the bucket that answers it. */
  lemma CheckStepSpends(s: Redis, ls: Limits, useRedis: bool, r: Request, link: Link, k: Key, t: real)
    requires Positive(ls.For(k)) && RedisValid(s, k, t) && t <= r.now && r.cost >= 0
    ensures StepSpends(s, ls, useRedis, Check(k, r, link), k, t)
  {
    var op := Check(k, r, link);
    var l, s' := ls.For(k), RedisStep(s, ls, useRedis, op).0;
    BalanceGrows(Lookup(s.fallback, k), l, t, r.now);
    BalanceGrows(ServerBucket(s, k), l, t, r.now);
    CheckCases(s, ls, useRedis, k, r, link);
    ServerBucketIsLookup(s, k);
    ServerBucketIsLookup(s', k);
    CheckSpends(Lookup(s.fallback, k), l, t, r);
    CheckSpends(ServerBucket(s, k), l, t, r);
    LuaStepMatches(Lookup(s.server, k), ServerBucket(s, k), l, r);
  }

  /** The supplies after a step, and the one that paid for what was admitted. */
  ghost predicate StepSpends(s: Redis, ls: Limits, useRedis: bool, op: Op, k: Key, t: real) {
    var s' := RedisStep(s, ls, useRedis, op).0;
    var c := Cost(op, RedisStep(s, ls, useRedis, op).1, k) as real;
    var l, u := ls.For(k), Clock(t, op);
    var server := Balance(ServerBucket(s, k), l, t) + Gain(u - t, l.rate);
    var local := Balance(Lookup(s.fallback, k), l, t) + Gain(u - t, l.rate);
    var server' := Balance(ServerBucket(s', k), l, u);
    var local' := Balance(Lookup(s'.fallback, k), l, u);
    && RedisValid(s', k, u)
    && server' <= server && local' <= local
    && (c + server' <= server || c + local' <= local)
    && (s'.available && useRedis && (s.scriptLoaded || !op.link.LoadFails?) ==> c + server' <= server)
    && (!s'.available || !useRedis ==> c + local' <= local)
  }

  lemma RedisStepSpends(s: Redis, ls: Limits, useRedis: bool, op: Op, k: Key, t: real)
    requires Positive(ls.For(k)) && RedisValid(s, k, t) && t <= Clock(t, op)
    requires op.key == k ==> op.Check? && op.request.cost >= 0
    ensures StepSpends(s, ls, useRedis, op, k, t)
  {
    if op.key == k {
      CheckStepSpends(s, ls, useRedis, op.request, op.link, k, t);
    } else {
      var l, u := ls.For(k), Clock(t, op);
      BalanceGrows(Lookup(s.fallback, k), l, t, u);
      BalanceGrows(ServerBucket(s, k), l, t, u);
      OtherKeysUntouched(s, ls, useRedis, op, k);
    }
  }

  ghost predicate NoLoadFailure(ops: seq<Op>) {
    forall op :: op in ops ==> !op.link.LoadFails?
  }

  /** The supply left for `k` when failover can only go one way. */
  function OneWaySupply(s: Redis, useRedis: bool, k: Key, l: Limit, t: real): real {
    if s.available && useRedis then l.capacity + Balance(ServerBucket(s, k), l, t)
    else Balance(Lookup(s.fallback, k), l, t)
  }

  lemma OneWayStep(s: Redis, ls: Limits, useRedis: bool, op: Op, k: Key, t: real)
    requires Positive(ls.For(k)) && RedisValid(s, k, t) && t <= Clock(t, op)
    requires op.key == k ==> op.Check? && op.request.cost >= 0
    requires s.scriptLoaded || !op.link.LoadFails?
    ensures var s' := RedisStep(s, ls, useRedis, op).0;
      && RedisValid(s', k, Clock(t, op)) && (s.scriptLoaded ==> s'.scriptLoaded)
      && Cost(op, RedisStep(s, ls, useRedis, op).1, k) as real
         + OneWaySupply(s', useRedis, k, ls.For(k), Clock(t, op))
         <= OneWaySupply(s, useRedis, k, ls.For(k), t) + Gain(Clock(t, op) - t, ls.For(k).rate)
  {
    var l := ls.For(k);
    RedisStepSpends(s, ls, useRedis, op, k, t);
    BalanceInRange(ServerBucket(s, k), l, t);
    BalanceInRange(Lookup(s.fallback, k), l, t);
    assert RedisStep(s, ls, useRedis, op).0.available ==> s.available;
  }

  lemma {:induction false} OneWayWindow(
      s: Redis, ls: Limits, useRedis: bool, t: real, ops: seq<Op>, u: real, k: Key)
    requires Positive(ls.For(k)) && RedisValid(s, k, t) && InOrder(t, ops, u) && Undisturbed(k, ops)
    requires s.scriptLoaded || NoLoadFailure(ops)
    ensures RedisAdmitted(s, ls, useRedis, ops, k) as real
      <= OneWaySupply(s, useRedis, k, ls.For(k), t) + Gain(u - t, ls.For(k).rate)
    decreases ops
  {
    var l := ls.For(k);
    InOrderEnds(t, ops, u);
    BalanceInRange(ServerBucket(s, k), l, t);
    BalanceInRange(Lookup(s.fallback, k), l, t);
    if ops == [] {
      GainFacts(0.0, u - t, l.rate);
    } else {
      var op := ops[0];
      var t' := Clock(t, op);
      assert op in ops;
      UndisturbedTail(k, ops);
      InOrderEnds(t', ops[1..], u);
      GainFacts(t' - t, u - t', l.rate);
      OneWayStep(s, ls, useRedis, op, k, t);
      OneWayWindow(RedisStep(s, ls, useRedis, op).0, ls, useRedis, t', ops[1..], u, k);
    }
  }

  lemma {:induction false} TwoWayWindow(
      s: Redis, ls: Limits, useRedis: bool, t: real, ops: seq<Op>, u: real, k: Key)
    requires Positive(ls.For(k)) && RedisValid(s, k, t) && InOrder(t, ops, u) && Undisturbed(k, ops)
    ensures RedisAdmitted(s, ls, useRedis, ops, k) as real
      <= Balance(ServerBucket(s, k), ls.For(k), t) + Balance(Lookup(s.fallback, k), ls.For(k), t)
         + 2.0 * Gain(u - t, ls.For(k).rate)
    decreases ops
  {
    var l := ls.For(k);
    InOrderEnds(t, ops, u);
    BalanceInRange(ServerBucket(s, k), l, t);
    BalanceInRange(Lookup(s.fallback, k), l, t);
    if ops == [] {
      GainFacts(0.0, u - t, l.rate);
    } else {
      var op := ops[0];
      var t' := Clock(t, op);
      UndisturbedTail(k, ops);
      InOrderEnds(t', ops[1..], u);
      GainFacts(t' - t, u - t', l.rate);
      RedisStepSpends(s, ls, useRedis, op, k, t);
      TwoWayWindow(RedisStep(s, ls, useRedis, op).0, ls, useRedis, t', ops[1..], u, k);
    }
  }

  lemma {:induction false} RedisReachesValid(
      s: Redis, ls: Limits, useRedis: bool, t: real, ops: seq<Op>, u: real, k: Key)
    requires Positive(ls.For(k)) && RedisValid(s, k, t) && InOrder(t, ops, u)
    ensures RedisValid(RedisFinal(s, ls, useRedis, ops), k, u)
    decreases ops
  {
    InOrderEnds(t, ops, u);
    if ops != [] {
      var op := ops[0];
      InOrderEnds(Clock(t, op), ops[1..], u);
      RedisStepValid(s, ls, useRedis, op, k, t);
      RedisReachesValid(RedisStep(s, ls, useRedis, op).0, ls, useRedis, Clock(t, op), ops[1..], u, k);
    }
  }

  lemma RedisStepValid(s: Redis, ls: Limits, useRedis: bool, op: Op, k: Key, t: real)
    requires Positive(ls.For(k)) && RedisValid(s, k, t) && t <= Clock(t, op)
    ensures RedisValid(RedisStep(s, ls, useRedis, op).0, k, Clock(t, op))
  {
    var l := ls.For(k);
    if op.key != k {
      OtherKeysUntouched(s, ls, useRedis, op, k);
    } else if op.Check? {
      var r, s' := op.request, RedisStep(s, ls, useRedis, op).0;
      BalanceGrows(Lookup(s.fallback, k), l, t, r.now);
      BalanceGrows(ServerBucket(s, k), l, t, r.now);
      CheckCases(s, ls, useRedis, k, r, op.link);
      ServerBucketIsLookup(s, k);
      ServerBucketIsLookup(s', k);
      CheckBalance(Lookup(s.fallback, k), l, r);
      CheckBalance(ServerBucket(s, k), l, r);
      LuaStepMatches(Lookup(s.server, k), ServerBucket(s, k), l, r);
    }
  }

  /** The supply left for `k`: while the script is not loaded, both buckets and one more refill. */
  function Supply(s: Redis, useRedis: bool, k: Key, l: Limit, t: real): real {
    if s.available && useRedis && !s.scriptLoaded then 2.0 * l.capacity + Balance(Lookup(s.fallback, k), l, t)
    else OneWaySupply(s, useRedis, k, l, t)
  }

  /** Nothing reaches the server before the script is loaded. */
  predicate ServerNeedsScript(s: Redis) {
    s.scriptLoaded || s.server == map[]
  }

  lemma SupplyStep(s: Redis, ls: Limits, useRedis: bool, op: Op, k: Key, t: real)
    requires Positive(ls.For(k)) && RedisValid(s, k, t) && ServerNeedsScript(s) && t <= Clock(t, op)
    requires op.key == k ==> op.Check? && op.request.cost >= 0
    ensures var s' := RedisStep(s, ls, useRedis, op).0;
      && RedisValid(s', k, Clock(t, op)) && ServerNeedsScript(s')
      && Cost(op, RedisStep(s, ls, useRedis, op).1, k) as real + Supply(s', useRedis, k, ls.For(k), Clock(t, op))
         <= Supply(s, useRedis, k, ls.For(k), t) + Gain(Clock(t, op) - t, ls.For(k).rate)
  {
    var l, s' := ls.For(k), RedisStep(s, ls, useRedis, op).0;
    RedisStepSpends(s, ls, useRedis, op, k, t);
    BalanceInRange(ServerBucket(s, k), l, t);
    BalanceInRange(Lookup(s.fallback, k), l, t);
    if !s.available || !useRedis {
      assert !s'.available || !useRedis;
    } else if s.scriptLoaded || !op.link.LoadFails? {
      OneWayStep(s, ls, useRedis, op, k, t);
      BalanceInRange(ServerBucket(s', k), l, Clock(t, op));
    } else {
      UnloadedCheckFallsBack(s, ls, op, k, t);
    }
  }

  /** A call that fails to load the script is paid for by the fallback. */
  lemma UnloadedCheckFallsBack(s: Redis, ls: Limits, op: Op, k: Key, t: real)
    requires Positive(ls.For(k)) && RedisValid(s, k, t) && t <= Clock(t, op)
    requires op.key == k ==> op.Check? && op.request.cost >= 0
    requires !s.scriptLoaded && s.available && op.link.LoadFails?
    ensures var s' := RedisStep(s, ls, true, op).0;
      && !s'.scriptLoaded && s'.available
      && Cost(op, RedisStep(s, ls, true, op).1, k) as real + Balance(Lookup(s'.fallback, k), ls.For(k), Clock(t, op))
         <= Balance(Lookup(s.fallback, k), ls.For(k), t) + Gain(Clock(t, op) - t, ls.For(k).rate)
  {
    if op.key == k {
      CheckSpends(Lookup(s.fallback, k), ls.For(k), t, op.request);
    } else {
      BalanceGrows(Lookup(s.fallback, k), ls.For(k), t, Clock(t, op));
      OtherKeysUntouched(s, ls, true, op, k);
    }
  }

  lemma {:induction false} SupplyWindow(
      s: Redis, ls: Limits, useRedis: bool, t: real, ops: seq<Op>, u: real, k: Key)
    requires Positive(ls.For(k)) && RedisValid(s, k, t) && ServerNeedsScript(s)
    requires InOrder(t, ops, u) && Undisturbed(k, ops)
    ensures RedisAdmitted(s, ls, useRedis, ops, k) as real
      <= Supply(s, useRedis, k, ls.For(k), t) + Gain(u - t, ls.For(k).rate)
    decreases ops
  {
    var l := ls.For(k);
    InOrderEnds(t, ops, u);
    BalanceInRange(ServerBucket(s, k), l, t);
    BalanceInRange(Lookup(s.fallback, k), l, t);
    if ops == [] {
      GainFacts(0.0, u - t, l.rate);
    } else {
      var op := ops[0];
      var t' := Clock(t, op);
      UndisturbedTail(k, ops);
      InOrderEnds(t', ops[1..], u);
      GainFacts(t' - t, u - t', l.rate);
      SupplyStep(s, ls, useRedis, op, k, t);
      SupplyWindow(RedisStep(s, ls, useRedis, op).0, ls, useRedis, t', ops[1..], u, k);
    }
  }

  lemma {:induction false} ReachableServerNeedsScript(s: Redis, ls: Limits, useRedis: bool, ops: seq<Op>)
    requires ServerNeedsScript(s)
    ensures ServerNeedsScript(RedisFinal(s, ls, useRedis, ops))
    decreases ops
  {
    if ops != [] {
      ReachableServerNeedsScript(RedisStep(s, ls, useRedis, ops[0]).0, ls, useRedis, ops[1..]);
    }
  }

  /**
   Failover. Over any window of any run of the Redis tracker, Redis and fallback
   together admit at most three capacities plus what flows in, or twice a capacity and
   its inflow if that is less; if the script is loaded, or never fails to load, failover
   is one-way and adds at most one extra capacity.
   */
  lemma RedisSlidingWindow(
      ls: Limits, useRedis: bool, t0: real, history: seq<Op>, t1: real, window: seq<Op>, t2: real, k: Key)
    requires Positive(ls.For(k))
    requires InOrder(t0, history, t1) && InOrder(t1, window, t2) && Undisturbed(k, window)
    ensures var s := RedisFinal(FRESH_REDIS, ls, useRedis, history);
      var l := ls.For(k);
      var admitted := RedisAdmitted(s, ls, useRedis, window, k) as real;
      && admitted <= 3.0 * l.capacity + Gain(t2 - t1, l.rate)
      && admitted <= 2.0 * (l.capacity + Gain(t2 - t1, l.rate))
      && (s.scriptLoaded || NoLoadFailure(window) ==>
          admitted <= 2.0 * l.capacity + Gain(t2 - t1, l.rate))
  {
    var s, l := RedisFinal(FRESH_REDIS, ls, useRedis, history), ls.For(k);
    RedisReachesValid(FRESH_REDIS, ls, useRedis, t0, history, t1, k);
    ReachableServerNeedsScript(FRESH_REDIS, ls, useRedis, history);
    BalanceInRange(ServerBucket(s, k), l, t1);
    BalanceInRange(Lookup(s.fallback, k), l, t1);
    SupplyWindow(s, ls, useRedis, t1, window, t2, k);
    TwoWayWindow(s, ls, useRedis, t1, window, t2, k);
    if s.scriptLoaded || NoLoadFailure(window) {
      OneWayWindow(s, ls, useRedis, t1, window, t2, k);
    }
  }

  /** Every undisturbed window from `t` on admits at most two capacities plus the inflow. */
  ghost predicate OneExtraCapacity(s: Redis, ls: Limits, useRedis: bool, t: real, k: Key) {
    forall window: seq<Op>, u: real :: InOrder(t, window, u) && Undisturbed(k, window) ==>
      RedisAdmitted(s, ls, useRedis, window, k) as real <= 2.0 * ls.For(k).capacity + Gain(u - t, ls.For(k).rate)
  }

  /** Failover can only go one way from here, or the fallback has nothing to give before it does. */
  predicate FailoverIsOneWay(s: Redis, ls: Limits, useRedis: bool, t: real, k: Key) {
    s.scriptLoaded || !s.available || !useRedis || Balance(Lookup(s.fallback, k), ls.For(k), t) == 0.0
  }

  /**
   Failover adds at most one extra capacity to every window exactly when the script is
   loaded, Redis is out of use, or the key's fallback bucket is empty.
   */
  lemma OneExtraCapacityIff(ls: Limits, useRedis: bool, t0: real, history: seq<Op>, t1: real, k: Key)
    requires Positive(ls.For(k)) && InOrder(t0, history, t1)
    ensures var s := RedisFinal(FRESH_REDIS, ls, useRedis, history);
      OneExtraCapacity(s, ls, useRedis, t1, k) <==> FailoverIsOneWay(s, ls, useRedis, t1, k)
  {
    var s, l := RedisFinal(FRESH_REDIS, ls, useRedis, history), ls.For(k);
    RedisReachesValid(FRESH_REDIS, ls, useRedis, t0, history, t1, k);
    ReachableServerNeedsScript(FRESH_REDIS, ls, useRedis, history);
    BalanceInRange(ServerBucket(s, k), l, t1);
    BalanceInRange(Lookup(s.fallback, k), l, t1);
    if FailoverIsOneWay(s, ls, useRedis, t1, k) {
      forall window: seq<Op>, u: real | InOrder(t1, window, u) && Undisturbed(k, window)
        ensures RedisAdmitted(s, ls, useRedis, window, k) as real <= 2.0 * l.capacity + Gain(u - t1, l.rate)
      {
        SupplyWindow(s, ls, useRedis, t1, window, u, k);
      }
    } else {
      var window, u := LoadFailureBreaksOneWayBound(s, ls, t1, k);
    }
  }

  /** The tokens the fallback is asked for: its balance, rounded up to the next whole token. */
  function Draw(balance: real, capacity: real): int {
    if balance == capacity then balance.Floor else balance.Floor + 1
  }

  /** A bucket asked for exactly what it holds allows it and is empty. */
  lemma DrainsBucket(b: Option<Bucket>, l: Limit, r: Request)
    requires Balance(b, l, r.now) == r.cost as real
    ensures LocalCheck(b, l, r) == (Bucket(0.0, r.now), Allowed)
  {
  }

  lemma EmptyRefills(l: Limit, t: real)
    requires Positive(l)
    ensures Balance(Some(Bucket(0.0, t)), l, t + 60.0) == l.capacity
  {
    assert Gain(60.0, l.rate) == l.capacity;
  }

  /** Waiting until a bucket holds a whole number of tokens. */
  lemma WaitForWhole(b: Option<Bucket>, l: Limit, n: int, t: real) returns (m: int, u: real)
    requires Positive(l) && l.capacity == n as real && ValidAt(b, t) && Balance(b, l, t) > 0.0
    ensures 0 < m <= n && t <= u && Balance(b, l, u) == m as real
    ensures Gain(u - t, l.rate) == m as real - Balance(b, l, t)
  {
    var have := Balance(b, l, t);
    BalanceInRange(b, l, t);
    m := Draw(have, l.capacity);
    u := t + (m as real - have) / l.rate;
    if m as real > have {
      QuotientFacts(m as real - have, l.rate);
    }
    assert Gain(u - t, l.rate) == m as real - have;
    RefillComposes(b, l, t, u);
  }

  /** The four calls: the fallback, the fresh server, and a minute later both again. */
  function FourCalls(k: Key, m: int, n: int, u: real): seq<Op> {
    [Check(k, Request(m, u, 0.0), LoadFails), Check(k, Request(n, u, 0.0), Healthy),
     Check(k, Request(n, u + 60.0, 0.0), Healthy), Check(k, Request(n, u + 60.0, 0.0), EvalFails)]
  }

  lemma FourCallsAdmitAll(s: Redis, ls: Limits, k: Key, m: int, n: int, u: real)
    requires Positive(ls.For(k)) && ls.For(k).capacity == n as real
    requires s.available && !s.scriptLoaded && s.server == map[]
    requires Balance(Lookup(s.fallback, k), ls.For(k), u) == m as real
    ensures RedisAdmitted(s, ls, true, FourCalls(k, m, n, u), k) == m + 3 * n
  {
    var l := ls.For(k);
    var w := FourCalls(k, m, n, u);
    assert w[1..] == [w[1], w[2], w[3]] && w[1..][1..] == [w[2], w[3]] && w[1..][1..][1..] == [w[3]];
    var empty := Bucket(0.0, u);
    DrainsBucket(Lookup(s.fallback, k), l, w[0].request);
    var s1 := s.(connected := true, fallback := s.fallback[k := empty]);
    assert RedisStep(s, ls, true, w[0]) == (s1, Some(Allowed));
    LuaStepMatches(None, None, l, w[1].request);
    DrainsBucket(None, l, w[1].request);
    var entry := LuaEntry(0.0, u, u + TTL);
    var s2 := s1.(scriptLoaded := true, server := map[k := entry]);
    assert RedisStep(s1, ls, true, w[1]) == (s2, Some(Allowed));
    EmptyRefills(l, u);
    LuaStepMatches(Some(entry), Some(empty), l, w[2].request);
    DrainsBucket(Some(empty), l, w[2].request);
    var s3 := RedisStep(s2, ls, true, w[2]).0;
    assert RedisStep(s2, ls, true, w[2]).1 == Some(Allowed) && Lookup(s3.fallback, k) == Some(empty);
    assert RedisStep(s3, ls, true, w[3]).1 == Some(Allowed);
    assert RedisAdmitted(s3, ls, true, [w[3]], k) == n;
    assert RedisAdmitted(s2, ls, true, [w[2], w[3]], k) == 2 * n;
  }

  /**
   From any state with Redis in use, no script loaded and tokens in the fallback, a
   failed load breaks the one-way bound: the fallback answers once before the server and
   once after it.
   */
  lemma LoadFailureBreaksOneWayBound(s: Redis, ls: Limits, t: real, k: Key) returns (window: seq<Op>, u: real)
    requires Positive(ls.For(k)) && RedisValid(s, k, t) && ServerNeedsScript(s)
    requires s.available && !s.scriptLoaded && Balance(Lookup(s.fallback, k), ls.For(k), t) > 0.0
    ensures InOrder(t, window, u) && Undisturbed(k, window)
    ensures RedisAdmitted(s, ls, true, window, k) as real > 2.0 * ls.For(k).capacity + Gain(u - t, ls.For(k).rate)
  {
    var l := ls.For(k);
    var n := l.capacity.Floor;
    var m, u0 := WaitForWhole(Lookup(s.fallback, k), l, n, t);
    window, u := FourCalls(k, m, n, u0), u0 + 60.0;
    FourCallsAdmitAll(s, ls, k, m, n, u0);
    FourCallsInOrder(k, m, n, t, u0);
    GainFacts(u0 - t, 60.0, l.rate);
    assert Gain(60.0, l.rate) == l.capacity;
  }

  lemma FourCallsInOrder(k: Key, m: int, n: int, t: real, u: real)
    requires t <= u && m >= 0 && n >= 0
    ensures InOrder(t, FourCalls(k, m, n, u), u + 60.0) && Undisturbed(k, FourCalls(k, m, n, u))
  {
    var w := FourCalls(k, m, n, u);
    assert w[1..] == [w[1], w[2], w[3]] && w[1..][1..] == [w[2], w[3]] && w[1..][1..][1..] == [w[3]];
    assert [w[3]][1..] == [];
    assert InOrder(u + 60.0, [w[3]], u + 60.0);
    assert InOrder(u, [w[2], w[3]], u + 60.0);
  }

  class RedisTracker {
    const limits: Limits
    const fallbackOnError: bool
    var available: bool
    var connected: bool
    var scriptLoaded: bool
    var server: map<Key, LuaEntry>  // the keys held by the Redis server
    const fallback: LocalTracker

    ghost predicate Valid()
      reads this
    {
      fallback.limits == limits
    }

    ghost function State(): Redis
      reads this, fallback
    {
      Redis(available, connected, scriptLoaded, server, fallback.buckets)
    }

    constructor (limits: Limits, fallbackOnError: bool)
      ensures Valid() && State() == FRESH_REDIS && fresh(fallback)
      ensures this.limits == limits && this.fallbackOnError == fallbackOnError
    {
      this.limits, this.fallbackOnError := limits, fallbackOnError;
      available, connected, scriptLoaded := true, false, false;
      server := map[];
      fallback := new LocalTracker(limits);
    }

    method CheckAllowed(key: Key, r: Request, link: Link) returns (v: Verdict)
      requires Valid()
      modifies this, fallback
      ensures Valid()
      ensures (State(), Some(v)) == RedisStep(old(State()), limits, fallbackOnError, Check(key, r, link))
    {
      if !available || !fallbackOnError {
        v := fallback.CheckAllowed(key, r);
        return;
      }
      if !connected {
        connected := true;
        if link.ConnectFails? {
          available := false;
          v := fallback.CheckAllowed(key, r);
          return;
        }
      }
      if !scriptLoaded {
        if link.LoadFails? {
          v := fallback.CheckAllowed(key, r);
          return;
        }
        scriptLoaded := true;
      }
      if link.EvalFails? {
        available := false;
        v := fallback.CheckAllowed(key, r);
        return;
      }
      var (entry, verdict) := LuaCheck(Lookup(server, key), limits.For(key), r);
      server := server[key := entry];
      if link.ReplyLost? {
        available := false;
        v := fallback.CheckAllowed(key, r);
        return;
      }
      v := verdict;
    }

    method Reset(key: Key, link: Link)
      requires Valid()
      modifies this, fallback
      ensures Valid()
      ensures State() == RedisStep(old(State()), limits, fallbackOnError, Op.Reset(key, link)).0
    {
      if available {
        if !connected && link.ConnectFails? {
          connected, available := true, false;
        } else {
          connected := true;
          if !link.EvalFails? {
            server := server - {key};
          }
        }
      }
      fallback.Reset(key);
    }
  }
}
