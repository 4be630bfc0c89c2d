/**
 Token buckets: the local tracker of dawn_kestrel/llm/provider_limits.py, and the
 Redis tracker with its Lua script and local fallback in
 dawn_kestrel/llm/distributed_limiter.py.

 Tokens and times are reals. Every call carries its clock reading and the
 non-negative jitter it would add to a wait.
 */
module RateLimit {
  import opened Prelude

  type Key = string

  datatype Bucket = Bucket(tokens: real, lastRefill: real)

  datatype Request = Request(cost: int, now: real, jitter: real)

  datatype Wait = Seconds(s: real) | Unbounded

  /** ZeroDivision is the exception Python raises for a bucket that never refills. */
  datatype Verdict = Allowed | Denied(wait: Wait) | ZeroDivision

  /** What a bucket is created with. */
  datatype Limit = Limit(capacity: real, rate: real)

  function LimitOf(rpm: int): Limit {
    Limit(rpm as real, rpm as real / 60.0)
  }

  /** A limit made from a positive number of requests per minute. */
  ghost predicate Positive(l: Limit) {
    l.rate > 0.0 && l.capacity == 60.0 * l.rate
  }

  /** The tokens that flow in during `elapsed` seconds. */
  function Gain(elapsed: real, rate: real): real {
    elapsed * rate
  }

  /** The tokens an optional bucket would hold at `now`; a missing bucket is a full one. */
  function Balance(b: Option<Bucket>, l: Limit, now: real): real {
    match b
    case None => l.capacity
    case Some(k) => MinReal(l.capacity, k.tokens + Gain(now - k.lastRefill, l.rate))
  }

  /** Spends `r.cost` out of `tokens`, or says how long the missing tokens take. */
  function Decide(tokens: real, l: Limit, r: Request): (real, Verdict) {
    if tokens >= r.cost as real then (tokens - r.cost as real, Allowed)
    else if l.rate == 0.0 then (tokens, ZeroDivision)
    else (tokens, Denied(Seconds((r.cost as real - tokens) / l.rate + r.jitter)))
  }

  /** A check of the local tracker, and of the fallback tracker. */
  function LocalCheck(b: Option<Bucket>, l: Limit, r: Request): (Bucket, Verdict) {
    var (tokens, v) := Decide(Balance(b, l, r.now), l, r);
    (Bucket(tokens, r.now), v)
  }

  const TTL := 3600.0

  datatype LuaEntry = LuaEntry(tokens: real, lastRefill: real, expires: real)

  /** The Lua script, on a key that Redis forgets once its time to live is over. */
  function LuaCheck(e: Option<LuaEntry>, l: Limit, r: Request): (LuaEntry, Verdict) {
    var live := e.Some? && r.now < e.value.expires;
    var tokens0 := if live then e.value.tokens else l.capacity;
    var last := if live then e.value.lastRefill else r.now;
    var (tokens, v) := Decide(MinReal(l.capacity, tokens0 + Gain(r.now - last, l.rate)), l, r);
    (LuaEntry(tokens, r.now, r.now + TTL), if v == ZeroDivision then Denied(Unbounded) else v)
  }

  // ---------------------------------------------------------------------
  // One bucket over a run of requests

  ghost predicate Ordered(from: real, rs: seq<Request>)
    decreases rs
  {
    rs != [] ==> from <= rs[0].now && Ordered(rs[0].now, rs[1..])
  }

  /** A bucket as `LocalCheck` leaves it, at any time from `t` on. */
  ghost predicate ValidAt(b: Option<Bucket>, t: real) {
    b.Some? ==> b.value.tokens >= 0.0 && b.value.lastRefill <= t
  }

  function LocalRun(b: Option<Bucket>, l: Limit, rs: seq<Request>): (Option<Bucket>, seq<Verdict>)
    decreases rs
  {
    if rs == [] then (b, [])
    else
      var (b1, v) := LocalCheck(b, l, rs[0]);
      var (b2, vs) := LocalRun(Some(b1), l, rs[1..]);
      (b2, [v] + vs)
  }

  function LuaRun(e: Option<LuaEntry>, l: Limit, rs: seq<Request>): (Option<LuaEntry>, seq<Verdict>)
    decreases rs
  {
    if rs == [] then (e, [])
    else
      var (e1, v) := LuaCheck(e, l, rs[0]);
      var (e2, vs) := LuaRun(Some(e1), l, rs[1..]);
      (e2, [v] + vs)
  }

  lemma GainFacts(a: real, b: real, r: real)
    requires r >= 0.0
    ensures Gain(0.0, r) == 0.0
    ensures Gain(a + b, r) == Gain(a, r) + Gain(b, r)
    ensures b >= 0.0 ==> Gain(b, r) >= 0.0
  {
  }

  /** Refilling in two steps is refilling once. */
  lemma RefillComposes(b: Option<Bucket>, l: Limit, t: real, u: real)
    requires Positive(l) && t <= u
    ensures Balance(b, l, u) == MinReal(l.capacity, Balance(b, l, t) + Gain(u - t, l.rate))
  {
    GainFacts(0.0, u - t, l.rate);
    if b.Some? {
      GainFacts(t - b.value.lastRefill, u - t, l.rate);
    }
  }

  lemma BalanceInRange(b: Option<Bucket>, l: Limit, t: real)
    requires Positive(l) && ValidAt(b, t)
    ensures 0.0 <= Balance(b, l, t) <= l.capacity
  {
    if b.Some? {
      GainFacts(0.0, t - b.value.lastRefill, l.rate);
    }
  }

  /** What one check does to the balance, and what it answers. */
  lemma CheckBalance(b: Option<Bucket>, l: Limit, r: Request)
    requires Positive(l) && ValidAt(b, r.now)
    ensures var b' := LocalCheck(b, l, r).0;
      var v := LocalCheck(b, l, r).1;
      && ValidAt(Some(b'), r.now)
      && (v.Allowed? <==> r.cost as real <= Balance(b, l, r.now))
      && b'.tokens == Balance(b, l, r.now) - (if v.Allowed? then r.cost as real else 0.0)
      && (r.cost >= 0 || !v.Allowed? ==> Balance(Some(b'), l, r.now) == b'.tokens)
  {
    BalanceInRange(b, l, r.now);
    GainFacts(0.0, 0.0, l.rate);
  }

  // ---------------------------------------------------------------------
  // The Lua script and the local bucket agree

  ghost predicate LuaMatches(e: Option<LuaEntry>, b: Option<Bucket>) {
    && (e.None? <==> b.None?)
    && (e.Some? ==>
      && e.value.tokens == b.value.tokens
      && e.value.lastRefill == b.value.lastRefill
      && e.value.expires == e.value.lastRefill + TTL)
  }

  /** An expired key cannot be told from a bucket that has refilled for an hour. */
  lemma LuaStepMatches(e: Option<LuaEntry>, b: Option<Bucket>, l: Limit, r: Request)
    requires Positive(l) && LuaMatches(e, b) && ValidAt(b, r.now)
    ensures LuaMatches(Some(LuaCheck(e, l, r).0), Some(LocalCheck(b, l, r).0))
    ensures LuaCheck(e, l, r).1 == LocalCheck(b, l, r).1
  {
    GainFacts(0.0, 0.0, l.rate);
    if e.Some? && r.now >= e.value.expires {
      GainFacts(TTL, r.now - b.value.lastRefill - TTL, l.rate);
      assert Gain(TTL, l.rate) >= l.capacity;
    }
  }

  lemma {:induction false} LuaRunMatches(
      e: Option<LuaEntry>, b: Option<Bucket>, l: Limit, from: real, rs: seq<Request>)
    requires Positive(l) && LuaMatches(e, b) && ValidAt(b, from) && Ordered(from, rs)
    ensures LuaMatches(LuaRun(e, l, rs).0, LocalRun(b, l, rs).0)
    ensures LuaRun(e, l, rs).1 == LocalRun(b, l, rs).1
    decreases rs
  {
    if rs != [] {
      var r := rs[0];
      LuaStepMatches(e, b, l, r);
      CheckBalance(b, l, r);
      LuaRunMatches(Some(LuaCheck(e, l, r).0), Some(LocalCheck(b, l, r).0), l, r.now, rs[1..]);
    }
  }

  ghost predicate AgreeOnEveryRun(l: Limit) {
    forall from, rs :: Ordered(from, rs) ==> LuaRun(None, l, rs).1 == LocalRun(None, l, rs).1
  }

  /** The two implementations answer alike on every request sequence exactly for positive limits. */
  lemma LuaEqualsLocalIffPositive(rpm: int)
    ensures AgreeOnEveryRun(LimitOf(rpm)) <==> rpm > 0
  {
    var l := LimitOf(rpm);
    if rpm > 0 {
      forall from, rs | Ordered(from, rs)
        ensures LuaRun(None, l, rs).1 == LocalRun(None, l, rs).1
      {
        LuaRunMatches(None, None, l, from, rs);
      }
    } else {
      NonPositiveLimitDiffers(l);
    }
  }

  /** A bucket that never refills: one raises where the other answers. */
  lemma ZeroLimitDiffers(l: Limit)
    requires l == Limit(0.0, 0.0)
    ensures !AgreeOnEveryRun(l)
  {
    var r := Request(1, 0.0, 0.0);
    assert [r][1..] == [];
    assert Ordered(0.0, [r]);
    assert LocalRun(None, l, [r]).1[0] == ZeroDivision;
    assert LuaRun(None, l, [r]).1[0] == Denied(Unbounded);
  }

  /** For every limit that is not positive some run is answered differently. */
  lemma NonPositiveLimitDiffers(l: Limit)
    requires l.rate <= 0.0 && l.capacity == 60.0 * l.rate
    ensures !AgreeOnEveryRun(l)
  {
    if l.rate == 0.0 {
      ZeroLimitDiffers(l);
    } else {
      NegativeLimitDiffers(l);
    }
  }

  lemma NegativeLimitDiffers(l: Limit)
    requires l.rate < 0.0 && l.capacity == 60.0 * l.rate
    ensures !AgreeOnEveryRun(l)
  {
    var p, q := Request(1, 0.0, 0.0), Request(1, TTL, 0.0);
    var rs := [p, q];
    assert rs[1..] == [q] && [q][1..] == [];
    assert Ordered(0.0, rs);
    assert Balance(None, l, 0.0) == l.capacity;
    var b := LocalCheck(None, l, p).0;
    assert b == Bucket(l.capacity, 0.0);
    assert Balance(Some(b), l, TTL) == l.capacity + TTL * l.rate;
    var e := LuaCheck(None, l, p).0;
    assert e == LuaEntry(l.capacity, 0.0, TTL);
    var local, lua := LocalCheck(Some(b), l, q).1, LuaCheck(Some(e), l, q).1;
    QuotientsDiffer(1.0 - l.capacity - TTL * l.rate, 1.0 - l.capacity, l.rate);
    assert local != lua;
    assert LocalRun(None, l, rs).1[1..] == LocalRun(Some(b), l, [q]).1;
    assert LuaRun(None, l, rs).1[1..] == LuaRun(Some(e), l, [q]).1;
    assert LocalRun(Some(b), l, [q]).1[0] == local;
    assert LuaRun(Some(e), l, [q]).1[0] == lua;
  }

  lemma QuotientsDiffer(x: real, y: real, r: real)
    requires r != 0.0 && x != y
    ensures x / r != y / r
  {
    assert (x / r) * r == x && (y / r) * r == y;
  }

  // ---------------------------------------------------------------------
  // Lazy refill: denied polls leave no trace, and waiting works

  lemma {:induction false} SameBalanceSameRun(
      b: Option<Bucket>, c: Option<Bucket>, l: Limit, t: real, rs: seq<Request>)
    requires Positive(l) && ValidAt(b, t) && ValidAt(c, t) && Ordered(t, rs)
    requires Balance(b, l, t) == Balance(c, l, t)
    ensures LocalRun(b, l, rs).1 == LocalRun(c, l, rs).1
    decreases rs
  {
    if rs != [] {
      var r := rs[0];
      RefillComposes(b, l, t, r.now);
      RefillComposes(c, l, t, r.now);
      assert LocalCheck(b, l, r) == LocalCheck(c, l, r);
    }
  }

  /** Leaving a denied poll out of a run changes no later answer, waits included. */
  lemma DeniedPollLeavesNoTrace(b: Option<Bucket>, l: Limit, poll: Request, rest: seq<Request>)
    requires Positive(l) && ValidAt(b, poll.now) && Ordered(poll.now, rest)
    requires !LocalCheck(b, l, poll).1.Allowed?
    ensures LocalRun(b, l, [poll] + rest).1[1..] == LocalRun(b, l, rest).1
  {
    var after := Some(LocalCheck(b, l, poll).0);
    CheckBalance(b, l, poll);
    assert ([poll] + rest)[1..] == rest;
    SameBalanceSameRun(after, b, l, poll.now, rest);
  }

  ghost predicate NoneAdmitted(vs: seq<Verdict>) {
    vs != [] ==> !vs[0].Allowed? && NoneAdmitted(vs[1..])
  }

  /** `rs` is a run of requests whose times lie in order between `from` and `to`. */
  ghost predicate Within(from: real, rs: seq<Request>, to: real)
    decreases rs
  {
    if rs == [] then from <= to else from <= rs[0].now && Within(rs[0].now, rs[1..], to)
  }

  lemma {:induction false} WithinEnds(from: real, rs: seq<Request>, to: real)
    requires Within(from, rs, to)
    ensures from <= to
    decreases rs
  {
    if rs != [] {
      WithinEnds(rs[0].now, rs[1..], to);
    }
  }

  lemma DeniedStepRefills(b: Option<Bucket>, l: Limit, r: Request, u: real)
    requires Positive(l) && ValidAt(b, r.now) && r.now <= u
    requires !LocalCheck(b, l, r).1.Allowed?
    ensures ValidAt(Some(LocalCheck(b, l, r).0), r.now)
    ensures Balance(Some(LocalCheck(b, l, r).0), l, u) == Balance(b, l, u)
  {
    CheckBalance(b, l, r);
    RefillComposes(b, l, r.now, u);
    RefillComposes(Some(LocalCheck(b, l, r).0), l, r.now, u);
  }

  /** Denied requests only let the balance grow back. */
  lemma {:induction false} DeniedRunRefills(b: Option<Bucket>, l: Limit, t: real, rs: seq<Request>, u: real)
    requires Positive(l) && ValidAt(b, t) && Within(t, rs, u)
    requires NoneAdmitted(LocalRun(b, l, rs).1)
    ensures ValidAt(LocalRun(b, l, rs).0, u)
    ensures Balance(LocalRun(b, l, rs).0, l, u) == Balance(b, l, u)
    decreases rs
  {
    if rs != [] {
      var b' := LocalCheck(b, l, rs[0]).0;
      assert LocalRun(b, l, rs).1[1..] == LocalRun(Some(b'), l, rs[1..]).1;
      WithinEnds(rs[0].now, rs[1..], u);
      DeniedStepRefills(b, l, rs[0], u);
      DeniedRunRefills(Some(b'), l, rs[0].now, rs[1..], u);
    }
  }

  /** What a denial promises: after the wait, if nothing was spent, the balance covers the cost. */
  lemma WaitSuffices(b: Option<Bucket>, l: Limit, r: Request, u: real)
    requires Positive(l) && ValidAt(b, r.now) && r.jitter >= 0.0
    requires !LocalCheck(b, l, r).1.Allowed?
    ensures LocalCheck(b, l, r).1.Denied? && LocalCheck(b, l, r).1.wait.Seconds?
    ensures LocalCheck(b, l, r).1.wait.s > 0.0
    ensures u >= r.now + LocalCheck(b, l, r).1.wait.s ==>
      (Balance(b, l, u) >= r.cost as real <==> r.cost as real <= l.capacity)
  {
    BalanceInRange(b, l, r.now);
    var have, need := Balance(b, l, r.now), r.cost as real;
    var w := (need - have) / l.rate;
    QuotientFacts(need - have, l.rate);
    if u >= r.now + LocalCheck(b, l, r).1.wait.s {
      RefillComposes(b, l, r.now, u);
      GainFacts(w, u - r.now - w, l.rate);
      assert Gain(w, l.rate) == need - have;
    }
  }

  /**
   A request denied with wait `w`, repeated `w` or more seconds later with no
   admission in between, is admitted exactly if its cost fits the capacity.
   */
  lemma RetryAfterWait(b: Option<Bucket>, l: Limit, first: Request, polls: seq<Request>, retry: Request)
    requires Positive(l) && ValidAt(b, first.now) && first.jitter >= 0.0
    requires !LocalCheck(b, l, first).1.Allowed?
    requires Within(first.now, polls, retry.now)
    requires NoneAdmitted(LocalRun(Some(LocalCheck(b, l, first).0), l, polls).1)
    requires retry.cost == first.cost
    ensures LocalCheck(b, l, first).1.Denied? && LocalCheck(b, l, first).1.wait.Seconds?
    ensures retry.now >= first.now + LocalCheck(b, l, first).1.wait.s ==>
      (LocalCheck(LocalRun(Some(LocalCheck(b, l, first).0), l, polls).0, l, retry).1.Allowed?
       <==> first.cost as real <= l.capacity)
  {
    var after := Some(LocalCheck(b, l, first).0);
    WaitSuffices(b, l, first, retry.now);
    WithinEnds(first.now, polls, retry.now);
    DeniedStepRefills(b, l, first, retry.now);
    DeniedRunRefills(after, l, first.now, polls, retry.now);
    CheckBalance(LocalRun(after, l, polls).0, l, retry);
  }

  lemma GainOrder(a: real, b: real, r: real)
    requires r > 0.0
    ensures Gain(a, r) <= Gain(b, r) <==> a <= b
  {
    assert Gain(b, r) - Gain(a, r) == (b - a) * r;
  }

  /**
   And it is no longer than needed: with nothing spent, from the denial on the balance covers
   the cost exactly if the capacity does and the wait, less its jitter, is over.
   */
  lemma WaitIsExact(b: Option<Bucket>, l: Limit, r: Request, u: real)
    requires Positive(l) && ValidAt(b, r.now) && r.now <= u
    requires !LocalCheck(b, l, r).1.Allowed?
    ensures LocalCheck(b, l, r).1.Denied? && LocalCheck(b, l, r).1.wait.Seconds?
    ensures Balance(b, l, u) >= r.cost as real <==>
      r.cost as real <= l.capacity && u >= r.now + LocalCheck(b, l, r).1.wait.s - r.jitter
  {
    var have, need := Balance(b, l, r.now), r.cost as real;
    var w := (need - have) / l.rate;
    QuotientFacts(need - have, l.rate);
    assert Gain(w, l.rate) == need - have;
    RefillComposes(b, l, r.now, u);
    GainOrder(w, u - r.now, l.rate);
  }

  /** So a request repeated with no admission in between is admitted exactly then. */
  lemma RetryAdmittedIff(b: Option<Bucket>, l: Limit, first: Request, polls: seq<Request>, retry: Request)
    requires Positive(l) && ValidAt(b, first.now)
    requires !LocalCheck(b, l, first).1.Allowed?
    requires Within(first.now, polls, retry.now)
    requires NoneAdmitted(LocalRun(Some(LocalCheck(b, l, first).0), l, polls).1)
    requires retry.cost == first.cost
    ensures LocalCheck(b, l, first).1.Denied? && LocalCheck(b, l, first).1.wait.Seconds?
    ensures LocalCheck(LocalRun(Some(LocalCheck(b, l, first).0), l, polls).0, l, retry).1.Allowed? <==>
      first.cost as real <= l.capacity && retry.now >= first.now + LocalCheck(b, l, first).1.wait.s - first.jitter
  {
    var after := Some(LocalCheck(b, l, first).0);
    WithinEnds(first.now, polls, retry.now);
    WaitIsExact(b, l, first, retry.now);
    DeniedStepRefills(b, l, first, retry.now);
    DeniedRunRefills(after, l, first.now, polls, retry.now);
    CheckBalance(LocalRun(after, l, polls).0, l, retry);
  }

  lemma QuotientFacts(x: real, r: real)
    requires x > 0.0 && r > 0.0
    ensures (x / r) * r == x && x / r > 0.0
  {
  }

  /** A request that costs more than the capacity is denied in every run. */
  lemma {:induction false} TooCostlyNeverAdmitted(b: Option<Bucket>, l: Limit, t: real, rs: seq<Request>, i: nat)
    requires Positive(l) && ValidAt(b, t) && Ordered(t, rs) && i < |rs| && rs[i].cost as real > l.capacity
    ensures |LocalRun(b, l, rs).1| == |rs| && LocalRun(b, l, rs).1[i].Denied?
    decreases rs
  {
    CheckBalance(b, l, rs[0]);
    RunLength(Some(LocalCheck(b, l, rs[0]).0), l, rs[1..]);
    if i > 0 {
      TooCostlyNeverAdmitted(Some(LocalCheck(b, l, rs[0]).0), l, rs[0].now, rs[1..], i - 1);
    }
  }

  lemma {:induction false} RunLength(b: Option<Bucket>, l: Limit, rs: seq<Request>)
    ensures |LocalRun(b, l, rs).1| == |rs|
    decreases rs
  {
    if rs != [] {
      RunLength(Some(LocalCheck(b, l, rs[0]).0), l, rs[1..]);
    }
  }
}
