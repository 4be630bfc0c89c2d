/**
 The response cache of dawn_kestrel/llm/evidence_sharing.py: an ordered
 dictionary used as a least-recently-used store, and the get-or-compute caller
 in dawn_kestrel/llm/client.py.

 A store is the dictionary in its iteration order, least recently used first.
 Request fingerprints are represented by their keys.
 */
module EvidenceCache {
  import opened Prelude

  type Key = string

  datatype Entry<V> = Entry(key: Key, value: V)

  type Store<V> = seq<Entry<V>>

  function Find<V>(s: Store<V>, k: Key): Option<V> {
    if s == [] then None
    else if s[0].key == k then Some(s[0].value)
    else Find(s[1..], k)
  }

  ghost predicate Distinct<V>(s: Store<V>) {
    s != [] ==> Find(s[1..], s[0].key).None? && Distinct(s[1..])
  }

  function Without<V>(s: Store<V>, k: Key): Store<V> {
    if s == [] then []
    else if s[0].key == k then Without(s[1..], k)
    else [s[0]] + Without(s[1..], k)
  }

  // ---------------------------------------------------------------------
  // Reference: a bounded recency list

  /** Makes `e` the most recently used entry. */
  function Touch<V>(s: Store<V>, e: Entry<V>): Store<V> {
    Without(s, e.key) + [e]
  }

  function AfterSet<V>(s: Store<V>, cap: nat, k: Key, v: V): Store<V> {
    LastN(Touch(s, Entry(k, v)), cap)
  }

  function AfterGet<V>(s: Store<V>, k: Key): Store<V> {
    match Find(s, k)
    case None => s
    case Some(v) => Touch(s, Entry(k, v))
  }

  datatype Op<V> = Get(key: Key) | Set(key: Key, value: V) | Clear

  function Apply<V>(s: Store<V>, cap: nat, op: Op<V>): Store<V> {
    match op
    case Get(k) => AfterGet(s, k)
    case Set(k, v) => AfterSet(s, cap, k, v)
    case Clear => []
  }

  /** The cache of capacity `cap` after a whole run of operations. */
  function Run<V>(cap: nat, ops: seq<Op<V>>): Store<V> {
    if ops == [] then []
    else Apply(Run(cap, ops[..|ops| - 1]), cap, ops[|ops| - 1])
  }

  // ---------------------------------------------------------------------
  // Facts about Without and Touch

  lemma {:induction false} WithoutFind<V>(s: Store<V>, k: Key, x: Key)
    ensures Find(Without(s, k), x) == if x == k then None else Find(s, x)
  {
    if s != [] {
      WithoutFind(s[1..], k, x);
      assert s[0].key != k ==> Without(s, k)[1..] == Without(s[1..], k);
    }
  }

  lemma {:induction false} WithoutAbsent<V>(s: Store<V>, k: Key)
    requires Find(s, k).None?
    ensures Without(s, k) == s
  {
    if s != [] {
      WithoutAbsent(s[1..], k);
    }
  }

  lemma {:induction false} WithoutDistinct<V>(s: Store<V>, k: Key)
    requires Distinct(s)
    ensures Distinct(Without(s, k))
    ensures |Without(s, k)| == if Find(s, k).Some? then |s| - 1 else |s|
  {
    if s != [] {
      WithoutDistinct(s[1..], k);
      WithoutFind(s[1..], k, s[0].key);
      if s[0].key == k {
        WithoutAbsent(s[1..], k);
      } else {
        assert Without(s, k)[1..] == Without(s[1..], k);
      }
    }
  }

  lemma {:induction false} WithoutAppend<V>(a: Store<V>, b: Store<V>, k: Key)
    ensures Without(a + b, k) == Without(a, k) + Without(b, k)
  {
    if a == [] {
      assert a + b == b;
    } else {
      assert (a + b)[1..] == a[1..] + b;
      WithoutAppend(a[1..], b, k);
    }
  }

  lemma {:induction false} FindAppend<V>(a: Store<V>, b: Store<V>, k: Key)
    ensures Find(a + b, k) == if Find(a, k).Some? then Find(a, k) else Find(b, k)
  {
    if a == [] {
      assert a + b == b;
    } else {
      assert (a + b)[1..] == a[1..] + b;
      FindAppend(a[1..], b, k);
    }
  }

  lemma {:induction false} DistinctAppend<V>(s: Store<V>, e: Entry<V>)
    requires Distinct(s) && Find(s, e.key).None?
    ensures Distinct(s + [e])
  {
    if s != [] {
      DistinctAppend(s[1..], e);
      FindAppend(s[1..], [e], s[0].key);
      assert (s + [e])[1..] == s[1..] + [e];
    }
  }

  /** Dropping entries from the front keeps the store well formed and invents no hit. */
  lemma {:induction false} DropFacts<V>(s: Store<V>, m: nat, k: Key)
    requires Distinct(s) && m <= |s|
    ensures Distinct(s[m..])
    ensures Find(s[m..], k).Some? ==> Find(s[m..], k) == Find(s, k) && Find(s[..m], k).None?
  {
    if m > 0 {
      DropFacts(s[1..], m - 1, k);
      assert s[1..][m - 1..] == s[m..] && s[..m][1..] == s[1..][..m - 1];
    }
  }

  lemma LastNFacts<V>(s: Store<V>, n: nat, k: Key)
    requires Distinct(s)
    ensures Distinct(LastN(s, n))
    ensures Find(LastN(s, n), k).Some? ==> Find(LastN(s, n), k) == Find(s, k)
  {
    if |s| > n {
      DropFacts(s, |s| - n, k);
    }
  }

  lemma TouchFacts<V>(s: Store<V>, e: Entry<V>, x: Key)
    requires Distinct(s)
    ensures Distinct(Touch(s, e))
    ensures Find(Touch(s, e), x) == if x == e.key then Some(e.value) else Find(s, x)
    ensures |Touch(s, e)| == if Find(s, e.key).Some? then |s| else |s| + 1
  {
    WithoutFind(s, e.key, x);
    WithoutFind(s, e.key, e.key);
    WithoutDistinct(s, e.key);
    DistinctAppend(Without(s, e.key), e);
    FindAppend(Without(s, e.key), [e], x);
  }

  lemma ApplyFacts<V>(s: Store<V>, cap: nat, op: Op<V>)
    requires Distinct(s) && |s| <= cap && cap >= 1
    ensures Distinct(Apply(s, cap, op)) && |Apply(s, cap, op)| <= cap
  {
    match op
    case Get(k) =>
      if Find(s, k).Some? {
        TouchFacts(s, Entry(k, Find(s, k).value), k);
      }
    case Set(k, v) =>
      TouchFacts(s, Entry(k, v), k);
      LastNFacts(Touch(s, Entry(k, v)), cap, k);
    case Clear =>
  }

  /** Keys never repeat, and the size bound holds, after every run. */
  lemma {:induction false} RunBounded<V>(cap: nat, ops: seq<Op<V>>)
    requires cap >= 1
    ensures Distinct(Run(cap, ops)) && |Run(cap, ops)| <= cap
  {
    if ops != [] {
      RunBounded(cap, ops[..|ops| - 1]);
      ApplyFacts(Run(cap, ops[..|ops| - 1]), cap, ops[|ops| - 1]);
    }
  }

  // ---------------------------------------------------------------------
  // Hits return the latest value; evictions take the least recently used key

  /** The value most recently set for `k` since the last clear. */
  function LatestSet<V>(ops: seq<Op<V>>, k: Key): Option<V> {
    if ops == [] then None
    else
      match ops[|ops| - 1]
      case Clear => None
      case Set(x, v) => if x == k then Some(v) else LatestSet(ops[..|ops| - 1], k)
      case Get(_) => LatestSet(ops[..|ops| - 1], k)
  }

  /** The position of the last operation that used `k` (a set, or a get that hit); -1 if none. */
  function LastUse<V>(cap: nat, ops: seq<Op<V>>, k: Key): (r: int)
    ensures -1 <= r < |ops|
  {
    if ops == [] then -1
    else
      var before := ops[..|ops| - 1];
      match ops[|ops| - 1]
      case Clear => -1
      case Set(x, _) => if x == k then |ops| - 1 else LastUse(cap, before, k)
      case Get(x) =>
        if x == k && Find(Run(cap, before), k).Some? then |ops| - 1 else LastUse(cap, before, k)
  }

  /** Every hit returns the value of the latest set of that key since the last clear. */
  lemma {:induction false} HitIsLatestSet<V>(cap: nat, ops: seq<Op<V>>, k: Key)
    requires cap >= 1
    ensures Find(Run(cap, ops), k).Some? ==> Find(Run(cap, ops), k) == LatestSet(ops, k)
  {
    if ops != [] {
      var before, op := ops[..|ops| - 1], ops[|ops| - 1];
      var s := Run(cap, before);
      RunBounded(cap, before);
      HitIsLatestSet(cap, before, k);
      match op
      case Get(x) =>
        if Find(s, x).Some? {
          TouchFacts(s, Entry(x, Find(s, x).value), k);
        }
      case Set(x, v) =>
        TouchFacts(s, Entry(x, v), k);
        LastNFacts(Touch(s, Entry(x, v)), cap, k);
      case Clear =>
    }
  }

  /** Uses increase along the store, all of them at or after `from`. */
  ghost predicate OrderedBy<V>(s: Store<V>, from: int, use: Key -> int) {
    s != [] ==> from <= use(s[0].key) && OrderedBy(s[1..], use(s[0].key) + 1, use)
  }

  lemma {:induction false} WithoutOrdered<V>(s: Store<V>, k: Key, from: int, from': int, use: Key -> int)
    requires OrderedBy(s, from', use) && from <= from'
    ensures OrderedBy(Without(s, k), from, use)
  {
    if s != [] {
      var next := use(s[0].key) + 1;
      if s[0].key == k {
        WithoutOrdered(s[1..], k, from, next, use);
      } else {
        WithoutOrdered(s[1..], k, next, next, use);
        assert Without(s, k)[1..] == Without(s[1..], k);
      }
    }
  }

  lemma {:induction false} TouchedOrder<V>(
      s: Store<V>, e: Entry<V>, from: int, before: Key -> int, after: Key -> int, now: int)
    requires OrderedBy(s, from, before) && Find(s, e.key).None? && from <= now
    requires forall k :: before(k) < now
    requires forall k :: after(k) == if k == e.key then now else before(k)
    ensures OrderedBy(s + [e], from, after)
  {
    if s != [] {
      TouchedOrder(s[1..], e, before(s[0].key) + 1, before, after, now);
      assert (s + [e])[1..] == s[1..] + [e];
    }
  }

  lemma {:induction false} LastNOrdered<V>(s: Store<V>, n: nat, from: int, use: Key -> int)
    requires OrderedBy(s, from, use)
    ensures OrderedBy(LastN(s, n), from, use)
  {
    if |s| > n {
      var next := use(s[0].key) + 1;
      LastNOrdered(s[1..], n, next, use);
      assert LastN(s[1..], n) == LastN(s, n);
      EarlierBound(LastN(s, n), from, next, use);
    }
  }

  lemma EarlierBound<V>(s: Store<V>, from: int, next: int, use: Key -> int)
    requires OrderedBy(s, next, use) && from <= next
    ensures OrderedBy(s, from, use)
  {
  }

  /** In an ordered store the first entry was used before any other. */
  lemma {:induction false} FirstIsLeast<V>(s: Store<V>, from: int, use: Key -> int, x: Key)
    requires OrderedBy(s, from, use) && Find(s, x).Some?
    ensures use(x) >= from
    ensures x != s[0].key ==> use(s[0].key) < use(x)
  {
    if s[0].key != x {
      FirstIsLeast(s[1..], use(s[0].key) + 1, use, x);
    }
  }

  /** The dictionary order is the order of last use. */
  lemma {:induction false} OrderIsRecency<V>(cap: nat, ops: seq<Op<V>>)
    requires cap >= 1
    ensures OrderedBy(Run(cap, ops), 0, k => LastUse(cap, ops, k))
  {
    if ops != [] {
      var before, op := ops[..|ops| - 1], ops[|ops| - 1];
      var s := Run(cap, before);
      OrderIsRecency(cap, before);
      RunBounded(cap, before);
      var earlier := (k: Key) => LastUse(cap, before, k);
      var later := (k: Key) => LastUse(cap, ops, k);
      match op
      case Clear =>
      case Get(x) =>
        if Find(s, x).Some? {
          TouchKeepsOrder(s, Entry(x, Find(s, x).value), earlier, later, |before|);
        } else {
          SameOrder(s, 0, earlier, later);
        }
      case Set(x, v) =>
        TouchKeepsOrder(s, Entry(x, v), earlier, later, |before|);
        LastNOrdered(Touch(s, Entry(x, v)), cap, 0, later);
    }
  }

  lemma TouchKeepsOrder<V>(s: Store<V>, e: Entry<V>, earlier: Key -> int, later: Key -> int, now: nat)
    requires OrderedBy(s, 0, earlier) && Distinct(s)
    requires forall k :: k != e.key ==> later(k) == earlier(k)
    requires later(e.key) == now && forall k :: earlier(k) < now
    ensures OrderedBy(Touch(s, e), 0, later)
  {
    WithoutOrdered(s, e.key, 0, 0, earlier);
    WithoutFind(s, e.key, e.key);
    TouchedOrder(Without(s, e.key), e, 0, earlier, later, now);
  }

  lemma {:induction false} SameOrder<V>(s: Store<V>, from: int, use: Key -> int, same: Key -> int)
    requires OrderedBy(s, from, use) && forall k :: same(k) == use(k)
    ensures OrderedBy(s, from, same)
  {
    if s != [] {
      SameOrder(s[1..], use(s[0].key) + 1, use, same);
    }
  }

  /**
   A set that makes another key disappear found the cache full, removes that key
   only, and that key is the least recently used of all resident keys.
   */
  lemma EvictsLeastRecentlyUsed<V>(cap: nat, ops: seq<Op<V>>, k: Key, v: V, gone: Key, x: Key)
    requires cap >= 1 && gone != k
    requires Find(Run(cap, ops), gone).Some?
    requires Find(Run(cap, ops + [Set(k, v)]), gone).None?
    ensures |Run(cap, ops)| == cap && Find(Run(cap, ops), k).None?
    ensures x != gone && Find(Run(cap, ops), x).Some? ==>
      && LastUse(cap, ops, gone) < LastUse(cap, ops, x)
      && Find(Run(cap, ops + [Set(k, v)]), x) == Find(Run(cap, ops), x)
  {
    var s, e := Run(cap, ops), Entry(k, v);
    assert (ops + [Set(k, v)])[..|ops|] == ops;
    RunBounded(cap, ops);
    OrderIsRecency(cap, ops);
    TouchFacts(s, e, gone);
    TouchFacts(s, e, x);
    WithoutAbsent(s, k);
    var t := Touch(s, e);
    assert t[1..] == LastN(t, cap) && t[0] == s[0];
    if Find(s, x).Some? {
      FirstIsLeast(s, 0, key => LastUse(cap, ops, key), x);
    }
  }

  // ---------------------------------------------------------------------
  // Inclusion: a smaller cache is a subsequence of a larger one

  ghost predicate Subsequence<T>(a: seq<T>, b: seq<T>) {
    if a == [] then true
    else if b == [] then false
    else (a[0] == b[0] && Subsequence(a[1..], b[1..])) || Subsequence(a, b[1..])
  }

  lemma {:induction false} SubTail<T>(a: seq<T>, b: seq<T>)
    requires a != [] && Subsequence(a, b)
    ensures Subsequence(a[1..], b)
    ensures b != [] && Subsequence(a[1..], b[1..])
  {
    if !(a[0] == b[0] && Subsequence(a[1..], b[1..])) {
      SubTail(a, b[1..]);
    }
    if a[1..] != [] {
      assert Subsequence(a[1..], b[1..]);
    }
  }

  lemma {:induction false} SubAppend<T>(a: seq<T>, b: seq<T>, x: T)
    requires Subsequence(a, b)
    ensures Subsequence(a + [x], b + [x])
  {
    if b == [] {
      assert a + [x] == [x] && b + [x] == [x];
    } else {
      assert (b + [x])[1..] == b[1..] + [x];
      if a == [] {
        SubAppend([], b[1..], x);
        assert [] + [x] == [x];
      } else if a[0] == b[0] && Subsequence(a[1..], b[1..]) {
        SubAppend(a[1..], b[1..], x);
        assert (a + [x])[1..] == a[1..] + [x];
      } else {
        SubAppend(a, b[1..], x);
      }
    }
  }

  lemma {:induction false} SubWithout<V>(a: Store<V>, b: Store<V>, k: Key)
    requires Subsequence(a, b)
    ensures Subsequence(Without(a, k), Without(b, k))
  {
    if a != [] {
      if a[0] == b[0] && Subsequence(a[1..], b[1..]) {
        SubWithout(a[1..], b[1..], k);
        var wa, wb := Without(a[1..], k), Without(b[1..], k);
        if a[0].key != k {
          assert ([a[0]] + wa)[1..] == wa && ([b[0]] + wb)[1..] == wb;
        }
      } else {
        SubWithout(a, b[1..], k);
        var wa, wb := Without(a, k), Without(b[1..], k);
        if b[0].key != k {
          assert ([b[0]] + wb)[1..] == wb;
        }
      }
    }
  }

  lemma {:induction false} SubFind<V>(a: Store<V>, b: Store<V>, k: Key)
    requires Subsequence(a, b) && Distinct(b)
    ensures Find(a, k).Some? ==> Find(b, k) == Find(a, k)
  {
    if a != [] {
      if a[0] == b[0] && Subsequence(a[1..], b[1..]) {
        SubFind(a[1..], b[1..], k);
      } else {
        SubFind(a, b[1..], k);
      }
    }
  }

  lemma {:induction false} SubLength<T>(a: seq<T>, b: seq<T>)
    requires Subsequence(a, b)
    ensures |a| <= |b|
    ensures |a| == |b| ==> a == b
  {
    if a != [] {
      if a[0] == b[0] && Subsequence(a[1..], b[1..]) {
        SubLength(a[1..], b[1..]);
      } else {
        SubLength(a, b[1..]);
      }
    }
  }

  /** The relation the two caches keep at every moment of a common run. */
  ghost predicate Included<V>(a: Store<V>, small: nat, b: Store<V>) {
    Subsequence(a, b) && |a| == Min(small, |b|)
  }

  lemma SetKeepsInclusion<V>(a: Store<V>, small: nat, b: Store<V>, large: nat, k: Key, v: V)
    requires 1 <= small <= large && Distinct(a) && Distinct(b) && |b| <= large
    requires Included(a, small, b)
    ensures Included(AfterSet(a, small, k, v), small, AfterSet(b, large, k, v))
  {
    var e := Entry(k, v);
    SubWithout(a, b, k);
    SubAppend(Without(a, k), Without(b, k), e);
    TouchFacts(a, e, k);
    TouchFacts(b, e, k);
    SubFind(a, b, k);
    SubLength(a, b);
    var ta, tb := Touch(a, e), Touch(b, e);
    if |ta| > small {
      SubTail(ta, tb);
    }
  }

  lemma GetKeepsInclusion<V>(a: Store<V>, small: nat, b: Store<V>, k: Key)
    requires 1 <= small && Distinct(a) && Distinct(b)
    requires Included(a, small, b)
    ensures Included(AfterGet(a, k), small, AfterGet(b, k))
  {
    SubFind(a, b, k);
    if Find(b, k).Some? {
      var e := Entry(k, Find(b, k).value);
      SubWithout(a, b, k);
      TouchFacts(b, e, k);
      if Find(a, k).Some? {
        TouchFacts(a, e, k);
        SubAppend(Without(a, k), Without(b, k), e);
      } else {
        WithoutAbsent(a, k);
        SubPrefix(a, Without(b, k), [e]);
      }
    }
  }

  lemma {:induction false} SubPrefix<T>(a: seq<T>, b: seq<T>, c: seq<T>)
    requires Subsequence(a, b)
    ensures Subsequence(a, b + c)
  {
    if a != [] {
      assert (b + c)[1..] == b[1..] + c;
      if a[0] == b[0] && Subsequence(a[1..], b[1..]) {
        SubPrefix(a[1..], b[1..], c);
      } else {
        SubPrefix(a, b[1..], c);
      }
    }
  }

  /**
   Inclusion. On any common run of gets, sets and clears the smaller cache is a
   subsequence of the larger one, entry for entry and in recency order, and it
   is as full as its capacity lets it be.
   */
  lemma {:induction false} Inclusion<V>(small: nat, large: nat, ops: seq<Op<V>>)
    requires 1 <= small <= large
    ensures Included(Run(small, ops), small, Run(large, ops))
  {
    if ops != [] {
      var before, op := ops[..|ops| - 1], ops[|ops| - 1];
      Inclusion(small, large, before);
      RunBounded(small, before);
      RunBounded(large, before);
      var a, b := Run(small, before), Run(large, before);
      match op
      case Get(k) => GetKeepsInclusion(a, small, b, k);
      case Set(k, v) => SetKeepsInclusion(a, small, b, large, k, v);
      case Clear =>
    }
  }

  /** Every hit in the smaller cache is the same hit in the larger one. */
  lemma SmallHitIsLargeHit<V>(small: nat, large: nat, ops: seq<Op<V>>, k: Key)
    requires 1 <= small <= large
    ensures Find(Run(small, ops), k).Some? ==> Find(Run(large, ops), k) == Find(Run(small, ops), k)
  {
    Inclusion(small, large, ops);
    RunBounded(large, ops);
    SubFind(Run(small, ops), Run(large, ops), k);
  }

  // ---------------------------------------------------------------------
  // Get-or-compute: the caller in dawn_kestrel/llm/client.py

  datatype Call = Complete(key: Key) | ClearCache

  datatype Client<V> = Client(store: Store<V>, answers: seq<V>, computed: nat)

  /** What a call asks the provider for: its key, and how many answers were computed before. */
  type Provider<V> = (Key, nat) -> V

  /** A provider that answers a key always alike. */
  function Steady<V>(f: Key -> V): Provider<V> {
    (k, n) => f(k)
  }

  /** One call: a hit is served from the cache, a miss asks `provider` and stores its answer. */
  function Serve<V>(c: Client<V>, cap: nat, provider: Provider<V>, call: Call): Client<V> {
    match call
    case ClearCache => c.(store := [])
    case Complete(k) =>
      match Find(c.store, k)
      case Some(v) => Client(AfterGet(c.store, k), c.answers + [v], c.computed)
      case None =>
        var v := provider(k, c.computed);
        Client(AfterSet(c.store, cap, k, v), c.answers + [v], c.computed + 1)
  }

  function ServeAll<V>(cap: nat, provider: Provider<V>, calls: seq<Call>): Client<V> {
    if calls == [] then Client([], [], 0)
    else Serve(ServeAll(cap, provider, calls[..|calls| - 1]), cap, provider, calls[|calls| - 1])
  }

  /** The number of the latest computation for `k` since the last clear: the last call that missed. */
  function LatestComputation<V>(cap: nat, provider: Provider<V>, calls: seq<Call>, k: Key): Option<nat> {
    if calls == [] then None
    else
      var before := calls[..|calls| - 1];
      match calls[|calls| - 1]
      case ClearCache => None
      case Complete(x) =>
        var c := ServeAll(cap, provider, before);
        if x == k && Find(c.store, k).None? then Some(c.computed) else LatestComputation(cap, provider, before, k)
  }

  /** What the same calls answer with no cache at all. */
  function Uncached<V>(f: Key -> V, calls: seq<Call>): seq<V> {
    if calls == [] then []
    else
      var before := Uncached(f, calls[..|calls| - 1]);
      match calls[|calls| - 1]
      case Complete(k) => before + [f(k)]
      case ClearCache => before
  }

  /** What is stored for a key is what its latest computation answered. */
  lemma {:induction false} ClientStoreValid<V>(cap: nat, provider: Provider<V>, calls: seq<Call>, k: Key)
    requires cap >= 1
    ensures var s := ServeAll(cap, provider, calls).store;
      && Distinct(s) && |s| <= cap
      && (Find(s, k).Some? ==>
            var n := LatestComputation(cap, provider, calls, k);
            n.Some? && Find(s, k) == Some(provider(k, n.value)))
  {
    if calls != [] {
      var before, call := calls[..|calls| - 1], calls[|calls| - 1];
      ClientStoreValid(cap, provider, before, k);
      if call.Complete? {
        ServeKeepsStore(ServeAll(cap, provider, before), cap, provider, call.key, k);
      }
    }
  }

  /** A call keeps what is stored for the other keys, or drops it. */
  lemma ServeKeepsStore<V>(c: Client<V>, cap: nat, provider: Provider<V>, x: Key, k: Key)
    requires cap >= 1 && Distinct(c.store) && |c.store| <= cap
    ensures var c' := Serve(c, cap, provider, Complete(x));
      && Distinct(c'.store) && |c'.store| <= cap
      && (Find(c'.store, k).Some? ==>
            Find(c'.store, k) == if x == k && Find(c.store, k).None? then Some(provider(k, c.computed)) else Find(c.store, k))
  {
    var e := Entry(x, if Find(c.store, x).Some? then Find(c.store, x).value else provider(x, c.computed));
    TouchFacts(c.store, e, k);
    LastNFacts(Touch(c.store, e), cap, k);
  }

  /**
   Whatever the capacity and however the provider's answers vary, a call is answered by
   the latest computation for its key since the last clear, its own if it misses.
   */
  lemma AnswerIsLatestComputation<V>(cap: nat, provider: Provider<V>, calls: seq<Call>, k: Key)
    requires cap >= 1
    ensures var all := calls + [Complete(k)];
      var n := LatestComputation(cap, provider, all, k);
      && n.Some? && n.value < ServeAll(cap, provider, all).computed
      && ServeAll(cap, provider, all).answers == ServeAll(cap, provider, calls).answers + [provider(k, n.value)]
  {
    assert (calls + [Complete(k)])[..|calls|] == calls;
    ClientStoreValid(cap, provider, calls, k);
    ComputationsAreNumbered(cap, provider, calls, k);
  }

  lemma {:induction false} ComputationsAreNumbered<V>(cap: nat, provider: Provider<V>, calls: seq<Call>, k: Key)
    ensures var n := LatestComputation(cap, provider, calls, k);
      n.Some? ==> n.value < ServeAll(cap, provider, calls).computed
  {
    if calls != [] {
      ComputationsAreNumbered(cap, provider, calls[..|calls| - 1], k);
    }
  }

  /** Over a provider that answers a key always alike, caching cannot be noticed. */
  lemma {:induction false} CacheIsTransparent<V>(cap: nat, f: Key -> V, calls: seq<Call>)
    requires cap >= 1
    ensures ServeAll(cap, Steady(f), calls).answers == Uncached(f, calls)
  {
    if calls != [] {
      var before, call := calls[..|calls| - 1], calls[|calls| - 1];
      CacheIsTransparent(cap, f, before);
      if call.Complete? {
        AnswerIsLatestComputation(cap, Steady(f), before, call.key);
        assert before + [call] == calls;
      }
    }
  }

  lemma TouchKeepsSuffix<V>(b: Store<V>, small: nat, large: nat, e: Entry<V>)
    requires 1 <= small <= large && Distinct(b)
    ensures LastN(Touch(LastN(b, small), e), small) == LastN(LastN(Touch(b, e), large), small)
  {
    LastNTwice(Touch(b, e), large, small);
    LastNFacts(b, small, e.key);
    if |b| > small {
      var p, q := b[..|b| - small], b[|b| - small..];
      assert b == p + q;
      SuffixTouch(p, q, small, e);
    }
  }

  lemma HitTouches<V>(s: Store<V>, cap: nat, e: Entry<V>)
    requires Distinct(s) && |s| <= cap && Find(s, e.key) == Some(e.value)
    ensures LastN(Touch(s, e), cap) == AfterGet(s, e.key)
  {
    TouchFacts(s, e, e.key);
  }

  /** Whether it hits or misses, a call leaves the entry it answers with as the latest. */
  lemma ServeTouches<V>(cap: nat, f: Key -> V, before: seq<Call>, k: Key)
    requires cap >= 1
    ensures var c := ServeAll(cap, Steady(f), before);
      Serve(c, cap, Steady(f), Complete(k)).store == LastN(Touch(c.store, Entry(k, f(k))), cap)
  {
    ClientStoreValid(cap, Steady(f), before, k);
    var s := ServeAll(cap, Steady(f), before).store;
    if Find(s, k).Some? {
      HitTouches(s, cap, Entry(k, f(k)));
    }
  }

  /** Over a steady provider the smaller cache holds exactly the most recent entries of the larger one. */
  lemma {:induction false} SteadyStoresAgree<V>(small: nat, large: nat, f: Key -> V, calls: seq<Call>)
    requires 1 <= small <= large
    ensures ServeAll(small, Steady(f), calls).store == LastN(ServeAll(large, Steady(f), calls).store, small)
    ensures ServeAll(large, Steady(f), calls).computed <= ServeAll(small, Steady(f), calls).computed
  {
    if calls != [] {
      var before, call := calls[..|calls| - 1], calls[|calls| - 1];
      SteadyStoresAgree(small, large, f, before);
      if call.Complete? {
        var b := ServeAll(large, Steady(f), before).store;
        var k := call.key;
        ServeTouches(small, f, before, k);
        ServeTouches(large, f, before, k);
        ClientStoreValid(large, Steady(f), before, k);
        TouchKeepsSuffix(b, small, large, Entry(k, f(k)));
        LastNFacts(b, small, k);
      }
    }
  }

  // The keys a cache holds, and what it computes, do not depend on the answers.

  datatype NoAnswer = NoAnswer

  function Keys<V>(s: Store<V>): Store<NoAnswer> {
    if s == [] then [] else [Entry(s[0].key, NoAnswer)] + Keys(s[1..])
  }

  const NO_ANSWER: Key -> NoAnswer := k => NoAnswer

  lemma {:induction false} KeysFind<V>(s: Store<V>, k: Key)
    ensures |Keys(s)| == |s| && Find(Keys(s), k) == if Find(s, k).Some? then Some(NoAnswer) else None
    ensures Keys(Without(s, k)) == Without(Keys(s), k)
  {
    if s != [] {
      var rest := s[1..];
      KeysFind(rest, k);
      assert Keys(s)[1..] == Keys(rest);
      if s[0].key != k {
        assert Without(s, k) == [s[0]] + Without(rest, k) && Without(s, k)[1..] == Without(rest, k);
        assert Keys(Without(s, k)) == [Entry(s[0].key, NoAnswer)] + Keys(Without(rest, k));
      }
    }
  }

  lemma {:induction false} KeysAppend<V>(a: Store<V>, b: Store<V>)
    ensures Keys(a + b) == Keys(a) + Keys(b)
  {
    if a == [] {
      assert a + b == b;
    } else {
      assert (a + b)[1..] == a[1..] + b;
      KeysAppend(a[1..], b);
    }
  }

  lemma KeysLastN<V>(s: Store<V>, n: nat)
    ensures Keys(LastN(s, n)) == LastN(Keys(s), n)
  {
    if |s| > n {
      var p, q := s[..|s| - n], s[|s| - n..];
      assert s == p + q;
      KeysAppend(p, q);
      KeysFind(p, "");
      KeysFind(q, "");
      assert Keys(s)[|s| - n..] == Keys(q);
    } else {
      KeysFind(s, "");
    }
  }

  lemma KeysTouch<V>(s: Store<V>, e: Entry<V>)
    ensures Keys(Touch(s, e)) == Touch(Keys(s), Entry(e.key, NoAnswer))
  {
    KeysFind(s, e.key);
    KeysAppend(Without(s, e.key), [e]);
    assert Keys([e]) == [Entry(e.key, NoAnswer)];
  }

  lemma ServeKeys<V>(c: Client<V>, bare: Client<NoAnswer>, cap: nat, provider: Provider<V>, k: Key)
    requires Keys(c.store) == bare.store && c.computed == bare.computed
    ensures var c', bare' := Serve(c, cap, provider, Complete(k)), Serve(bare, cap, Steady(NO_ANSWER), Complete(k));
      Keys(c'.store) == bare'.store && c'.computed == bare'.computed
  {
    KeysFind(c.store, k);
    if Find(c.store, k).Some? {
      KeysTouch(c.store, Entry(k, Find(c.store, k).value));
      assert Find(bare.store, k) == Some(NoAnswer);
    } else {
      var e := Entry(k, provider(k, c.computed));
      KeysTouch(c.store, e);
      KeysLastN(Touch(c.store, e), cap);
      assert Steady(NO_ANSWER)(k, bare.computed) == NoAnswer;
    }
  }

  lemma {:induction false} KeysServe<V>(cap: nat, provider: Provider<V>, calls: seq<Call>)
    ensures var c := ServeAll(cap, provider, calls);
      var bare := ServeAll(cap, Steady(NO_ANSWER), calls);
      Keys(c.store) == bare.store && c.computed == bare.computed
  {
    if calls != [] {
      var before, call := calls[..|calls| - 1], calls[|calls| - 1];
      KeysServe(cap, provider, before);
      if call.Complete? {
        ServeKeys(ServeAll(cap, provider, before), ServeAll(cap, Steady(NO_ANSWER), before), cap, provider, call.key);
      }
    }
  }

  /**
   No anomaly: serving the same calls, whatever their providers answer, the smaller cache
   holds exactly the most recent keys of the larger one, so more capacity never asks the
   provider more.
   */
  lemma MoreCapacityNeverComputesMore<V>(
      small: nat, large: nat, p: Provider<V>, q: Provider<V>, calls: seq<Call>)
    requires 1 <= small <= large
    ensures var a, b := ServeAll(small, p, calls), ServeAll(large, q, calls);
      Keys(a.store) == LastN(Keys(b.store), small) && b.computed <= a.computed
  {
    KeysServe(small, p, calls);
    KeysServe(large, q, calls);
    SteadyStoresAgree(small, large, NO_ANSWER, calls);
  }

  lemma LastNTwice<T>(s: seq<T>, m: nat, n: nat)
    requires n <= m
    ensures LastN(LastN(s, m), n) == LastN(s, n)
  {
  }

  lemma LastNConcat<T>(x: seq<T>, y: seq<T>, n: nat)
    requires |y| >= n
    ensures LastN(x + y, n) == LastN(y, n)
  {
  }

  lemma SuffixTouch<V>(p: Store<V>, q: Store<V>, n: nat, e: Entry<V>)
    requires Distinct(q) && |q| == n
    ensures LastN(Touch(p + q, e), n) == LastN(Touch(q, e), n)
  {
    WithoutAppend(p, q, e.key);
    WithoutDistinct(q, e.key);
    var tail := Touch(q, e);
    assert Touch(p + q, e) == Without(p, e.key) + tail;
    LastNConcat(Without(p, e.key), tail, n);
  }

  // ---------------------------------------------------------------------
  // The ordered-dictionary implementation

  /** Assigning a key of an ordered dictionary: in place if present, at the end if new. */
  function Assign<V>(s: Store<V>, k: Key, v: V): Store<V> {
    if s == [] then [Entry(k, v)]
    else if s[0].key == k then [Entry(k, v)] + s[1..]
    else [s[0]] + Assign(s[1..], k, v)
  }

  lemma {:induction false} AssignFacts<V>(s: Store<V>, k: Key, v: V)
    ensures Without(Assign(s, k, v), k) == Without(s, k)
    ensures Find(Assign(s, k, v), k) == Some(v)
  {
    if s != [] && s[0].key != k {
      AssignFacts(s[1..], k, v);
      assert Assign(s, k, v)[1..] == Assign(s[1..], k, v);
    } else if s != [] {
      assert Assign(s, k, v)[1..] == s[1..];
    }
  }

  lemma AfterSetFacts<V>(s: Store<V>, cap: nat, k: Key, v: V)
    requires Distinct(s) && cap >= 1
    ensures var r := AfterSet(s, cap, k, v);
      Distinct(r) && |r| <= cap && Find(r, k) == Some(v)
  {
    var e := Entry(k, v);
    TouchFacts(s, e, k);
    LastNFacts(Touch(s, e), cap, k);
    var r := AfterSet(s, cap, k, v);
    assert r == r[..|r| - 1] + [e];
    FindAppend(r[..|r| - 1], [e], k);
  }

  class HashMapStrategy<V> {
    var store: Store<V>
    const maxEntries: nat

    ghost predicate Valid()
      reads this
    {
      maxEntries >= 1 && Distinct(store) && |store| <= maxEntries
    }

    constructor (requested: int)
      ensures Valid() && store == []
      ensures maxEntries == if requested > 1 then requested else 1
    {
      store := [];
      maxEntries := if requested > 1 then requested else 1;
    }

    method Get(key: Key) returns (result: Option<V>)
      requires Valid()
      modifies this
      ensures Valid()
      ensures result == Find(old(store), key)
      ensures store == AfterGet(old(store), key)
    {
      result := Find(store, key);
      if result.None? {
        return;
      }
      ApplyFacts(store, maxEntries, Op.Get(key));
      store := Without(store, key) + [Entry(key, result.value)];
    }

    method Set(key: Key, response: V)
      requires Valid()
      modifies this
      ensures Valid()
      ensures store == AfterSet(old(store), maxEntries, key, response)
      ensures Find(store, key) == Some(response)
    {
      AssignFacts(store, key, response);
      AfterSetFacts(store, maxEntries, key, response);
      store := Assign(store, key, response);
      store := Without(store, key) + [Entry(key, Find(store, key).value)];
      Evict();
    }

    /** The loop that pops the oldest entries. */
    method Evict()
      modifies this`store
      ensures store == LastN(old(store), maxEntries)
    {
      ghost var touched := store;
      while |store| > maxEntries
        invariant |store| >= maxEntries || store == touched
        invariant |store| <= |touched| && store == touched[|touched| - |store|..]
      {
        store := store[1..];
      }
    }

    method Clear()
      requires Valid()
      modifies this
      ensures Valid() && store == []
    {
      store := [];
    }
  }
}
