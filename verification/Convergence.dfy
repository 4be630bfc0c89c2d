/**
 The convergence tracker of dawn_kestrel/delegation/convergence.py: signatures of
 result batches, and the count of batches that brought nothing new.
 */
module Convergence {
  import opened Prelude

  /** A value found under an evidence key. Sorting an `Unorderable` list raises TypeError. */
  datatype Value =
    | Plain(text: string)
    | Listing(items: seq<string>)
    | Unorderable

  /** What the tracker can see of an agent's result. */
  datatype Evidence =
    | AgentResult(metadata: map<string, Value>, response: Option<string>, text: string)
    | Dictionary(entries: map<string, Value>)
    | Other(text: string)

  /** Python's str of a list of strings, and the hash; any two functions will do. */
  datatype Digest = Digest(show: seq<string> -> string, hash: string -> string)

  // ---------------------------------------------------------------------
  // Sorting

  /** Lexicographic order on code points, as Python compares strings. */
  predicate Le(a: string, b: string) {
    a == [] || (b != [] && (a[0] < b[0] || (a[0] == b[0] && Le(a[1..], b[1..]))))
  }

  lemma {:induction false} LeIsOrder(a: string, b: string, c: string)
    ensures Le(a, b) || Le(b, a)
    ensures Le(a, b) && Le(b, a) ==> a == b
    ensures Le(a, b) && Le(b, c) ==> Le(a, c)
  {
    if a != [] && b != [] {
      LeIsOrder(a[1..], b[1..], if c == [] then [] else c[1..]);
      assert a == [a[0]] + a[1..] && b == [b[0]] + b[1..];
    }
  }

  function Insert(x: string, s: seq<string>): seq<string> {
    if s == [] || Le(x, s[0]) then [x] + s else [s[0]] + Insert(x, s[1..])
  }

  function Sorted(s: seq<string>): seq<string> {
    if s == [] then [] else Insert(s[0], Sorted(s[1..]))
  }

  lemma {:induction false} InsertCommutes(x: string, y: string, s: seq<string>)
    ensures Insert(x, Insert(y, s)) == Insert(y, Insert(x, s))
  {
    LeIsOrder(x, y, x);
    if s != [] {
      LeIsOrder(x, s[0], y);
      LeIsOrder(y, s[0], x);
      LeIsOrder(s[0], x, y);
      LeIsOrder(s[0], y, x);
      InsertCommutes(x, y, s[1..]);
      assert ([y] + s)[1..] == s && ([x] + s)[1..] == s;
      assert ([s[0]] + Insert(y, s[1..]))[1..] == Insert(y, s[1..]);
      assert ([s[0]] + Insert(x, s[1..]))[1..] == Insert(x, s[1..]);
    }
  }

  lemma {:induction false} SortedWithout(s: seq<string>, i: nat)
    requires i < |s|
    ensures Sorted(s) == Insert(s[i], Sorted(s[..i] + s[i + 1..]))
  {
    var rest := s[..i] + s[i + 1..];
    if i == 0 {
      assert rest == s[1..];
    } else {
      SortedWithout(s[1..], i - 1);
      assert rest[1..] == s[1..][..i - 1] + s[1..][i..];
      InsertCommutes(s[0], s[i], Sorted(rest[1..]));
    }
  }

  /** Sorting forgets the order of its input. */
  lemma {:induction false} SortedIgnoresOrder(a: seq<string>, b: seq<string>)
    requires multiset(a) == multiset(b)
    ensures Sorted(a) == Sorted(b)
  {
    if a == [] {
      assert |multiset(b)| == 0;
    } else {
      var i := FindHead(a, b);
      SortedIgnoresOrder(a[1..], b[..i] + b[i + 1..]);
      SortedWithout(b, i);
    }
  }

  // ---------------------------------------------------------------------
  // Signatures

  /** Evidence parts, or None when collecting them raises. */
  type Parts = Option<seq<string>>

  function Both(a: Parts, b: Parts): Parts {
    if a.None? || b.None? then None else Some(a.value + b.value)
  }

  function ValueText(d: Digest, v: Value): Parts {
    match v
    case Plain(t) => Some([t])
    case Listing(items) => Some([d.show(Sorted(items))])
    case Unorderable => None
  }

  function Extract(d: Digest, keys: seq<string>, m: map<string, Value>): Parts {
    if keys == [] then Some([])
    else
      Both(if keys[0] in m then ValueText(d, m[keys[0]]) else Some([]), Extract(d, keys[1..], m))
  }

  function EvidenceParts(d: Digest, keys: seq<string>, e: Evidence): Parts {
    match e
    case AgentResult(m, response, text) =>
      var extracted := Extract(d, keys, m);
      if extracted == Some([]) then Some([if response.Some? then response.value else text]) else extracted
    case Dictionary(m) => Extract(d, keys, m)
    case Other(text) => Some([text])
  }

  function BatchParts(d: Digest, keys: seq<string>, batch: seq<Evidence>): Parts {
    if batch == [] then Some([])
    else Both(EvidenceParts(d, keys, batch[0]), BatchParts(d, keys, batch[1..]))
  }

  function Join(parts: seq<string>): string {
    if parts == [] then ""
    else if |parts| == 1 then parts[0]
    else parts[0] + "|" + Join(parts[1..])
  }

  /** The signature of a batch; None when computing it raises. */
  function Signature(d: Digest, keys: seq<string>, batch: seq<Evidence>): Option<string> {
    var parts := BatchParts(d, keys, batch);
    if parts.None? then None else Some(d.hash(Join(Sorted(parts.value))))
  }

  lemma {:induction false} BatchPartsWithout(d: Digest, keys: seq<string>, batch: seq<Evidence>, i: nat)
    requires i < |batch|
    ensures var all := BatchParts(d, keys, batch);
      var one := EvidenceParts(d, keys, batch[i]);
      var rest := BatchParts(d, keys, batch[..i] + batch[i + 1..]);
      && (all.Some? <==> one.Some? && rest.Some?)
      && (all.Some? ==> multiset(all.value) == multiset(one.value) + multiset(rest.value))
  {
    var rest := batch[..i] + batch[i + 1..];
    if i == 0 {
      assert rest == batch[1..];
    } else {
      BatchPartsWithout(d, keys, batch[1..], i - 1);
      assert rest[1..] == batch[1..][..i - 1] + batch[1..][i..];
    }
  }

  lemma {:induction false} BatchPartsIgnoreOrder(
      d: Digest, keys: seq<string>, a: seq<Evidence>, b: seq<Evidence>)
    requires multiset(a) == multiset(b)
    ensures var p := BatchParts(d, keys, a);
      var q := BatchParts(d, keys, b);
      (p.Some? <==> q.Some?) && (p.Some? ==> multiset(p.value) == multiset(q.value))
  {
    if a == [] {
      assert |multiset(b)| == 0;
    } else {
      var i := FindHead(a, b);
      BatchPartsIgnoreOrder(d, keys, a[1..], b[..i] + b[i + 1..]);
      BatchPartsWithout(d, keys, b, i);
      BatchPartsWithout(d, keys, a, 0);
      assert a[..0] + a[1..] == a[1..];
    }
  }

  /** Permuting a batch never changes its signature, nor whether computing it raises. */
  lemma SignatureIgnoresBatchOrder(d: Digest, keys: seq<string>, a: seq<Evidence>, b: seq<Evidence>)
    requires multiset(a) == multiset(b)
    ensures Signature(d, keys, a) == Signature(d, keys, b)
  {
    BatchPartsIgnoreOrder(d, keys, a, b);
    var p, q := BatchParts(d, keys, a), BatchParts(d, keys, b);
    if p.Some? {
      SortedIgnoresOrder(p.value, q.value);
    }
  }

  /** Nor does permuting a list of strings found under an evidence key. */
  lemma SignatureIgnoresListOrder(d: Digest, items: seq<string>, others: seq<string>)
    requires multiset(items) == multiset(others)
    ensures ValueText(d, Listing(items)) == ValueText(d, Listing(others))
  {
    SortedIgnoresOrder(items, others);
  }

  // ---------------------------------------------------------------------
  // The tracker

  datatype Tracker = Tracker(signatures: seq<string>, stagnation: nat)

  const FRESH_TRACKER := Tracker([], 0)

  /** The tracker after a non-empty batch with signature `sig`. */
  function Observe(t: Tracker, sig: string): Tracker {
    if t.signatures != [] && sig == t.signatures[|t.signatures| - 1] then
      t.(stagnation := t.stagnation + 1)
    else
      Tracker(t.signatures + [sig], 0)
  }

  predicate Converged(t: Tracker, threshold: int) {
    t.stagnation >= threshold
  }

  function Track(history: seq<string>): Tracker {
    if history == [] then FRESH_TRACKER
    else Observe(Track(history[..|history| - 1]), history[|history| - 1])
  }

  /** `h` with every run of equal neighbours reduced to one element. */
  function Dedup(h: seq<string>): seq<string> {
    if |h| <= 1 then h
    else if h[0] == h[1] then Dedup(h[1..])
    else [h[0]] + Dedup(h[1..])
  }

  lemma {:induction false} DedupAppend(h: seq<string>, x: string)
    ensures h != [] ==> Dedup(h) != [] && Dedup(h)[|Dedup(h)| - 1] == h[|h| - 1]
    ensures Dedup(h + [x]) == if h != [] && h[|h| - 1] == x then Dedup(h) else Dedup(h) + [x]
  {
    if h == [] {
    } else if |h| == 1 {
      assert (h + [x])[1..] == [x];
    } else {
      DedupAppend(h[1..], x);
      assert (h + [x])[1..] == h[1..] + [x];
    }
  }

  /** The length of the run of equal elements that ends `h`. */
  function LastRun(h: seq<string>): (n: nat)
    ensures h != [] ==> n >= 1
  {
    if |h| <= 1 then |h|
    else if h[|h| - 1] == h[|h| - 2] then LastRun(h[..|h| - 1]) + 1
    else 1
  }

  ghost predicate LastEqual(h: seq<string>, n: nat) {
    n <= |h| && forall i :: |h| - n <= i < |h| ==> h[i] == h[|h| - 1]
  }

  lemma {:induction false} LastRunMeansLastEqual(h: seq<string>, n: nat)
    requires n >= 2
    ensures LastRun(h) >= n <==> LastEqual(h, n)
  {
    if |h| >= 2 {
      var before := h[..|h| - 1];
      if h[|h| - 1] == h[|h| - 2] {
        if n > 2 {
          LastRunMeansLastEqual(before, n - 1);
          assert LastEqual(before, n - 1) ==> LastEqual(h, n);
          assert LastEqual(h, n) ==> LastEqual(before, n - 1);
        } else {
          assert LastRun(before) >= 1;
        }
      } else if n <= |h| {
        assert h[|h| - 2] != h[|h| - 1];
      }
    }
  }

  lemma LastRunAppend(h: seq<string>, x: string)
    ensures LastRun(h + [x]) == if h != [] && h[|h| - 1] == x then LastRun(h) + 1 else 1
  {
    assert (h + [x])[..|h|] == h;
  }

  lemma TrackAppend(h: seq<string>, x: string)
    ensures Track(h + [x]) == Observe(Track(h), x)
  {
    assert (h + [x])[..|h|] == h;
  }

  lemma ObserveDedup(t: Tracker, h: seq<string>, x: string)
    requires t.signatures == Dedup(h)
    ensures Observe(t, x).signatures == Dedup(h + [x])
    ensures Observe(t, x).stagnation == if h != [] && h[|h| - 1] == x then t.stagnation + 1 else 0
  {
    DedupAppend(h, x);
    assert h == [] ==> t.signatures == [];
  }

  lemma {:induction false} TrackerMeansDedup(h: seq<string>)
    ensures Track(h).signatures == Dedup(h)
    ensures Track(h).stagnation == if h == [] then 0 else LastRun(h) - 1
  {
    if h != [] {
      var before, x := h[..|h| - 1], h[|h| - 1];
      assert h == before + [x];
      TrackerMeansDedup(before);
      TrackAppend(before, x);
      ObserveDedup(Track(before), before, x);
      LastRunAppend(before, x);
    }
  }

  /**
   After any history of non-empty batches, `signatures` is the history without
   adjacent repetitions, and the tracker reports convergence for k >= 1 exactly
   when the last k + 1 batches all had the same signature.
   */
  lemma TrackerMeansRepetition(h: seq<string>, k: int)
    requires k >= 1
    ensures Track(h).signatures == Dedup(h)
    ensures Converged(Track(h), k) <==> LastEqual(h, k + 1)
  {
    TrackerMeansDedup(h);
    LastRunMeansLastEqual(h, k + 1);
  }

  lemma BothAssociates(x: seq<string>, p: Parts, q: Parts)
    ensures Both(Some([]), q) == q
    ensures Both(Some(x), Some([])) == Some(x)
    ensures Both(Some(x), Both(p, q)) == if p.None? then None else Both(Some(x + p.value), q)
  {
    if p.Some? && q.Some? {
      assert x + (p.value + q.value) == (x + p.value) + q.value;
    }
    if q.Some? {
      assert [] + q.value == q.value;
    }
    assert x + [] == x;
  }

  class ConvergenceTracker {
    const digest: Digest
    const evidenceKeys: seq<string>
    var signatures: seq<string>
    var stagnationCount: nat

    function State(): Tracker
      reads this
    {
      Tracker(signatures, stagnationCount)
    }

    constructor (digest: Digest, evidenceKeys: seq<string>)
      ensures this.digest == digest && this.evidenceKeys == evidenceKeys
      ensures State() == FRESH_TRACKER
    {
      this.digest, this.evidenceKeys := digest, evidenceKeys;
      signatures, stagnationCount := [], 0;
    }

    /** Collects the evidence of one mapping; None when sorting a value raises. */
    method ExtractParts(m: map<string, Value>) returns (parts: Parts)
      ensures parts == Extract(digest, evidenceKeys, m)
    {
      var found: seq<string> := [];
      var i := 0;
      BothAssociates([], None, Extract(digest, evidenceKeys, m));
      assert evidenceKeys[0..] == evidenceKeys;
      while i < |evidenceKeys|
        invariant 0 <= i <= |evidenceKeys|
        invariant Extract(digest, evidenceKeys, m)
          == Both(Some(found), Extract(digest, evidenceKeys[i..], m))
      {
        var key := evidenceKeys[i];
        assert evidenceKeys[i..][1..] == evidenceKeys[i + 1..];
        BothAssociates(found, if key in m then ValueText(digest, m[key]) else Some([]),
                       Extract(digest, evidenceKeys[i + 1..], m));
        if key in m {
          var text := ValueText(digest, m[key]);
          if text.None? {
            return None;
          }
          found := found + text.value;
        }
        i := i + 1;
      }
      BothAssociates(found, None, None);
      parts := Some(found);
    }

    method ComputeSignature(results: seq<Evidence>) returns (sig: Option<string>)
      ensures sig == Signature(digest, evidenceKeys, results)
    {
      var evidence: seq<string> := [];
      var i := 0;
      BothAssociates([], None, BatchParts(digest, evidenceKeys, results));
      assert results[0..] == results;
      while i < |results|
        invariant 0 <= i <= |results|
        invariant BatchParts(digest, evidenceKeys, results)
          == Both(Some(evidence), BatchParts(digest, evidenceKeys, results[i..]))
      {
        assert results[i..][1..] == results[i + 1..];
        BothAssociates(evidence, EvidenceParts(digest, evidenceKeys, results[i]),
                       BatchParts(digest, evidenceKeys, results[i + 1..]));
        var parts: Parts;
        match results[i] {
          case AgentResult(metadata, response, text) =>
            parts := ExtractParts(metadata);
            if parts == Some([]) {
              parts := Some([if response.Some? then response.value else text]);
            }
          case Dictionary(entries) =>
            parts := ExtractParts(entries);
          case Other(text) =>
            parts := Some([text]);
        }
        if parts.None? {
          return None;
        }
        evidence := evidence + parts.value;
        i := i + 1;
      }
      BothAssociates(evidence, None, None);
      sig := Some(digest.hash(Join(Sorted(evidence))));
    }

    /** None when computing the signature raises; the tracker is then unchanged. */
    method CheckNovelty(results: seq<Evidence>) returns (novel: Option<bool>)
      modifies this
      ensures results == [] ==> novel == Some(false) && State() == old(State())
      ensures results != [] ==>
        match Signature(digest, evidenceKeys, results)
        case None => novel == None && State() == old(State())
        case Some(sig) =>
          && State() == Observe(old(State()), sig)
          && novel == Some(State().signatures != old(State()).signatures)
    {
      if results == [] {
        return Some(false);
      }
      var sig := ComputeSignature(results);
      if sig.None? {
        return None;
      }
      if signatures != [] && sig.value == signatures[|signatures| - 1] {
        stagnationCount := stagnationCount + 1;
        return Some(false);
      }
      signatures := signatures + [sig.value];
      stagnationCount := 0;
      novel := Some(true);
    }

    method IsConverged(threshold: int) returns (r: bool)
      ensures r == Converged(State(), threshold)
    {
      r := stagnationCount >= threshold;
    }
  }
}
