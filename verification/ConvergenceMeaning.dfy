/**
 What a signature of dawn_kestrel/delegation/convergence.py tells apart: the parts that a
 batch of results contributes, and when two batches get the same signature.
 */
module ConvergenceMeaning {
  import opened Prelude
  import opened Convergence

  ghost predicate Ascending(s: seq<string>) {
    forall i, j :: 0 <= i < j < |s| ==> Le(s[i], s[j])
  }

  /** A plain value says its own text, a list the text of its items in ascending order. */
  ghost predicate Says(d: Digest, v: Value, p: string) {
    match v
    case Plain(t) => p == t
    case Listing(items) => exists s :: Ascending(s) && multiset(s) == multiset(items) && p == d.show(s)
    case Unorderable => false
  }

  /** The evidence keys that a mapping has, in the order of the keys. */
  function Present(keys: seq<string>, m: map<string, Value>): seq<string> {
    if keys == [] then [] else (if keys[0] in m then [keys[0]] else []) + Present(keys[1..], m)
  }

  /** One part for each key present. */
  ghost predicate MappingSays(d: Digest, keys: seq<string>, m: map<string, Value>, ps: seq<string>) {
    var present := Present(keys, m);
    |ps| == |present| && forall i :: 0 <= i < |ps| ==> present[i] in m && Says(d, m[present[i]], ps[i])
  }

  /** What one result contributes. */
  ghost predicate ResultSays(d: Digest, keys: seq<string>, e: Evidence, ps: seq<string>) {
    match e
    case AgentResult(m, response, text) =>
      if exists k :: k in keys && k in m then MappingSays(d, keys, m, ps)
      else ps == [if response.Some? then response.value else text]
    case Dictionary(m) => MappingSays(d, keys, m, ps)
    case Other(text) => ps == [text]
  }

  ghost predicate BatchSays(d: Digest, keys: seq<string>, batch: seq<Evidence>, pss: seq<seq<string>>) {
    |pss| == |batch| && forall i :: 0 <= i < |batch| ==> ResultSays(d, keys, batch[i], pss[i])
  }

  function Flat(pss: seq<seq<string>>): seq<string> {
    if pss == [] then [] else pss[0] + Flat(pss[1..])
  }

  /** Some evidence key of the result holds a list that cannot be sorted. */
  ghost predicate Unsortable(keys: seq<string>, e: Evidence) {
    var m := match e { case AgentResult(m, _, _) => m case Dictionary(m) => m case Other(_) => map[] };
    exists k :: k in keys && k in m && m[k].Unorderable?
  }

  ghost predicate InjectiveHash(d: Digest) {
    forall x, y :: d.hash(x) == d.hash(y) ==> x == y
  }

  ghost predicate InjectiveShow(d: Digest) {
    forall x, y :: d.show(x) == d.show(y) ==> x == y
  }

  ghost predicate NoBars(ps: seq<string>) {
    forall i :: 0 <= i < |ps| ==> '|' !in ps[i]
  }

  /** The same parts as often; to the hash, no part at all looks like one empty part. */
  predicate SameParts(p: seq<string>, q: seq<string>) {
    multiset(p) == multiset(q) || (p in [[], [""]] && q in [[], [""]])
  }

  // ---------------------------------------------------------------------
  // Sorting

  lemma {:induction false} InsertKeepsItems(x: string, s: seq<string>)
    ensures multiset(Insert(x, s)) == multiset(s) + multiset{x}
  {
    if s != [] && !Le(x, s[0]) {
      InsertKeepsItems(x, s[1..]);
      assert s == [s[0]] + s[1..];
    }
  }

  lemma {:induction false} SortedKeepsItems(s: seq<string>)
    ensures multiset(Sorted(s)) == multiset(s)
  {
    if s != [] {
      SortedKeepsItems(s[1..]);
      InsertKeepsItems(s[0], Sorted(s[1..]));
      assert s == [s[0]] + s[1..];
    }
  }

  lemma {:induction false} AscendingIsSorted(s: seq<string>)
    requires Ascending(s)
    ensures Sorted(s) == s
  {
    if s != [] {
      AscendingIsSorted(s[1..]);
      assert s == [s[0]] + s[1..];
    }
  }

  lemma {:induction false} InsertAscends(x: string, s: seq<string>)
    requires Ascending(s)
    ensures Ascending(Insert(x, s))
  {
    if s == [] {
    } else if Le(x, s[0]) {
      forall i | 0 <= i < |s| ensures Le(x, s[i]) {
        LeIsOrder(x, s[0], s[i]);
      }
    } else {
      LeIsOrder(x, s[0], x);
      InsertAscends(x, s[1..]);
      var r := Insert(x, s[1..]);
      forall i | 0 <= i < |r| ensures Le(s[0], r[i]) {
        InsertKeepsItems(x, s[1..]);
        assert r[i] in multiset(r);
        assert r[i] == x || r[i] in s[1..];
      }
    }
  }

  lemma {:induction false} SortedAscends(s: seq<string>)
    ensures Ascending(Sorted(s))
  {
    if s != [] {
      SortedAscends(s[1..]);
      InsertAscends(s[0], Sorted(s[1..]));
    }
  }

  // ---------------------------------------------------------------------
  // What the tracker collects is what the results say

  lemma ValueTextSays(d: Digest, v: Value, p: string)
    ensures Says(d, v, p) <==> ValueText(d, v) == Some([p])
    ensures ValueText(d, v).None? <==> v.Unorderable?
    ensures ValueText(d, v).Some? ==> |ValueText(d, v).value| == 1
  {
    if v.Listing? {
      SortedAscends(v.items);
      SortedKeepsItems(v.items);
      if Says(d, v, p) {
        var s :| Ascending(s) && multiset(s) == multiset(v.items) && p == d.show(s);
        AscendingIsSorted(s);
        SortedIgnoresOrder(s, v.items);
      }
    }
  }

  lemma {:induction false} ExtractSays(d: Digest, keys: seq<string>, m: map<string, Value>)
    ensures Extract(d, keys, m).None? <==> exists k :: k in keys && k in m && m[k].Unorderable?
    ensures Extract(d, keys, m).Some? ==> MappingSays(d, keys, m, Extract(d, keys, m).value)
    ensures Present(keys, m) == [] <==> !exists k :: k in keys && k in m
    ensures Extract(d, keys, m) == Some([]) <==> Present(keys, m) == []
  {
    if keys != [] {
      ExtractSays(d, keys[1..], m);
      assert forall k :: k in keys <==> k == keys[0] || k in keys[1..];
      if keys[0] in m {
        var v := m[keys[0]];
        ValueTextSays(d, v, "");
        if ValueText(d, v).Some? && Extract(d, keys[1..], m).Some? {
          ValueTextSays(d, v, ValueText(d, v).value[0]);
          HeadSays(d, keys, m, ValueText(d, v).value[0], Extract(d, keys[1..], m).value);
        }
      } else if Extract(d, keys[1..], m).Some? {
        var rest := Extract(d, keys[1..], m).value;
        assert [] + rest == rest && [] + Present(keys[1..], m) == Present(keys[1..], m);
      }
    }
  }

  lemma HeadSays(d: Digest, keys: seq<string>, m: map<string, Value>, p: string, ps: seq<string>)
    requires keys != [] && keys[0] in m && Says(d, m[keys[0]], p) && MappingSays(d, keys[1..], m, ps)
    ensures MappingSays(d, keys, m, [p] + ps)
  {
    var present := Present(keys, m);
    assert present == [keys[0]] + Present(keys[1..], m);
  }

  /** What a mapping says is determined. */
  lemma MappingSaysOnce(d: Digest, keys: seq<string>, m: map<string, Value>, ps: seq<string>, qs: seq<string>)
    requires MappingSays(d, keys, m, ps) && MappingSays(d, keys, m, qs)
    ensures ps == qs
  {
    var present := Present(keys, m);
    forall i | 0 <= i < |ps| ensures ps[i] == qs[i] {
      ValueTextSays(d, m[present[i]], ps[i]);
      ValueTextSays(d, m[present[i]], qs[i]);
    }
  }

  /** Collecting a result's evidence raises or gives exactly what the result says. */
  lemma EvidenceSays(d: Digest, keys: seq<string>, e: Evidence, ps: seq<string>)
    ensures EvidenceParts(d, keys, e).None? <==> Unsortable(keys, e)
    ensures EvidenceParts(d, keys, e) == Some(ps) ==> ResultSays(d, keys, e, ps)
    ensures ResultSays(d, keys, e, ps) && EvidenceParts(d, keys, e).Some? ==> EvidenceParts(d, keys, e) == Some(ps)
  {
    if !e.Other? {
      var m := if e.Dictionary? then e.entries else e.metadata;
      ExtractSays(d, keys, m);
      if Extract(d, keys, m).Some? && MappingSays(d, keys, m, ps) {
        MappingSaysOnce(d, keys, m, ps, Extract(d, keys, m).value);
      }
    }
  }

  lemma SayingIsSortable(d: Digest, keys: seq<string>, e: Evidence, ps: seq<string>)
    requires ResultSays(d, keys, e, ps)
    ensures EvidenceParts(d, keys, e) == Some(ps)
  {
    EvidenceSays(d, keys, e, ps);
    if !e.Other? {
      var m := if e.Dictionary? then e.entries else e.metadata;
      ExtractSays(d, keys, m);
      if MappingSays(d, keys, m, ps) {
        forall k | k in keys && k in m ensures !m[k].Unorderable? {
          var i := PresentHas(keys, m, k);
          assert Says(d, m[Present(keys, m)[i]], ps[i]);
        }
      }
    }
  }

  lemma {:induction false} PresentHas(keys: seq<string>, m: map<string, Value>, k: string) returns (i: nat)
    requires k in keys && k in m
    ensures i < |Present(keys, m)| && Present(keys, m)[i] == k
  {
    if keys[0] == k {
      i := 0;
    } else {
      i := PresentHas(keys[1..], m, k);
      i := if keys[0] in m then i + 1 else i;
    }
  }

  lemma {:induction false} BatchIsFlat(d: Digest, keys: seq<string>, batch: seq<Evidence>, pss: seq<seq<string>>)
    requires BatchSays(d, keys, batch, pss)
    ensures BatchParts(d, keys, batch) == Some(Flat(pss))
  {
    if batch != [] {
      SayingIsSortable(d, keys, batch[0], pss[0]);
      BatchIsFlat(d, keys, batch[1..], pss[1..]);
    }
  }

  /** Computing a signature raises exactly when some evidence in the batch cannot be sorted. */
  lemma {:induction false} SignatureRaisesIff(d: Digest, keys: seq<string>, batch: seq<Evidence>)
    ensures Signature(d, keys, batch).None? <==> exists e :: e in batch && Unsortable(keys, e)
  {
    if batch != [] {
      EvidenceSays(d, keys, batch[0], []);
      SignatureRaisesIff(d, keys, batch[1..]);
      assert forall e :: e in batch <==> e == batch[0] || e in batch[1..];
    }
  }

  /** A batch that does not raise says something. */
  lemma {:induction false} SortableBatchSays(d: Digest, keys: seq<string>, batch: seq<Evidence>)
      returns (pss: seq<seq<string>>)
    requires forall e :: e in batch ==> !Unsortable(keys, e)
    ensures BatchSays(d, keys, batch, pss)
  {
    pss := [];
    if batch != [] {
      assert batch[0] in batch && forall e :: e in batch[1..] ==> e in batch;
      EvidenceSays(d, keys, batch[0], []);
      var ps := EvidenceParts(d, keys, batch[0]).value;
      EvidenceSays(d, keys, batch[0], ps);
      var rest := SortableBatchSays(d, keys, batch[1..]);
      pss := [ps] + rest;
    }
  }

  // ---------------------------------------------------------------------
  // Joining

  function BarAt(s: string): nat {
    if s == "" || s[0] == '|' then 0 else 1 + BarAt(s[1..])
  }

  lemma {:induction false} BarAfter(a: string, x: string)
    requires '|' !in a
    ensures BarAt(a + ['|'] + x) == |a|
  {
    if a != "" {
      assert (a + ['|'] + x)[1..] == a[1..] + ['|'] + x;
      BarAfter(a[1..], x);
    }
  }

  lemma FirstBar(a: string, x: string, b: string, y: string)
    requires '|' !in a && '|' !in b && a + ['|'] + x == b + ['|'] + y
    ensures a == b && x == y
  {
    var s := a + ['|'] + x;
    BarAfter(a, x);
    BarAfter(b, y);
    assert s[..|a|] == a && s[|a| + 1..] == x;
    assert s[..|b|] == b && s[|b| + 1..] == y;
  }

  lemma JoinHasBar(p: seq<string>)
    requires p != [] && NoBars(p)
    ensures '|' in Join(p) <==> |p| > 1
  {
    if |p| > 1 {
      assert Join(p)[|p[0]|] == '|';
    }
  }

  lemma {:induction false} JoinIsInjective(p: seq<string>, q: seq<string>)
    requires p != [] && q != [] && NoBars(p) && NoBars(q) && Join(p) == Join(q)
    ensures p == q
  {
    JoinHasBar(p);
    JoinHasBar(q);
    assert p == [p[0]] + p[1..] && q == [q[0]] + q[1..];
    if |p| > 1 {
      FirstBar(p[0], Join(p[1..]), q[0], Join(q[1..]));
      JoinIsInjective(p[1..], q[1..]);
    }
  }

  lemma SortedIsBlank(p: seq<string>)
    ensures Sorted(p) in [[], [""]] <==> p in [[], [""]]
    ensures Sorted(p) == [] <==> p == []
  {
    SortedKeepsItems(p);
    assert |Sorted(p)| == |multiset(Sorted(p))| == |multiset(p)| == |p|;
    if |p| == 1 {
      assert p[1..] == [] && p == [p[0]];
      assert Sorted(p) == Insert(p[0], Sorted([])) == p;
    } else if |p| > 1 {
      assert |Sorted(p)| > 1;
    }
  }

  lemma {:induction false} BlankJoin(p: seq<string>)
    requires NoBars(p)
    ensures Join(p) == "" <==> p in [[], [""]]
  {
    if |p| > 1 {
      assert Join(p)[|p[0]|] == '|';
    } else if |p| == 1 {
      assert p == [p[0]];
    }
  }

  lemma SortedNoBars(p: seq<string>)
    requires NoBars(p)
    ensures NoBars(Sorted(p))
  {
    SortedKeepsItems(p);
    forall i | 0 <= i < |Sorted(p)| ensures '|' !in Sorted(p)[i] {
      assert Sorted(p)[i] in multiset(Sorted(p));
      assert Sorted(p)[i] in p;
    }
  }

  lemma JoinSortedIff(p: seq<string>, q: seq<string>)
    requires NoBars(p) && NoBars(q)
    ensures Join(Sorted(p)) == Join(Sorted(q)) <==> SameParts(p, q)
  {
    SortedNoBars(p);
    SortedNoBars(q);
    SortedIsBlank(p);
    SortedIsBlank(q);
    BlankJoin(Sorted(p));
    BlankJoin(Sorted(q));
    SortedKeepsItems(p);
    SortedKeepsItems(q);
    if multiset(p) == multiset(q) {
      SortedIgnoresOrder(p, q);
    }
    if Join(Sorted(p)) == Join(Sorted(q)) && Sorted(p) != [] && Sorted(q) != [] {
      JoinIsInjective(Sorted(p), Sorted(q));
    }
  }

  // ---------------------------------------------------------------------
  // Main results

  /**
   With an injective hash and no bar in any part, two batches have the same signature
   exactly when they say the same parts as often, in whatever order, or one says nothing
   and the other one empty part.
   */
  lemma SameSignatureIff(d: Digest, keys: seq<string>, a: seq<Evidence>, b: seq<Evidence>,
                         ps: seq<seq<string>>, qs: seq<seq<string>>)
    requires InjectiveHash(d) && BatchSays(d, keys, a, ps) && BatchSays(d, keys, b, qs)
    requires NoBars(Flat(ps)) && NoBars(Flat(qs))
    ensures Signature(d, keys, a).Some? && Signature(d, keys, b).Some?
    ensures Signature(d, keys, a) == Signature(d, keys, b) <==> SameParts(Flat(ps), Flat(qs))
  {
    BatchIsFlat(d, keys, a, ps);
    BatchIsFlat(d, keys, b, qs);
    JoinSortedIff(Flat(ps), Flat(qs));
  }

  /** With an injective text, two lists under a key say the same exactly when they hold the same items. */
  lemma SameListIff(d: Digest, items: seq<string>, others: seq<string>, p: string, q: string)
    requires InjectiveShow(d) && Says(d, Listing(items), p) && Says(d, Listing(others), q)
    ensures p == q <==> multiset(items) == multiset(others)
  {
    ValueTextSays(d, Listing(items), p);
    ValueTextSays(d, Listing(others), q);
    SortedKeepsItems(items);
    SortedKeepsItems(others);
    if multiset(items) == multiset(others) {
      SortedIgnoresOrder(items, others);
    }
  }

  /** After a batch, the next one is novel exactly when it does not say the same. */
  lemma NovelIffSaysOther(d: Digest, keys: seq<string>, t: Tracker, a: seq<Evidence>, b: seq<Evidence>,
                          ps: seq<seq<string>>, qs: seq<seq<string>>)
    requires InjectiveHash(d) && BatchSays(d, keys, a, ps) && BatchSays(d, keys, b, qs)
    requires NoBars(Flat(ps)) && NoBars(Flat(qs))
    requires Signature(d, keys, a).Some? && Signature(d, keys, b).Some?
    ensures var after := Observe(t, Signature(d, keys, a).value);
      Observe(after, Signature(d, keys, b).value).signatures != after.signatures <==> !SameParts(Flat(ps), Flat(qs))
  {
    SameSignatureIff(d, keys, a, b, ps, qs);
    SeenIsNotNovel(t, Signature(d, keys, a).value, Signature(d, keys, b).value);
  }

  lemma SeenIsNotNovel(t: Tracker, x: string, y: string)
    ensures Observe(Observe(t, x), y).signatures != Observe(t, x).signatures <==> x != y
  {
    var after := Observe(t, x);
    assert after.signatures[|after.signatures| - 1] == x;
    if x != y {
      assert |Observe(after, y).signatures| == |after.signatures| + 1;
    }
  }

  /** The condition on bars is needed: one part with a bar and two without get one signature. */
  lemma BarsCollide(d: Digest)
    ensures Signature(d, ["k"], [Other("a|b")]) == Signature(d, ["k"], [Other("a"), Other("b")])
  {
    var one, a, b := Other("a|b"), Other("a"), Other("b");
    BatchIsFlat(d, ["k"], [one], [["a|b"]]);
    BatchIsFlat(d, ["k"], [a, b], [["a"], ["b"]]);
    assert [["a|b"]][1..] == [] && [["a"], ["b"]][1..] == [["b"]] && [["b"]][1..] == [];
    assert Flat([["a|b"]]) == ["a|b"] + [] == ["a|b"];
    assert Flat([["b"]]) == ["b"] + [] == ["b"];
    assert Flat([["a"], ["b"]]) == ["a"] + ["b"] == ["a", "b"];
    assert Sorted(["a|b"]) == ["a|b"] by {
      AscendingIsSorted(["a|b"]);
    }
    assert Sorted(["a", "b"]) == ["a", "b"] by {
      AscendingIsSorted(["a", "b"]);
    }
    assert ["a", "b"][1..] == ["b"] && Join(["a", "b"]) == "a" + "|" + "b" == "a|b";
  }
}
