/**
 The unit of work of dawn_kestrel/core/unit_of_work.py over the file storage of
 dawn_kestrel/storage/store.py: `commit` creates the pending entities one by one,
 and creating writes the entity's JSON file, over whatever was there.
 */
module UnitOfWork {
  import opened Prelude

  datatype Session = Session(projectId: string, id: string, json: string)
  datatype Message = Message(sessionId: string, id: string, json: string)
  datatype Part = Part(id: string, json: string)

  datatype Kind = SessionFile | MessageFile | PartFile

  /** One JSON file below the storage directory. */
  datatype Key = Key(kind: Kind, parent: string, file: string)

  datatype Entry = Entry(key: Key, json: string)

  type Store = map<Key, string>

  predicate EndsWith(s: string, suffix: string) {
    |suffix| <= |s| && s[|s| - |suffix|..] == suffix
  }

  function FileName(id: string): string {
    if EndsWith(id, ".json") then id else id + ".json"
  }

  /** Path components that `_get_path` rejects. */
  predicate BadComponent(s: string) {
    || s == ""
    || (exists i :: 0 < i < |s| && s[i - 1] == s[i] == '.')
    || '/' in s || '\\' in s || '\0' in s
  }

  predicate Allowed(k: Key) {
    !BadComponent(k.parent) && !BadComponent(k.file)
  }

  function SessionEntry(s: Session): Entry {
    Entry(Key(SessionFile, s.projectId, FileName(s.id)), s.json)
  }

  function MessageEntry(m: Message): Entry {
    Entry(Key(MessageFile, m.sessionId, FileName(m.id)), m.json)
  }

  function PartEntry(p: (string, Part)): Entry {
    Entry(Key(PartFile, p.0, FileName(p.1.id)), p.1.json)
  }

  /**
   What the disk does with one write. A write that fails may have opened the file for
   writing already, and then leaves something else in it.
   */
  datatype Fate = Fine | Fails(left: Option<string>)

  /** The entity's file after a create, and whether the repository returned Ok. */
  function Put(store: Store, e: Entry, fate: Fate): (Store, bool) {
    if !Allowed(e.key) then (store, false)
    else
      match fate
      case Fine => (store[e.key := e.json], true)
      case Fails(None) => (store, false)
      case Fails(Some(junk)) => (store[e.key := junk], false)
  }

  predicate Succeeds(e: Entry, fate: Fate) {
    Allowed(e.key) && fate.Fine?
  }

  datatype Unit = Unit(open: bool, sessions: seq<Session>, messages: seq<Message>, parts: seq<(string, Part)>)

  const CLOSED := Unit(false, [], [], [])
  const BEGUN := Unit(true, [], [], [])

  function SessionEntries(ss: seq<Session>): seq<Entry> {
    seq(|ss|, i requires 0 <= i < |ss| => SessionEntry(ss[i]))
  }

  function MessageEntries(ms: seq<Message>): seq<Entry> {
    seq(|ms|, i requires 0 <= i < |ms| => MessageEntry(ms[i]))
  }

  function PartEntries(ps: seq<(string, Part)>): seq<Entry> {
    seq(|ps|, i requires 0 <= i < |ps| => PartEntry(ps[i]))
  }

  /** What a commit is to write, in the order it does. */
  function Entries(u: Unit): seq<Entry> {
    SessionEntries(u.sessions) + MessageEntries(u.messages) + PartEntries(u.parts)
  }

  /** The store after the loops of a commit, and how many creates returned Ok. */
  datatype Written = Written(store: Store, count: nat)

  /** Creates from entry `i` on, up to the first that fails; `fate(i)` is what befalls create i. */
  function WriteFrom(store: Store, es: seq<Entry>, i: nat, fate: nat -> Fate): Written
    requires i <= |es|
    decreases |es| - i
  {
    if i == |es| then Written(store, i)
    else
      var (after, ok) := Put(store, es[i], fate(i));
      if ok then WriteFrom(after, es, i + 1, fate) else Written(after, i)
  }

  datatype Op =
    | Begin
    | Commit(fate: nat -> Fate)
    | Rollback
    | RegisterSession(session: Session)
    | RegisterMessage(message: Message)
    | RegisterPart(messageId: string, part: Part)

  /**
   The unit and the storage, with what the statements need to know of the past: the
   entries of the commits that returned Ok, whether a commit of this transaction has
   failed, and whether a transaction with a failed commit was ever rolled back.
   */
  datatype World = World(unit: Unit, store: Store, log: seq<Entry>, failed: bool, abandoned: bool)

  function Apply(w: World, op: Op): World {
    match op
    case Begin =>
      if w.unit.open then w else w.(unit := BEGUN, failed := false)
    case Commit(fate) =>
      if !w.unit.open then w
      else
        var es := Entries(w.unit);
        var r := WriteFrom(w.store, es, 0, fate);
        if r.count < |es| then w.(store := r.store, failed := true)
        else w.(unit := CLOSED, store := r.store, log := w.log + es)
    case Rollback =>
      if !w.unit.open then w else w.(unit := CLOSED, abandoned := w.abandoned || w.failed)
    case RegisterSession(s) =>
      if !w.unit.open then w else w.(unit := w.unit.(sessions := w.unit.sessions + [s]))
    case RegisterMessage(m) =>
      if !w.unit.open then w else w.(unit := w.unit.(messages := w.unit.messages + [m]))
    case RegisterPart(id, p) =>
      if !w.unit.open then w else w.(unit := w.unit.(parts := w.unit.parts + [(id, p)]))
  }

  /** Whether the call returns Ok; only `begin` wants no transaction in progress. */
  predicate Accepted(w: World, op: Op) {
    match op
    case Begin => !w.unit.open
    case Commit(fate) =>
      w.unit.open && WriteFrom(w.store, Entries(w.unit), 0, fate).count == |Entries(w.unit)|
    case _ => w.unit.open
  }

  ghost function Run(initial: Store, ops: seq<Op>): World {
    if ops == [] then World(CLOSED, initial, [], false, false)
    else Apply(Run(initial, ops[..|ops| - 1]), ops[|ops| - 1])
  }

  // ---------------------------------------------------------------------
  // What a commit writes

  function PutAll(store: Store, es: seq<Entry>): Store {
    if es == [] then store else PutAll(store, es[..|es| - 1])[es[|es| - 1].key := es[|es| - 1].json]
  }

  function Lookup(store: Store, k: Key): Option<string> {
    if k in store then Some(store[k]) else None
  }

  /** What the last entry for the key puts there. */
  function LastPut(es: seq<Entry>, k: Key): Option<string> {
    if es == [] then None
    else if es[|es| - 1].key == k then Some(es[|es| - 1].json)
    else LastPut(es[..|es| - 1], k)
  }

  ghost predicate Covers(es: seq<Entry>, k: Key) {
    exists i :: 0 <= i < |es| && es[i].key == k
  }

  lemma {:induction false} LookupAfter(store: Store, es: seq<Entry>, k: Key)
    ensures Lookup(PutAll(store, es), k) == if LastPut(es, k).Some? then LastPut(es, k) else Lookup(store, k)
    ensures LastPut(es, k).Some? <==> Covers(es, k)
  {
    if es != [] {
      var front := es[..|es| - 1];
      LookupAfter(store, front, k);
      if Covers(front, k) {
        var i :| 0 <= i < |front| && front[i].key == k;
        assert es[i].key == k;
      }
      if Covers(es, k) && es[|es| - 1].key != k {
        var i :| 0 <= i < |es| && es[i].key == k;
        assert front[i].key == k;
      }
    }
  }

  lemma SameLookups(a: Store, b: Store)
    requires forall k :: Lookup(a, k) == Lookup(b, k)
    ensures a == b
  {
    assert forall k :: k in a <==> Lookup(a, k).Some?;
    assert forall k :: k in b <==> Lookup(b, k).Some?;
    assert forall k | k in a :: Lookup(a, k) == Some(a[k]) && Lookup(b, k) == Some(b[k]);
  }

  /** The junk a failed create leaves, as one more write to the same file. */
  function Leftover(e: Entry, fate: Fate): seq<Entry> {
    if Allowed(e.key) && fate.Fails? && fate.left.Some? then [Entry(e.key, fate.left.value)] else []
  }

  lemma PutCases(store: Store, e: Entry, fate: Fate)
    ensures Succeeds(e, fate) ==> Put(store, e, fate) == (PutAll(store, [e]), true)
    ensures !Succeeds(e, fate) ==> Put(store, e, fate) == (PutAll(store, Leftover(e, fate)), false)
  {
    assert PutAll(store, [e]) == PutAll(store, [])[e.key := e.json];
  }

  lemma {:induction false} PutAllConcat(store: Store, a: seq<Entry>, b: seq<Entry>)
    ensures PutAll(PutAll(store, a), b) == PutAll(store, a + b)
  {
    if b == [] {
      assert a + b == a;
    } else {
      assert (a + b)[..|a + b| - 1] == a + b[..|b| - 1];
      PutAllConcat(store, a, b[..|b| - 1]);
    }
  }

  /** The entries put by creates that fail, if at all, at `n`. */
  function Done(es: seq<Entry>, i: nat, n: nat, fate: nat -> Fate): (done: seq<Entry>)
    requires i <= n <= |es|
    ensures done == es[i..n] + if n < |es| then Leftover(es[n], fate(n)) else []
    decreases n - i
  {
    if i < n then [es[i]] + Done(es, i + 1, n, fate)
    else if n < |es| then Leftover(es[n], fate(n))
    else []
  }

  lemma WriteStep(store: Store, es: seq<Entry>, i: nat, fate: nat -> Fate)
    requires i < |es|
    ensures WriteFrom(store, es, i, fate) ==
      if Succeeds(es[i], fate(i)) then WriteFrom(PutAll(store, [es[i]]), es, i + 1, fate)
      else Written(PutAll(store, Leftover(es[i], fate(i))), i)
  {
    PutCases(store, es[i], fate(i));
  }

  lemma {:induction false} WritesDone(store: Store, es: seq<Entry>, i: nat, fate: nat -> Fate) returns (n: nat)
    requires i <= |es|
    ensures i <= n <= |es| && WriteFrom(store, es, i, fate) == Written(PutAll(store, Done(es, i, n, fate)), n)
    ensures forall j :: i <= j < n ==> Succeeds(es[j], fate(j))
    ensures n < |es| ==> !Succeeds(es[n], fate(n))
    decreases |es| - i
  {
    n := i;
    if i < |es| {
      WriteStep(store, es, i, fate);
      if Succeeds(es[i], fate(i)) {
        n := WritesDone(PutAll(store, [es[i]]), es, i + 1, fate);
        PutAllConcat(store, [es[i]], Done(es, i + 1, n, fate));
      }
    }
  }

  lemma DoneFromStart(es: seq<Entry>, k: nat, fate: nat -> Fate)
    requires k <= |es|
    ensures Done(es, 0, k, fate) == if k < |es| then es[..k] + Leftover(es[k], fate(k)) else es
  {
    assert es[0..k] == es[..k] && es[..|es|] == es;
  }

  /**
   A commit writes the sessions, then the messages, then the parts, up to the first
   create that fails. It returns Ok exactly when every create succeeds, and the store is
   then that of all of them; otherwise it holds those before the failure, and possibly
   junk in the file that failed, and everything stays pending in an open transaction.
   */
  lemma CommitWritesPrefix(w: World, fate: nat -> Fate) returns (k: nat)
    requires w.unit.open
    ensures var es := Entries(w.unit);
      var w' := Apply(w, Commit(fate));
      && k <= |es|
      && (forall j :: 0 <= j < k ==> Succeeds(es[j], fate(j)))
      && (k < |es| ==> !Succeeds(es[k], fate(k)))
      && (Accepted(w, Commit(fate)) <==> k == |es|)
      && (k == |es| ==> w'.unit == CLOSED && w'.store == PutAll(w.store, es))
      && (k < |es| ==> w'.unit == w.unit && w'.store == PutAll(w.store, es[..k] + Leftover(es[k], fate(k))))
  {
    var es := Entries(w.unit);
    k := WritesDone(w.store, es, 0, fate);
    DoneFromStart(es, k, fate);
  }

  /**
   A commit that fails leaves the store as it was exactly when each file it touched
   already held what was last put there; so it is not all or nothing.
   */
  lemma FailedCommitLeavesNothingIff(w: World, fate: nat -> Fate, k: nat)
    requires w.unit.open && k < |Entries(w.unit)| && !Succeeds(Entries(w.unit)[k], fate(k))
    requires forall j :: 0 <= j < k ==> Succeeds(Entries(w.unit)[j], fate(j))
    ensures var done := Entries(w.unit)[..k] + Leftover(Entries(w.unit)[k], fate(k));
      Apply(w, Commit(fate)).store == w.store <==>
      forall i :: 0 <= i < |done| ==> LastPut(done, done[i].key) == Lookup(w.store, done[i].key)
  {
    var k' := CommitWritesPrefix(w, fate);
    assert k' == k;
    var done := Entries(w.unit)[..k] + Leftover(Entries(w.unit)[k], fate(k));
    var after := PutAll(w.store, done);
    forall i | 0 <= i < |done|
      ensures Lookup(after, done[i].key) == LastPut(done, done[i].key)
    {
      LookupAfter(w.store, done, done[i].key);
      assert Covers(done, done[i].key);
    }
    if forall i :: 0 <= i < |done| ==> LastPut(done, done[i].key) == Lookup(w.store, done[i].key) {
      forall key ensures Lookup(after, key) == Lookup(w.store, key) {
        LookupAfter(w.store, done, key);
        if Covers(done, key) {
          var i :| 0 <= i < |done| && done[i].key == key;
          assert LastPut(done, done[i].key) == Lookup(w.store, done[i].key);
        }
      }
      SameLookups(after, w.store);
    }
  }

  /** The position of the first entry whose path the storage rejects, or the length if there is none. */
  function FirstRejected(es: seq<Entry>): (i: nat)
    ensures i <= |es| && (i < |es| ==> !Allowed(es[i].key))
    ensures forall j :: 0 <= j < i ==> Allowed(es[j].key)
  {
    if es == [] || !Allowed(es[0].key) then 0
    else
      var i := FirstRejected(es[1..]);
      assert forall j :: 0 < j <= i && j < |es| ==> es[j] == es[1..][j - 1];
      i + 1
  }

  /** The last position at which a commit can fail, or 0 when there is nothing to commit. */
  function LastFailure(es: seq<Entry>): nat {
    if FirstRejected(es) < |es| then FirstRejected(es) else if es == [] then 0 else |es| - 1
  }

  predicate Stands(store: Store, e: Entry) {
    e.key in store && store[e.key] == e.json
  }

  ghost predicate LeavesNoJunk(fate: nat -> Fate) {
    forall n :: fate(n).Fails? ==> fate(n).left.None?
  }

  /** A commit that fails leaves the store as it was, whatever befalls its writes. */
  ghost predicate AlwaysAtomic(w: World) {
    forall fate: nat -> Fate :: !Accepted(w, Commit(fate)) ==> Apply(w, Commit(fate)).store == w.store
  }

  /** The same, when a failing write leaves its file alone. */
  ghost predicate AtomicWithoutJunk(w: World) {
    forall fate: nat -> Fate :: LeavesNoJunk(fate) && !Accepted(w, Commit(fate)) ==> Apply(w, Commit(fate)).store == w.store
  }

  lemma {:induction false} StandingPutsChangeNothing(store: Store, es: seq<Entry>)
    requires forall i :: 0 <= i < |es| ==> Stands(store, es[i])
    ensures PutAll(store, es) == store
  {
    if es != [] {
      StandingPutsChangeNothing(store, es[..|es| - 1]);
      assert Stands(store, es[|es| - 1]);
    }
  }

  /** Junk other than what the file holds. */
  function OtherThan(store: Store, k: Key): string {
    if k in store then store[k] + "x" else ""
  }

  lemma OtherThanDiffers(store: Store, k: Key)
    ensures store[k := OtherThan(store, k)] != store
  {
    if k in store {
      assert |OtherThan(store, k)| == |store[k]| + 1;
    }
    assert store[k := OtherThan(store, k)][k] == OtherThan(store, k);
  }

  /**
   A commit is all or nothing whatever befalls its writes exactly when there is nothing to
   write or the storage rejects the first entity's path.
   */
  lemma AlwaysAtomicIff(w: World)
    requires w.unit.open
    ensures AlwaysAtomic(w) <==> Entries(w.unit) == [] || !Allowed(Entries(w.unit)[0].key)
  {
    var es := Entries(w.unit);
    if es == [] || !Allowed(es[0].key) {
      forall fate: nat -> Fate | !Accepted(w, Commit(fate)) ensures Apply(w, Commit(fate)).store == w.store {
        var k := CommitWritesPrefix(w, fate);
        assert k == 0 && es[..0] + [] == [];
      }
    } else {
      var junk := OtherThan(w.store, es[0].key);
      var fate := (n: nat) => Fails(Some(junk));
      var k := CommitWritesPrefix(w, fate);
      assert k == 0;
      var left := [Entry(es[0].key, junk)];
      assert es[..0] + left == left && PutAll(w.store, left) == PutAll(w.store, [])[es[0].key := junk];
      OtherThanDiffers(w.store, es[0].key);
      assert !Accepted(w, Commit(fate)) && Apply(w, Commit(fate)).store != w.store;
    }
  }

  /**
   When failing writes leave no junk, a commit is all or nothing exactly when every entity
   before the last, or before the first whose path is rejected, is stored as it is already.
   */
  lemma AtomicWithoutJunkIff(w: World)
    requires w.unit.open
    ensures AtomicWithoutJunk(w) <==>
      forall i :: 0 <= i < LastFailure(Entries(w.unit)) ==> Stands(w.store, Entries(w.unit)[i])
  {
    var es := Entries(w.unit);
    if forall i :: 0 <= i < LastFailure(es) ==> Stands(w.store, es[i]) {
      forall fate: nat -> Fate | LeavesNoJunk(fate) && !Accepted(w, Commit(fate))
        ensures Apply(w, Commit(fate)).store == w.store
      {
        var k := CommitWritesPrefix(w, fate);
        assert fate(k).Fails? ==> fate(k).left.None?;
        FailsByLastFailure(es, fate, k);
        StandingPutsChangeNothing(w.store, es[..k]);
        assert es[..k] + [] == es[..k];
      }
    }
    if AtomicWithoutJunk(w) {
      forall i | 0 <= i < LastFailure(es) ensures Stands(w.store, es[i]) {
        FailingNext(w, i);
      }
    }
  }

  lemma FailsByLastFailure(es: seq<Entry>, fate: nat -> Fate, k: nat)
    requires k < |es| && forall j :: 0 <= j < k ==> Succeeds(es[j], fate(j))
    ensures k <= LastFailure(es)
  {
    assert forall j :: 0 <= j < k ==> Succeeds(es[j], fate(j)) && Allowed(es[j].key);
  }

  /** A commit whose create `i + 1` is made to fail shows that entity `i` stood already. */
  lemma FailingNext(w: World, i: nat)
    requires w.unit.open && i < LastFailure(Entries(w.unit)) && AtomicWithoutJunk(w)
    ensures Stands(w.store, Entries(w.unit)[i])
  {
    var es := Entries(w.unit);
    var fate := (n: nat) => if n == i + 1 then Fails(None) else Fine;
    var k := CommitWritesPrefix(w, fate);
    assert forall j :: 0 <= j <= i ==> Succeeds(es[j], fate(j));
    assert !Succeeds(es[i + 1], fate(i + 1));
    assert k == i + 1 && LeavesNoJunk(fate) && !Accepted(w, Commit(fate));
    assert es[..k] + [] == es[..k];
    LastPutStands(w.store, es[..k]);
  }

  lemma LastPutStands(store: Store, es: seq<Entry>)
    requires es != []
    ensures Stands(PutAll(store, es), es[|es| - 1])
  {
  }

  lemma SecondRefused(es: seq<Entry>, fate: nat -> Fate)
    requires |es| == 2 && Allowed(es[0].key) && fate(0) == Fine && fate(1) == Fails(None)
    ensures WriteFrom(map[], es, 0, fate) == Written(map[es[0].key := es[0].json], 1)
  {
    var first := Put(map[], es[0], Fine);
    assert first == (map[es[0].key := es[0].json], true);
    assert Put(first.0, es[1], Fails(None)) == (first.0, false);
    assert WriteFrom(first.0, es, 1, fate) == Written(first.0, 1);
  }

  /** A session is written, its message is refused, and rolling back takes nothing away. */
  lemma CommitIsNotAtomic() returns (w: World, fate: nat -> Fate, session: Key, message: Key)
    ensures w.unit.open && !Accepted(w, Commit(fate)) && w.store == map[]
    ensures Entries(w.unit) == [Entry(session, "S"), Entry(message, "M")]
    ensures var w' := Apply(Apply(w, Commit(fate)), Rollback);
      w'.unit == CLOSED && w'.store == map[session := "S"]
  {
    var s, m := Session("p", "s.json", "S"), Message("s", "m.json", "M");
    fate := (i: nat) => if i == 0 then Fine else Fails(None);
    w := World(Unit(true, [s], [m], []), map[], [], false, false);
    session, message := Key(SessionFile, "p", "s.json"), Key(MessageFile, "s", "m.json");
    var es := Entries(w.unit);
    assert es == [Entry(session, "S"), Entry(message, "M")];
    SecondRefused(es, fate);
  }

  // ---------------------------------------------------------------------
  // Whole histories

  /** The stores differ at most in the files the entries would write. */
  ghost predicate AgreeOutside(a: Store, b: Store, es: seq<Entry>) {
    forall k :: !Covers(es, k) ==> Lookup(a, k) == Lookup(b, k)
  }

  /** Writing all the entries wipes out whatever an unfinished attempt left behind. */
  lemma PutAllHeals(a: Store, b: Store, es: seq<Entry>)
    requires AgreeOutside(a, b, es)
    ensures PutAll(a, es) == PutAll(b, es)
  {
    forall k ensures Lookup(PutAll(a, es), k) == Lookup(PutAll(b, es), k) {
      LookupAfter(a, es, k);
      LookupAfter(b, es, k);
    }
    SameLookups(PutAll(a, es), PutAll(b, es));
  }

  /** Of a failed attempt nothing is left outside the pending entries' own files. */
  lemma FailedCommitStaysWithin(w: World, fate: nat -> Fate, base: Store)
    requires w.unit.open && !Accepted(w, Commit(fate)) && AgreeOutside(w.store, base, Entries(w.unit))
    ensures AgreeOutside(Apply(w, Commit(fate)).store, base, Entries(w.unit))
  {
    var es := Entries(w.unit);
    var n := CommitWritesPrefix(w, fate);
    var done := es[..n] + Leftover(es[n], fate(n));
    forall k | Covers(done, k) ensures Covers(es, k) {
      var i :| 0 <= i < |done| && done[i].key == k;
      assert es[i].key == k;
    }
    forall k | !Covers(es, k) ensures Lookup(PutAll(w.store, done), k) == Lookup(base, k) {
      LookupAfter(w.store, done, k);
    }
  }

  lemma CoversConcat(a: seq<Entry>, b: seq<Entry>, k: Key)
    ensures Covers(a + b, k) <==> Covers(a, k) || Covers(b, k)
  {
    if Covers(a, k) {
      var i :| 0 <= i < |a| && a[i].key == k;
      assert (a + b)[i].key == k;
    }
    if Covers(b, k) {
      var i :| 0 <= i < |b| && b[i].key == k;
      assert (a + b)[|a| + i].key == k;
    }
  }

  lemma CoversEntries(u: Unit, k: Key)
    ensures Covers(Entries(u), k) <==>
      Covers(SessionEntries(u.sessions), k) || Covers(MessageEntries(u.messages), k) || Covers(PartEntries(u.parts), k)
  {
    CoversConcat(SessionEntries(u.sessions), MessageEntries(u.messages), k);
    CoversConcat(SessionEntries(u.sessions) + MessageEntries(u.messages), PartEntries(u.parts), k);
  }

  /** Registering only adds to the files a commit would write. */
  lemma RegisteringCovers(u: Unit, op: Op, k: Key)
    requires u.open && (op.RegisterSession? || op.RegisterMessage? || op.RegisterPart?)
    requires Covers(Entries(u), k)
    ensures Covers(Entries(Apply(World(u, map[], [], false, false), op).unit), k)
  {
    var u' := Apply(World(u, map[], [], false, false), op).unit;
    CoversEntries(u, k);
    CoversEntries(u', k);
    match op
    case RegisterSession(s) =>
      assert SessionEntries(u'.sessions) == SessionEntries(u.sessions) + [SessionEntry(s)];
      CoversConcat(SessionEntries(u.sessions), [SessionEntry(s)], k);
    case RegisterMessage(m) =>
      assert MessageEntries(u'.messages) == MessageEntries(u.messages) + [MessageEntry(m)];
      CoversConcat(MessageEntries(u.messages), [MessageEntry(m)], k);
    case RegisterPart(id, p) =>
      assert PartEntries(u'.parts) == PartEntries(u.parts) + [PartEntry((id, p))];
      CoversConcat(PartEntries(u.parts), [PartEntry((id, p))], k);
  }

  ghost predicate Serial(w: World, initial: Store) {
    AgreeOutside(w.store, PutAll(initial, w.log), if w.unit.open then Entries(w.unit) else [])
  }

  lemma ApplyKeepsSerial(w: World, op: Op, initial: Store)
    requires Serial(w, initial) && !Apply(w, op).abandoned
    requires w.unit.open && !w.failed ==> w.store == PutAll(initial, w.log)
    ensures Serial(Apply(w, op), initial)
    ensures var w' := Apply(w, op); w'.unit.open && !w'.failed ==> w'.store == PutAll(initial, w'.log)
  {
    if w.unit.open {
      match op {
        case Begin =>
        case Rollback =>
        case Commit(fate) =>
          var es := Entries(w.unit);
          if Accepted(w, op) {
            var _ := CommitWritesPrefix(w, fate);
            PutAllHeals(w.store, PutAll(initial, w.log), es);
            PutAllConcat(initial, w.log, es);
          } else {
            var _ := CommitWritesPrefix(w, fate);
            FailedCommitStaysWithin(w, fate, PutAll(initial, w.log));
          }
        case _ =>
          forall k | Covers(Entries(w.unit), k) ensures Covers(Entries(Apply(w, op).unit), k) {
            RegisteringCovers(w.unit, op, k);
          }
      }
    } else if op.Begin? {
      assert forall k :: !Covers([], k);
      forall k ensures Lookup(w.store, k) == Lookup(PutAll(initial, w.log), k) {
        assert !Covers([], k);
      }
      SameLookups(w.store, PutAll(initial, w.log));
    }
  }

  lemma {:induction false} SerialRun(initial: Store, ops: seq<Op>)
    requires !Run(initial, ops).abandoned
    ensures var w := Run(initial, ops);
      && Serial(w, initial)
      && (w.unit.open && !w.failed ==> w.store == PutAll(initial, w.log))
  {
    if ops != [] {
      var front := ops[..|ops| - 1];
      SerialRun(initial, front);
      ApplyKeepsSerial(Run(initial, front), ops[|ops| - 1], initial);
    }
  }

  /**
   Over any run in which no transaction with a failed commit was rolled back, between
   transactions the store is the initial one with the committed entries written in
   order: however often a commit failed and was tried again, and whatever was
   registered in between, it ends as one clean commit would.
   */
  lemma RetriesHeal(initial: Store, ops: seq<Op>)
    requires !Run(initial, ops).abandoned && !Run(initial, ops).unit.open
    ensures Run(initial, ops).store == PutAll(initial, Run(initial, ops).log)
  {
    var w := Run(initial, ops);
    SerialRun(initial, ops);
    forall k ensures Lookup(w.store, k) == Lookup(PutAll(initial, w.log), k) {
      assert !Covers([], k);
    }
    SameLookups(w.store, PutAll(initial, w.log));
  }

  /** An entity whose path the storage rejects makes every commit of its transaction fail. */
  lemma RejectedPathNeverCommits(w: World, fate: nat -> Fate, i: nat)
    requires w.unit.open && i < |Entries(w.unit)| && !Allowed(Entries(w.unit)[i].key)
    ensures !Accepted(w, Commit(fate)) && Apply(w, Commit(fate)).unit == w.unit
  {
    var k := CommitWritesPrefix(w, fate);
  }

  // ---------------------------------------------------------------------
  // The unit of work itself

  class Storage {
    var files: Store

    constructor ()
      ensures files == map[]
    {
      files := map[];
    }

    method Create(e: Entry, fate: Fate) returns (ok: bool)
      modifies this
      ensures (files, ok) == Put(old(files), e, fate)
    {
      if !Allowed(e.key) {
        return false;
      }
      match fate {
        case Fine => files := files[e.key := e.json];
        case Fails(left) =>
          if left.Some? {
            files := files[e.key := left.value];
          }
      }
      return fate.Fine?;
    }
  }

  ghost predicate SessionsAt(es: seq<Entry>, lo: nat, ss: seq<Session>) {
    lo + |ss| <= |es| && forall i :: 0 <= i < |ss| ==> es[lo + i] == SessionEntry(ss[i])
  }

  ghost predicate MessagesAt(es: seq<Entry>, lo: nat, ms: seq<Message>) {
    lo + |ms| <= |es| && forall i :: 0 <= i < |ms| ==> es[lo + i] == MessageEntry(ms[i])
  }

  ghost predicate PartsAt(es: seq<Entry>, lo: nat, ps: seq<(string, Part)>) {
    lo + |ps| <= |es| && forall i :: 0 <= i < |ps| ==> es[lo + i] == PartEntry(ps[i])
  }

  /** `es` lists the unit's sessions, then its messages, then its parts. */
  ghost predicate Lists(es: seq<Entry>, u: Unit) {
    && |es| == |u.sessions| + |u.messages| + |u.parts|
    && SessionsAt(es, 0, u.sessions)
    && MessagesAt(es, |u.sessions|, u.messages)
    && PartsAt(es, |u.sessions| + |u.messages|, u.parts)
  }

  lemma EntriesListed(u: Unit)
    ensures Lists(Entries(u), u)
  {
  }

  class UnitOfWorkImpl {
    const storage: Storage
    var inTransaction: bool
    var pendingSessions: seq<Session>
    var pendingMessages: seq<Message>
    var pendingParts: seq<(string, Part)>

    ghost function State(): Unit
      reads this
    {
      Unit(inTransaction, pendingSessions, pendingMessages, pendingParts)
    }

    /** The unit and its storage, with no past. */
    ghost function Now(): World
      reads this, storage
    {
      World(State(), storage.files, [], false, false)
    }

    constructor (storage: Storage)
      ensures this.storage == storage && State() == CLOSED
    {
      this.storage := storage;
      inTransaction, pendingSessions, pendingMessages, pendingParts := false, [], [], [];
    }

    method Begin() returns (ok: bool)
      modifies this
      ensures ok == Accepted(old(Now()), Op.Begin)
      ensures State() == Apply(old(Now()), Op.Begin).unit && storage.files == Apply(old(Now()), Op.Begin).store
    {
      if inTransaction {
        return false;
      }
      inTransaction, pendingSessions, pendingMessages, pendingParts := true, [], [], [];
      return true;
    }

    method Rollback() returns (ok: bool)
      modifies this
      ensures ok == Accepted(old(Now()), Op.Rollback)
      ensures State() == Apply(old(Now()), Op.Rollback).unit && storage.files == Apply(old(Now()), Op.Rollback).store
    {
      if !inTransaction {
        return false;
      }
      inTransaction, pendingSessions, pendingMessages, pendingParts := false, [], [], [];
      return true;
    }

    method RegisterSession(session: Session) returns (ok: bool)
      modifies this`pendingSessions
      ensures ok == Accepted(old(Now()), Op.RegisterSession(session))
      ensures State() == Apply(old(Now()), Op.RegisterSession(session)).unit && storage.files == Apply(old(Now()), Op.RegisterSession(session)).store
    {
      if inTransaction {
        pendingSessions := pendingSessions + [session];
      }
      return inTransaction;
    }

    method RegisterMessage(message: Message) returns (ok: bool)
      modifies this`pendingMessages
      ensures ok == Accepted(old(Now()), Op.RegisterMessage(message))
      ensures State() == Apply(old(Now()), Op.RegisterMessage(message)).unit && storage.files == Apply(old(Now()), Op.RegisterMessage(message)).store
    {
      if inTransaction {
        pendingMessages := pendingMessages + [message];
      }
      return inTransaction;
    }

    method RegisterPart(messageId: string, part: Part) returns (ok: bool)
      modifies this`pendingParts
      ensures ok == Accepted(old(Now()), Op.RegisterPart(messageId, part))
      ensures State() == Apply(old(Now()), Op.RegisterPart(messageId, part)).unit && storage.files == Apply(old(Now()), Op.RegisterPart(messageId, part)).store
    {
      if inTransaction {
        pendingParts := pendingParts + [(messageId, part)];
      }
      return inTransaction;
    }

    /** The creates from entry `lo` on have reached `hi`, or one before it has failed. */
    ghost predicate CreatedUpTo(es: seq<Entry>, fate: nat -> Fate, was: Store, lo: nat, hi: nat, ok: bool)
      reads storage
    {
      && lo <= hi <= |es|
      && var r := WriteFrom(was, es, lo, fate);
        if ok then r == WriteFrom(storage.files, es, hi, fate) else r.store == storage.files && r.count < |es|
    }

    /** One round of a commit's loops: entry `i` of `es` is `e`. */
    method CreateNext(ghost es: seq<Entry>, e: Entry, i: nat, fate: nat -> Fate) returns (ok: bool)
      requires i < |es| && es[i] == e
      modifies storage
      ensures WriteFrom(old(storage.files), es, i, fate)
        == if ok then WriteFrom(storage.files, es, i + 1, fate) else Written(storage.files, i)
    {
      ok := storage.Create(e, fate(i));
    }

    /** One loop of a commit, whose entries are those of `es` from `lo` on. */
    method CreateSessions(ghost es: seq<Entry>, lo: nat, fate: nat -> Fate) returns (ok: bool)
      requires SessionsAt(es, lo, pendingSessions)
      modifies storage
      ensures CreatedUpTo(es, fate, old(storage.files), lo, lo + |pendingSessions|, ok)
    {
      for i := 0 to |pendingSessions|
        invariant WriteFrom(storage.files, es, lo + i, fate) == WriteFrom(old(storage.files), es, lo, fate)
      {
        ok := CreateNext(es, SessionEntry(pendingSessions[i]), lo + i, fate);
        if !ok {
          return;
        }
      }
      ok := true;
    }

    /** One loop of a commit, whose entries are those of `es` from `lo` on. */
    method CreateMessages(ghost es: seq<Entry>, lo: nat, fate: nat -> Fate) returns (ok: bool)
      requires MessagesAt(es, lo, pendingMessages)
      modifies storage
      ensures CreatedUpTo(es, fate, old(storage.files), lo, lo + |pendingMessages|, ok)
    {
      for i := 0 to |pendingMessages|
        invariant WriteFrom(storage.files, es, lo + i, fate) == WriteFrom(old(storage.files), es, lo, fate)
      {
        ok := CreateNext(es, MessageEntry(pendingMessages[i]), lo + i, fate);
        if !ok {
          return;
        }
      }
      ok := true;
    }

    /** One loop of a commit, whose entries are those of `es` from `lo` on. */
    method CreateParts(ghost es: seq<Entry>, lo: nat, fate: nat -> Fate) returns (ok: bool)
      requires PartsAt(es, lo, pendingParts)
      modifies storage
      ensures CreatedUpTo(es, fate, old(storage.files), lo, lo + |pendingParts|, ok)
    {
      for i := 0 to |pendingParts|
        invariant WriteFrom(storage.files, es, lo + i, fate) == WriteFrom(old(storage.files), es, lo, fate)
      {
        ok := CreateNext(es, PartEntry(pendingParts[i]), lo + i, fate);
        if !ok {
          return;
        }
      }
      ok := true;
    }

    /** The three loops of a commit. */
    method CreateAll(ghost es: seq<Entry>, fate: nat -> Fate) returns (ok: bool)
      requires Lists(es, State())
      modifies storage
      ensures CreatedUpTo(es, fate, old(storage.files), 0, |es|, ok)
    {
      ok := CreateSessions(es, 0, fate);
      if ok {
        ok := CreateMessages(es, |pendingSessions|, fate);
      }
      if ok {
        ok := CreateParts(es, |pendingSessions| + |pendingMessages|, fate);
      }
    }

    method Commit(fate: nat -> Fate) returns (ok: bool)
      modifies this, storage
      ensures ok == Accepted(old(Now()), Op.Commit(fate))
      ensures State() == Apply(old(Now()), Op.Commit(fate)).unit && storage.files == Apply(old(Now()), Op.Commit(fate)).store
    {
      if !inTransaction {
        return false;
      }
      EntriesListed(State());
      ok := CreateAll(Entries(State()), fate);
      if ok {
        inTransaction, pendingSessions, pendingMessages, pendingParts := false, [], [], [];
      }
    }
  }
}
