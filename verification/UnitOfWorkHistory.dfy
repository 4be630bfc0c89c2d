/**
 What a run of the unit of work of dawn_kestrel/core/unit_of_work.py leaves in the storage,
 read off the calls made and what they returned: the files of everything registered in the
 transactions that were committed.
 */
module UnitOfWorkHistory {
  import opened Prelude
  import opened UnitOfWork

  /** A call, and whether it returned Ok. */
  datatype Turn = Turn(op: Op, ok: bool)

  ghost function Transcript(initial: Store, ops: seq<Op>): seq<Turn> {
    if ops == [] then []
    else
      var before, op := ops[..|ops| - 1], ops[|ops| - 1];
      Transcript(initial, before) + [Turn(op, Accepted(Run(initial, before), op))]
  }

  predicate InTransaction(h: seq<Turn>) {
    h != [] &&
    var t := h[|h| - 1];
    if t.ok && t.op.Begin? then true
    else if t.ok && (t.op.Commit? || t.op.Rollback?) then false
    else InTransaction(h[..|h| - 1])
  }

  /** Whether a commit has failed since the transaction began. */
  predicate FailedSince(h: seq<Turn>) {
    h != [] &&
    var before, t := h[..|h| - 1], h[|h| - 1];
    if t.ok && t.op.Begin? then false
    else (t.op.Commit? && !t.ok && InTransaction(before)) || FailedSince(before)
  }

  /** Whether a transaction with a failed commit was ever rolled back. */
  predicate Abandoned(h: seq<Turn>) {
    h != [] &&
    var before, t := h[..|h| - 1], h[|h| - 1];
    (t.ok && t.op.Rollback? && FailedSince(before)) || Abandoned(before)
  }

  function SessionsSince(h: seq<Turn>): seq<Session> {
    if h == [] || (h[|h| - 1].ok && h[|h| - 1].op.Begin?) then []
    else
      var t := h[|h| - 1];
      SessionsSince(h[..|h| - 1]) + if t.ok && t.op.RegisterSession? then [t.op.session] else []
  }

  function MessagesSince(h: seq<Turn>): seq<Message> {
    if h == [] || (h[|h| - 1].ok && h[|h| - 1].op.Begin?) then []
    else
      var t := h[|h| - 1];
      MessagesSince(h[..|h| - 1]) + if t.ok && t.op.RegisterMessage? then [t.op.message] else []
  }

  function PartsSince(h: seq<Turn>): seq<(string, Part)> {
    if h == [] || (h[|h| - 1].ok && h[|h| - 1].op.Begin?) then []
    else
      var t := h[|h| - 1];
      PartsSince(h[..|h| - 1]) + if t.ok && t.op.RegisterPart? then [(t.op.messageId, t.op.part)] else []
  }

  const JSON := ['.', 'j', 's', 'o', 'n']

  function JsonName(id: string): string {
    if |id| >= 5 && id[|id| - 5..] == JSON then id else id + JSON
  }

  /** The files of sessions, messages and parts: where each goes, and what is in it. */
  function Files(ss: seq<Session>, ms: seq<Message>, ps: seq<(string, Part)>): seq<Entry> {
    seq(|ss|, i requires 0 <= i < |ss| => Entry(Key(SessionFile, ss[i].projectId, JsonName(ss[i].id)), ss[i].json)) +
    seq(|ms|, i requires 0 <= i < |ms| => Entry(Key(MessageFile, ms[i].sessionId, JsonName(ms[i].id)), ms[i].json)) +
    seq(|ps|, i requires 0 <= i < |ps| => Entry(Key(PartFile, ps[i].0, JsonName(ps[i].1.id)), ps[i].1.json))
  }

  /** The files of what was registered since the last `begin`. */
  function FilesSince(h: seq<Turn>): seq<Entry> {
    Files(SessionsSince(h), MessagesSince(h), PartsSince(h))
  }

  /** The files of every committed transaction, one after another. */
  function CommittedFiles(h: seq<Turn>): seq<Entry> {
    if h == [] then []
    else
      var before, t := h[..|h| - 1], h[|h| - 1];
      CommittedFiles(before) + if t.ok && t.op.Commit? then FilesSince(before) else []
  }

  /** A path component the storage takes: not empty, no separator or NUL in it, no two dots in a row. */
  predicate Plain(c: string) {
    && c != ""
    && (forall i :: 0 <= i < |c| ==> c[i] != '/' && c[i] != '\\' && c[i] != '\0')
    && (forall i :: 0 <= i < |c| - 1 ==> !(c[i] == '.' && c[i + 1] == '.'))
  }

  // ---------------------------------------------------------------------
  // The unit of work agrees with its transcript

  ghost predicate Agrees(h: seq<Turn>, w: World) {
    && w.unit.open == InTransaction(h)
    && (w.unit.open ==> w.unit == Unit(true, SessionsSince(h), MessagesSince(h), PartsSince(h)))
    && w.failed == FailedSince(h) && w.abandoned == Abandoned(h)
    && w.log == CommittedFiles(h)
  }

  lemma JsonNames(id: string)
    ensures FileName(id) == JsonName(id)
  {
    assert ".json" == JSON;
  }

  lemma FilesAreEntries(ss: seq<Session>, ms: seq<Message>, ps: seq<(string, Part)>)
    ensures Files(ss, ms, ps) == Entries(Unit(true, ss, ms, ps))
  {
    forall i | 0 <= i < |ss| ensures FileName(ss[i].id) == JsonName(ss[i].id) {
      JsonNames(ss[i].id);
    }
    forall i | 0 <= i < |ms| ensures FileName(ms[i].id) == JsonName(ms[i].id) {
      JsonNames(ms[i].id);
    }
    forall i | 0 <= i < |ps| ensures FileName(ps[i].1.id) == JsonName(ps[i].1.id) {
      JsonNames(ps[i].1.id);
    }
    assert SessionEntries(ss) ==
      seq(|ss|, i requires 0 <= i < |ss| => Entry(Key(SessionFile, ss[i].projectId, JsonName(ss[i].id)), ss[i].json));
    assert MessageEntries(ms) ==
      seq(|ms|, i requires 0 <= i < |ms| => Entry(Key(MessageFile, ms[i].sessionId, JsonName(ms[i].id)), ms[i].json));
    assert PartEntries(ps) ==
      seq(|ps|, i requires 0 <= i < |ps| => Entry(Key(PartFile, ps[i].0, JsonName(ps[i].1.id)), ps[i].1.json));
  }

  lemma TurnAgrees(h: seq<Turn>, w: World, op: Op)
    requires Agrees(h, w)
    ensures Agrees(h + [Turn(op, Accepted(w, op))], Apply(w, op))
  {
    var t := Turn(op, Accepted(w, op));
    assert (h + [t])[..|h|] == h;
    if op.Commit? && w.unit.open {
      FilesAreEntries(w.unit.sessions, w.unit.messages, w.unit.parts);
      var _ := CommitWritesPrefix(w, op.fate);
    }
  }

  lemma {:induction false} TranscriptAgrees(initial: Store, ops: seq<Op>)
    ensures |Transcript(initial, ops)| == |ops| && Agrees(Transcript(initial, ops), Run(initial, ops))
  {
    if ops != [] {
      var before := ops[..|ops| - 1];
      TranscriptAgrees(initial, before);
      TurnAgrees(Transcript(initial, before), Run(initial, before), ops[|ops| - 1]);
    }
  }

  lemma PlainIsAllowed(c: string)
    ensures Plain(c) <==> !BadComponent(c)
  {
    if !BadComponent(c) {
      forall i | 0 <= i < |c| - 1 ensures !(c[i] == '.' && c[i + 1] == '.') {
        assert !(c[i + 1 - 1] == c[i + 1] == '.');
      }
    }
    if Plain(c) {
      forall i | 0 < i < |c| ensures !(c[i - 1] == c[i] == '.') {
        assert !(c[i - 1] == '.' && c[i - 1 + 1] == '.');
      }
    }
  }

  // ---------------------------------------------------------------------
  // Main results

  /**
   What each call returns: `begin` is refused in a transaction and everything else outside
   one; a commit returns Ok exactly when the storage takes every path of what was registered
   since `begin` and no write fails.
   */
  lemma AnswersFollowTheHistory(initial: Store, ops: seq<Op>, op: Op)
    ensures var h := Transcript(initial, ops);
      Accepted(Run(initial, ops), op) <==>
        match op
        case Begin => !InTransaction(h)
        case Commit(fate) =>
          InTransaction(h) && forall i :: 0 <= i < |FilesSince(h)| ==>
            Plain(FilesSince(h)[i].key.parent) && Plain(FilesSince(h)[i].key.file) && fate(i) == Fine
        case _ => InTransaction(h)
  {
    var h, w := Transcript(initial, ops), Run(initial, ops);
    TranscriptAgrees(initial, ops);
    if op.Commit? && w.unit.open {
      FilesAreEntries(w.unit.sessions, w.unit.messages, w.unit.parts);
      var k := CommitWritesPrefix(w, op.fate);
      forall i | 0 <= i < |FilesSince(h)|
        ensures Succeeds(FilesSince(h)[i], op.fate(i)) <==>
          Plain(FilesSince(h)[i].key.parent) && Plain(FilesSince(h)[i].key.file) && op.fate(i) == Fine
      {
        PlainIsAllowed(FilesSince(h)[i].key.parent);
        PlainIsAllowed(FilesSince(h)[i].key.file);
      }
    }
  }

  /** Each of the files is in the store, unless a later one has taken its place; the rest is as at first. */
  ghost predicate Holds(store: Store, initial: Store, files: seq<Entry>) {
    && (forall i :: 0 <= i < |files| && (forall j :: i < j < |files| ==> files[j].key != files[i].key) ==>
          files[i].key in store && store[files[i].key] == files[i].json)
    && (forall k :: (forall i :: 0 <= i < |files| ==> files[i].key != k) ==> Lookup(store, k) == Lookup(initial, k))
  }

  lemma {:induction false} LastOfKey(files: seq<Entry>, i: nat)
    requires i < |files| && forall j :: i < j < |files| ==> files[j].key != files[i].key
    ensures LastPut(files, files[i].key) == Some(files[i].json)
  {
    if i < |files| - 1 {
      LastOfKey(files[..|files| - 1], i);
    }
  }

  lemma PutAllHolds(initial: Store, files: seq<Entry>)
    ensures Holds(PutAll(initial, files), initial, files)
  {
    var store := PutAll(initial, files);
    forall i | 0 <= i < |files| && (forall j :: i < j < |files| ==> files[j].key != files[i].key)
      ensures files[i].key in store && store[files[i].key] == files[i].json
    {
      LastOfKey(files, i);
      LookupAfter(initial, files, files[i].key);
    }
    forall k | (forall i :: 0 <= i < |files| ==> files[i].key != k) ensures Lookup(store, k) == Lookup(initial, k) {
      LookupAfter(initial, files, k);
    }
  }

  /**
   What was registered is what gets committed: over every run in which no transaction with a
   failed commit was rolled back, outside a transaction, and within one until a commit of it
   fails, the store holds the files of the sessions, then the messages, then the parts that
   each committed transaction registered, and is otherwise as it was at first.
   */
  lemma CommittedIsWhatWasRegistered(initial: Store, ops: seq<Op>)
    ensures var h := Transcript(initial, ops);
      !Abandoned(h) && !(InTransaction(h) && FailedSince(h)) ==>
        Holds(Run(initial, ops).store, initial, CommittedFiles(h))
  {
    var h, w := Transcript(initial, ops), Run(initial, ops);
    TranscriptAgrees(initial, ops);
    if !Abandoned(h) && !(InTransaction(h) && FailedSince(h)) {
      if w.unit.open {
        SerialRun(initial, ops);
      } else {
        RetriesHeal(initial, ops);
      }
      PutAllHolds(initial, CommittedFiles(h));
    }
  }
}
