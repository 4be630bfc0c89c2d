/**
 Input the parser of scripts/validate-docs.py takes besides its own canonical rendering:
 repeated keys, other spacing and quoting, and lines that belong to nothing.
 */
module FrontmatterForms {
  import opened Prelude
  import opened Frontmatter

  function ValueOf(doc: Doc, k: string): Option<Value> {
    if doc == [] then None else if doc[0].key == k then Some(doc[0].value) else ValueOf(doc[1..], k)
  }

  function KeysOf(doc: Doc): seq<string> {
    if doc == [] then [] else [doc[0].key] + KeysOf(doc[1..])
  }

  lemma {:induction false} SetReplaces(doc: Doc, key: string, v: Value, k: string)
    ensures ValueOf(Set(doc, key, v), k) == if k == key then Some(v) else ValueOf(doc, k)
    ensures KeysOf(Set(doc, key, v)) == KeysOf(doc) + if key in KeysOf(doc) then [] else [key]
  {
    if doc != [] {
      SetReplaces(doc[1..], key, v, k);
      assert Set(doc, key, v)[1..] == if doc[0].key == key then doc[1..] else Set(doc[1..], key, v);
      assert KeysOf(doc) == [doc[0].key] + KeysOf(doc[1..]);
    }
  }

  /**
   The last value of a key wins, whatever lines come before it; it takes the place of the
   first one, and no other key notices.
   */
  lemma LastValueWins(before: seq<Line>, e: Entry, k: string)
    requires GoodKey(e.key) && GoodValue(e.value)
    ensures var doc, doc' := Parse(before), Parse(before + RenderEntry(e));
      && ValueOf(doc', e.key) == Some(e.value)
      && (k != e.key ==> ValueOf(doc', k) == ValueOf(doc, k))
      && KeysOf(doc') == KeysOf(doc) + if e.key in KeysOf(doc) then [] else [e.key]
  {
    FoldConcat(START, before, RenderEntry(e));
    FoldEntry(Fold(START, before), e);
    SetReplaces(Parse(before), e.key, e.value, e.key);
    SetReplaces(Parse(before), e.key, e.value, k);
  }

  // ---------------------------------------------------------------------
  // White space

  predicate All(s: string, p: char -> bool) {
    forall i :: 0 <= i < |s| ==> p(s[i])
  }

  lemma {:induction false} DropPadLeft(w: string, r: string, p: char -> bool)
    requires All(w, p) && (r == "" || !p(r[0]))
    ensures DropLeft(w + r, p) == r
  {
    if w == "" {
      assert w + r == r;
    } else {
      assert (w + r)[1..] == w[1..] + r;
      DropPadLeft(w[1..], r, p);
    }
  }

  lemma {:induction false} DropPadRight(r: string, w: string, p: char -> bool)
    requires All(w, p) && (r == "" || !p(r[|r| - 1]))
    ensures DropRight(r + w, p) == r
  {
    if w == "" {
      assert r + w == r;
    } else {
      assert (r + w)[..|r + w| - 1] == r + w[..|w| - 1];
      DropPadRight(r, w[..|w| - 1], p);
    }
  }

  lemma TrimPadded(v: string, r: string, w: string, p: char -> bool)
    requires All(v, p) && All(w, p) && Trimmed(r, p)
    ensures Trim(v + r + w, p) == r
  {
    if r == "" {
      assert v + r + w == (v + w) + "";
      DropPadLeft(v + w, "", p);
    } else {
      assert v + r + w == v + (r + w);
      DropPadLeft(v, r + w, p);
      DropPadRight(r, w, p);
    }
  }

  lemma {:induction false} TrimmedAway(s: string, p: char -> bool)
    ensures Trim(s, p) == "" <==> All(s, p)
  {
    if All(s, p) {
      TrimPadded(s, "", "", p);
      assert s + "" + "" == s;
    } else {
      var i :| 0 <= i < |s| && !p(s[i]);
      DropLeftKeeps(s, i, p);
      DropRightPrefix(DropLeft(s, p), p);
    }
  }

  lemma {:induction false} DropLeftKeeps(s: string, i: nat, p: char -> bool)
    requires i < |s| && !p(s[i])
    ensures DropLeft(s, p) != ""
  {
    if p(s[0]) {
      DropLeftKeeps(s[1..], i - 1, p);
    }
  }

  /** What follows the indentation of a line. */
  predicate Unpadded(r: Line) {
    r == "" || !IsSpace(r[0])
  }

  lemma {:induction false} FindAfter(w: string, c: char, r: string)
    requires c !in w
    ensures c in w + r <==> c in r
    ensures c in r ==> Find(w + r, c) == |w| + Find(r, c)
  {
    if w == "" {
      assert w + r == r;
    } else {
      assert (w + r)[1..] == w[1..] + r;
      FindAfter(w[1..], c, r);
    }
  }

  /** The step of a line with the given key and value. */
  function Keyed(st: State, key: string, value: string): State {
    if value == "" then st.(key := Some(key), inArray := true, values := Some([]))
    else st.(doc := Set(st.doc, key, Scalar(Trim(value, IsQuote))))
  }

  lemma StepKeyed(st: State, line: Line, left: string, right: string)
    requires ':' in line && line[..Find(line, ':')] == left && line[Find(line, ':') + 1..] == right
    ensures StepKey(st, line) == Keyed(st, Trim(left, IsSpace), Trim(right, IsSpace))
  {
  }

  lemma Slices(w: string, r: string, c: nat)
    requires c < |r|
    ensures (w + r)[..|w| + c] == w + r[..c] && (w + r)[|w| + c + 1..] == r[c + 1..]
  {
  }

  lemma IndentedParts(w: string, r: Line)
    requires All(w, IsSpace) && ':' in r
    ensures ':' in w + r
    ensures (w + r)[..Find(w + r, ':')] == w + r[..Find(r, ':')]
    ensures (w + r)[Find(w + r, ':') + 1..] == r[Find(r, ':') + 1..]
  {
    assert ':' !in w;
    FindAfter(w, ':', r);
    Slices(w, r, Find(r, ':'));
  }

  lemma TrimIndented(w: string, a: string)
    requires All(w, IsSpace) && Unpadded(a)
    ensures Trim(w + a, IsSpace) == Trim(a, IsSpace)
  {
    DropPadLeft(w, a, IsSpace);
    DropPadLeft("", a, IsSpace);
    assert "" + a == a;
  }

  /** A key line is read alike however far it is indented. */
  lemma StepKeyIndented(st: State, w: string, r: Line)
    requires All(w, IsSpace) && Unpadded(r)
    ensures StepKey(st, w + r) == StepKey(st, r)
  {
    if ':' in r {
      var c := Find(r, ':');
      IndentedParts(w, r);
      TrimIndented(w, r[..c]);
      StepKeyed(st, w + r, w + r[..c], r[c + 1..]);
      StepKeyed(st, r, r[..c], r[c + 1..]);
    } else {
      assert ':' !in w;
      FindAfter(w, ':', r);
    }
  }

  predicate IsDash(r: Line) {
    |r| >= 2 && r[0] == '-' && IsSpace(r[1])
  }

  lemma StepIndented(st: State, v: string, w: string, r: Line)
    requires Bound(st) && v != "" && w != "" && All(v, IsSpace) && All(w, IsSpace) && Unpadded(r)
    requires (v[0] == ' ' <==> w[0] == ' ') || IsDash(r)
    ensures Step(st, v + r) == Step(st, w + r)
  {
    DropPadLeft(v, r, IsSpace);
    DropPadLeft(w, r, IsSpace);
    SkippedLooksAtHead(v + r);
    SkippedLooksAtHead(w + r);
    StepKeyIndented(Close(st), v, r);
    StepKeyIndented(Close(st), w, r);
  }

  lemma FoldReplace(before: seq<Line>, a: Line, b: Line, after: seq<Line>)
    requires Step(Fold(START, before), a) == Step(Fold(START, before), b)
    ensures Parse(before + [a] + after) == Parse(before + [b] + after)
  {
    FoldLine(before, a, after);
    FoldLine(before, b, after);
  }

  lemma FoldLine(before: seq<Line>, a: Line, after: seq<Line>)
    ensures Fold(START, before + [a] + after) == Fold(Step(Fold(START, before), a), after)
  {
    assert before + [a] + after == before + ([a] + after);
    FoldConcat(START, before, [a] + after);
    FoldCons(Fold(START, before), a, after);
  }

  /**
   How far a line is indented never counts, only that it is; and whether by a space or by
   other white space counts at most for lines that do not start an item.
   */
  lemma IndentationDoesNotCount(before: seq<Line>, v: string, w: string, r: Line, after: seq<Line>)
    requires v != "" && w != "" && All(v, IsSpace) && All(w, IsSpace) && Unpadded(r)
    requires (v[0] == ' ' <==> w[0] == ' ') || IsDash(r)
    ensures Parse(before + [v + r] + after) == Parse(before + [w + r] + after)
  {
    StepIndented(Fold(START, before), v, w, r);
    FoldReplace(before, v + r, w + r, after);
  }

  // ---------------------------------------------------------------------
  // Whether an array is open

  /** A line with a colon and nothing but white space after the first one. */
  predicate OpensArray(line: Line) {
    ':' in line && All(line[Find(line, ':') + 1..], IsSpace)
  }

  /** A line that an open array takes. */
  predicate StaysInside(line: Line) {
    StartsItem(line) || (line != "" && line[0] == ' ')
  }

  predicate ArrayIsOpen(lines: seq<Line>) {
    lines != [] &&
    var before, line := lines[..|lines| - 1], lines[|lines| - 1];
    if Skipped(line) then ArrayIsOpen(before)
    else (ArrayIsOpen(before) && StaysInside(line)) || OpensArray(line)
  }

  lemma StepOpens(st: State, line: Line)
    requires Bound(st)
    ensures Step(st, line).inArray <==>
      if Skipped(line) then st.inArray else (st.inArray && StaysInside(line)) || OpensArray(line)
  {
    if ':' in line {
      TrimmedAway(line[Find(line, ':') + 1..], IsSpace);
    }
    if Trim(line, IsSpace) != "" {
      assert line != "";
    }
  }

  lemma {:induction false} OpenIffInArray(lines: seq<Line>)
    ensures Fold(START, lines).inArray <==> ArrayIsOpen(lines)
  {
    if lines != [] {
      var before, line := lines[..|lines| - 1], lines[|lines| - 1];
      OpenIffInArray(before);
      assert lines == before + [line] + [];
      FoldLine(before, line, []);
      StepOpens(Fold(START, before), line);
    }
  }

  /** In an open array the indentation of an item counts as little as the space after its dash. */
  lemma ItemSpacingDoesNotCount(
      before: seq<Line>, v: string, v': string, w: string, w': string, r: Line, after: seq<Line>)
    requires ArrayIsOpen(before) && Unpadded(r)
    requires v != "" && v' != "" && All(v, IsSpace) && All(v', IsSpace)
    requires w != "" && w' != "" && All(w, IsSpace) && All(w', IsSpace)
    ensures Parse(before + [v + (['-'] + (v' + r))] + after) == Parse(before + [w + (['-'] + (w' + r))] + after)
  {
    OpenIffInArray(before);
    StepAnyItem(Fold(START, before), v, v', r);
    StepAnyItem(Fold(START, before), w, w', r);
    FoldReplace(before, v + (['-'] + (v' + r)), w + (['-'] + (w' + r)), after);
  }

  lemma StepAnyItem(st: State, v: string, w: string, r: Line)
    requires Bound(st) && st.inArray && Unpadded(r)
    requires v != "" && w != "" && All(v, IsSpace) && All(w, IsSpace)
    ensures Step(st, v + (['-'] + (w + r))) == st.(values := Some(Flush(st.values.value, st.item)), item := [r])
  {
    var t := ['-'] + (w + r);
    DropPadLeft(v, t, IsSpace);
    SkippedLooksAtHead(v + t);
    assert t[1..] == w + r && t[1] == w[0];
    DropPadLeft(w, r, IsSpace);
  }

  /**
   A line with no colon that no array takes is passed over, except that it ends the array
   before it: what is indented after it then belongs to nothing.
   */
  lemma StrayLineEndsArray(before: seq<Line>, stray: Line, after: seq<Line>)
    requires !Skipped(stray) && ':' !in stray && !(ArrayIsOpen(before) && StaysInside(stray))
    ensures Parse(before + [stray]) == Parse(before) && !ArrayIsOpen(before + [stray])
    ensures !ArrayIsOpen(before) ==> Parse(before + [stray] + after) == Parse(before + after)
  {
    var st := Fold(START, before);
    OpenIffInArray(before);
    OpenIffInArray(before + [stray]);
    FoldLine(before, stray, []);
    assert before + [stray] + [] == before + [stray];
    FoldLine(before, stray, after);
    FoldConcat(START, before, after);
    assert (before + [stray])[..|before|] == before;
  }

  // ---------------------------------------------------------------------
  // Key lines

  lemma KeyParts(key: string, w: string, rest: string)
    requires GoodKey(key) && key != "" && All(w, IsSpace)
    ensures var line := key + w + [':'] + rest;
      ':' in line && line[..Find(line, ':')] == key + w && line[Find(line, ':') + 1..] == rest && line[0] == key[0]
  {
    assert ':' !in key + w;
    FindInConcat(key + w, ':', rest);
  }

  lemma StepAnyLine(st: State, line: Line, left: string, rest: string)
    requires Bound(st) && line != "" && !IsSpace(line[0]) && line[0] != '#'
    requires ':' in line && line[..Find(line, ':')] == left && line[Find(line, ':') + 1..] == rest
    ensures Step(st, line) == Keyed(Close(st), Trim(left, IsSpace), Trim(rest, IsSpace))
  {
    StepUnindented(st, line);
    StepKeyed(Close(st), line, left, rest);
  }

  lemma StepAnyKey(st: State, key: string, w: string, rest: string)
    requires Bound(st) && GoodKey(key) && key != "" && All(w, IsSpace)
    ensures Step(st, key + w + [':'] + rest) == Keyed(Close(st), key, Trim(rest, IsSpace))
  {
    KeyParts(key, w, rest);
    assert Trim(key + w, IsSpace) == key by {
      TrimPadded("", key, w, IsSpace);
      assert "" + key + w == key + w;
    }
    StepAnyLine(st, key + w + [':'] + rest, key + w, rest);
  }

  /**
   However a scalar is spaced and quoted, its line is read as the canonical one: white space
   around the key and the value, and quotes of either kind in any number, come off.
   */
  lemma ScalarForms(
      before: seq<Line>, key: string, w: string, v: string, q: string, t: string, q': string, v': string)
    requires GoodKey(key) && key != "" && GoodValue(Scalar(t))
    requires All(w, IsSpace) && All(v, IsSpace) && All(v', IsSpace) && All(q, IsQuote) && All(q', IsQuote)
    requires q + t + q' != "" && Trimmed(q + t + q', IsSpace)
    ensures Parse(before + [key + w + [':'] + (v + (q + t + q') + v')]) == Parse(before + RenderEntry(Entry(key, Scalar(t))))
  {
    var line := key + w + [':'] + (v + (q + t + q') + v');
    var st := Fold(START, before);
    StepAnyKey(st, key, w, v + (q + t + q') + v');
    TrimPadded(v, q + t + q', v', IsSpace);
    TrimPadded(q, t, q', IsQuote);
    FoldLine(before, line, []);
    assert before + [line] + [] == before + [line];
    FoldConcat(START, before, RenderEntry(Entry(key, Scalar(t))));
    FoldScalar(st, key, t);
  }

  /** However its colon is spaced, a key with no value opens its array. */
  lemma HeaderForms(before: seq<Line>, key: string, w: string, v: string, after: seq<Line>)
    requires GoodKey(key) && key != "" && All(w, IsSpace) && All(v, IsSpace)
    ensures Parse(before + [key + w + [':'] + v] + after) == Parse(before + [KeyLine(key, "")] + after)
  {
    var st := Fold(START, before);
    StepAnyKey(st, key, w, v);
    TrimmedAway(v, IsSpace);
    StepKeyLine(st, key, "");
    KeyOfLine(Close(st), key, "");
    FoldReplace(before, key + w + [':'] + v, KeyLine(key, ""), after);
  }

  // ---------------------------------------------------------------------
  // Whole files

  /** A line that begins with three dashes starts after position `i`. */
  predicate FenceAt(s: string, i: nat) {
    i + 3 < |s| && s[i] == '\n' && s[i + 1] == s[i + 2] == s[i + 3] == '-'
  }

  lemma {:induction false} FindClosingIsFirst(s: string, i: nat)
    ensures FindClosing(s) == Some(i) <==> FenceAt(s, i) && forall j :: 0 <= j < i ==> !FenceAt(s, j)
    ensures FindClosing(s) == None ==> !FenceAt(s, i)
  {
    if s != "" && !FenceAt(s, 0) {
      var rest := s[1..];
      assert forall j :: 0 < j ==> (FenceAt(s, j) <==> FenceAt(rest, j - 1));
      if i > 0 {
        FindClosingIsFirst(rest, i - 1);
        assert forall j :: 0 <= j < i - 1 ==> (FenceAt(s, j + 1) <==> FenceAt(rest, j));
      }
    }
  }

  /**
   A file has frontmatter exactly if it starts with a line of three dashes and some later line,
   past the next line break, begins with three; the text between the first one and the earliest
   of those is then what is parsed.
   */
  lemma FrontmatterEndsAtFirstFence(content: string)
    ensures var open := ['-', '-', '-', '\n'] <= content;
      match ParseFrontmatter(content)
      case Missing => !open || forall i :: i >= 4 ==> !FenceAt(content, i)
      case Frontmatter(yaml, doc) =>
        var i := 4 + |yaml|;
        && open && FenceAt(content, i) && (forall j :: 4 <= j < i ==> !FenceAt(content, j))
        && yaml == content[4..i] && doc == Parse(Split(yaml))
  {
    assert FENCE == ['-', '-', '-', '\n'];
    if FENCE <= content {
      var body := content[4..];
      assert forall i :: 4 <= i ==> (FenceAt(content, i) <==> FenceAt(body, i - 4));
      match FindClosing(body)
      case None =>
        forall i | i >= 4 ensures !FenceAt(content, i) {
          FindClosingIsFirst(body, i - 4);
        }
      case Some(i) =>
        FindClosingIsFirst(body, i);
        FindClosingInside(body);
        assert content[4..4 + i] == body[..i];
    }
  }
}
