/**
 The frontmatter parser of scripts/validate-docs.py: cutting the frontmatter out of a
 file, the line-by-line parser, and the documents it can return.
 */
module Frontmatter {
  import opened Prelude

  type Line = string

  // ---------------------------------------------------------------------
  // Python's string methods

  /** What Python's `str.strip` and its `\s` take for white space. */
  predicate IsSpace(c: char) {
    || '\t' <= c <= '\r' || '\U{1C}' <= c <= ' ' || c == '\U{85}' || c == '\U{A0}' || c == '\U{1680}'
    || '\U{2000}' <= c <= '\U{200A}' || c == '\U{2028}' || c == '\U{2029}' || c == '\U{202F}'
    || c == '\U{205F}' || c == '\U{3000}'
  }

  predicate IsQuote(c: char) {
    c == '"' || c == '\''
  }

  function DropLeft(s: string, p: char -> bool): (r: string)
    ensures |r| <= |s| && (r != "" ==> !p(r[0]))
  {
    if s != "" && p(s[0]) then DropLeft(s[1..], p) else s
  }

  function DropRight(s: string, p: char -> bool): (r: string)
    ensures |r| <= |s| && (r != "" ==> !p(r[|r| - 1]))
  {
    if s != "" && p(s[|s| - 1]) then DropRight(s[..|s| - 1], p) else s
  }

  /** `strip`, of the characters that satisfy `p`. */
  function Trim(s: string, p: char -> bool): string {
    DropRight(DropLeft(s, p), p)
  }

  predicate Trimmed(s: string, p: char -> bool) {
    s == "" || (!p(s[0]) && !p(s[|s| - 1]))
  }

  /** Position of the first `c`. */
  function Find(s: string, c: char): (i: nat)
    requires c in s
    ensures i < |s| && s[i] == c
  {
    if s[0] == c then 0 else 1 + Find(s[1..], c)
  }

  lemma {:induction false} FindIsFirst(s: string, c: char)
    requires c in s
    ensures c !in s[..Find(s, c)]
  {
    if s[0] != c {
      FindIsFirst(s[1..], c);
      assert s[..Find(s, c)] == [s[0]] + s[1..][..Find(s[1..], c)];
    }
  }

  lemma {:induction false} DropLeftSubset(s: string, p: char -> bool)
    ensures forall c :: c in DropLeft(s, p) ==> c in s
  {
    if s != "" && p(s[0]) {
      DropLeftSubset(s[1..], p);
    }
  }

  /** Dropping from the right leaves a string with the same head, if any. */
  lemma {:induction false} DropRightPrefix(s: string, p: char -> bool)
    ensures forall c :: c in DropRight(s, p) ==> c in s
    ensures DropRight(s, p) != "" ==> DropRight(s, p)[0] == s[0]
    ensures s != "" && !p(s[0]) ==> DropRight(s, p) != ""
  {
    if s != "" && p(s[|s| - 1]) {
      DropRightPrefix(s[..|s| - 1], p);
    }
  }

  lemma TrimIsTrimmed(s: string, p: char -> bool)
    ensures Trimmed(Trim(s, p), p)
    ensures forall c :: c in Trim(s, p) ==> c in s
  {
    DropLeftSubset(s, p);
    DropRightPrefix(DropLeft(s, p), p);
  }

  lemma TrimmedStays(s: string, p: char -> bool)
    requires Trimmed(s, p)
    ensures Trim(s, p) == s
  {
  }

  /** `'\n'.join(lines)` */
  function Join(lines: seq<Line>): string {
    if lines == [] then "" else if |lines| == 1 then lines[0] else lines[0] + ['\n'] + Join(lines[1..])
  }

  /** `text.split('\n')` */
  function Split(text: string): (lines: seq<Line>)
    ensures lines != [] && forall i :: 0 <= i < |lines| ==> '\n' !in lines[i]
  {
    if '\n' in text then
      var i := Find(text, '\n');
      FindIsFirst(text, '\n');
      [text[..i]] + Split(text[i + 1..])
    else [text]
  }

  lemma {:induction false} JoinSplit(text: string)
    ensures Join(Split(text)) == text
  {
    if '\n' in text {
      var i := Find(text, '\n');
      JoinSplit(text[i + 1..]);
      assert Split(text)[1..] == Split(text[i + 1..]);
      assert text == text[..i] + "\n" + text[i + 1..];
    }
  }

  lemma {:induction false} FindInConcat(a: string, c: char, b: string)
    requires c !in a
    ensures c in a + [c] + b && Find(a + [c] + b, c) == |a|
  {
    var s := a + [c] + b;
    assert s[|a|] == c;
    if a != "" {
      assert s[1..] == a[1..] + [c] + b;
      FindInConcat(a[1..], c, b);
    }
  }

  lemma SplitFirst(a: Line, b: string)
    requires '\n' !in a
    ensures Split(a + ['\n'] + b) == [a] + Split(b)
  {
    var s := a + ['\n'] + b;
    FindInConcat(a, '\n', b);
    assert s[..|a|] == a && s[|a| + 1..] == b;
  }

  lemma {:induction false} SplitJoin(lines: seq<Line>)
    requires lines != [] && forall i :: 0 <= i < |lines| ==> '\n' !in lines[i]
    ensures Split(Join(lines)) == lines
  {
    if |lines| > 1 {
      SplitJoin(lines[1..]);
      SplitFirst(lines[0], Join(lines[1..]));
      assert lines == [lines[0]] + lines[1..];
    } else {
      assert lines == [lines[0]];
    }
  }

  // ---------------------------------------------------------------------
  // The parser

  datatype Value = Scalar(text: string) | Items(items: seq<string>)
  datatype Entry = Entry(key: string, value: Value)

  /** A dictionary, in insertion order. */
  type Doc = seq<Entry>

  function Set(doc: Doc, key: string, value: Value): Doc {
    if doc == [] then [Entry(key, value)]
    else if doc[0].key == key then [Entry(key, value)] + doc[1..]
    else [doc[0]] + Set(doc[1..], key, value)
  }

  /** The parser's variables; `None` is a name not yet bound, or the initial None. */
  datatype State = State(
    inArray: bool, key: Option<string>, values: Option<seq<string>>, item: seq<Line>, doc: Doc)

  const START := State(false, None, None, [], [])

  /** What the parser relies on: inside an array its variables are bound, outside no item is open. */
  predicate Bound(st: State) {
    if st.inArray then st.key.Some? && st.values.Some? else st.item == []
  }

  predicate Skipped(line: Line) {
    var t := Trim(line, IsSpace);
    t == "" || t[0] == '#'
  }

  /** The line matches `^\s+-\s+`. */
  predicate StartsItem(line: Line) {
    var t := DropLeft(line, IsSpace);
    |t| < |line| && |t| >= 2 && t[0] == '-' && IsSpace(t[1])
  }

  function ItemLine(line: Line): Line
    requires StartsItem(line)
  {
    DropLeft(DropLeft(line, IsSpace)[1..], IsSpace)
  }

  function Flush(values: seq<string>, item: seq<Line>): seq<string> {
    if item == [] then values else values + [Join(item)]
  }

  /** The array, if one is open, entered in the document. */
  function Close(st: State): State
    requires Bound(st)
  {
    if st.inArray then
      var values := Flush(st.values.value, st.item);
      st.(inArray := false, values := Some(values), item := [], doc := Set(st.doc, st.key.value, Items(values)))
    else st
  }

  function StepKey(st: State, line: Line): State {
    if ':' in line then
      var c := Find(line, ':');
      var key, value := Trim(line[..c], IsSpace), Trim(line[c + 1..], IsSpace);
      if value == "" then st.(key := Some(key), inArray := true, values := Some([]))
      else st.(doc := Set(st.doc, key, Scalar(Trim(value, IsQuote))))
    else st
  }

  function Step(st: State, line: Line): (st': State)
    requires Bound(st)
    ensures Bound(st')
  {
    if Skipped(line) then st
    else if st.inArray && StartsItem(line) then
      st.(values := Some(Flush(st.values.value, st.item)), item := [ItemLine(line)])
    else if st.inArray && line[0] == ' ' then
      if st.item != [] then st.(item := st.item + [DropLeft(line, IsSpace)]) else st
    else StepKey(Close(st), line)
  }

  function Fold(st: State, lines: seq<Line>): (st': State)
    requires Bound(st)
    ensures Bound(st')
    decreases lines
  {
    if lines == [] then st else Fold(Step(st, lines[0]), lines[1..])
  }

  function Parse(lines: seq<Line>): Doc {
    Close(Fold(START, lines)).doc
  }

  function ParseText(text: string): Doc {
    Parse(Split(text))
  }

  /** The loop over the lines, with the variables it updates. */
  method ParseLines(lines: seq<Line>) returns (frontmatter: Doc)
    ensures frontmatter == Parse(lines)
  {
    frontmatter := [];
    var currentKey: Option<string> := None;
    var inArray := false;
    var arrayValues: Option<seq<string>> := None;
    var currentItemLines := [];
    for i := 0 to |lines|
      invariant inArray ==> currentKey.Some? && arrayValues.Some?
      invariant !inArray ==> currentItemLines == []
      invariant Fold(State(inArray, currentKey, arrayValues, currentItemLines, frontmatter), lines[i..])
             == Fold(START, lines)
    {
      var line := lines[i];
      assert lines[i..][0] == line && lines[i..][1..] == lines[i + 1..];
      var stripped := Trim(line, IsSpace);
      if stripped == "" || stripped[0] == '#' {
        continue;
      }
      if inArray && StartsItem(line) {
        if currentItemLines != [] {
          arrayValues := Some(arrayValues.value + [Join(currentItemLines)]);
        }
        currentItemLines := [ItemLine(line)];
        continue;
      } else if inArray && line[0] == ' ' {
        if currentItemLines != [] {
          currentItemLines := currentItemLines + [DropLeft(line, IsSpace)];
        }
        continue;
      } else if inArray {
        if currentItemLines != [] {
          arrayValues := Some(arrayValues.value + [Join(currentItemLines)]);
          currentItemLines := [];
        }
        frontmatter := Set(frontmatter, currentKey.value, Items(arrayValues.value));
        inArray := false;
      }
      if ':' in line {
        var c := Find(line, ':');
        var key, value := Trim(line[..c], IsSpace), Trim(line[c + 1..], IsSpace);
        if value == "" {
          currentKey, inArray, arrayValues := Some(key), true, Some([]);
        } else {
          frontmatter := Set(frontmatter, key, Scalar(Trim(value, IsQuote)));
        }
      }
    }
    if inArray {
      if currentItemLines != [] {
        arrayValues := Some(arrayValues.value + [Join(currentItemLines)]);
      }
      frontmatter := Set(frontmatter, currentKey.value, Items(arrayValues.value));
    }
  }

  // ---------------------------------------------------------------------
  // The documents it can return

  predicate GoodKey(k: string) {
    Trimmed(k, IsSpace) && ':' !in k && '\n' !in k && (k != "" ==> k[0] != '#')
  }

  /** A line that is taken for the next one of an item, once indented. */
  predicate GoodContinuation(l: Line) {
    && l != "" && !IsSpace(l[0]) && l[0] != '#' && '\n' !in l
    && !(l[0] == '-' && |l| >= 2 && IsSpace(l[1]))
  }

  predicate GoodContinuations(ls: seq<Line>) {
    ls == [] || (GoodContinuation(ls[0]) && GoodContinuations(ls[1..]))
  }

  predicate GoodLines(ls: seq<Line>) {
    ls != [] && '\n' !in ls[0] && (ls[0] != "" ==> !IsSpace(ls[0][0])) && GoodContinuations(ls[1..])
  }

  predicate GoodItems(items: seq<string>) {
    items == [] || (GoodLines(Split(items[0])) && GoodItems(items[1..]))
  }

  predicate GoodValue(v: Value) {
    match v
    case Scalar(t) => Trimmed(t, IsQuote) && '\n' !in t
    case Items(items) => GoodItems(items)
  }

  predicate HasKey(doc: Doc, k: string) {
    doc != [] && (doc[0].key == k || HasKey(doc[1..], k))
  }

  /** Distinct keys; keys, scalars and items of the shapes that survive the parser. */
  predicate WellFormed(doc: Doc) {
    doc == []
    || (&& GoodKey(doc[0].key) && GoodValue(doc[0].value)
        && !HasKey(doc[1..], doc[0].key) && WellFormed(doc[1..]))
  }

  function Indented(l: Line): Line {
    [' ', ' '] + l
  }

  function Dashed(l: Line): Line {
    ['-', ' '] + l
  }

  function Quoted(t: string): string {
    ['"'] + t + ['"']
  }

  function KeyLine(key: string, rest: string): Line {
    key + [':'] + rest
  }

  /** The canonical rendering: scalars in quotes, items two spaces in. */
  function RenderContinuations(ls: seq<Line>): seq<Line> {
    if ls == [] then [] else [Indented(Indented(ls[0]))] + RenderContinuations(ls[1..])
  }

  function RenderItem(ls: seq<Line>): seq<Line>
    requires ls != []
  {
    [Indented(Dashed(ls[0]))] + RenderContinuations(ls[1..])
  }

  function RenderItems(items: seq<string>): seq<Line> {
    if items == [] then [] else RenderItem(Split(items[0])) + RenderItems(items[1..])
  }

  function RenderEntry(e: Entry): seq<Line> {
    match e.value
    case Scalar(t) => [KeyLine(e.key, [' '] + Quoted(t))]
    case Items(items) => [KeyLine(e.key, "")] + RenderItems(items)
  }

  function Render(doc: Doc): seq<Line> {
    if doc == [] then [] else RenderEntry(doc[0]) + Render(doc[1..])
  }

  function RenderText(doc: Doc): string {
    Join(Render(doc))
  }

  // ---------------------------------------------------------------------
  // Lines, one kind at a time

  lemma {:induction false} DropLeftConcat(a: string, b: string, p: char -> bool)
    requires DropLeft(a, p) != ""
    ensures DropLeft(a + b, p) == DropLeft(a, p) + b
  {
    assert (a + b)[1..] == a[1..] + b;
    if p(a[0]) {
      DropLeftConcat(a[1..], b, p);
    }
  }

  lemma SkippedLooksAtHead(line: Line)
    ensures Skipped(line) <==> var t := DropLeft(line, IsSpace); t == "" || t[0] == '#'
  {
    var t := DropLeft(line, IsSpace);
    DropRightPrefix(t, IsSpace);
  }

  lemma {:induction false} FoldConcat(st: State, a: seq<Line>, b: seq<Line>)
    requires Bound(st)
    ensures Fold(st, a + b) == Fold(Fold(st, a), b)
    decreases a
  {
    if a == [] {
      assert a + b == b;
    } else {
      assert (a + b)[1..] == a[1..] + b;
      FoldConcat(Step(st, a[0]), a[1..], b);
    }
  }

  lemma DropHead(c: char, s: string, p: char -> bool)
    ensures DropLeft([c] + s, p) == if p(c) then DropLeft(s, p) else [c] + s
  {
    assert ([c] + s)[1..] == s;
  }

  lemma DropLast(s: string, c: char, p: char -> bool)
    ensures DropRight(s + [c], p) == if p(c) then DropRight(s, p) else s + [c]
  {
    assert (s + [c])[..|s|] == s;
  }

  /** A line that starts in the first column, outside a comment, closes any array. */
  lemma StepUnindented(st: State, line: Line)
    requires Bound(st) && line != "" && !IsSpace(line[0]) && line[0] != '#'
    ensures Step(st, line) == StepKey(Close(st), line)
  {
    assert DropLeft(line, IsSpace) == line;
    SkippedLooksAtHead(line);
  }

  lemma KeyLineSplits(key: string, rest: string)
    requires GoodKey(key)
    ensures var line := KeyLine(key, rest);
      ':' in line && Find(line, ':') == |key| && line[..|key|] == key && line[|key| + 1..] == rest
  {
    FindInConcat(key, ':', rest);
  }

  lemma KeyOfLine(st: State, key: string, rest: string)
    requires GoodKey(key)
    ensures StepKey(st, KeyLine(key, rest))
      == var value := Trim(rest, IsSpace);
         if value == "" then st.(key := Some(key), inArray := true, values := Some([]))
         else st.(doc := Set(st.doc, key, Scalar(Trim(value, IsQuote))))
  {
    KeyLineSplits(key, rest);
    TrimmedStays(key, IsSpace);
  }

  lemma StepKeyLine(st: State, key: string, rest: string)
    requires Bound(st) && GoodKey(key)
    ensures Step(st, KeyLine(key, rest)) == StepKey(Close(st), KeyLine(key, rest))
  {
    assert KeyLine(key, rest)[0] == if key == "" then ':' else key[0];
    StepUnindented(st, KeyLine(key, rest));
  }

  lemma QuotedIsTrimmed(t: string)
    ensures Trim([' '] + Quoted(t), IsSpace) == Quoted(t)
  {
    DropHead(' ', Quoted(t), IsSpace);
    assert Quoted(t)[0] == '"' && Quoted(t)[|Quoted(t)| - 1] == '"';
  }

  lemma QuotesComeOff(t: string)
    requires Trimmed(t, IsQuote)
    ensures Trim(Quoted(t), IsQuote) == t
  {
    assert Quoted(t) == ['"'] + (t + ['"']);
    DropHead('"', t + ['"'], IsQuote);
    if t == "" {
      DropHead('"', "", IsQuote);
      assert t + ['"'] == ['"'] + "";
    } else {
      assert (t + ['"'])[0] == t[0];
      DropLast(t, '"', IsQuote);
    }
  }

  lemma DropIndent(l: Line)
    ensures DropLeft(Indented(l), IsSpace) == DropLeft(l, IsSpace)
  {
    DropHead(' ', [' '] + l, IsSpace);
    DropHead(' ', l, IsSpace);
    assert Indented(l) == [' '] + ([' '] + l);
  }

  lemma StepContinuation(st: State, l: Line)
    requires Bound(st) && st.inArray && st.item != [] && GoodContinuation(l)
    ensures Step(st, Indented(Indented(l))) == st.(item := st.item + [l])
  {
    var line := Indented(Indented(l));
    DropIndent(Indented(l));
    DropIndent(l);
    SkippedLooksAtHead(line);
  }

  lemma DropDash(l: Line)
    ensures DropLeft(Indented(Dashed(l)), IsSpace) == Dashed(l)
  {
    DropIndent(Dashed(l));
    assert Dashed(l)[0] == '-';
  }

  lemma DropAfterDash(l: Line)
    requires l != "" ==> !IsSpace(l[0])
    ensures DropLeft(Dashed(l)[1..], IsSpace) == l
  {
    assert Dashed(l)[1..] == [' '] + l;
    DropHead(' ', l, IsSpace);
  }

  lemma StepItem(st: State, l: Line)
    requires Bound(st) && st.inArray && (l != "" ==> !IsSpace(l[0]))
    ensures Step(st, Indented(Dashed(l))) == st.(values := Some(Flush(st.values.value, st.item)), item := [l])
  {
    var line := Indented(Dashed(l));
    DropDash(l);
    DropAfterDash(l);
    SkippedLooksAtHead(line);
    assert Dashed(l)[0] == '-' && Dashed(l)[1] == ' ';
    assert StartsItem(line) && ItemLine(line) == l;
  }

  lemma FoldCons(st: State, line: Line, rest: seq<Line>)
    requires Bound(st)
    ensures Fold(st, [line] + rest) == Fold(Step(st, line), rest)
  {
    assert ([line] + rest)[1..] == rest;
  }

  lemma HeadAndTail<T>(s: seq<T>)
    requires s != []
    ensures [s[0]] + s[1..] == s
  {
  }

  lemma HeadThenTail<T>(a: seq<T>, b: seq<T>)
    requires b != []
    ensures a + [b[0]] + b[1..] == a + b
  {
  }

  lemma {:induction false} FoldContinuations(st: State, ls: seq<Line>)
    requires Bound(st) && st.inArray && st.item != [] && GoodContinuations(ls)
    ensures Fold(st, RenderContinuations(ls)) == st.(item := st.item + ls)
    decreases ls
  {
    if ls == [] {
      assert st.item + [] == st.item;
    } else {
      FoldCons(st, Indented(Indented(ls[0])), RenderContinuations(ls[1..]));
      StepContinuation(st, ls[0]);
      FoldContinuations(st.(item := st.item + [ls[0]]), ls[1..]);
      HeadThenTail(st.item, ls);
    }
  }

  lemma FoldItem(st: State, ls: seq<Line>)
    requires Bound(st) && st.inArray && GoodLines(ls)
    ensures Fold(st, RenderItem(ls)) == st.(values := Some(Flush(st.values.value, st.item)), item := ls)
  {
    var next := st.(values := Some(Flush(st.values.value, st.item)), item := [ls[0]]);
    FoldCons(st, Indented(Dashed(ls[0])), RenderContinuations(ls[1..]));
    StepItem(st, ls[0]);
    FoldContinuations(next, ls[1..]);
    HeadAndTail(ls);
  }

  lemma {:induction false} FoldItems(st: State, items: seq<string>)
    requires Bound(st) && st.inArray && GoodItems(items)
    ensures var st' := Fold(st, RenderItems(items));
      && st'.inArray && st'.key == st.key && st'.doc == st.doc
      && Flush(st'.values.value, st'.item) == Flush(st.values.value, st.item) + items
    decreases items
  {
    var before := Flush(st.values.value, st.item);
    if items == [] {
      assert before + [] == before;
    } else {
      var ls := Split(items[0]);
      var next := st.(values := Some(before), item := ls);
      FoldItem(st, ls);
      FoldConcat(st, RenderItem(ls), RenderItems(items[1..]));
      FoldItems(next, items[1..]);
      JoinSplit(items[0]);
      HeadThenTail(before, items);
    }
  }

  lemma FoldScalar(st: State, key: string, t: string)
    requires Bound(st) && GoodKey(key) && GoodValue(Scalar(t))
    ensures Close(Fold(st, [KeyLine(key, [' '] + Quoted(t))])).doc == Set(Close(st).doc, key, Scalar(t))
  {
    var line := KeyLine(key, [' '] + Quoted(t));
    QuotedIsTrimmed(t);
    QuotesComeOff(t);
    StepKeyLine(st, key, [' '] + Quoted(t));
    KeyOfLine(Close(st), key, [' '] + Quoted(t));
    FoldCons(st, line, []);
    assert [line] + [] == [line];
  }

  lemma FoldFromOpen(open: State, items: seq<string>)
    requires Bound(open) && open.inArray && open.values == Some([]) && open.item == [] && GoodItems(items)
    ensures Close(Fold(open, RenderItems(items))).doc == Set(open.doc, open.key.value, Items(items))
  {
    FoldItems(open, items);
    assert [] + items == items;
  }

  lemma FoldList(st: State, key: string, items: seq<string>)
    requires Bound(st) && GoodKey(key) && GoodItems(items)
    ensures Close(Fold(st, [KeyLine(key, "")] + RenderItems(items))).doc == Set(Close(st).doc, key, Items(items))
  {
    var open := Close(st).(key := Some(key), inArray := true, values := Some([]));
    StepKeyLine(st, key, "");
    KeyOfLine(Close(st), key, "");
    FoldCons(st, KeyLine(key, ""), RenderItems(items));
    FoldFromOpen(open, items);
  }

  lemma FoldEntry(st: State, e: Entry)
    requires Bound(st) && GoodKey(e.key) && GoodValue(e.value)
    ensures Close(Fold(st, RenderEntry(e))).doc == Set(Close(st).doc, e.key, e.value)
  {
    match e.value
    case Scalar(t) => FoldScalar(st, e.key, t);
    case Items(items) => FoldList(st, e.key, items);
  }

  function SetAll(doc: Doc, es: seq<Entry>): Doc
    decreases es
  {
    if es == [] then doc else SetAll(Set(doc, es[0].key, es[0].value), es[1..])
  }

  lemma {:induction false} FoldEntries(st: State, es: Doc)
    requires Bound(st) && WellFormed(es)
    ensures Close(Fold(st, Render(es))).doc == SetAll(Close(st).doc, es)
    decreases es
  {
    if es != [] {
      FoldConcat(st, RenderEntry(es[0]), Render(es[1..]));
      FoldEntry(st, es[0]);
      FoldEntries(Fold(st, RenderEntry(es[0])), es[1..]);
    }
  }

  lemma {:induction false} SetFresh(doc: Doc, e: Entry)
    requires !HasKey(doc, e.key)
    ensures Set(doc, e.key, e.value) == doc + [e]
  {
    if doc != [] {
      SetFresh(doc[1..], e);
    }
  }

  lemma {:induction false} HasKeyConcat(a: Doc, b: Doc, k: string)
    ensures HasKey(a + b, k) <==> HasKey(a, k) || HasKey(b, k)
  {
    if a == [] {
      assert a + b == b;
    } else {
      assert (a + b)[1..] == a[1..] + b;
      HasKeyConcat(a[1..], b, k);
    }
  }

  ghost predicate Apart(doc: Doc, es: Doc) {
    forall k :: HasKey(es, k) ==> !HasKey(doc, k)
  }

  lemma {:induction false} SetAllFresh(doc: Doc, es: Doc)
    requires WellFormed(es) && Apart(doc, es)
    ensures SetAll(doc, es) == doc + es
    decreases es
  {
    if es == [] {
      assert doc + [] == doc;
    } else {
      assert HasKey(es, es[0].key);
      SetFresh(doc, es[0]);
      forall k | HasKey(es[1..], k) ensures !HasKey(doc + [es[0]], k) {
        assert HasKey(es, k);
        HasKeyConcat(doc, [es[0]], k);
      }
      SetAllFresh(doc + [es[0]], es[1..]);
      assert doc + [es[0]] + es[1..] == doc + es;
    }
  }

  /** Parsing the rendered lines gives the document back, entry for entry and in order. */
  lemma ParseRender(doc: Doc)
    requires WellFormed(doc)
    ensures Parse(Render(doc)) == doc
  {
    FoldEntries(START, doc);
    SetAllFresh([], doc);
    assert [] + doc == doc;
  }

  // ---------------------------------------------------------------------
  // Whatever the parser returns is well formed

  ghost predicate Good(st: State) {
    && Bound(st) && WellFormed(st.doc)
    && (st.inArray ==> GoodKey(st.key.value) && GoodItems(st.values.value))
    && (st.item != [] ==> GoodLines(st.item))
  }

  lemma {:induction false} SetKeeps(doc: Doc, key: string, value: Value)
    requires WellFormed(doc) && GoodKey(key) && GoodValue(value)
    ensures WellFormed(Set(doc, key, value))
    ensures forall k :: HasKey(Set(doc, key, value), k) <==> k == key || HasKey(doc, k)
  {
    if doc != [] && doc[0].key != key {
      SetKeeps(doc[1..], key, value);
    }
  }

  lemma {:induction false} GoodItemsAppend(items: seq<string>, ls: seq<Line>)
    requires GoodItems(items) && GoodLines(ls)
    ensures GoodItems(items + [Join(ls)])
  {
    if items == [] {
      NoNewlines(ls[1..]);
      assert forall i :: 1 <= i < |ls| ==> ls[i] == ls[1..][i - 1];
      SplitJoin(ls);
      assert items + [Join(ls)] == [Join(ls)];
    } else {
      assert (items + [Join(ls)])[1..] == items[1..] + [Join(ls)];
      GoodItemsAppend(items[1..], ls);
    }
  }

  lemma {:induction false} NoNewlines(ls: seq<Line>)
    requires GoodContinuations(ls)
    ensures forall i :: 0 <= i < |ls| ==> '\n' !in ls[i]
  {
    if ls != [] {
      NoNewlines(ls[1..]);
      assert forall i :: 1 <= i < |ls| ==> ls[i] == ls[1..][i - 1];
    }
  }

  lemma {:induction false} ContinuationsAppend(ls: seq<Line>, l: Line)
    requires GoodContinuations(ls) && GoodContinuation(l)
    ensures GoodContinuations(ls + [l])
  {
    if ls == [] {
      assert ls + [l] == [l];
    } else {
      assert (ls + [l])[1..] == ls[1..] + [l];
      ContinuationsAppend(ls[1..], l);
    }
  }

  lemma CloseKeepsGood(st: State)
    requires Good(st)
    ensures Good(Close(st))
  {
    if st.inArray {
      if st.item != [] {
        GoodItemsAppend(st.values.value, st.item);
      }
      SetKeeps(st.doc, st.key.value, Items(Flush(st.values.value, st.item)));
    }
  }

  lemma KeyIsGood(line: Line)
    requires !Skipped(line) && ':' in line && '\n' !in line
    ensures GoodKey(Trim(line[..Find(line, ':')], IsSpace))
  {
    var c := Find(line, ':');
    var a := line[..c];
    FindIsFirst(line, ':');
    TrimIsTrimmed(a, IsSpace);
    SkippedLooksAtHead(line);
    DropRightPrefix(DropLeft(a, IsSpace), IsSpace);
    if DropLeft(a, IsSpace) != "" {
      DropLeftConcat(a, line[c..], IsSpace);
      assert line == a + line[c..];
    }
  }

  lemma ScalarIsGood(text: string)
    requires '\n' !in text
    ensures GoodValue(Scalar(Trim(Trim(text, IsSpace), IsQuote)))
  {
    TrimIsTrimmed(text, IsSpace);
    TrimIsTrimmed(Trim(text, IsSpace), IsQuote);
  }

  lemma StepKeyKeepsGood(st: State, line: Line)
    requires Good(st) && !st.inArray && !Skipped(line) && '\n' !in line
    ensures Good(StepKey(st, line))
  {
    if ':' in line {
      var c := Find(line, ':');
      var key, rest := Trim(line[..c], IsSpace), line[c + 1..];
      KeyIsGood(line);
      ScalarIsGood(rest);
      SetKeeps(st.doc, key, Scalar(Trim(Trim(rest, IsSpace), IsQuote)));
    }
  }

  /** The line of an item, or the next one, that the parser keeps. */
  lemma ItemLineIsGood(line: Line)
    requires StartsItem(line) && '\n' !in line
    ensures GoodLines([ItemLine(line)])
  {
    DropLeftSubset(line, IsSpace);
    DropLeftSubset(DropLeft(line, IsSpace)[1..], IsSpace);
    assert [ItemLine(line)][1..] == [];
  }

  lemma ContinuationIsGood(item: seq<Line>, line: Line)
    requires GoodLines(item) && !Skipped(line) && !StartsItem(line) && line[0] == ' ' && '\n' !in line
    ensures GoodLines(item + [DropLeft(line, IsSpace)])
  {
    var l := DropLeft(line, IsSpace);
    SkippedLooksAtHead(line);
    DropLeftSubset(line, IsSpace);
    ContinuationsAppend(item[1..], l);
    assert (item + [l])[1..] == item[1..] + [l];
  }

  lemma StepKeepsGood(st: State, line: Line)
    requires Good(st) && '\n' !in line
    ensures Good(Step(st, line))
  {
    if Skipped(line) {
    } else if st.inArray && StartsItem(line) {
      if st.item != [] {
        GoodItemsAppend(st.values.value, st.item);
      }
      ItemLineIsGood(line);
    } else if st.inArray && line[0] == ' ' {
      if st.item != [] {
        ContinuationIsGood(st.item, line);
      }
    } else {
      CloseKeepsGood(st);
      StepKeyKeepsGood(Close(st), line);
    }
  }

  lemma {:induction false} FoldKeepsGood(st: State, lines: seq<Line>)
    requires Good(st) && forall i :: 0 <= i < |lines| ==> '\n' !in lines[i]
    ensures Good(Fold(st, lines))
    decreases lines
  {
    if lines != [] {
      StepKeepsGood(st, lines[0]);
      FoldKeepsGood(Step(st, lines[0]), lines[1..]);
    }
  }

  /** Of any text the parser makes a well-formed document. */
  lemma ParseIsWellFormed(text: string)
    ensures WellFormed(ParseText(text))
  {
    FoldKeepsGood(START, Split(text));
    CloseKeepsGood(Fold(START, Split(text)));
  }

  lemma {:induction false} RenderItemsHaveNoNewlines(items: seq<string>)
    requires GoodItems(items)
    ensures forall i :: 0 <= i < |RenderItems(items)| ==> '\n' !in RenderItems(items)[i]
  {
    if items != [] {
      RenderContinuationsHaveNoNewlines(Split(items[0])[1..]);
      RenderItemsHaveNoNewlines(items[1..]);
    }
  }

  lemma {:induction false} RenderContinuationsHaveNoNewlines(ls: seq<Line>)
    requires GoodContinuations(ls)
    ensures forall i :: 0 <= i < |RenderContinuations(ls)| ==> '\n' !in RenderContinuations(ls)[i]
  {
    if ls != [] {
      RenderContinuationsHaveNoNewlines(ls[1..]);
    }
  }

  lemma {:induction false} RenderHasNoNewlines(doc: Doc)
    requires WellFormed(doc)
    ensures forall i :: 0 <= i < |Render(doc)| ==> '\n' !in Render(doc)[i]
  {
    if doc != [] {
      RenderHasNoNewlines(doc[1..]);
      if doc[0].value.Items? {
        RenderItemsHaveNoNewlines(doc[0].value.items);
      }
    }
  }

  /**
   The well-formed documents are exactly those the parser can return, and exactly those
   it gives back unchanged when their canonical rendering is parsed.
   */
  lemma RoundTripIff(doc: Doc)
    ensures WellFormed(doc) <==> ParseText(RenderText(doc)) == doc
    ensures WellFormed(doc) <==> exists text :: ParseText(text) == doc
  {
    if WellFormed(doc) {
      ParseRender(doc);
      if doc == [] {
        assert Parse([""]) == Close(Step(START, "")).doc;
      } else {
        RenderHasNoNewlines(doc);
        SplitJoin(Render(doc));
      }
      assert ParseText(RenderText(doc)) == doc;
    }
    forall text | ParseText(text) == doc ensures WellFormed(doc) {
      ParseIsWellFormed(text);
    }
  }

  /** Blank lines and comments, wherever they stand, change nothing. */
  lemma SkippedLinesDoNotCount(before: seq<Line>, skipped: Line, after: seq<Line>)
    requires Skipped(skipped)
    ensures Parse(before + [skipped] + after) == Parse(before + after)
  {
    FoldConcat(START, before, after);
    FoldConcat(START, before, [skipped] + after);
    assert before + [skipped] + after == before + ([skipped] + after);
    assert ([skipped] + after)[1..] == after;
  }

  // ---------------------------------------------------------------------
  // Whole files

  datatype Parsed = Missing | Frontmatter(yaml: string, doc: Doc)

  const FENCE := "---\n"
  const CLOSING := "\n---"

  predicate Dashes(s: string) {
    |s| >= 3 && s[0] == s[1] == s[2] == '-'
  }

  predicate AtClosing(s: string) {
    s != "" && s[0] == '\n' && Dashes(s[1..])
  }

  /** Where the closing fence starts. */
  function FindClosing(s: string): Option<nat> {
    if AtClosing(s) then Some(0)
    else if s == "" then None
    else match FindClosing(s[1..])
         case None => None
         case Some(i) => Some(i + 1)
  }

  /** The shortest text before a closing fence. */
  function ParseBody(body: string): Parsed {
    match FindClosing(body)
    case None => Missing
    case Some(i) =>
      FindClosingInside(body);
      Frontmatter(body[..i], ParseText(body[..i]))
  }

  /** `parse_frontmatter` */
  function ParseFrontmatter(content: string): Parsed {
    if FENCE <= content then ParseBody(content[|FENCE|..]) else Missing
  }

  lemma {:induction false} FindClosingInside(s: string)
    ensures FindClosing(s).Some? ==> FindClosing(s).value <= |s|
  {
    if !AtClosing(s) && s != "" {
      FindClosingInside(s[1..]);
    }
  }

  /** No line after the first looks like a fence. */
  predicate NoFence(lines: seq<Line>) {
    lines == [] || forall i :: 1 <= i < |lines| ==> !Dashes(lines[i])
  }

  lemma {:induction false} SkipLine(line: Line, rest: string)
    requires '\n' !in line
    ensures FindClosing(line + rest)
      == match FindClosing(rest) { case None => None case Some(i) => Some(|line| + i) }
  {
    if line == "" {
      assert line + rest == rest;
    } else {
      assert (line + rest)[0] == line[0];
      assert (line + rest)[1..] == line[1..] + rest;
      SkipLine(line[1..], rest);
    }
  }

  lemma DashesAhead(line: Line, after: string)
    requires '\n' !in line
    ensures Dashes(line + ['\n'] + after) <==> Dashes(line)
  {
    var s := line + ['\n'] + after;
    assert s[|line|] == '\n';
    assert forall i :: 0 <= i < |line| ==> s[i] == line[i];
  }

  /** The joined lines, the closing fence, and the rest of the file. */
  function Fenced(lines: seq<Line>, tail: string): string
    requires lines != []
  {
    lines[0] + ['\n'] + if |lines| == 1 then ['-', '-', '-'] + tail else Fenced(lines[1..], tail)
  }

  /** What follows the lines, from the closing fence on. */
  function After(tail: string): string {
    ['\n'] + (['-', '-', '-'] + tail)
  }

  lemma {:induction false} FencedIsJoined(lines: seq<Line>, tail: string)
    requires lines != []
    ensures Fenced(lines, tail) == Join(lines) + After(tail)
  {
    if |lines| > 1 {
      FencedIsJoined(lines[1..], tail);
      Regroup(lines[0], Join(lines[1..]), After(tail));
    }
  }

  lemma Regroup(a: string, b: string, c: string)
    ensures a + ['\n'] + (b + c) == (a + ['\n'] + b) + c
  {
  }

  lemma AfterIsClosing(text: string, tail: string)
    ensures text + CLOSING + tail == text + After(tail)
  {
    assert CLOSING == ['\n'] + ['-', '-', '-'];
  }

  lemma {:induction false} FindClosingAfter(lines: seq<Line>, tail: string)
    requires lines != [] && forall i :: 0 <= i < |lines| ==> '\n' !in lines[i]
    ensures var found := FindClosing(Fenced(lines, tail));
      found.Some? && found.value <= |Join(lines)| && (found.value == |Join(lines)| <==> NoFence(lines))
  {
    if |lines| == 1 {
      var s := ['\n'] + (['-', '-', '-'] + tail);
      assert s[1..] == ['-', '-', '-'] + tail;
      SkipLine(lines[0], s);
      assert Fenced(lines, tail) == lines[0] + s;
    } else {
      var rest := lines[1..];
      var s := ['\n'] + Fenced(rest, tail);
      FindClosingAfter(rest, tail);
      SkipLine(lines[0], s);
      assert Fenced(lines, tail) == lines[0] + s;
      assert s[1..] == Fenced(rest, tail);
      DashesAhead(rest[0], if |rest| == 1 then ['-', '-', '-'] + tail else Fenced(rest[1..], tail));
      NoFenceRest(lines);
    }
  }

  lemma NoFenceRest(lines: seq<Line>)
    requires |lines| > 1
    ensures NoFence(lines) <==> !Dashes(lines[1]) && NoFence(lines[1..])
  {
    assert forall i :: 1 <= i < |lines| ==> lines[i] == lines[1..][i - 1];
    assert forall i :: 1 <= i < |lines[1..]| ==> lines[1..][i] == lines[i + 1];
  }

  lemma FenceComesOff(body: string)
    ensures ParseFrontmatter(FENCE + body) == ParseBody(body)
  {
    assert (FENCE + body)[|FENCE|..] == body;
  }

  lemma CutMatches(text: string, after: string, i: nat)
    requires i <= |text|
    ensures (text + after)[..i] == text <==> i == |text|
  {
    assert |(text + after)[..i]| == i;
  }

  lemma BodyRoundTripIff(lines: seq<Line>, doc: Doc, tail: string)
    requires lines != [] && forall i :: 0 <= i < |lines| ==> '\n' !in lines[i]
    requires ParseText(Join(lines)) == doc
    ensures ParseBody(Fenced(lines, tail)) == Frontmatter(Join(lines), doc) <==> NoFence(lines)
  {
    FindClosingAfter(lines, tail);
    FencedIsJoined(lines, tail);
    CutMatches(Join(lines), After(tail), FindClosing(Fenced(lines, tail)).value);
  }

  /**
   A file whose frontmatter is the rendering of a well-formed document, whatever follows
   the closing fence, is parsed to that document exactly when no rendered line after the
   first begins with the fence's dashes.
   */
  lemma FileRoundTripIff(doc: Doc, tail: string)
    requires WellFormed(doc)
    ensures ParseFrontmatter(FENCE + (RenderText(doc) + CLOSING + tail)) == Frontmatter(RenderText(doc), doc)
      <==> NoFence(Render(doc))
  {
    FenceComesOff(RenderText(doc) + CLOSING + tail);
    RoundTripIff(doc);
    RenderHasNoNewlines(doc);
    var lines := if doc == [] then [""] else Render(doc);
    assert Join(lines) == RenderText(doc);
    FencedIsJoined(lines, tail);
    AfterIsClosing(RenderText(doc), tail);
    BodyRoundTripIff(lines, doc, tail);
  }
}
