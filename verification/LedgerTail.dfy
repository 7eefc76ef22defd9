/** Appending to any ledger file that verifies, including one whose last line was left
    without its newline. */
module LedgerTail {
  import opened Prelude
  import opened Sequences
  import opened Json
  import opened JsonPrefix
  import opened Lines
  import opened Ledger
  import opened LedgerLines
  import opened LedgerFile

  /** What stands behind the last line break. */
  function Tail(s: string): string {
    if s == "" || IsLineBreak(s[|s| - 1]) then "" else Tail(s[..|s| - 1]) + [s[|s| - 1]]
  }

  /** The file's last line is closed, or holds nothing but spaces. */
  predicate Closed(s: string) {
    Strip(Tail(s)) == ""
  }

  lemma {:induction false} TailSplits(s: string) returns (c: string)
    ensures s == c + Tail(s) && NoBreaks(Tail(s))
    ensures c == "" || IsLineBreak(c[|c| - 1])
    decreases |s|
  {
    if s == "" || IsLineBreak(s[|s| - 1]) {
      c := s;
    } else {
      c := TailSplits(s[..|s| - 1]);
      NoBreaksConcat(Tail(s[..|s| - 1]), [s[|s| - 1]]);
      assert s == s[..|s| - 1] + [s[|s| - 1]];
    }
  }

  lemma {:induction false} StripLeftAppend(t: string, x: string)
    requires x != "" && !IsSpace(x[0])
    ensures StripLeft(t + x) == StripLeft(t) + x
    decreases |t|
  {
    if t == "" {
      assert t + x == x;
    } else if IsSpace(t[0]) {
      assert (t + x)[1..] == t[1..] + x;
      StripLeftAppend(t[1..], x);
    }
  }

  lemma {:induction false} StripRightAppend(t: string, x: string)
    requires StripRight(x) != ""
    ensures StripRight(t + x) == t + StripRight(x)
    decreases |x|
  {
    var n := |x| - 1;
    if IsSpace(x[n]) {
      assert (t + x)[..|t + x| - 1] == t + x[..n];
      StripRightAppend(t, x[..n]);
    }
  }

  lemma {:induction false} StripLeftEnds(s: string)
    ensures StripLeft(s) == "" || !IsSpace(StripLeft(s)[0])
    decreases |s|
  {
    if s != "" && IsSpace(s[0]) { StripLeftEnds(s[1..]); }
  }

  /** Trimming text that begins with t and goes on with x. */
  lemma StripBoth(t: string, x: string) returns (gap: string)
    requires x != "" && !IsSpace(x[0])
    ensures Strip(t + x) == Strip(t) + gap + Strip(x)
    ensures Strip(x) != "" && Strip(x)[0] == x[0]
    ensures Strip(t) == "" ==> gap == ""
  {
    var left := StripLeft(t);
    StripRightPrefix(x);
    StripLeftAppend(t, x);
    StripRightAppend(left, x);
    StripLeftEnds(t);
    assert StripLeft(x) == x;
    hide StripLeft;
    if left != "" { StripRightPrefix(left); }
    hide StripRight;
    gap := left[|Strip(t)|..];
    assert left == Strip(t) + gap;
  }

  lemma {:induction false} SkipWsAll(s: string, x: string)
    requires SkipWs(s) == ""
    ensures SkipWs(s + x) == SkipWs(x)
    decreases |s|
  {
    if s == "" {
      assert s + x == x;
    } else {
      assert (s + x)[1..] == s[1..] + x;
      SkipWsAll(s[1..], x);
    }
  }

  lemma {:induction false} SkipWsStops(s: string, c: char)
    requires c in s && !IsWs(c)
    ensures SkipWs(s) != ""
    decreases |s|
  {
    if IsWs(s[0]) {
      assert s == [s[0]] + s[1..];
      SkipWsStops(s[1..], c);
    }
  }

  /** A dictionary with anything but spaces behind it is not a JSON text. */
  lemma JunkBehind(s: string, x: string, c: char)
    requires Loads(s).Some? && Loads(s).value.Obj? && c in x && !IsWs(c)
    ensures Loads(s + x) == None
  {
    var p := SkipWs(s);
    SkipWsExtends(s, x);
    ValueExtends(p, x);
    var rest := ParseValue(p).value.1;
    SkipWsAll(rest, x);
    SkipWsStops(x, c);
  }

  lemma {:induction false} LineLengthAppend(t: string, x: string)
    requires NoBreaks(t)
    ensures LineLength(t + x) == |t| + LineLength(x)
    decreases |t|
  {
    if t == "" {
      assert t + x == x;
    } else {
      assert t == [t[0]] + t[1..] && t[0] in t;
      NoBreaksConcat([t[0]], t[1..]);
      assert (t + x)[1..] == t[1..] + x;
      LineLengthAppend(t[1..], x);
    }
  }

  /** The first line of the text that an append leaves behind an open tail t. */
  lemma FirstNewLine(t: string, e: Entry) returns (part: string)
    requires Digests(e) && NoBreaks(t)
    ensures CleanCase(e.fixture) ==> part == Line(e)
    ensures CleanCase(e.fixture) ==> SplitLines(t + (Line(e) + "\n")) == [t + part]
    ensures !CleanCase(e.fixture) ==> 0 < |part| < |Line(e)| && part == Line(e)[..|part|]
    ensures part != "" && part[0] == '{'
    ensures SplitLines(t + (Line(e) + "\n")) != [] && SplitLines(t + (Line(e) + "\n"))[0] == t + part
  {
    hide CleanCase, Line;
    LineTrimmed(e);
    LineBreaks(e);
    assert t + (Line(e) + "\n") == (t + Line(e)) + "\n";
    if CleanCase(e.fixture) {
      part := Line(e);
      NoBreaksConcat(t, Line(e));
      SplitOne(t + Line(e), "");
      assert "\n" + "" == "\n";
      assert SplitLines("") == [];
    } else {
      var m := LineLength(Line(e));
      LineCut(Line(e), "\n");
      LineLengthAppend(t, Line(e) + "\n");
      part := Line(e)[..m];
      assert (t + (Line(e) + "\n"))[..|t| + m] == t + part;
      assert !IsLineBreak('{');
    }
  }

  /** A new line put behind an entry that was never closed spoils both. */
  lemma OpenTailFails(lines: seq<string>, t: string, part: string, more: seq<string>)
    requires LoadLines(lines).Ok? && Strip(t) != "" && LoadLine(Strip(t), |lines| + 1).Ok?
    requires part != "" && part[0] == '{' && more != [] && more[0] == t + part
    ensures LoadLines(lines + more).Err?
  {
    hide LoadLines, Strip, EntryOf;
    assert !IsSpace('{');
    var gap := StripBoth(t, part);
    var x := gap + Strip(part);
    assert Strip(t) + gap + Strip(part) == Strip(t) + x;
    assert Strip(part)[0] in Strip(part) && '{' in x;
    JunkBehind(Strip(t), x, '{');
    LoadFailsAt(lines, more);
  }

  lemma ClosedTailLoads(lines: seq<string>, t: string, e: Entry, part: string, more: seq<string>)
    requires LoadLines(lines).Ok? && Strip(t) == "" && more != [] && more[0] == t + part
    requires CleanCase(e.fixture) ==> part == Line(e) && more == [t + part]
    requires !CleanCase(e.fixture) ==> 0 < |part| < |Line(e)| && part == Line(e)[..|part|]
    ensures var r := LoadLines(lines + more);
      if CleanCase(e.fixture) then r == Ok(LoadLines(lines).value + [Loaded(e)]) else r.Err?
  {
    hide CleanCase, Line, LoadLines, Strip, LoadLine;
    LineTrimmed(e);
    assert !IsSpace('{') && part[0] == '{';
    var gap := StripBoth(t, part);
    assert "" + "" + Strip(part) == Strip(part);
    if CleanCase(e.fixture) {
      LineRoundTrip(e, |lines| + 1);
      LoadLinesAppend(lines, t + part);
    } else {
      CutLineFails(e, |part|, |lines| + 1);
      LoadFailsAt(lines, more);
    }
  }

  /** How one new line behind the tail t loads. */
  lemma NewLineLoads(lines: seq<string>, t: string, e: Entry)
    requires Digests(e) && NoBreaks(t) && LoadLines(lines).Ok?
    requires Strip(t) != "" ==> LoadLine(Strip(t), |lines| + 1).Ok?
    ensures var r := LoadLines(lines + SplitLines(t + (Line(e) + "\n")));
      if CleanCase(e.fixture) && Strip(t) == "" then r == Ok(LoadLines(lines).value + [Loaded(e)]) else r.Err?
  {
    hide CleanCase, Line, LoadLines, Strip, LoadLine, SplitLines;
    var part := FirstNewLine(t, e);
    var more := SplitLines(t + (Line(e) + "\n"));
    if Strip(t) != "" {
      OpenTailFails(lines, t, part, more);
    } else {
      ClosedTailLoads(lines, t, e, part, more);
    }
  }

  lemma {:induction false} NoBreaksOneLine(t: string)
    requires NoBreaks(t)
    ensures SplitLines(t) == if t == "" then [] else [t]
  {
    if t != "" {
      assert t + "" == t;
      LineLengthAppend(t, "");
    }
  }

  /** The lines before an open tail load, and so does the tail unless it is blank. */
  lemma TailOfSound(lines: seq<string>, t: string)
    requires LoadLines(lines + if t == "" then [] else [t]).Ok?
    ensures LoadLines(lines).Ok?
    ensures Strip(t) != "" ==> LoadLine(Strip(t), |lines| + 1).Ok?
    ensures Strip(t) == "" ==> LoadLines(lines) == LoadLines(lines + if t == "" then [] else [t])
  {
    if t == "" {
      assert lines + [] == lines;
    } else {
      LoadLinesAppend(lines, t);
    }
  }

  /** The lines of a file before and after one append. */
  lemma LinesAround(text: string, line: string) returns (lines: seq<string>)
    requires line != "" && line[0] == '{'
    ensures var t := Tail(text);
      && NoBreaks(t)
      && SplitLines(text) == lines + (if t == "" then [] else [t])
      && SplitLines(text + line) == lines + SplitLines(t + line)
  {
    hide NoBreaks, SplitLines;
    var closed := TailSplits(text);
    var t := Tail(text);
    NoBreaksOneLine(t);
    assert t != "" ==> t[0] != '\n' by { NotBroken(t); }
    SplitAppend(closed, t);
    lines := SplitLines(closed);
    assert (t + line)[0] == if t == "" then '{' else t[0];
    SplitAppend(closed, t + line);
    assert text + line == closed + (t + line);
  }

  lemma NotBroken(t: string)
    requires NoBreaks(t)
    ensures t != "" ==> t[0] != '\n'
  {
    assert t != "" ==> t[0] in t;
  }

  /** Main result: an append to a file that verifies adds exactly its entry, and the file
      still verifies, if and only if the case is clean and the file's last line was closed.
      Otherwise the append goes through but the file no longer loads. */
  lemma AppendExtends(h: Hash, file: Option<string>, c: Case)
    requires Sound(h, file)
    ensures var before := Load(file).value;
      var after := Appended(h, file, c);
      var added := Loaded(Chained(h, c, Head(before)));
      if CleanCase(c) && Closed(Content(file)) then Load(after) == Ok(before + [added]) && Sound(h, after)
      else Load(after).Err?
  {
    hide CleanCase, Line, LoadLines, Strip, Verifies, Tail, SplitLines, LoadLine;
    var before := Load(file).value;
    var e := Chained(h, c, Head(before));
    HeadDigest(h, before);
    var text := Content(file);
    LineTrimmed(e);
    var lines := LinesAround(text, Line(e) + "\n");
    AbsentIsEmpty(file);
    TailOfSound(lines, Tail(text));
    NewLineLoads(lines, Tail(text), e);
    SameText(c, NoFields);
    VerifiesStep(h, before, Loaded(e));
  }

  lemma HeadDigest(h: Hash, entries: seq<Entry>)
    requires Verifies(h, entries)
    ensures IsDigest(Head(entries))
  {
    VerifiesIffChain(h, entries);
    ChainShape(h, Map(entries, FixtureOf));
  }

  lemma AbsentIsEmpty(file: Option<string>)
    ensures LoadLines(SplitLines(Content(file))) == Load(file)
  {
    assert SplitLines("") == [];
  }

  /** A single written line without its newline: a file that verifies. */
  lemma OpenLineIsSound(h: Hash, c: Case)
    requires CleanCase(c)
    ensures var file := Some(Line(Chained(h, c, GENESIS)));
      Sound(h, file) && Load(file) == Ok([Loaded(Chained(h, c, GENESIS))]) && !Closed(Content(file))
  {
    hide CleanCase, Line, Verifies, LoadLine;
    var e := Chained(h, c, GENESIS);
    LineBreaks(e);
    LineTrimmed(e);
    NoBreaksOneLine(Line(e));
    LineRoundTrip(e, 1);
    LoadLinesAppend([], Line(e));
    assert [] + [Line(e)] == [Line(e)] && [] + [Loaded(e)] == [Loaded(e)];
    SameText(c, NoFields);
    VerifiesStep(h, [], Loaded(e));
    assert Verifies(h, []) by { VerifiesIffChain(h, []); }
    TailOfLine(Line(e));
  }

  lemma {:induction false} TailOfLine(s: string)
    requires NoBreaks(s)
    ensures Tail(s) == s
    decreases |s|
  {
    if s != "" {
      var init, last := s[..|s| - 1], s[|s| - 1];
      assert s == init + [last];
      NoBreaksConcat(init, [last]);
      assert last in s;
      TailOfLine(init);
    }
  }

  /** Both failures happen. Every clean case, written without its newline, is a file that
      verifies and that the next append spoils. */
  lemma OpenTailSpoils(h: Hash, c: Case, next: Case)
    requires CleanCase(c)
    ensures var file := Some(Line(Chained(h, c, GENESIS)));
      Sound(h, file) && !Sound(h, Appended(h, file, next)) && Load(Appended(h, file, next)).Err?
  {
    hide Closed, CleanCase, Line, Verifies, Load, Appended;
    OpenLineIsSound(h, c);
    AppendExtends(h, Some(Line(Chained(h, c, GENESIS))), next);
  }

  /** And so is any file that verifies, by a case whose prose holds U+2028. */
  lemma WideBreakSpoils(h: Hash, file: Option<string>, c: Case)
    requires Sound(h, file) && 0x2028 as char in c.rationale
    ensures !CleanCase(c) && Load(Appended(h, file, c)).Err?
  {
    assert !CleanText(c.rationale);
    AppendExtends(h, file, c);
  }
}
