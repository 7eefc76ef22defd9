/** Splitting text into lines and trimming, as the language's `splitlines` and `strip` do,
    and which printed JSON texts stay on one line. */
module Lines {
  import opened Prelude
  import opened Json
  import opened JsonRoundTrip

  /** The three line boundaries that JSON leaves unescaped. */
  predicate IsWideBreak(c: char) {
    c as int == 0x85 || c as int == 0x2028 || c as int == 0x2029
  }

  predicate IsLineBreak(c: char) {
    10 <= c as int <= 13 || 28 <= c as int <= 30 || IsWideBreak(c)
  }

  predicate IsSpace(c: char) {
    var n := c as int;
    || 9 <= n <= 13 || 28 <= n <= 32 || n == 0x85 || n == 0xA0 || n == 0x1680
    || 0x2000 <= n <= 0x200A || n == 0x2028 || n == 0x2029 || n == 0x202F || n == 0x205F || n == 0x3000
  }

  predicate NoBreaks(s: string) {
    forall c :: c in s ==> !IsLineBreak(c)
  }

  predicate CleanText(s: string) {
    forall c :: c in s ==> !IsWideBreak(c)
  }

  /** Characters before the first line break. */
  function LineLength(s: string): (n: nat)
    ensures n <= |s| && NoBreaks(s[..n])
    ensures n < |s| ==> IsLineBreak(s[n])
  {
    if s == "" || IsLineBreak(s[0]) then 0
    else
      var n := LineLength(s[1..]);
      assert s[..1 + n] == [s[0]] + s[1..][..n];
      1 + n
  }

  function BreakLength(s: string): (n: nat)
    requires s != ""
    ensures 0 < n <= |s|
  {
    if "\r\n" <= s then 2 else 1
  }

  /** `str.splitlines()`. */
  function SplitLines(s: string): seq<string> {
    if s == "" then []
    else
      var n := LineLength(s);
      if n == |s| then [s] else [s[..n]] + SplitLines(s[n + BreakLength(s[n..])..])
  }

  /** The code points of white space. */
  const WHITE_SPACE := [
    9, 10, 11, 12, 13, 28, 29, 30, 31, 32, 0x85, 0xA0, 0x1680,
    0x2000, 0x2001, 0x2002, 0x2003, 0x2004, 0x2005, 0x2006, 0x2007, 0x2008, 0x2009, 0x200A,
    0x2028, 0x2029, 0x202F, 0x205F, 0x3000]

  predicate Blank(s: string) {
    forall c :: c in s ==> c as int in WHITE_SPACE
  }

  lemma SpaceExactly(c: char)
    ensures IsSpace(c) <==> c as int in WHITE_SPACE
  {
    var n := c as int;
    if IsSpace(c) {
      var i := if n <= 13 then n - 9 else if n <= 32 then n - 23 else if n == 0x85 then 10 else if n == 0xA0 then 11
        else if n == 0x1680 then 12 else if n <= 0x200A then n - 0x2000 + 13 else if n == 0x2028 then 24
        else if n == 0x2029 then 25 else if n == 0x202F then 26 else if n == 0x205F then 27 else 28;
      assert WHITE_SPACE[i] == n;
    }
  }

  function StripLeft(s: string): string {
    if s != "" && IsSpace(s[0]) then StripLeft(s[1..]) else s
  }

  function StripRight(s: string): (r: string)
    ensures r <= s
  {
    if s != "" && IsSpace(s[|s| - 1]) then StripRight(s[..|s| - 1]) else s
  }

  /** `str.strip()`. */
  function Strip(s: string): string {
    StripRight(StripLeft(s))
  }

  lemma BlankJoin(a: string, c: char)
    requires Blank(a) && c as int in WHITE_SPACE
    ensures Blank([c] + a) && Blank(a + [c])
  {
    hide WHITE_SPACE;
  }

  /** Trimming takes white space off both ends and nothing else. */
  lemma StripExactly(s: string) returns (before: string, behind: string)
    ensures s == before + Strip(s) + behind && Blank(before) && Blank(behind)
    ensures Strip(s) != "" ==>
      Strip(s)[0] as int !in WHITE_SPACE && Strip(s)[|Strip(s)| - 1] as int !in WHITE_SPACE
  {
    hide WHITE_SPACE, Blank, StripLeft, StripRight;
    before := StripLeftTakes(s);
    var t := StripLeft(s);
    behind := StripRightTakes(t);
    assert before + (StripRight(t) + behind) == before + StripRight(t) + behind;
    assert StripRight(t) != "" ==> StripRight(t)[0] == t[0];
  }

  lemma {:induction false} StripLeftTakes(s: string) returns (before: string)
    ensures s == before + StripLeft(s) && Blank(before)
    ensures StripLeft(s) != "" ==> StripLeft(s)[0] as int !in WHITE_SPACE
    decreases |s|
  {
    if s != "" { SpaceExactly(s[0]); }
    hide IsSpace, WHITE_SPACE;
    if s != "" && IsSpace(s[0]) {
      var more := StripLeftTakes(s[1..]);
      BlankJoin(more, s[0]);
      hide Blank;
      before := [s[0]] + more;
      assert s == [s[0]] + s[1..];
      assert [s[0]] + (more + StripLeft(s)) == before + StripLeft(s);
    } else {
      before := "";
    }
  }

  lemma {:induction false} StripRightTakes(s: string) returns (behind: string)
    ensures s == StripRight(s) + behind && Blank(behind)
    ensures StripRight(s) != "" ==> StripRight(s)[|StripRight(s)| - 1] as int !in WHITE_SPACE
    decreases |s|
  {
    var n := |s| - 1;
    if s != "" { SpaceExactly(s[n]); }
    hide IsSpace, WHITE_SPACE;
    if s != "" && IsSpace(s[n]) {
      var more := StripRightTakes(s[..n]);
      BlankJoin(more, s[n]);
      hide Blank;
      behind := more + [s[n]];
      assert s == s[..n] + [s[n]];
      assert (StripRight(s) + more) + [s[n]] == StripRight(s) + behind;
    } else {
      behind := "";
    }
  }

  lemma BlankExactly(s: string)
    ensures Blank(s) <==> Strip(s) == ""
  {
    var before, behind := StripExactly(s);
    if Strip(s) != "" {
      assert s[|before|] == Strip(s)[0] && s[|before|] in s;
    } else {
      assert s == before + behind;
    }
  }

  /** A line is found whole when it contains no break and a newline follows. */
  lemma {:induction false} LineFound(line: string, rest: string)
    requires NoBreaks(line)
    ensures LineLength(line + ("\n" + rest)) == |line|
    decreases |line|
  {
    var s := line + ("\n" + rest);
    if line != "" {
      assert s[1..] == line[1..] + ("\n" + rest);
      assert line[0] in line;
      forall c | c in line[1..]
        ensures !IsLineBreak(c)
      {
        assert c in line;
      }
      LineFound(line[1..], rest);
    }
  }

  /** A break inside the line ends it early. */
  lemma {:induction false} LineCut(line: string, rest: string)
    requires !NoBreaks(line)
    ensures LineLength(line + rest) == LineLength(line) < |line|
    decreases |line|
  {
    assert line != "";
    if !IsLineBreak(line[0]) {
      assert line == [line[0]] + line[1..];
      assert (line + rest)[1..] == line[1..] + rest;
      LineCut(line[1..], rest);
    }
  }

  lemma SplitOne(line: string, rest: string)
    requires NoBreaks(line)
    ensures SplitLines(line + ("\n" + rest)) == [line] + SplitLines(rest)
  {
    var s := line + ("\n" + rest);
    LineFound(line, rest);
    assert s[|line|..] == "\n" + rest;
    assert s[|line| + 1..] == rest;
  }

  /** The code points that end a line. */
  const LINE_BREAKS := [10, 11, 12, 13, 28, 29, 30, 0x85, 0x2028, 0x2029]

  lemma BreakExactly(c: char)
    ensures IsLineBreak(c) <==> c as int in LINE_BREAKS
  {
    var n := c as int;
    if IsLineBreak(c) {
      var i := if n <= 13 then n - 10 else if n <= 30 then n - 24 else if n == 0x85 then 7 else n - 0x2028 + 8;
      assert LINE_BREAKS[i] == n;
    }
  }

  /** Text is split at its first break, where a carriage return and a newline behind it are
      one; what holds no break is one line, and no text is no line. */
  lemma SplitsAtFirst(line: string, c: char, rest: string)
    requires forall d :: d in line ==> d as int !in LINE_BREAKS
    requires c as int in LINE_BREAKS && !(c == '\r' && rest != "" && rest[0] == '\n')
    ensures SplitLines(line + ([c] + rest)) == [line] + SplitLines(rest)
    ensures c == '\n' ==> SplitLines(line + (['\r', '\n'] + rest)) == [line] + SplitLines(rest)
    ensures SplitLines(line) == if line == "" then [] else [line]
  {
    forall d | d in line
      ensures !IsLineBreak(d)
    {
      BreakExactly(d);
    }
    BreakExactly(c);
    WholeLine(line);
    BreakTaken(c, rest);
    hide IsLineBreak, BreakLength, LINE_BREAKS, LineLength;
    SplitsAt(line, [c] + rest, 1, rest);
    if c == '\n' { SplitsAt(line, ['\r', '\n'] + rest, 2, rest); }
  }

  lemma BreakTaken(c: char, rest: string)
    requires IsLineBreak(c) && !(c == '\r' && rest != "" && rest[0] == '\n')
    ensures BreakLength([c] + rest) == 1 && ([c] + rest)[1..] == rest && IsLineBreak(([c] + rest)[0])
    ensures BreakLength(['\r', '\n'] + rest) == 2 && (['\r', '\n'] + rest)[2..] == rest
    ensures IsLineBreak((['\r', '\n'] + rest)[0])
  {
    var t := [c] + rest;
    assert t[0] == c && (rest != "" ==> t[1] == rest[0]);
    assert "\r\n"[0] == '\r' && "\r\n"[1] == '\n';
    assert (['\r', '\n'] + rest)[..2] == "\r\n";
  }

  lemma {:induction false} WholeLine(line: string)
    requires NoBreaks(line)
    ensures LineLength(line) == |line|
    decreases |line|
  {
    if line != "" {
      assert line[0] in line;
      assert forall c :: c in line[1..] ==> c in line;
      WholeLine(line[1..]);
    }
  }

  lemma SplitsAt(line: string, tail: string, k: nat, rest: string)
    requires NoBreaks(line) && tail != "" && IsLineBreak(tail[0]) && k == BreakLength(tail) && tail[k..] == rest
    ensures SplitLines(line + tail) == [line] + SplitLines(rest)
  {
    FirstBreak(line, tail);
    var s := line + tail;
    assert s[..|line|] == line && s[|line|..] == tail && s[|line| + k..] == rest;
    hide LineLength, BreakLength, NoBreaks, IsLineBreak;
  }

  lemma {:induction false} FirstBreak(line: string, tail: string)
    requires NoBreaks(line) && tail != "" && IsLineBreak(tail[0])
    ensures LineLength(line + tail) == |line|
    decreases |line|
  {
    if line == "" {
      assert line + tail == tail;
    } else {
      assert (line + tail)[1..] == line[1..] + tail && line[0] in line;
      assert forall c :: c in line[1..] ==> c in line;
      FirstBreak(line[1..], tail);
    }
  }

  /** a ends where a line ends, and b does not begin with the other half of its break. */
  predicate EndsLine(a: string, b: string) {
    a == "" || (IsLineBreak(a[|a| - 1]) && (b == "" || b[0] != '\n' || a[|a| - 1] != '\r'))
  }

  lemma BreakInside(t: string, b: string)
    requires t != "" && EndsLine(t, b)
    ensures BreakLength(t + b) == BreakLength(t)
  {
    assert (t + b)[0] == t[0];
    if |t| == 1 {
      assert b != "" ==> (t + b)[1] == b[0];
    } else {
      assert (t + b)[1] == t[1];
    }
  }

  /** Cutting text at the end k of its first line. */
  lemma CutAt(a: string, b: string, n: nat, k: nat)
    requires n <= k <= |a|
    ensures (a + b)[n..] == a[n..] + b && (a + b)[..n] == a[..n] && (a + b)[k..] == a[k..] + b
  {
  }

  /** One step of splitting: where the first line of a ends, and what is left. */
  lemma FirstLine(a: string, b: string) returns (n: nat, k: nat)
    requires a != "" && EndsLine(a, b)
    ensures n < k <= |a|
    ensures SplitLines(a) == [a[..n]] + SplitLines(a[k..])
    ensures SplitLines(a + b) == [a[..n]] + SplitLines(a[k..] + b)
  {
    n := LineLength(a);
    assert !NoBreaks(a) by { assert a[|a| - 1] in a; }
    assert a[..|a|] == a;
    LineCut(a, b);
    k := n + BreakLength(a[n..]);
    CutAt(a, b, n, k);
    BreakInside(a[n..], b);
    hide NoBreaks, LineLength, BreakLength, IsLineBreak;
    assert a + b != "" && |a + b| != n;
  }

  /** Text that ends in a line break splits independently of what follows. */
  lemma {:induction false} SplitAppend(a: string, b: string)
    requires EndsLine(a, b)
    ensures SplitLines(a + b) == SplitLines(a) + SplitLines(b)
    decreases |a|, 1
  {
    if a == "" {
      assert SplitLines(a) == [];
      assert a + b == b;
    } else {
      SplitAppendStep(a, b);
    }
  }

  lemma {:induction false} SplitAppendStep(a: string, b: string)
    requires a != "" && EndsLine(a, b)
    ensures SplitLines(a + b) == SplitLines(a) + SplitLines(b)
    decreases |a|, 0
  {
    hide SplitLines;
    var n, k := FirstLine(a, b);
    assert k < |a| ==> a[k..][|a[k..]| - 1] == a[|a| - 1];
    SplitAppend(a[k..], b);
  }

  lemma NoBreaksConcat(a: string, b: string)
    ensures NoBreaks(a + b) <==> NoBreaks(a) && NoBreaks(b)
  {
    assert forall c :: c in a + b <==> c in a || c in b;
  }

  // ---- Which JSON values print on one line ----

  predicate CleanJson(j: Json) {
    match j
    case Str(s) => CleanText(s)
    case Arr(items) => CleanItems(items)
    case Obj(fields) => CleanFields(fields)
    case _ => true
  }

  predicate CleanItems(items: Items) {
    items.Item? ==> CleanJson(items.head) && CleanItems(items.tail)
  }

  predicate CleanFields(fs: Fields) {
    fs.Field? ==> CleanText(fs.key) && CleanJson(fs.value) && CleanFields(fs.rest)
  }

  lemma EscapeCharBreaks(c: char)
    ensures NoBreaks(EscapeChar(c)) <==> !IsWideBreak(c)
  {
    if IsWideBreak(c) { assert c in EscapeChar(c); }
  }

  lemma {:induction false} EscapeBreaks(s: string, rest: string)
    ensures NoBreaks(EscapeTo(s, rest)) <==> CleanText(s) && NoBreaks(rest)
    decreases |s|
  {
    if s != "" {
      var c := s[0];
      EscapeBreaks(s[1..], rest);
      NoBreaksConcat(EscapeChar(c), EscapeTo(s[1..], rest));
      EscapeCharBreaks(c);
      assert s == [c] + s[1..];
      hide NoBreaks, EscapeChar, IsWideBreak;
    }
  }

  lemma StringBreaks(s: string, rest: string)
    ensures NoBreaks(StringTo(s, rest)) <==> CleanText(s) && NoBreaks(rest)
  {
    NoBreaksConcat("\"", rest);
    EscapeBreaks(s, "\"" + rest);
    NoBreaksConcat("\"", EscapeTo(s, "\"" + rest));
  }

  lemma {:induction false} NatBreaks(n: nat, rest: string)
    ensures NoBreaks(NatTo(n, rest)) <==> NoBreaks(rest)
    decreases n
  {
    var d := [Digit(n % 10)];
    NoBreaksConcat(d, rest);
    if n >= 10 { NatBreaks(n / 10, d + rest); }
  }

  /** A value prints without line breaks exactly when its texts contain no wide break. */
  lemma {:induction false} PrintBreaks(j: Json, rest: string)
    ensures NoBreaks(PrintTo(j, rest)) <==> CleanJson(j) && NoBreaks(rest)
    decreases j
  {
    match j
    case Null => NoBreaksConcat("null", rest);
    case Bool(b) => NoBreaksConcat(if b then "true" else "false", rest);
    case Int(n) =>
      NatBreaks(if n < 0 then -n else n, rest);
      NoBreaksConcat("-", NatTo(if n < 0 then -n else n, rest));
    case Str(s) => StringBreaks(s, rest);
    case Arr(items) =>
      NoBreaksConcat("]", rest);
      ItemsBreaks(items, "]" + rest);
      NoBreaksConcat("[", ItemsTo(items, "]" + rest));
    case Obj(fields) =>
      NoBreaksConcat("}", rest);
      FieldsBreaks(fields, "}" + rest);
      NoBreaksConcat("{", FieldsTo(fields, "}" + rest));
  }

  lemma {:induction false} ItemsBreaks(items: Items, rest: string)
    ensures NoBreaks(ItemsTo(items, rest)) <==> CleanItems(items) && NoBreaks(rest)
    decreases items
  {
    if items.Item? {
      if items.tail.NoItems? {
        PrintBreaks(items.head, rest);
      } else {
        ItemsBreaks(items.tail, rest);
        NoBreaksConcat(",", ItemsTo(items.tail, rest));
        PrintBreaks(items.head, "," + ItemsTo(items.tail, rest));
      }
    }
  }

  lemma {:induction false} FieldsBreaks(fs: Fields, rest: string)
    ensures NoBreaks(FieldsTo(fs, rest)) <==> CleanFields(fs) && NoBreaks(rest)
    decreases fs
  {
    if fs.Field? {
      var tail := if fs.rest.NoFields? then rest else "," + FieldsTo(fs.rest, rest);
      FieldsBreaks(fs.rest, rest);
      NoBreaksConcat(",", FieldsTo(fs.rest, rest));
      PrintBreaks(fs.value, tail);
      NoBreaksConcat(":", PrintTo(fs.value, tail));
      StringBreaks(fs.key, ":" + PrintTo(fs.value, tail));
    }
  }

  // ---- Dictionaries with distinct keys ----

  predicate DistinctFields(fs: Fields) {
    fs.Field? ==> Lookup(fs.rest, fs.key) == None && DistinctFields(fs.rest)
  }

  /** Sorting a dictionary with distinct keys keeps every field. */
  lemma {:induction false} LookupDictOf(fs: Fields, k: string)
    requires DistinctFields(fs)
    ensures Lookup(DictOf(fs), k) == Lookup(fs, k)
  {
    if fs.Field? {
      LookupDictOf(fs.rest, k);
      LookupDictOf(fs.rest, fs.key);
      LookupPut(DictOf(fs.rest), fs.key, fs.value, k);
    }
  }

  lemma {:induction false} CleanPut(fs: Fields, k: string, v: Json)
    requires Lookup(fs, k) == None
    ensures CleanFields(Put(fs, k, v)) <==> CleanText(k) && CleanJson(v) && CleanFields(fs)
  {
    if fs.Field? { CleanPut(fs.rest, k, v); }
  }

  lemma {:induction false} CleanDictOf(fs: Fields)
    requires DistinctFields(fs)
    ensures CleanFields(DictOf(fs)) <==> CleanFields(fs)
  {
    if fs.Field? {
      LookupDictOf(fs.rest, fs.key);
      CleanDictOf(fs.rest);
      CleanPut(DictOf(fs.rest), fs.key, fs.value);
    }
  }

  lemma {:induction false} LookupNormalizeValues(fs: Fields, k: string)
    ensures Lookup(NormalizeValues(fs), k)
         == if Lookup(fs, k).Some? then Some(Normalize(Lookup(fs, k).value)) else None
  {
    if fs.Field? { LookupNormalizeValues(fs.rest, k); }
  }

  lemma {:induction false} DistinctNormalizeValues(fs: Fields)
    requires DistinctFields(fs)
    ensures DistinctFields(NormalizeValues(fs))
  {
    if fs.Field? {
      DistinctNormalizeValues(fs.rest);
      LookupNormalizeValues(fs.rest, fs.key);
    }
  }
}
