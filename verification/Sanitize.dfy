/** Defanging text before it is posted: no live mention, no hidden characters, bounded length. */
module Sanitize {
  import opened Lines

  const ZERO_WIDTH := 0x200B as char
  const ELLIPSIS := 0x2026 as char

  /** Zero-width and bidirectional control characters. */
  predicate IsInvisible(c: char) {
    var n := c as int;
    || 0x200B <= n <= 0x200F || 0x202A <= n <= 0x202E || 0x2066 <= n <= 0x2069 || n == 0xFEFF || n == 0xAD
  }

  predicate IsAlnum(c: char) {
    'A' <= c <= 'Z' || 'a' <= c <= 'z' || '0' <= c <= '9'
  }

  predicate IsHandleChar(c: char) {
    IsAlnum(c) || c == '-'
  }

  /** What may stand in front of a mention besides the start of the text. */
  predicate IsBoundary(c: char) {
    IsSpace(c) || c == '('
  }

  function Visible(s: string): string {
    if s == "" then ""
    else if IsInvisible(s[0]) then Visible(s[1..])
    else [s[0]] + Visible(s[1..])
  }

  function HandleLength(s: string): (n: nat)
    ensures n <= |s|
  {
    if s == "" || !IsHandleChar(s[0]) then 0 else 1 + HandleLength(s[1..])
  }

  /** An at sign with a handle behind it. */
  predicate AtHandle(s: string) {
    |s| >= 2 && s[0] == '@' && IsAlnum(s[1])
  }

  /** The at sign and its handle, separated, followed by the rest of the substitution. */
  function SplitMention(s: string): string
    requires AtHandle(s)
    decreases |s|, 0
  {
    var n := HandleLength(s[1..]);
    ['@', ZERO_WIDTH] + s[1..][..n] + Substitute(s[1..][n..], false)
  }

  /** The substitution of every mention, scanning from the left; `first` says that s starts
      the text. */
  function Substitute(s: string, first: bool): string
    decreases |s|, 1
  {
    if s == "" then ""
    else if first && AtHandle(s) then SplitMention(s)
    else if IsBoundary(s[0]) && AtHandle(s[1..]) then [s[0]] + SplitMention(s[1..])
    else [s[0]] + Substitute(s[1..], false)
  }

  function Defanged(text: string): string {
    Substitute(Visible(text), true)
  }

  /** The language's `s[:k]`, which counts from the end when k is negative. */
  function Prefix(s: string, k: int): (r: string)
    ensures r <= s
  {
    if k >= |s| then s else if k >= 0 then s[..k] else if |s| + k >= 0 then s[..|s| + k] else ""
  }

  function Cut(text: string, maxLen: int): string {
    StripRight(Prefix(Defanged(text), maxLen - 1))
  }

  /** `sanitize_for_comment`. */
  function SanitizeForComment(text: string, maxLen: int): string {
    if text == "" then ""
    else if |Defanged(text)| > maxLen then Cut(text, maxLen) + [ELLIPSIS]
    else Defanged(text)
  }

  // ---- The substitution, character by character ----

  /** The mark put behind the at sign at the front of s; `open` says that a mention may
      start here. */
  function Separator(s: string, open: bool): string {
    if open && AtHandle(s) then [ZERO_WIDTH] else ""
  }

  /** The same text, deciding at every character by its two neighbours alone. */
  function Defang(s: string, open: bool): string {
    if s == "" then ""
    else [s[0]] + Separator(s, open) + Defang(s[1..], IsBoundary(s[0]))
  }

  /** A handle runs through unchanged. */
  lemma {:induction false} HandlePasses(s: string)
    ensures Defang(s, false) == s[..HandleLength(s)] + Defang(s[HandleLength(s)..], false)
    decreases |s|
  {
    var n := HandleLength(s);
    if n == 0 {
      assert s[..0] == "" && s[0..] == s;
    } else {
      HandlePasses(s[1..]);
      var m := HandleLength(s[1..]);
      assert !IsBoundary(s[0]);
      assert s[..n] == [s[0]] + s[1..][..m] && s[n..] == s[1..][m..];
    }
  }

  lemma {:induction false} MentionByCharacter(s: string)
    requires AtHandle(s)
    ensures SplitMention(s) == Defang(s, true)
    decreases |s|, 0
  {
    var t := s[1..];
    var n := HandleLength(t);
    HandlePasses(t);
    SubstituteByCharacter(t[n..], false);
    assert !IsBoundary('@');
    assert ['@', ZERO_WIDTH] + t[..n] + Defang(t[n..], false)
        == ['@'] + [ZERO_WIDTH] + (t[..n] + Defang(t[n..], false));
  }

  /** Scanning for matches and deciding character by character come to the same. */
  lemma {:induction false} SubstituteByCharacter(s: string, first: bool)
    ensures Substitute(s, first) == Defang(s, first)
    decreases |s|, 1
  {
    if s == "" {
    } else if first && AtHandle(s) {
      MentionByCharacter(s);
    } else if IsBoundary(s[0]) && AtHandle(s[1..]) {
      MentionByCharacter(s[1..]);
      assert [s[0]] + "" == [s[0]];
    } else {
      SubstituteByCharacter(s[1..], false);
      OnlyBeforeHandles(s[1..], IsBoundary(s[0]));
      assert [s[0]] + "" == [s[0]];
    }
  }

  /** Whether a mention may start matters only in front of one. */
  lemma OnlyBeforeHandles(s: string, open: bool)
    requires !(open && AtHandle(s))
    ensures Defang(s, open) == Defang(s, false)
  {
  }

  // ---- No live mention ----

  /** What the mention pattern would find at i. */
  predicate LiveAt(s: string, i: nat) {
    i < |s| && AtHandle(s[i..]) && (i == 0 || IsBoundary(s[i - 1]))
  }

  ghost predicate Safe(s: string) {
    forall i :: !LiveAt(s, i)
  }

  lemma {:induction false} DefangSafe(s: string, open: bool, i: nat)
    ensures LiveAt(Defang(s, open), i) ==> i == 0 && !open
    decreases |s|
  {
    if i < |Defang(s, open)| {
      var r, rest, sep := Defang(s, open), Defang(s[1..], IsBoundary(s[0])), Separator(s, open);
      var k := 1 + |sep|;
      assert r == [s[0]] + sep + rest;
      if i >= k {
        assert r[i..] == rest[i - k..];
        DefangSafe(s[1..], IsBoundary(s[0]), i - k);
        assert sep == [ZERO_WIDTH] ==> r[1] == ZERO_WIDTH;
        assert i == k ==> r[i - 1] == if sep == "" then s[0] else ZERO_WIDTH;
        assert i > k ==> r[i - 1] == rest[i - k - 1];
      } else if i == 1 {
        assert r[1] == ZERO_WIDTH && r[1..][0] == r[1];
      } else {
        FrontOf(s, open);
      }
    }
  }

  /** At the front of defanged text an open mention is always separated. */
  lemma FrontOf(s: string, open: bool)
    ensures AtHandle(Defang(s, open)[0..]) ==> !open
  {
    var r := Defang(s, open);
    assert r[0..] == r;
    if s != "" {
      var rest := Defang(s[1..], IsBoundary(s[0]));
      assert r == [s[0]] + Separator(s, open) + rest;
      if Separator(s, open) == "" {
        assert r == [s[0]] + rest;
        assert rest != "" ==> r[1] == rest[0] == s[1..][0] == s[1];
      } else {
        assert r[1] == ZERO_WIDTH;
      }
    }
  }

  lemma PrefixSafe(s: string, p: string, c: char)
    requires Safe(s) && p <= s && !IsAlnum(c) && c != '@'
    ensures Safe(p) && Safe(p + [c])
  {
    forall i: nat
      ensures !LiveAt(p, i) && !LiveAt(p + [c], i)
    {
      assert !LiveAt(s, i);
      if i < |p| { LocalView(s, p, c, i); }
    }
  }

  lemma LocalView(s: string, p: string, c: char, i: nat)
    requires p <= s && !IsAlnum(c) && i < |p|
    ensures LiveAt(p, i) ==> LiveAt(s, i)
    ensures LiveAt(p + [c], i) ==> LiveAt(s, i)
  {
    var q := p + [c];
    assert s[i..][0] == p[i..][0] == q[i..][0] == p[i];
    if i + 1 < |p| {
      assert s[i..][1] == p[i..][1] == q[i..][1] == p[i + 1];
    } else {
      assert q[i..][1] == c;
    }
  }

  /** Main result: the result holds no live mention, whatever the text and the limit, and
      with a positive limit it is no longer than that. */
  lemma NoLiveMention(text: string, maxLen: int)
    ensures Safe(SanitizeForComment(text, maxLen))
    ensures maxLen >= 1 ==> |SanitizeForComment(text, maxLen)| <= maxLen
  {
    var d := Defanged(text);
    SubstituteByCharacter(Visible(text), true);
    forall i: nat
      ensures !LiveAt(d, i)
    {
      DefangSafe(Visible(text), true, i);
    }
    assert !IsAlnum(ELLIPSIS) && ELLIPSIS != '@';
    PrefixSafe(d, Cut(text, maxLen), ELLIPSIS);
  }

  /** Main result, on the characters: wherever the result has an at sign with a letter or a
      digit behind it, some character stands in front, and that one is neither an opening
      parenthesis nor white space. Such an at sign notifies nobody. */
  lemma NoPing(text: string, maxLen: int, i: nat)
    requires var s := SanitizeForComment(text, maxLen);
      && i + 1 < |s| && s[i] == '@'
      && ('A' <= s[i + 1] <= 'Z' || 'a' <= s[i + 1] <= 'z' || '0' <= s[i + 1] <= '9')
    ensures var s := SanitizeForComment(text, maxLen);
      i > 0 && s[i - 1] != '(' && s[i - 1] as int !in WHITE_SPACE
  {
    var s := SanitizeForComment(text, maxLen);
    NoLiveMention(text, maxLen);
    hide SanitizeForComment;
    assert !LiveAt(s, i);
    assert s[i..][0] == s[i] && s[i..][1] == s[i + 1];
    if i > 0 { SpaceExactly(s[i - 1]); }
  }

  // ---- Hidden characters ----

  predicate AllVisible(s: string) {
    forall c :: c in s ==> !IsInvisible(c)
  }

  lemma {:induction false} VisibleIsVisible(s: string)
    ensures AllVisible(Visible(s))
    ensures AllVisible(s) ==> Visible(s) == s
    decreases |s|
  {
    if s != "" {
      assert s == [s[0]] + s[1..];
      VisibleIsVisible(s[1..]);
    }
  }

  /** A hidden character in the text is the separator of a mention. */
  predicate HiddenOk(s: string, i: nat)
    requires i < |s|
  {
    IsInvisible(s[i]) ==> s[i] == ZERO_WIDTH && i > 0 && s[i - 1] == '@'
  }

  lemma {:induction false} DefangHidden(s: string, open: bool, i: nat)
    requires AllVisible(s) && i < |Defang(s, open)|
    ensures HiddenOk(Defang(s, open), i)
    decreases |s|
  {
    var r, rest, sep := Defang(s, open), Defang(s[1..], IsBoundary(s[0])), Separator(s, open);
    var k := 1 + |sep|;
    assert r == [s[0]] + sep + rest;
    assert s == [s[0]] + s[1..];
    assert s[0] in s && !IsInvisible(s[0]);
    if i >= k {
      assert r[i] == rest[i - k];
      assert AllVisible(s[1..]);
      DefangHidden(s[1..], IsBoundary(s[0]), i - k);
      assert i > k ==> r[i - 1] == rest[i - k - 1];
    } else if i == 1 {
      assert r[1] == ZERO_WIDTH && r[0] == '@';
    }
  }

  /** No hidden character of the text survives: the only one left is the separator the
      function itself puts behind an at sign. */
  lemma OnlySeparatorsHidden(text: string, maxLen: int, i: nat)
    requires i < |SanitizeForComment(text, maxLen)|
    ensures HiddenOk(SanitizeForComment(text, maxLen), i)
  {
    var out, d := SanitizeForComment(text, maxLen), Defanged(text);
    SubstituteByCharacter(Visible(text), true);
    VisibleIsVisible(text);
    if |d| > maxLen && i == |out| - 1 {
      assert out[i] == ELLIPSIS && !IsInvisible(ELLIPSIS);
    } else {
      assert out[i] == d[i] && (i > 0 ==> out[i - 1] == d[i - 1]);
      DefangHidden(Visible(text), true, i);
    }
  }

  /** A separator stands between an at sign that opens a mention and the handle. */
  lemma {:induction false} DefangSeparates(s: string, open: bool, i: nat)
    requires AllVisible(s) && i < |Defang(s, open)| && IsInvisible(Defang(s, open)[i])
    ensures var r := Defang(s, open);
      && i > 0 && r[i - 1] == '@' && (i == 1 ==> open) && (i > 1 ==> IsBoundary(r[i - 2]))
      && i + 1 < |r| && IsAlnum(r[i + 1])
    decreases |s|
  {
    var r, rest, sep := Defang(s, open), Defang(s[1..], IsBoundary(s[0])), Separator(s, open);
    var k := 1 + |sep|;
    assert r == [s[0]] + sep + rest;
    assert s == [s[0]] + s[1..];
    assert s[0] in s && !IsInvisible(s[0]);
    if i >= k {
      assert r[i] == rest[i - k] && AllVisible(s[1..]);
      DefangSeparates(s[1..], IsBoundary(s[0]), i - k);
      assert r[i - 1] == rest[i - k - 1] && r[i + 1] == rest[i - k + 1];
      assert i - k > 1 ==> r[i - 2] == rest[i - k - 2];
      assert sep != "" ==> !IsBoundary(s[0]);
      assert sep == "" ==> r[k - 1] == s[0];
    } else {
      assert s[1..] != "" && rest[0] == s[1..][0] == s[1] && r[2] == rest[0];
    }
  }

  /** On the characters: a zero-width, bidirectional or soft-hyphen control in the result is a
      zero-width space, between an at sign that begins the text or follows a parenthesis or
      white space, and a letter or a digit, unless the text is cut off there. */
  lemma HiddenByCodePoint(text: string, maxLen: int, i: nat)
    requires i < |SanitizeForComment(text, maxLen)|
    requires SanitizeForComment(text, maxLen)[i] as int in HIDDEN
    ensures var s := SanitizeForComment(text, maxLen);
      && s[i] as int == 0x200B && i > 0 && s[i - 1] == '@'
      && (i == 1 || s[i - 2] == '(' || s[i - 2] as int in WHITE_SPACE)
      && (i + 1 < |s| ==>
            'A' <= s[i + 1] <= 'Z' || 'a' <= s[i + 1] <= 'z' || '0' <= s[i + 1] <= '9'
            || (i + 2 == |s| && s[i + 1] as int == 0x2026))
  {
    var s, d := SanitizeForComment(text, maxLen), Defanged(text);
    OnlySeparatorsHidden(text, maxLen, i);
    HiddenExactly(s[i]);
    assert s[i] != ELLIPSIS;
    assert s[i] == d[i] && (i > 1 ==> s[i - 2] == d[i - 2]) && (i + 1 < |s| ==> s[i + 1] == d[i + 1] || i + 2 == |s|);
    SubstituteByCharacter(Visible(text), true);
    VisibleIsVisible(text);
    DefangSeparates(Visible(text), true, i);
    if i > 1 { SpaceExactly(s[i - 2]); }
  }

  /** The code points that hide text or turn its direction. */
  const HIDDEN := [
    0x200B, 0x200C, 0x200D, 0x200E, 0x200F, 0x202A, 0x202B, 0x202C, 0x202D, 0x202E,
    0x2066, 0x2067, 0x2068, 0x2069, 0xFEFF, 0xAD]

  lemma HiddenExactly(c: char)
    ensures IsInvisible(c) <==> c as int in HIDDEN
  {
    var n := c as int;
    if IsInvisible(c) {
      var i := if n == 0xAD then 15 else if n == 0xFEFF then 14 else if n >= 0x2066 then n - 0x2066 + 10
        else if n >= 0x202A then n - 0x202A + 5 else n - 0x200B;
      assert HIDDEN[i] == n;
    }
  }

  /** Text without hidden characters that fits comes out as it went in, but for the
      separators: taking the hidden characters out of the result gives the text back. */
  lemma TextSurvives(text: string, maxLen: int)
    requires forall c :: c in text ==> c as int !in HIDDEN
    requires |Defanged(text)| <= maxLen
    ensures Visible(SanitizeForComment(text, maxLen)) == text
    ensures '@' !in text ==> SanitizeForComment(text, maxLen) == text
  {
    forall c | c in text
      ensures !IsInvisible(c)
    {
      HiddenExactly(c);
    }
    VisibleIsVisible(text);
    SubstituteByCharacter(text, true);
    VisibleDefang(text, true);
    if '@' !in text { NothingToDefang(text, true); }
  }

  lemma {:induction false} NothingToDefang(s: string, open: bool)
    requires '@' !in s
    ensures Defang(s, open) == s
    decreases |s|
  {
    if s != "" {
      assert s == [s[0]] + s[1..] && s[0] in s;
      NothingToDefang(s[1..], IsBoundary(s[0]));
      assert [s[0]] + "" == [s[0]];
    }
  }

  /** A text too long is cut to a prefix of the defanged text, with nothing but white space
      lost in front of the limit, and an ellipsis put behind it. */
  lemma CutTells(text: string, maxLen: int) returns (lost: string)
    requires maxLen >= 1 && |Defanged(text)| > maxLen
    ensures var s := SanitizeForComment(text, maxLen);
      && s != "" && s[|s| - 1] as int == 0x2026 && (|s| > 1 ==> s[|s| - 2] as int !in WHITE_SPACE)
      && s[..|s| - 1] + lost == Defanged(text)[..maxLen - 1] && Blank(lost)
  {
    lost := StripRightTakes(Defanged(text)[..maxLen - 1]);
    var s := SanitizeForComment(text, maxLen);
    assert s == Cut(text, maxLen) + [ELLIPSIS];
    assert s[..|s| - 1] == Cut(text, maxLen);
  }

  // ---- Applying it twice ----

  lemma {:induction false} VisibleDefang(s: string, open: bool)
    requires AllVisible(s)
    ensures Visible(Defang(s, open)) == s
    decreases |s|
  {
    if s != "" {
      var rest := Defang(s[1..], IsBoundary(s[0]));
      assert s == [s[0]] + s[1..];
      assert s[0] in s && AllVisible(s[1..]);
      VisibleDefang(s[1..], IsBoundary(s[0]));
      VisibleAfter(s[0], Separator(s, open), rest);
    }
  }

  lemma VisibleAfter(c: char, sep: string, rest: string)
    requires !IsInvisible(c) && (sep == "" || sep == [ZERO_WIDTH])
    ensures Visible([c] + sep + rest) == [c] + Visible(rest)
  {
    var s := [c] + sep + rest;
    assert s[1..] == sep + rest;
    if sep == "" {
      assert sep + rest == rest;
    } else {
      assert (sep + rest)[1..] == rest;
    }
  }

  predicate EndsInSeparator(s: string) {
    s != "" && s[|s| - 1] == ZERO_WIDTH
  }

  lemma {:induction false} VisibleAppend(s: string, c: char)
    requires !IsInvisible(c)
    ensures Visible(s + [c]) == Visible(s) + [c]
    decreases |s|
  {
    if s == "" {
      assert s + [c] == [c];
    } else {
      assert (s + [c])[1..] == s[1..] + [c];
      VisibleAppend(s[1..], c);
    }
  }

  /** Defanging again what was cut off between two characters of the original gives it back. */
  lemma {:induction false} DefangPrefix(s: string, open: bool, p: string, c: char)
    requires AllVisible(s) && p <= Defang(s, open) && !EndsInSeparator(p)
    requires !IsAlnum(c) && c != '@'
    ensures Defang(Visible(p) + [c], open) == p + [c]
    decreases |s|
  {
    hide IsAlnum;
    if p == "" {
      assert Visible(p) + [c] == [c] && p + [c] == [c];
      assert Defang([c][1..], IsBoundary(c)) == "";
    } else {
      var q := PrefixRest(s, open, p);
      if |p| == 1 {
        VisibleAfter(s[0], "", "");
        assert [s[0]] + "" + "" == [s[0]];
        DefangLast(s[0], c, open);
      } else {
        VisibleAfter(s[0], Separator(s, open), q);
        DefangPrefix(s[1..], IsBoundary(s[0]), q, c);
        DefangOneMore(s, open, q, c);
        hide Defang, Visible, Separator;
        assert p + [c] == [s[0]] + Separator(s, open) + q + [c];
      }
    }
  }

  /** A cut not right behind a separator takes the first character's separator along. */
  lemma PrefixRest(s: string, open: bool, p: string) returns (q: string)
    requires AllVisible(s) && p <= Defang(s, open) && p != "" && !EndsInSeparator(p)
    ensures s != "" && !IsInvisible(s[0]) && AllVisible(s[1..])
    ensures |p| == 1 ==> p == [s[0]] && q == ""
    ensures |p| > 1 ==> p == [s[0]] + Separator(s, open) + q && (Separator(s, open) != "" ==> q != "")
    ensures q <= Defang(s[1..], IsBoundary(s[0])) && !EndsInSeparator(q)
  {
    var r, rest, sep := Defang(s, open), Defang(s[1..], IsBoundary(s[0])), Separator(s, open);
    assert r == [s[0]] + sep + rest && p[0] == s[0];
    assert s == [s[0]] + s[1..] && s[0] in s;
    if |p| == 1 {
      q := "";
    } else {
      assert sep != "" ==> p[1] == ZERO_WIDTH;
      q := p[1 + |sep|..];
      assert p == [s[0]] + sep + q;
      assert rest == r[1 + |sep|..];
    }
  }

  lemma DefangLast(a: char, c: char, open: bool)
    requires !IsAlnum(c) && c != '@'
    ensures Defang([a] + [c], open) == [a] + [c]
  {
    var s := [a] + [c];
    assert s[1..] == [c] && [c][1..] == "";
    assert Defang([c], IsBoundary(a)) == [c];
    assert Separator(s, open) == "";
  }

  /** One more character in front of a prefix is separated as it was. */
  lemma DefangOneMore(s: string, open: bool, q: string, c: char)
    requires s != "" && AllVisible(s) && !IsAlnum(c) && c != '@'
    requires q <= Defang(s[1..], IsBoundary(s[0])) && (Separator(s, open) != "" ==> q != "")
    requires Defang(Visible(q) + [c], IsBoundary(s[0])) == q + [c]
    ensures Defang([s[0]] + Visible(q) + [c], open) == [s[0]] + Separator(s, open) + q + [c]
  {
    var t := [s[0]] + Visible(q) + [c];
    assert t[1..] == Visible(q) + [c];
    assert Separator(t, open) == Separator(s, open) by {
      if q == "" {
        assert t[1] == c;
      } else {
        assert s[1..] != "" && q[0] == s[1];
        assert s[1] in s;
        assert t[1] == s[1];
      }
    }
  }

  /** The text that is left of a cut right behind a separator is not one that can be
      defanged into itself. */
  lemma {:induction false} SeparatorFollowsAt(s: string, open: bool, p: string)
    requires AllVisible(s) && p <= Defang(s, open) && EndsInSeparator(p)
    ensures var q := p[..|p| - 1]; !EndsInSeparator(q) && Visible(q) == Visible(p)
  {
    var q, i := p[..|p| - 1], |p| - 1;
    DefangHidden(s, open, i);
    assert p == q + [ZERO_WIDTH];
    VisibleDrops(q);
    assert q[|q| - 1] == '@';
  }

  lemma {:induction false} VisibleDrops(q: string)
    ensures Visible(q + [ZERO_WIDTH]) == Visible(q)
    decreases |q|
  {
    if q == "" {
      assert q + [ZERO_WIDTH] == [ZERO_WIDTH];
      assert [ZERO_WIDTH][1..] == "";
    } else {
      assert (q + [ZERO_WIDTH])[1..] == q[1..] + [ZERO_WIDTH];
      VisibleDrops(q[1..]);
    }
  }

  /** The cut of a truncation falls between an at sign and its handle. */
  predicate CutsMention(text: string, maxLen: int) {
    |Defanged(text)| > maxLen && EndsInSeparator(Cut(text, maxLen))
  }

  /** Main result: a second application changes nothing, unless the first one truncated the
      text right behind the separator of a mention. Then it drops that separator. */
  lemma IdempotentExactly(text: string, maxLen: int)
    requires maxLen >= 1
    ensures var once := SanitizeForComment(text, maxLen);
      SanitizeForComment(once, maxLen) == once <==> !CutsMention(text, maxLen)
  {
    var once, d, v := SanitizeForComment(text, maxLen), Defanged(text), Visible(text);
    NoLiveMention(text, maxLen);
    SubstituteByCharacter(v, true);
    VisibleIsVisible(text);
    SubstituteByCharacter(Visible(once), true);
    if |d| > maxLen {
      var p := Cut(text, maxLen);
      VisibleAppend(p, ELLIPSIS);
      AfterCut(v, p);
      assert EndsInSeparator(p) ==> |Defanged(once)| < |once| <= maxLen;
    } else {
      VisibleDefang(v, true);
    }
  }

  lemma AfterCut(v: string, p: string)
    requires AllVisible(v) && p <= Defang(v, true)
    ensures !EndsInSeparator(p) ==> Defang(Visible(p) + [ELLIPSIS], true) == p + [ELLIPSIS]
    ensures EndsInSeparator(p) ==> Defang(Visible(p) + [ELLIPSIS], true) == p[..|p| - 1] + [ELLIPSIS]
  {
    if EndsInSeparator(p) {
      SeparatorFollowsAt(v, true, p);
      DefangPrefix(v, true, p[..|p| - 1], ELLIPSIS);
    } else {
      DefangPrefix(v, true, p, ELLIPSIS);
    }
  }

  /** The documentation calls the function idempotent; this text shows that it is not. */
  lemma NotIdempotent()
    ensures SanitizeForComment("@ab", 3) == ['@', ZERO_WIDTH, ELLIPSIS]
    ensures SanitizeForComment(SanitizeForComment("@ab", 3), 3) == ['@', ELLIPSIS]
  {
    DefangExample();
    var d, once := ['@', ZERO_WIDTH, 'a', 'b'], ['@', ZERO_WIDTH, ELLIPSIS];
    hide Defanged;
    assert d[..2] == ['@', ZERO_WIDTH];
    assert StripRight(d[..2]) == d[..2];
    assert SanitizeForComment("@ab", 3) == d[..2] + [ELLIPSIS] == once;
  }

  lemma DefangExample()
    ensures Defanged("@ab") == ['@', ZERO_WIDTH, 'a', 'b']
    ensures Defanged(['@', ZERO_WIDTH, ELLIPSIS]) == ['@', ELLIPSIS]
  {
    VisibleIsVisible("@ab");
    assert "@ab"[1..] == "ab" && "ab"[1..] == "b" && "b"[1..] == "";
    assert HandleLength("b") == 1 && HandleLength("ab") == 2;
    assert "ab"[..2] == "ab" && "ab"[2..] == "";
    var once := ['@', ZERO_WIDTH, ELLIPSIS];
    assert once[1..] == [ZERO_WIDTH, ELLIPSIS] && [ZERO_WIDTH, ELLIPSIS][1..] == [ELLIPSIS];
    assert [ELLIPSIS][1..] == "" && Visible([ELLIPSIS]) == [ELLIPSIS];
    assert Visible(once) == ['@', ELLIPSIS];
    assert ['@', ELLIPSIS][1..] == [ELLIPSIS] && Substitute([ELLIPSIS], false) == [ELLIPSIS];
  }
}
