/** What the search for a fence finds: the leftmost fence of the text, up to its first close
    marker, and nothing when the text holds no fence. */
module FenceSearch {
  import opened Prelude
  import opened Fence

  /** The characters of nonces and of labels, spelled out. */
  const UPPER := "ABCDEFGHIJKLMNOPQRSTUVWXYZ"
  const LOWER := "abcdefghijklmnopqrstuvwxyz"
  const DIGITS := "0123456789"
  const HEX_DIGITS := DIGITS + "abcdef" + "ABCDEF"
  const LABEL_CHARS := UPPER + LOWER + DIGITS + "_.-"

  predicate MadeOf(s: string, alphabet: string) {
    s != "" && forall c :: c in s ==> c in alphabet
  }

  /** s begins with a whole fence around x, and continues with `more`. */
  ghost predicate FenceInFront(s: string, nonce: string, tag: string, x: string, more: string) {
    && MadeOf(nonce, HEX_DIGITS) && MadeOf(tag, LABEL_CHARS)
    && s == "<<UNTRUSTED:" + nonce + ":" + tag + ">>\n" + x + "\n<</UNTRUSTED:" + nonce + ":" + tag + ">>" + more
  }

  /** A whole fence begins at i. */
  ghost predicate FenceAt(s: string, i: nat) {
    i <= |s| && exists nonce, tag, x, more :: FenceInFront(s[i..], nonce, tag, x, more)
  }

  // ---- The alphabets ----

  lemma UpperExactly(c: char)
    ensures c in UPPER <==> 'A' <= c <= 'Z'
  {
    if 'A' <= c <= 'Z' { assert UPPER[c as int - 65] == c; }
  }

  lemma LowerExactly(c: char)
    ensures c in LOWER <==> 'a' <= c <= 'z'
  {
    if 'a' <= c <= 'z' { assert LOWER[c as int - 97] == c; }
  }

  lemma DigitExactly(c: char)
    ensures c in DIGITS <==> '0' <= c <= '9'
  {
    if '0' <= c <= '9' { assert DIGITS[c as int - 48] == c; }
  }

  lemma HexExactly(c: char)
    ensures IsHexDigit(c) <==> c in HEX_DIGITS
  {
    DigitExactly(c);
    if 'a' <= c <= 'f' { assert "abcdef"[c as int - 97] == c; }
    if 'A' <= c <= 'F' { assert "ABCDEF"[c as int - 65] == c; }
    assert c in HEX_DIGITS <==> c in DIGITS || c in "abcdef" || c in "ABCDEF";
  }

  lemma LabelExactly(c: char)
    ensures IsLabelChar(c) <==> c in LABEL_CHARS
  {
    UpperExactly(c);
    LowerExactly(c);
    DigitExactly(c);
    assert c in "_.-" <==> c == '_' || c == '.' || c == '-';
    JoinMember(c, UPPER, LOWER, DIGITS, "_.-");
  }

  lemma JoinMember(c: char, p: string, q: string, r: string, s: string)
    ensures c in p + q + r + s <==> c in p || c in q || c in r || c in s
  {
  }

  lemma NonceExactly(s: string)
    ensures s != "" && AllHex(s) <==> MadeOf(s, HEX_DIGITS)
  {
    forall c | c in s
      ensures IsHexDigit(c) <==> c in HEX_DIGITS
    {
      HexExactly(c);
    }
    hide IsHexDigit;
  }

  lemma TagExactly(s: string)
    ensures IsLabel(s) <==> MadeOf(s, LABEL_CHARS)
  {
    forall c | c in s
      ensures IsLabelChar(c) <==> c in LABEL_CHARS
    {
      LabelExactly(c);
    }
    hide IsLabelChar;
  }

  // ---- The close marker ----

  /** The text before the first mark. */
  lemma {:induction false} BeforeExactly(s: string, mark: string)
    ensures Before(s, mark).None? ==> forall k :: 0 <= k <= |s| ==> !(mark <= s[k..])
    ensures Before(s, mark).Some? ==>
      var x := Before(s, mark).value;
      |x| <= |s| && s[..|x|] == x && mark <= s[|x|..] && forall k :: 0 <= k < |x| ==> !(mark <= s[k..])
    decreases |s|
  {
    assert s[0..] == s;
    if mark <= s {
    } else if s == "" {
    } else {
      BeforeExactly(s[1..], mark);
      assert forall k :: 1 <= k <= |s| ==> s[k..] == s[1..][k - 1..];
      hide Before;
    }
  }

  // ---- A fence in front ----

  lemma {:induction false} RunIsOfClass(s: string, ok: char -> bool)
    ensures forall c :: c in s[..RunLength(s, ok)] ==> ok(c)
    decreases |s|
  {
    var n := RunLength(s, ok);
    if n > 0 {
      RunIsOfClass(s[1..], ok);
      assert s[..n] == [s[0]] + s[1..][..n - 1];
    }
  }

  /** A header that is found is there. */
  lemma HeaderIsThere(s: string)
    requires HeaderAt(s).Some?
    ensures var (nonce, tag, rest) := HeaderAt(s).value;
      nonce != "" && AllHex(nonce) && IsLabel(tag) && s == OpenMark(nonce, tag) + rest
  {
    var t := s[|OPEN|..];
    var n := RunLength(t, IsHexDigit);
    var u := t[n + 1..];
    var m := RunLength(u, IsLabelChar);
    RunIsOfClass(t, IsHexDigit);
    RunIsOfClass(u, IsLabelChar);
    hide RunLength;
    var nonce, tag, rest := t[..n], u[..m], u[m + 3..];
    assert HeaderAt(s) == Some((nonce, tag, rest));
    assert u == tag + (">>\n" + rest);
    assert t == nonce + (":" + u);
    assert s == OPEN + t;
    hide HeaderAt, AllHex, IsLabel;
    Regroup(OPEN, nonce + (":" + (tag + ">>\n")), rest);
    Regroup(nonce, ":" + (tag + ">>\n"), rest);
    Regroup(":", tag + ">>\n", rest);
    Regroup(tag, ">>\n", rest);
  }

  /** A fence is an open marker, a text, its close marker and the rest. */
  lemma FenceParts(s: string, nonce: string, tag: string, x: string, more: string)
    ensures FenceInFront(s, nonce, tag, x, more) <==>
      && nonce != "" && AllHex(nonce) && IsLabel(tag)
      && s == OpenMark(nonce, tag) + (x + (CloseMark(nonce, tag) + more))
  {
    NonceExactly(nonce);
    TagExactly(tag);
    hide AllHex, IsLabel, MadeOf;
    var open, close := "<<UNTRUSTED:" + nonce + ":" + tag + ">>\n", "\n<</UNTRUSTED:" + nonce + ":" + tag + ">>";
    assert OpenMark(nonce, tag) == open;
    assert CloseMark(nonce, tag) == close;
    SameText(open, x, close, nonce, tag, more);
  }

  lemma SameText(open: string, x: string, close: string, nonce: string, tag: string, more: string)
    requires close == "\n<</UNTRUSTED:" + nonce + ":" + tag + ">>"
    ensures open + x + "\n<</UNTRUSTED:" + nonce + ":" + tag + ">>" + more == open + (x + (close + more))
  {
    var a, c := open + x, "\n<</UNTRUSTED:";
    Regroup(a, c, nonce);
    Regroup(a, c + nonce, ":");
    Regroup(a, c + nonce + ":", tag);
    Regroup(a, c + nonce + ":" + tag, ">>");
    Regroup(a, close, more);
    Regroup(open, x, close + more);
  }

  /** What is matched in front is a fence there. */
  lemma MatchIsFence(s: string) returns (nonce: string, tag: string, more: string)
    requires MatchAt(s).Some?
    ensures FenceInFront(s, nonce, tag, MatchAt(s).value, more)
  {
    HeaderIsThere(s);
    var h := HeaderAt(s).value;
    nonce, tag := h.0, h.1;
    var x, mark := MatchAt(s).value, CloseMark(nonce, tag);
    assert Before(h.2, mark) == Some(x);
    hide *;
    BeforeExactly(h.2, mark);
    more := AfterMark(h.2, x, mark);
    FenceParts(s, nonce, tag, x, more);
  }

  lemma AfterMark(rest: string, x: string, mark: string) returns (more: string)
    requires |x| <= |rest| && rest[..|x|] == x && mark <= rest[|x|..]
    ensures rest == x + (mark + more)
  {
    more := rest[|x|..][|mark|..];
  }

  /** A fence in front is matched, and what is matched is no longer than its text. */
  lemma FenceIsMatched(s: string, nonce: string, tag: string, x: string, more: string)
    requires FenceInFront(s, nonce, tag, x, more)
    ensures MatchAt(s).Some? && |MatchAt(s).value| <= |x|
  {
    FenceParts(s, nonce, tag, x, more);
    var mark := CloseMark(nonce, tag);
    var rest := x + (mark + more);
    HeaderFound(nonce, tag, rest);
    BeforeExactly(rest, mark);
    hide HeaderAt, Before, OpenMark, CloseMark, AllHex, IsLabel;
    assert rest[|x|..] == mark + more;
  }

  // ---- The search ----

  /** The search gives the match at the first place where there is one. */
  lemma {:induction false} SearchFirst(s: string) returns (i: nat)
    ensures i <= |s| && Search(s) == MatchAt(s[i..])
    ensures Search(s).None? ==> forall k :: 0 <= k <= |s| ==> MatchAt(s[k..]).None?
    ensures Search(s).Some? ==> forall k :: 0 <= k < i ==> MatchAt(s[k..]).None?
    decreases |s|
  {
    hide MatchAt;
    assert s[0..] == s;
    if MatchAt(s).Some? || s == "" {
      i := 0;
    } else {
      var j := SearchFirst(s[1..]);
      i := j + 1;
      assert forall k :: 1 <= k <= |s| ==> s[k..] == s[1..][k - 1..];
    }
  }

  lemma FenceHere(text: string, i: nat)
    requires i <= |text|
    ensures FenceAt(text, i) <==> MatchAt(text[i..]).Some?
  {
    if MatchAt(text[i..]).Some? { var nonce, tag, more := MatchIsFence(text[i..]); }
    hide MatchAt, FenceInFront;
    if FenceAt(text, i) {
      var nonce, tag, x, more :| FenceInFront(text[i..], nonce, tag, x, more);
      FenceIsMatched(text[i..], nonce, tag, x, more);
    }
  }

  /** Main result: a text that holds no fence is left as it is. */
  lemma NoFence(text: string)
    requires forall i :: 0 <= i <= |text| ==> !FenceAt(text, i)
    ensures Unfence(text) == text
  {
    var first := SearchFirst(text);
    FenceHere(text, first);
    hide MatchAt, FenceAt, Search;
  }

  /** Main result: of a text with fences, the leftmost one is taken, up to the first close
      marker with its nonce and label. */
  lemma LeftmostFence(text: string, i: nat)
    requires FenceAt(text, i) && forall k :: 0 <= k < i ==> !FenceAt(text, k)
    ensures exists nonce, tag, more :: FenceInFront(text[i..], nonce, tag, Unfence(text), more)
    ensures forall nonce, tag, x, more :: FenceInFront(text[i..], nonce, tag, x, more) ==> |Unfence(text)| <= |x|
  {
    var first := SearchFirst(text);
    forall k | 0 <= k <= i
      ensures FenceAt(text, k) <==> MatchAt(text[k..]).Some?
    {
      FenceHere(text, k);
    }
    hide MatchAt, Search, FenceInFront, FenceAt;
    assert first == i;
    EmptyHasNone();
    assert text[i..] != "" && |text[i..]| <= |text|;
    var nonce, tag, more := MatchIsFence(text[i..]);
    forall n, t, x, m | FenceInFront(text[i..], n, t, x, m)
      ensures |Unfence(text)| <= |x|
    {
      FenceIsMatched(text[i..], n, t, x, m);
    }
  }

  lemma EmptyHasNone()
    ensures MatchAt("").None?
  {
  }
}
