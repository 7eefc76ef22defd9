/**
 Fencing untrusted text and taking it out again.

 A preamble is any prose with the two example markers in it that all preambles of the
 program quote; the prose itself contains no angle bracket.
 */
module Fence {
  import opened Prelude

  const OPEN := "<<UNTRUSTED:"
  const CLOSE := "<</UNTRUSTED:"
  const REDACTED := "[nonce-redacted]"

  predicate IsHexDigit(c: char) {
    '0' <= c <= '9' || 'a' <= c <= 'f' || 'A' <= c <= 'F'
  }

  predicate IsLabelChar(c: char) {
    'A' <= c <= 'Z' || 'a' <= c <= 'z' || '0' <= c <= '9' || c == '_' || c == '.' || c == '-'
  }

  predicate AllHex(s: string) {
    forall c :: c in s ==> IsHexDigit(c)
  }

  /** What `make_nonce` returns: sixteen hexadecimal digits. */
  predicate IsNonce(s: string) {
    |s| == 16 && AllHex(s)
  }

  predicate IsLabel(s: string) {
    s != "" && forall c :: c in s ==> IsLabelChar(c)
  }

  /** `str.replace(nonce, "[nonce-redacted]")`: leftmost occurrences that do not overlap. */
  function Redact(s: string, nonce: string): string
    requires nonce != ""
  {
    if s == "" then ""
    else if nonce <= s then REDACTED + Redact(s[|nonce|..], nonce)
    else [s[0]] + Redact(s[1..], nonce)
  }

  function OpenMark(nonce: string, tag: string): string {
    OPEN + (nonce + (":" + (tag + ">>\n")))
  }

  function CloseMark(nonce: string, tag: string): string {
    "\n" + (CLOSE + (nonce + (":" + (tag + ">>"))))
  }

  /** `fence`. */
  function Fenced(tag: string, untrusted: string, nonce: string): string
    requires nonce != ""
  {
    OpenMark(nonce, tag) + (Redact(untrusted, nonce) + CloseMark(nonce, tag))
  }

  function Preamble(a: string, b: string, c: string): string {
    a + (OPEN + "...>>" + (b + (CLOSE + "...>>" + c)))
  }

  /** `wrap_untrusted_goal` and `wrap_untrusted_report`. */
  function Wrap(preamble: string, tag: string, untrusted: string, nonce: string): string
    requires nonce != ""
  {
    preamble + ("\n\n" + Fenced(tag, untrusted, nonce))
  }

  // ---- The search for a fence ----

  /** How far a run of characters of one class goes; the pattern is greedy. */
  function RunLength(s: string, ok: char -> bool): (n: nat)
    ensures n <= |s|
  {
    if s == "" || !ok(s[0]) then 0 else 1 + RunLength(s[1..], ok)
  }

  /** The open marker at the front of s: nonce, label, and what follows. */
  function HeaderAt(s: string): Option<(string, string, string)> {
    if !(OPEN <= s) then None
    else
      var t := s[|OPEN|..];
      var n := RunLength(t, IsHexDigit);
      if n == 0 || !(":" <= t[n..]) then None
      else
        var u := t[n + 1..];
        var m := RunLength(u, IsLabelChar);
        if m == 0 || !(">>\n" <= u[m..]) then None else Some((t[..n], u[..m], u[m + 3..]))
  }

  /** The shortest text in front of a mark. */
  function Before(s: string, mark: string): Option<string> {
    if mark <= s then Some("")
    else if s == "" then None
    else
      var more := Before(s[1..], mark);
      if more.None? then None else Some([s[0]] + more.value)
  }

  function MatchAt(s: string): Option<string> {
    var h := HeaderAt(s);
    if h.None? then None else Before(h.value.2, CloseMark(h.value.0, h.value.1))
  }

  /** The payload of the leftmost match. */
  function Search(s: string): Option<string> {
    if MatchAt(s).Some? then MatchAt(s) else if s == "" then None else Search(s[1..])
  }

  /** `unfence_goal`. */
  function Unfence(text: string): string {
    if text == "" || Search(text).None? then text else Search(text).value
  }

  // ---- Redaction removes every copy of the nonce ----

  predicate OccursAt(s: string, t: string, i: nat) {
    i <= |s| && t <= s[i..]
  }

  ghost predicate Occurs(s: string, t: string) {
    exists i :: OccursAt(s, t, i)
  }

  /** Hexadecimal text at the front of redacted text was already at the front before. */
  lemma {:induction false} HexFront(s: string, nonce: string, k: nat)
    requires nonce != "" && k <= |Redact(s, nonce)| && AllHex(Redact(s, nonce)[..k])
    ensures k <= |s| && Redact(s, nonce)[..k] == s[..k]
    decreases |s|
  {
    if k > 0 {
      var r := Redact(s, nonce);
      assert r[0] in r[..k];
      assert !(nonce <= s) by { assert !IsHexDigit(REDACTED[0]); }
      var rest := Redact(s[1..], nonce);
      assert r[..k] == [s[0]] + rest[..k - 1];
      forall c | c in rest[..k - 1]
        ensures IsHexDigit(c)
      {
        assert c in r[..k];
      }
      HexFront(s[1..], nonce, k - 1);
      assert s[..k] == [s[0]] + s[1..][..k - 1];
    }
  }

  /** Every position a copy of the nonce covers holds a hexadecimal digit. */
  lemma CopyIsHex(s: string, nonce: string, i: nat, k: nat)
    requires AllHex(nonce) && OccursAt(s, nonce, i) && i <= k < i + |nonce|
    ensures k < |s| && IsHexDigit(s[k])
  {
    assert s[i..][k - i] == s[k];
    assert nonce[k - i] in nonce;
  }

  /** No copy of the nonce is left, not even one put together by the replacement. */
  lemma {:induction false} RedactClean(s: string, nonce: string, i: nat)
    requires IsNonce(nonce)
    ensures !OccursAt(Redact(s, nonce), nonce, i)
    decreases |s|
  {
    var r := Redact(s, nonce);
    if s == "" {
    } else if nonce <= s {
      var rest := Redact(s[|nonce|..], nonce);
      if i >= |REDACTED| {
        assert OccursAt(r, nonce, i) ==> OccursAt(rest, nonce, i - |REDACTED|) by {
          if i <= |r| { assert r[i..] == rest[i - |REDACTED|..]; }
        }
        RedactClean(s[|nonce|..], nonce, i - |REDACTED|);
      } else {
        var k := if i == 0 then 0 else |REDACTED| - 1;
        assert r[k] == REDACTED[k] && !IsHexDigit(r[k]);
        if OccursAt(r, nonce, i) { CopyIsHex(r, nonce, i, k); }
      }
    } else if i > 0 {
      assert OccursAt(r, nonce, i) ==> OccursAt(Redact(s[1..], nonce), nonce, i - 1) by {
        if i <= |r| { assert r[i..] == Redact(s[1..], nonce)[i - 1..]; }
      }
      RedactClean(s[1..], nonce, i - 1);
    } else {
      NothingAtFront(s, nonce);
    }
  }

  lemma NothingAtFront(s: string, nonce: string)
    requires IsNonce(nonce)
    ensures OccursAt(Redact(s, nonce), nonce, 0) ==> nonce <= s
  {
    var r := Redact(s, nonce);
    if OccursAt(r, nonce, 0) {
      hide Redact;
      assert r[0..] == r && r[..16] == nonce;
      HexFront(s, nonce, 16);
    }
  }

  /** Redaction is exactly a change where the nonce occurs. */
  lemma RedactIdentity(s: string, nonce: string)
    requires IsNonce(nonce)
    ensures Redact(s, nonce) == s <==> !Occurs(s, nonce)
  {
    if !Occurs(s, nonce) {
      RedactLeaves(s, nonce);
    } else {
      var i :| OccursAt(s, nonce, i);
      RedactClean(s, nonce, i);
    }
  }

  lemma {:induction false} RedactLeaves(s: string, nonce: string)
    requires nonce != "" && forall i :: !OccursAt(s, nonce, i)
    ensures Redact(s, nonce) == s
    decreases |s|
  {
    if s != "" {
      assert s[0..] == s && !OccursAt(s, nonce, 0);
      forall i: nat
        ensures !OccursAt(s[1..], nonce, i)
      {
        if i <= |s| - 1 { assert s[1..][i..] == s[i + 1..]; }
        assert !OccursAt(s, nonce, i + 1);
      }
      RedactLeaves(s[1..], nonce);
    }
  }

  /** The first copy of the nonce, and so each in turn, becomes the marker `[nonce-redacted]`. */
  lemma {:induction false} RedactFirst(a: string, nonce: string, b: string)
    requires nonce != "" && forall i :: 0 <= i < |a| ==> !OccursAt(a + nonce + b, nonce, i)
    ensures Redact(a + nonce + b, nonce) == a + "[nonce-redacted]" + Redact(b, nonce)
    decreases |a|
  {
    var s := a + nonce + b;
    if a == "" {
      assert s == nonce + b && s[|nonce|..] == b;
    } else {
      assert !OccursAt(s, nonce, 0) && s[0..] == s;
      assert s[1..] == a[1..] + nonce + b && s[0] == a[0];
      forall i | 0 <= i < |a| - 1
        ensures !OccursAt(s[1..], nonce, i)
      {
        assert s[1..][i..] == s[i + 1..] && !OccursAt(s, nonce, i + 1);
      }
      RedactFirst(a[1..], nonce, b);
      assert [a[0]] + (a[1..] + "[nonce-redacted]" + Redact(b, nonce)) == a + "[nonce-redacted]" + Redact(b, nonce);
    }
  }

  // ---- The search passes over the preamble ----

  lemma {:induction false} SkipPlain(p: string, x: string)
    requires '<' !in p
    ensures Search(p + x) == Search(x)
    decreases |p|
  {
    if p == "" {
      assert p + x == x;
    } else {
      assert (p + x)[0] == p[0] && p[0] in p && p[0] != '<';
      assert OPEN[0] == '<';
      assert (p + x)[1..] == p[1..] + x;
      SkipPlain(p[1..], x);
    }
  }

  /** No fence begins at an example marker. */
  lemma SkipExample(x: string)
    ensures Search(OPEN + "...>>" + x) == Search(x)
  {
    var s := OPEN + "...>>" + x;
    var p := "UNTRUSTED:...>>";
    assert s[|OPEN|..] == "...>>" + x;
    assert RunLength("...>>" + x, IsHexDigit) == 0;
    assert MatchAt(s) == None;
    assert s[1] == '<' && s[2] == 'U' && s[1..][0] == s[1] && s[1..][1] == s[2];
    assert MatchAt(s[1..]) == None by { assert OPEN[1] == '<'; }
    assert s[1..][1..] == p + x;
    SkipPlain(p, x);
  }

  lemma SkipCloseExample(x: string)
    ensures Search(CLOSE + "...>>" + x) == Search(x)
  {
    var s := CLOSE + "...>>" + x;
    var p := "/UNTRUSTED:...>>";
    assert s[0] == '<' && s[1] == '<' && s[2] == '/';
    assert MatchAt(s) == None by { assert OPEN[2] == 'U'; }
    assert s[1..][0] == s[1] && s[1..][1] == s[2];
    assert MatchAt(s[1..]) == None by { assert OPEN[1] == '<'; }
    assert s[1..][1..] == p + x;
    SkipPlain(p, x);
  }

  lemma Regroup(a: string, b: string, c: string)
    ensures (a + b) + c == a + (b + c)
  {
  }

  lemma SkipPreamble(a: string, b: string, c: string, x: string)
    requires '<' !in a && '<' !in b && '<' !in c
    ensures Search(Preamble(a, b, c) + x) == Search(x)
  {
    var open, close := OPEN + "...>>", CLOSE + "...>>";
    var after := close + (c + x);
    hide Search;
    Regroup(a, open + (b + (close + c)), x);
    Regroup(open, b + (close + c), x);
    Regroup(b, close + c, x);
    Regroup(close, c, x);
    assert Preamble(a, b, c) + x == a + (open + (b + after));
    SkipPlain(a, OPEN + "...>>" + (b + after));
    SkipExample(b + after);
    SkipPlain(b, after);
    SkipCloseExample(c + x);
    SkipPlain(c, x);
  }

  // ---- The match at the fence ----

  lemma {:induction false} RunFound(s: string, x: string, ok: char -> bool)
    requires (forall c :: c in s ==> ok(c)) && x != "" && !ok(x[0])
    ensures RunLength(s + x, ok) == |s|
    decreases |s|
  {
    if s == "" {
      assert s + x == x;
    } else {
      assert (s + x)[1..] == s[1..] + x;
      RunFound(s[1..], x, ok);
    }
  }

  lemma TagFound(tag: string, x: string)
    requires IsLabel(tag)
    ensures var u := tag + (">>\n" + x);
      var m := RunLength(u, IsLabelChar);
      m == |tag| && u[..m] == tag && ">>\n" <= u[m..] && u[m + 3..] == x
  {
    var u := tag + (">>\n" + x);
    assert (">>\n" + x)[0] == '>';
    RunFound(tag, ">>\n" + x, IsLabelChar);
    assert u[|tag|..] == ">>\n" + x;
  }

  lemma NonceFound(nonce: string, u: string)
    requires nonce != "" && AllHex(nonce)
    ensures var t := nonce + (":" + u);
      var n := RunLength(t, IsHexDigit);
      n == |nonce| && t[..n] == nonce && ":" <= t[n..] && t[n + 1..] == u
  {
    assert (":" + u)[0] == ':';
    RunFound(nonce, ":" + u, IsHexDigit);
    assert (nonce + (":" + u))[|nonce|..] == ":" + u;
  }

  lemma HeaderFrom(t: string, n: nat, m: nat)
    requires n == RunLength(t, IsHexDigit) && n > 0 && ":" <= t[n..]
    requires m == RunLength(t[n + 1..], IsLabelChar) && m > 0 && ">>\n" <= t[n + 1..][m..]
    ensures HeaderAt(OPEN + t) == Some((t[..n], t[n + 1..][..m], t[n + 1..][m + 3..]))
  {
    hide RunLength;
    assert (OPEN + t)[|OPEN|..] == t;
  }

  lemma HeaderFound(nonce: string, tag: string, x: string)
    requires nonce != "" && AllHex(nonce) && IsLabel(tag)
    ensures HeaderAt(OpenMark(nonce, tag) + x) == Some((nonce, tag, x))
  {
    hide HeaderAt, RunLength, AllHex;
    var u := tag + (">>\n" + x);
    var t := nonce + (":" + u);
    var s := OpenMark(nonce, tag) + x;
    Regroup(OPEN, nonce + (":" + (tag + ">>\n")), x);
    Regroup(nonce, ":" + (tag + ">>\n"), x);
    Regroup(":", tag + ">>\n", x);
    Regroup(tag, ">>\n", x);
    assert s == OPEN + t;
    NonceFound(nonce, u);
    TagFound(tag, x);
    HeaderFrom(t, |nonce|, |tag|);
  }

  predicate OneLine(s: string) {
    forall c :: c in s ==> c != '\n'
  }

  /** The close marker holds one newline, in front, and the nonce behind it. */
  lemma MarkShape(nonce: string, tag: string)
    requires AllHex(nonce) && IsLabel(tag)
    ensures var mark := CloseMark(nonce, tag);
      && |mark| > 0 && mark[0] == '\n'
      && (forall k :: 0 < k < |mark| ==> mark[k] != '\n')
      && 14 + |nonce| <= |mark| && mark[14..14 + |nonce|] == nonce
  {
    var mark := CloseMark(nonce, tag);
    var tail := ":" + (tag + ">>");
    assert OneLine(nonce) && OneLine(tail) && OneLine(CLOSE);
    hide AllHex, IsLabel;
    MarkParts(mark, nonce, tail);
  }

  lemma MarkParts(mark: string, nonce: string, tail: string)
    requires mark == "\n" + (CLOSE + (nonce + tail)) && OneLine(CLOSE) && OneLine(nonce) && OneLine(tail)
    ensures |mark| > 0 && mark[0] == '\n' && forall k :: 0 < k < |mark| ==> mark[k] != '\n'
    ensures 14 + |nonce| <= |mark| && mark[14..14 + |nonce|] == nonce
  {
    var body := CLOSE + (nonce + tail);
    assert OneLine(body);
    assert mark[1..] == body && |CLOSE| == 13;
    forall k | 0 < k < |mark|
      ensures mark[k] != '\n'
    {
      assert mark[k] == body[k - 1] && body[k - 1] in body;
    }
    assert body[13..] == nonce + tail;
    assert mark[14..] == body[13..];
    assert mark[14..14 + |nonce|] == mark[14..][..|nonce|] == nonce;
  }

  /** The first close marker behind text without the nonce is the real one. */
  lemma {:induction false} BeforeMark(s: string, nonce: string, tag: string, x: string)
    requires nonce != "" && AllHex(nonce) && IsLabel(tag) && forall i :: !OccursAt(s, nonce, i)
    ensures Before(s + (CloseMark(nonce, tag) + x), CloseMark(nonce, tag)) == Some(s)
    decreases |s|
  {
    var mark := CloseMark(nonce, tag);
    var all := s + (mark + x);
    if s == "" {
      assert all == mark + x;
    } else {
      NotYet(s, nonce, tag, x);
      assert all[1..] == s[1..] + (mark + x);
      forall i: nat
        ensures !OccursAt(s[1..], nonce, i)
      {
        if i <= |s| - 1 { assert s[1..][i..] == s[i + 1..]; }
        assert !OccursAt(s, nonce, i + 1);
      }
      BeforeMark(s[1..], nonce, tag, x);
      assert [s[0]] + s[1..] == s;
    }
  }

  lemma MarkHoldsNonce(s: string, mark: string, nonce: string)
    requires |mark| <= |s| && mark == s[..|mark|]
    requires 14 + |nonce| <= |mark| && mark[14..14 + |nonce|] == nonce
    ensures OccursAt(s, nonce, 14)
  {
    assert s[14..][..|nonce|] == mark[14..14 + |nonce|];
  }

  lemma NotYet(s: string, nonce: string, tag: string, x: string)
    requires s != "" && nonce != "" && AllHex(nonce) && IsLabel(tag) && forall i :: !OccursAt(s, nonce, i)
    ensures !(CloseMark(nonce, tag) <= s + (CloseMark(nonce, tag) + x))
  {
    var mark := CloseMark(nonce, tag);
    var all := s + (mark + x);
    MarkShape(nonce, tag);
    assert all[|s|] == mark[0];
    if |s| < |mark| {
      assert mark[|s|] != all[|s|];
    } else {
      assert all[..|mark|] == s[..|mark|];
      if mark == s[..|mark|] { MarkHoldsNonce(s, mark, nonce); }
      assert !OccursAt(s, nonce, 14);
    }
  }

  /** Main result: unfencing a wrapped text gives the text with every copy of the nonce
      redacted, whatever the text contains and whatever is appended behind the fence. */
  lemma UnfenceWrapped(a: string, b: string, c: string, tag: string, goal: string, nonce: string, trailing: string)
    requires '<' !in a && '<' !in b && '<' !in c
    requires IsNonce(nonce) && IsLabel(tag)
    ensures Unfence(Wrap(Preamble(a, b, c), tag, goal, nonce) + trailing) == Redact(goal, nonce)
    ensures !Occurs(goal, nonce) <==>
      Unfence(Wrap(Preamble(a, b, c), tag, goal, nonce) + trailing) == goal
  {
    var body := Redact(goal, nonce) + (CloseMark(nonce, tag) + trailing);
    var fenced := OpenMark(nonce, tag) + body;
    var text := Wrap(Preamble(a, b, c), tag, goal, nonce) + trailing;
    assert text == Preamble(a, b, c) + ("\n\n" + fenced);
    SkipPreamble(a, b, c, "\n\n" + fenced);
    SkipPlain("\n\n", fenced);
    HeaderFound(nonce, tag, body);
    forall i: nat
      ensures !OccursAt(Redact(goal, nonce), nonce, i)
    {
      RedactClean(goal, nonce, i);
    }
    BeforeMark(Redact(goal, nonce), nonce, tag, trailing);
    assert Search(fenced) == Some(Redact(goal, nonce));
    RedactIdentity(goal, nonce);
  }
}
