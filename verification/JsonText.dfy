/** The printed texts character by character, and what else the parser reads. */
module JsonText {
  import opened Prelude
  import opened Json
  import opened JsonRoundTrip

  // ---- How texts and names are written ----

  /** The letters behind the backslash of the short escapes (section 7 of RFC 8259). */
  predicate ShortEscape(code: int, letter: char) {
    || (code == 34 && letter == '\"') || (code == 92 && letter == '\\')
    || (code == 8 && letter == 'b') || (code == 12 && letter == 'f')
    || (code == 10 && letter == 'n') || (code == 13 && letter == 'r') || (code == 9 && letter == 't')
  }

  const HEX := "0123456789abcdef"

  /** One character of a text is written as itself, unless it is a quote, a backslash or a
      control character: then by its short escape, or by its code point in four digits. */
  lemma CharacterWritten(c: char)
    ensures var s, n := Canonical(Str([c])), c as int;
      if exists letter :: ShortEscape(n, letter) then
        exists letter :: ShortEscape(n, letter) && s == ['\"', '\\', letter, '\"']
      else if n < 32 then s == ['\"', '\\', 'u', '0', '0', HEX[n / 16], HEX[n % 16], '\"']
      else s == ['\"', c, '\"']
  {
    var n := c as int;
    assert Canonical(Str([c])) == "\"" + EscapeTo([c], "\"" + "");
    assert EscapeTo([c], "\"" + "") == EscapeChar(c) + EscapeTo([c][1..], "\"") == EscapeChar(c) + "\"";
    if n == 34 { assert ShortEscape(n, '\"'); }
    if n == 92 { assert ShortEscape(n, '\\'); }
    if n == 8 { assert ShortEscape(n, 'b'); }
    if n == 12 { assert ShortEscape(n, 'f'); }
    if n == 10 { assert ShortEscape(n, 'n'); }
    if n == 13 { assert ShortEscape(n, 'r'); }
    if n == 9 { assert ShortEscape(n, 't'); }
  }

  lemma TextWritten(s: string)
    ensures Canonical(Str(s)) == ['\"'] + EscapeTo(s, "") + ['\"']
  {
    EscapesEnd(s, "\"");
    assert "\"" + "" == "\"";
  }

  /** A text is written character by character. */
  lemma TextsJoin(s: string, t: string)
    ensures var a, b := Canonical(Str(s)), Canonical(Str(t));
      |a| > 0 && |b| > 0 && Canonical(Str(s + t)) == a[..|a| - 1] + b[1..]
  {
    TextWritten(s);
    TextWritten(t);
    TextWritten(s + t);
    EscapesJoin(s, t, "");
    EscapesEnd(s, EscapeTo(t, ""));
    hide Canonical, EscapeTo;
    var a, b := Canonical(Str(s)), Canonical(Str(t));
    assert a[..|a| - 1] == ['\"'] + EscapeTo(s, "");
    assert b[1..] == EscapeTo(t, "") + ['\"'];
  }

  lemma {:induction false} EscapesJoin(s: string, t: string, rest: string)
    ensures EscapeTo(s + t, rest) == EscapeTo(s, EscapeTo(t, rest))
    decreases |s|
  {
    if s == "" {
      assert s + t == t;
    } else {
      assert (s + t)[1..] == s[1..] + t;
      EscapesJoin(s[1..], t, rest);
    }
  }

  lemma {:induction false} EscapesEnd(s: string, rest: string)
    ensures EscapeTo(s, rest) == EscapeTo(s, "") + rest
    decreases |s|
  {
    if s != "" {
      EscapesEnd(s[1..], rest);
      assert EscapeChar(s[0]) + (EscapeTo(s[1..], "") + rest) == (EscapeChar(s[0]) + EscapeTo(s[1..], "")) + rest;
    }
  }

  predicate Numeral(s: string) {
    s != "" && (forall c :: c in s ==> '0' <= c <= '9') && (s[0] == '0' ==> s == "0")
  }

  /** A number is written in decimal digits without leading zeros, a negative one behind a
      single minus sign. */
  lemma NumberWritten(n: int)
    ensures n >= 0 ==> Numeral(Canonical(Int(n)))
    ensures n < 0 ==> Canonical(Int(n)) == "-" + Canonical(Int(-n)) && Canonical(Int(-n)) != "0"
  {
    NumeralWritten(if n < 0 then -n else n, "");
    assert NatTo(if n < 0 then -n else n, "") == NatTo(if n < 0 then -n else n, "") + "";
  }

  lemma {:induction false} NumeralWritten(n: nat, rest: string)
    requires forall c :: c in rest ==> '0' <= c <= '9'
    ensures var s := NatTo(n, rest);
      |s| > |rest| && (forall c :: c in s ==> '0' <= c <= '9') && (s[0] == '0' <==> n == 0)
    ensures n == 0 ==> NatTo(n, rest) == "0" + rest
    decreases n
  {
    DigitTells(n % 10);
    if n >= 10 {
      assert forall c :: c in [Digit(n % 10)] + rest ==> c == Digit(n % 10) || c in rest;
      NumeralWritten(n / 10, [Digit(n % 10)] + rest);
    }
  }

  lemma DigitTells(d: int)
    requires 0 <= d < 10
    ensures '0' <= Digit(d) <= '9' && (Digit(d) == '0' <==> d == 0)
  {
  }

  lemma NamesWritten()
    ensures Canonical(Null) == "null" && Canonical(Bool(true)) == "true" && Canonical(Bool(false)) == "false"
    ensures Canonical(Arr(NoItems)) == "[]" && Canonical(Obj(NoFields)) == "{}"
  {
  }

  // ---- No white space outside texts ----

  /** Every character is printable, and none is a blank. */
  predicate Tight(s: string) {
    forall c :: c in s ==> c as int > 32
  }

  /** No blank in any text or key of the value. */
  predicate BlankFree(j: Json) {
    match j
    case Str(s) => ' ' !in s
    case Arr(items) => BlankFreeItems(items)
    case Obj(fields) => BlankFreeFields(fields)
    case _ => true
  }

  predicate BlankFreeItems(items: Items) {
    items.Item? ==> BlankFree(items.head) && BlankFreeItems(items.tail)
  }

  predicate BlankFreeFields(fs: Fields) {
    fs.Field? ==> ' ' !in fs.key && BlankFree(fs.value) && BlankFreeFields(fs.rest)
  }

  lemma TightConcat(a: string, b: string)
    requires Tight(a) && Tight(b)
    ensures Tight(a + b)
  {
  }

  lemma {:induction false} TightNat(n: nat, rest: string)
    requires Tight(rest)
    ensures Tight(NatTo(n, rest))
    decreases n
  {
    TightConcat([Digit(n % 10)], rest);
    if n >= 10 { TightNat(n / 10, [Digit(n % 10)] + rest); }
  }

  lemma {:induction false} TightText(s: string, rest: string)
    requires ' ' !in s && Tight(rest)
    ensures Tight(EscapeTo(s, rest))
    decreases |s|
  {
    if s != "" {
      assert s[0] in s;
      assert ' ' !in s[1..];
      TightText(s[1..], rest);
      assert Tight(EscapeChar(s[0]));
      TightConcat(EscapeChar(s[0]), EscapeTo(s[1..], rest));
    }
  }

  lemma TightString(s: string, rest: string)
    requires ' ' !in s && Tight(rest)
    ensures Tight(StringTo(s, rest))
  {
    TightConcat("\"", rest);
    TightText(s, "\"" + rest);
    TightConcat("\"", EscapeTo(s, "\"" + rest));
  }

  lemma {:induction false} TightValue(j: Json, rest: string)
    requires BlankFree(j) && Tight(rest)
    ensures Tight(PrintTo(j, rest))
    decreases j
  {
    match j
    case Null => TightConcat("null", rest);
    case Bool(b) => TightConcat(if b then "true" else "false", rest);
    case Int(n) =>
      TightNat(if n < 0 then -n else n, rest);
      TightConcat("-", NatTo(if n < 0 then -n else n, rest));
    case Str(s) => TightString(s, rest);
    case Arr(items) =>
      TightConcat("]", rest);
      TightItems(items, "]" + rest);
      TightConcat("[", ItemsTo(items, "]" + rest));
    case Obj(fields) =>
      TightConcat("}", rest);
      TightFields(fields, "}" + rest);
      TightConcat("{", FieldsTo(fields, "}" + rest));
  }

  lemma {:induction false} TightItems(items: Items, rest: string)
    requires BlankFreeItems(items) && Tight(rest)
    ensures Tight(ItemsTo(items, rest))
    decreases items
  {
    if items.Item? {
      if items.tail.Item? {
        TightItems(items.tail, rest);
        TightConcat(",", ItemsTo(items.tail, rest));
      }
      TightValue(items.head, if items.tail.NoItems? then rest else "," + ItemsTo(items.tail, rest));
    }
  }

  lemma {:induction false} TightFields(fs: Fields, rest: string)
    requires BlankFreeFields(fs) && Tight(rest)
    ensures Tight(FieldsTo(fs, rest))
    decreases fs
  {
    if fs.Field? {
      if fs.rest.Field? {
        TightFields(fs.rest, rest);
        TightConcat(",", FieldsTo(fs.rest, rest));
      }
      var more := if fs.rest.NoFields? then rest else "," + FieldsTo(fs.rest, rest);
      TightValue(fs.value, more);
      TightConcat(":", PrintTo(fs.value, more));
      TightString(fs.key, ":" + PrintTo(fs.value, more));
    }
  }

  lemma {:induction false} BlankFreePut(fs: Fields, k: string, v: Json)
    requires BlankFreeFields(fs) && ' ' !in k && BlankFree(v)
    ensures BlankFreeFields(Put(fs, k, v))
  {
    if fs.Field? { BlankFreePut(fs.rest, k, v); }
  }

  lemma {:induction false} BlankFreeDict(fs: Fields)
    requires BlankFreeFields(fs)
    ensures BlankFreeFields(DictOf(fs))
  {
    if fs.Field? {
      BlankFreeDict(fs.rest);
      BlankFreePut(DictOf(fs.rest), fs.key, fs.value);
    }
  }

  lemma {:induction false} BlankFreeNormal(j: Json)
    requires BlankFree(j)
    ensures BlankFree(Normalize(j))
    decreases j
  {
    match j
    case Arr(items) => BlankFreeNormalItems(items);
    case Obj(fields) =>
      BlankFreeNormalFields(fields);
      BlankFreeDict(NormalizeValues(fields));
    case _ =>
  }

  lemma {:induction false} BlankFreeNormalItems(items: Items)
    requires BlankFreeItems(items)
    ensures BlankFreeItems(NormalizeItems(items))
    decreases items
  {
    if items.Item? {
      BlankFreeNormal(items.head);
      BlankFreeNormalItems(items.tail);
    }
  }

  lemma {:induction false} BlankFreeNormalFields(fs: Fields)
    requires BlankFreeFields(fs)
    ensures BlankFreeFields(NormalizeValues(fs))
    decreases fs
  {
    if fs.Field? {
      BlankFreeNormal(fs.value);
      BlankFreeNormalFields(fs.rest);
    }
  }

  /** Main result: the canonical text spends no character on layout. What is not above the
      blank in it comes from a blank in a text or a key of the value. */
  lemma CanonicalTight(j: Json)
    requires BlankFree(j)
    ensures forall c :: c in Canonical(j) ==> c as int > 32
  {
    BlankFreeNormal(j);
    TightValue(Normalize(j), "");
  }

  // ---- What else the parser reads ----

  predicate AllBlank(s: string) {
    forall c :: c in s ==> c == ' ' || c == '\t' || c == '\n' || c == '\r'
  }

  lemma {:induction false} SkipBlank(w: string, x: string)
    requires AllBlank(w)
    ensures SkipWs(w + x) == SkipWs(x)
    decreases |w|
  {
    if w == "" {
      assert w + x == x;
    } else {
      assert w[0] in w && (w + x)[0] == w[0] && (w + x)[1..] == w[1..] + x;
      assert forall c :: c in w[1..] ==> c in w;
      SkipBlank(w[1..], x);
    }
  }

  /** White space around a canonical text does not matter. */
  lemma LoadsAround(j: Json, before: string, behind: string)
    requires AllBlank(before) && AllBlank(behind)
    ensures Loads(before + Canonical(j) + behind) == Some(Normalize(j))
  {
    var n := Normalize(j);
    NormalizeNormal(j);
    PrintAppends(n, behind);
    assert before + Canonical(j) + behind == before + (Canonical(j) + behind);
    SkipBlank(before, PrintTo(n, behind));
    assert behind != "" ==> behind[0] in behind;
    ValueRoundTrip(n, behind);
    SkipBlank(behind, "");
    assert behind + "" == behind;
  }

  /** d is the hexadecimal digit of v, in lower or upper case. */
  predicate DigitOf(d: char, v: int) {
    0 <= v < 16 && (d == HEX[v] || d == "0123456789ABCDEF"[v])
  }

  /** A text that is one escape. */
  lemma OneEscape(t: string)
    requires ParseEscape(t + ['\"']).Some? ==> ParseEscape(t + ['\"']).value.1 == |t|
    ensures var e := ParseEscape(t + ['\"']);
      Loads(['\"', '\\'] + t + ['\"']) == if e.None? then None else Some(Str([e.value.0]))
  {
    var s, e := ['\"', '\\'] + t + ['\"'], ParseEscape(t + ['\"']);
    var u := ['\\'] + (t + ['\"']);
    assert s[1..] == u && u[0] == '\\' && u[1..] == t + ['\"'];
    if e.Some? {
      assert u[1 + |t|..] == ['\"'] && ['\"'][1..] == "";
      assert ParseText(u[1 + |t|..]) == Some(("", ""));
      assert ParseText(u) == Some(([e.value.0] + "", ""));
      assert [e.value.0] + "" == [e.value.0];
    } else {
      assert ParseText(u) == None;
    }
    hide ParseText, ParseEscape;
    assert SkipWs(s) == s;
  }

  /** An escape of four hexadecimal digits stands for the character of that code point. */
  lemma CodePointRead(a: char, b: char, c: char, d: char, v: int, w: int, x: int, y: int)
    requires DigitOf(a, v) && DigitOf(b, w) && DigitOf(c, x) && DigitOf(d, y)
    ensures var code := 4096 * v + 256 * w + 16 * x + y;
      Loads(['\"', '\\', 'u', a, b, c, d, '\"'])
        == if 0xD800 <= code < 0xE000 then None else Some(Str([code as char]))
  {
    DigitRead(a, v);
    DigitRead(b, w);
    DigitRead(c, x);
    DigitRead(d, y);
    hide HexValue, DigitOf;
    var t := ['u', a, b, c, d];
    assert t + ['\"'] == ['u', a, b, c, d, '\"'] && (t + ['\"'])[1..] == [a, b, c, d, '\"'];
    OneEscape(t);
    assert ['\"', '\\'] + t + ['\"'] == ['\"', '\\', 'u', a, b, c, d, '\"'];
  }

  lemma DigitRead(d: char, v: int)
    requires DigitOf(d, v)
    ensures HexValue(d) == v
  {
    assert HEX[v] == (if v < 10 then ('0' as int + v) as char else ('a' as int + v - 10) as char);
    assert "0123456789ABCDEF"[v] == (if v < 10 then ('0' as int + v) as char else ('A' as int + v - 10) as char);
  }

  /** Every short escape is read, and so is an escaped slash. */
  lemma ShortEscapeRead(n: int, letter: char)
    requires ShortEscape(n, letter) || (n == '/' as int && letter == '/')
    ensures Loads(['\"', '\\', letter, '\"']) == Some(Str([n as char]))
  {
    OneEscape([letter]);
    assert ['\"', '\\'] + [letter] + ['\"'] == ['\"', '\\', letter, '\"'];
  }
}
