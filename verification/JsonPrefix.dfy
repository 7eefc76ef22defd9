/** A parse does not depend on what follows it, so no proper prefix of a printed
    dictionary is itself a JSON text. */
module JsonPrefix {
  import opened Prelude
  import opened Json
  import opened JsonRoundTrip

  lemma {:induction false} SkipWsExtends(p: string, x: string)
    requires SkipWs(p) != ""
    ensures SkipWs(p + x) == SkipWs(p) + x
    decreases |p|
  {
    if IsWs(p[0]) {
      assert (p + x)[1..] == p[1..] + x;
      SkipWsExtends(p[1..], x);
    }
  }

  lemma {:induction false} DigitsExtend(p: string, n: nat, x: string)
    requires ParseDigits(p, n).1 != ""
    ensures ParseDigits(p + x, n) == (ParseDigits(p, n).0, ParseDigits(p, n).1 + x)
    decreases |p|
  {
    if IsDigit(p[0]) {
      assert (p + x)[1..] == p[1..] + x;
      DigitsExtend(p[1..], 10 * n + DigitValue(p[0]), x);
    }
  }

  /** The character cannot continue a number. */
  predicate EndsNumber(c: char) {
    !IsDigit(c) && c != '.' && c != 'e' && c != 'E'
  }

  lemma NatExtends(p: string, x: string)
    requires ParseNat(p).Some? && ParseNat(p).value.1 != "" && EndsNumber(ParseNat(p).value.1[0])
    ensures ParseNat(p + x) == Some((ParseNat(p).value.0, ParseNat(p).value.1 + x))
  {
    assert (p + x)[1..] == p[1..] + x;
    if p[0] != '0' { DigitsExtend(p[1..], DigitValue(p[0]), x); }
  }

  lemma EscapeExtends(p: string, x: string)
    requires ParseEscape(p).Some?
    ensures ParseEscape(p + x) == ParseEscape(p)
  {
    if p[0] == 'u' {
      var q, q' := p[1..], (p + x)[1..];
      assert q'[0] == q[0] && q'[1] == q[1] && q'[2] == q[2] && q'[3] == q[3];
    }
  }

  lemma {:induction false} TextExtends(p: string, x: string)
    requires ParseText(p).Some?
    ensures ParseText(p + x) == Some((ParseText(p).value.0, ParseText(p).value.1 + x))
    decreases |p|
  {
    assert (p + x)[1..] == p[1..] + x;
    if p[0] == '\\' {
      EscapeExtends(p[1..], x);
      var n := 1 + ParseEscape(p[1..]).value.1;
      assert (p + x)[n..] == p[n..] + x;
      TextExtends(p[n..], x);
    } else if p[0] != '\"' {
      TextExtends(p[1..], x);
    }
  }

  /** After the value the parse stops for a reason that lies inside p. */
  predicate Settled(v: Json, rest: string) {
    v.Int? ==> rest != "" && EndsNumber(rest[0])
  }

  lemma {:induction false} ValueExtends(p: string, x: string)
    requires ParseValue(p).Some? && Settled(ParseValue(p).value.0, ParseValue(p).value.1)
    ensures ParseValue(p + x) == Some((ParseValue(p).value.0, ParseValue(p).value.1 + x))
    decreases |p|, 0
  {
    assert (p + x)[1..] == p[1..] + x;
    if p[0] == '\"' {
      TextExtends(p[1..], x);
    } else if p[0] == '{' || p[0] == '[' {
      SkipWsExtends(p[1..], x);
      var t := SkipWs(p[1..]);
      assert (t + x)[1..] == t[1..] + x;
      if p[0] == '{' && t[0] != '}' { FieldsExtend(t, x); }
      if p[0] == '[' && t[0] != ']' { ItemsExtend(t, x); }
    } else if "null" <= p || "true" <= p {
      assert (p + x)[4..] == p[4..] + x;
    } else if "false" <= p {
      assert (p + x)[5..] == p[5..] + x;
    } else {
      NumberExtends(p, x);
    }
  }

  lemma NumberExtends(p: string, x: string)
    requires p != "" && (p[0] == '-' || IsDigit(p[0]))
    requires ParseValue(p).Some? && Settled(ParseValue(p).value.0, ParseValue(p).value.1)
    ensures ParseValue(p + x) == Some((ParseValue(p).value.0, ParseValue(p).value.1 + x))
  {
    if p[0] == '-' {
      assert (p + x)[1..] == p[1..] + x;
      NatExtends(p[1..], x);
    } else {
      NatExtends(p, x);
    }
  }

  lemma {:induction false} ItemsExtend(p: string, x: string)
    requires ParseItems(p).Some?
    ensures ParseItems(p + x) == Some((ParseItems(p).value.0, ParseItems(p).value.1 + x))
    decreases |p|, 1
  {
    var v := ParseValue(p).value;
    ValueExtends(p, x);
    SkipWsExtends(v.1, x);
    var t := SkipWs(v.1);
    assert (t + x)[1..] == t[1..] + x;
    if t[0] == ',' {
      SkipWsExtends(t[1..], x);
      ItemsExtend(SkipWs(t[1..]), x);
    }
  }

  lemma {:induction false} FieldExtends(p: string, x: string)
    requires ParseField(p).Some? && ParseField(p).value.2 != ""
    requires var t := ParseField(p).value.2; t[0] == ',' || t[0] == '}'
    ensures ParseField(p + x) == Some((ParseField(p).value.0, ParseField(p).value.1, ParseField(p).value.2 + x))
    decreases |p|, 1
  {
    assert (p + x)[1..] == p[1..] + x;
    TextExtends(p[1..], x);
    var k := ParseText(p[1..]).value;
    SkipWsExtends(k.1, x);
    var c := SkipWs(k.1);
    assert (c + x)[1..] == c[1..] + x;
    SkipWsExtends(c[1..], x);
    var s := SkipWs(c[1..]);
    ValueExtends(s, x);
    SkipWsExtends(ParseValue(s).value.1, x);
  }

  lemma {:induction false} FieldsExtend(p: string, x: string)
    requires ParseFields(p).Some?
    ensures ParseFields(p + x) == Some((ParseFields(p).value.0, ParseFields(p).value.1 + x))
    decreases |p|, 2
  {
    FieldExtends(p, x);
    var t := ParseField(p).value.2;
    assert (t + x)[1..] == t[1..] + x;
    if t[0] == ',' {
      SkipWsExtends(t[1..], x);
      FieldsExtend(SkipWs(t[1..]), x);
    }
  }

  /** Main result: a printed dictionary cut short is not a JSON text. */
  lemma CutShortFails(j: Json, m: nat)
    requires Normal(j) && j.Obj? && m < |PrintTo(j, "")|
    ensures Loads(PrintTo(j, "")[..m]) == None
  {
    var s := PrintTo(j, "");
    var p := s[..m];
    ValueRoundTrip(j, "");
    if Loads(p).Some? {
      assert p[0] == '{' && SkipWs(p) == p;
      assert p + s[m..] == s;
      ValueExtends(p, s[m..]);
    }
  }
}
