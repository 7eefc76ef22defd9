/** The parser undoes the canonical printer, so the printer is injective. */
module JsonRoundTrip {
  import opened Prelude
  import opened Text
  import opened Json

  // ---- Key order ----

  lemma {:induction false} LookupPut(fs: Fields, k: string, v: Json, q: string)
    ensures Lookup(Put(fs, k, v), q) == if q == k then Some(v) else Lookup(fs, q)
  {
    if fs.Field? { LookupPut(fs.rest, k, v, q); }
  }

  lemma {:induction false} PutIncreasing(fs: Fields, k: string, v: Json, low: Option<string>)
    requires Increasing(fs, low) && (low.Some? ==> TextLess(low.value, k))
    ensures Increasing(Put(fs, k, v), low)
  {
    if fs.Field? {
      TextLessTotal(k, fs.key);
      if !(k == fs.key || TextLess(k, fs.key)) { PutIncreasing(fs.rest, k, v, Some(fs.key)); }
    }
  }

  lemma {:induction false} DictOfIncreasing(fs: Fields)
    ensures Increasing(DictOf(fs), None)
  {
    if fs.Field? {
      DictOfIncreasing(fs.rest);
      PutIncreasing(DictOf(fs.rest), fs.key, fs.value, None);
    }
  }

  /** All keys of an increasing dictionary lie above its lower bound. */
  lemma {:induction false} AboveLow(fs: Fields, low: string, k: string)
    requires Increasing(fs, Some(low)) && (k == low || TextLess(k, low))
    ensures Lookup(fs, k) == None
    ensures fs.Field? ==> TextLess(k, fs.key)
  {
    if fs.Field? {
      if k != low { TextLessTransitive(k, low, fs.key); }
      AboveLow(fs.rest, fs.key, k);
    }
  }

  /** A dictionary already in key order is left as it is. */
  lemma {:induction false} DictOfFixed(fs: Fields, low: Option<string>)
    requires Increasing(fs, low)
    ensures DictOf(fs) == fs
  {
    if fs.Field? {
      DictOfFixed(fs.rest, Some(fs.key));
      AboveLow(fs.rest, fs.key, fs.key);
    }
  }

  lemma {:induction false} NormalPut(fs: Fields, k: string, v: Json)
    requires NormalValues(fs) && Normal(v)
    ensures NormalValues(Put(fs, k, v))
  {
    if fs.Field? { NormalPut(fs.rest, k, v); }
  }

  lemma {:induction false} NormalDictOf(fs: Fields)
    requires NormalValues(fs)
    ensures NormalValues(DictOf(fs))
  {
    if fs.Field? {
      NormalDictOf(fs.rest);
      NormalPut(DictOf(fs.rest), fs.key, fs.value);
    }
  }

  lemma {:induction false} NormalizeNormal(j: Json)
    ensures Normal(Normalize(j))
  {
    match j
    case Arr(items) => NormalizeItemsNormal(items);
    case Obj(fields) =>
      NormalizeValuesNormal(fields);
      NormalDictOf(NormalizeValues(fields));
      DictOfIncreasing(NormalizeValues(fields));
    case _ =>
  }

  lemma {:induction false} NormalizeItemsNormal(items: Items)
    ensures NormalItems(NormalizeItems(items))
  {
    if items.Item? {
      NormalizeNormal(items.head);
      NormalizeItemsNormal(items.tail);
    }
  }

  lemma {:induction false} NormalizeValuesNormal(fs: Fields)
    ensures NormalValues(NormalizeValues(fs))
  {
    if fs.Field? {
      NormalizeNormal(fs.value);
      NormalizeValuesNormal(fs.rest);
    }
  }

  /** Normalizing a second time changes nothing. */
  lemma {:induction false} NormalizeFixed(j: Json)
    requires Normal(j)
    ensures Normalize(j) == j
  {
    match j
    case Arr(items) => NormalizeItemsFixed(items);
    case Obj(fields) =>
      NormalizeValuesFixed(fields);
      DictOfFixed(fields, None);
    case _ =>
  }

  lemma {:induction false} NormalizeItemsFixed(items: Items)
    requires NormalItems(items)
    ensures NormalizeItems(items) == items
  {
    if items.Item? {
      NormalizeFixed(items.head);
      NormalizeItemsFixed(items.tail);
    }
  }

  lemma {:induction false} NormalizeValuesFixed(fs: Fields)
    requires NormalValues(fs)
    ensures NormalizeValues(fs) == fs
  {
    if fs.Field? {
      NormalizeFixed(fs.value);
      NormalizeValuesFixed(fs.rest);
    }
  }

  // ---- Numbers ----

  /** What may follow a value inside a printed value: nothing, or a separator. */
  predicate Follows(rest: string) {
    rest == "" || rest[0] == ',' || rest[0] == ']' || rest[0] == '}' || IsWs(rest[0])
  }

  lemma {:induction false} DigitsRoundTrip(n: nat, rest: string)
    ensures ParseDigits(NatTo(n, rest), 0) == ParseDigits(rest, n)
    decreases n
  {
    if n < 10 {
      assert ([Digit(n)] + rest)[1..] == rest;
    } else {
      var d := [Digit(n % 10)] + rest;
      DigitsRoundTrip(n / 10, d);
      assert d[1..] == rest;
    }
  }

  lemma {:induction false} LeadingDigit(n: nat, rest: string)
    ensures NatTo(n, rest) != "" && IsDigit(NatTo(n, rest)[0])
    ensures NatTo(n, rest)[0] == '0' ==> n == 0
    decreases n
  {
    if n >= 10 { LeadingDigit(n / 10, [Digit(n % 10)] + rest); }
  }

  lemma NatRoundTrip(n: nat, rest: string)
    requires Follows(rest)
    ensures ParseNat(NatTo(n, rest)) == Some((n, rest))
  {
    LeadingDigit(n, rest);
    DigitsRoundTrip(n, rest);
    if n == 0 { assert ([Digit(n)] + rest)[1..] == rest; }
  }

  lemma IntRoundTrip(n: int, rest: string)
    requires Follows(rest)
    ensures ParseValue(IntTo(n, rest)) == Some((Int(n), rest))
    ensures IntTo(n, rest) != "" && !IsWs(IntTo(n, rest)[0]) && IntTo(n, rest)[0] != ']' && IntTo(n, rest)[0] != '}'
  {
    if n < 0 {
      NatRoundTrip(-n, rest);
      assert ("-" + NatTo(-n, rest))[1..] == NatTo(-n, rest);
    } else {
      NatRoundTrip(n, rest);
      LeadingDigit(n, rest);
    }
  }

  // ---- Texts ----

  lemma EscapeRoundTrip(c: char, rest: string)
    requires EscapeChar(c) != [c]
    ensures EscapeChar(c)[0] == '\\'
    ensures ParseEscape(EscapeChar(c)[1..] + rest) == Some((c, |EscapeChar(c)| - 1))
  {
    var code := c as int;
    if c != '\"' && c != '\\' && c != '\n' && c != '\r' && c != '\t' && code != 8 && code != 12 {
      var e := EscapeChar(c)[1..] + rest;
      assert e[0] == 'u' && e[1..][0] == '0' && e[1..][1] == '0';
      assert e[1..][2] == HexDigit(code / 16) && e[1..][3] == HexDigit(code % 16);
      assert HexValue(e[1..][2]) == code / 16 && HexValue(e[1..][3]) == code % 16;
    }
  }

  lemma {:induction false} TextRoundTrip(s: string, rest: string)
    ensures ParseText(EscapeTo(s, "\"" + rest)) == Some((s, rest))
    decreases |s|
  {
    if s == "" {
      assert ("\"" + rest)[1..] == rest;
    } else {
      var c, more := s[0], EscapeTo(s[1..], "\"" + rest);
      var t := EscapeChar(c) + more;
      TextRoundTrip(s[1..], rest);
      assert s == [c] + s[1..];
      if EscapeChar(c) == [c] {
        assert t[1..] == more;
      } else {
        EscapeRoundTrip(c, more);
        assert t[1..] == EscapeChar(c)[1..] + more;
        assert t[|EscapeChar(c)|..] == more;
      }
    }
  }

  // ---- Values ----

  /** A printed value starts with neither whitespace nor a closing bracket. */
  predicate Starts(s: string) {
    s != "" && !IsWs(s[0]) && s[0] != ']' && s[0] != '}'
  }

  /** The parser reads a printed value back and stops exactly behind it. */
  lemma {:induction false} ValueRoundTrip(j: Json, rest: string)
    requires Normal(j) && Follows(rest)
    ensures ParseValue(PrintTo(j, rest)) == Some((j, rest))
    ensures Starts(PrintTo(j, rest))
    decreases j
  {
    var s := PrintTo(j, rest);
    match j
    case Null => assert s[4..] == rest;
    case Bool(b) => assert s[if b then 4 else 5..] == rest;
    case Int(n) => IntRoundTrip(n, rest);
    case Str(t) =>
      TextRoundTrip(t, rest);
      assert s[1..] == EscapeTo(t, "\"" + rest);
    case Arr(items) =>
      assert s[1..] == ItemsTo(items, "]" + rest);
      if items.Item? {
        ItemsRoundTrip(items, rest);
      } else {
        assert ("]" + rest)[1..] == rest;
      }
    case Obj(fields) =>
      assert s[1..] == FieldsTo(fields, "}" + rest);
      if fields.Field? {
        FieldsRoundTrip(fields, rest);
        DictOfFixed(fields, None);
      } else {
        assert ("}" + rest)[1..] == rest;
      }
  }

  lemma {:induction false} ItemsRoundTrip(items: Items, rest: string)
    requires items.Item? && NormalItems(items)
    ensures ParseItems(ItemsTo(items, "]" + rest)) == Some((items, rest))
    ensures Starts(ItemsTo(items, "]" + rest))
    decreases items
  {
    if items.tail.NoItems? {
      ValueRoundTrip(items.head, "]" + rest);
      assert ("]" + rest)[1..] == rest;
    } else {
      var more := ItemsTo(items.tail, "]" + rest);
      ItemsRoundTrip(items.tail, rest);
      ValueRoundTrip(items.head, "," + more);
      assert ("," + more)[1..] == more;
    }
  }

  /** The parser's view of one printed field. */
  lemma FieldRoundTrip(k: string, value: string, v: Json, tail: string)
    requires Starts(value) && ParseValue(value) == Some((v, tail)) && tail != "" && !IsWs(tail[0])
    ensures var s := StringTo(k, ":" + value);
      && Starts(s)
      && ParseFields(s) ==
         if tail[0] == '}' then Some((Field(k, v, NoFields), tail[1..]))
         else if tail[0] != ',' then None
         else
           var more := ParseFields(SkipWs(tail[1..]));
           if more.None? then None else Some((Field(k, v, more.value.0), more.value.1))
  {
    var s := StringTo(k, ":" + value);
    TextRoundTrip(k, ":" + value);
    assert s[1..] == EscapeTo(k, "\"" + (":" + value));
    assert (":" + value)[1..] == value;
  }

  lemma {:induction false} FieldsRoundTrip(fs: Fields, rest: string)
    requires fs.Field? && NormalValues(fs)
    ensures ParseFields(FieldsTo(fs, "}" + rest)) == Some((fs, rest))
    ensures Starts(FieldsTo(fs, "}" + rest))
    decreases fs
  {
    var more := FieldsTo(fs.rest, "}" + rest);
    var tail := if fs.rest.NoFields? then "}" + rest else "," + more;
    ValueRoundTrip(fs.value, tail);
    FieldRoundTrip(fs.key, PrintTo(fs.value, tail), fs.value, tail);
    if fs.rest.NoFields? {
      assert tail[1..] == rest;
    } else {
      FieldsRoundTrip(fs.rest, rest);
      assert tail[1..] == more;
    }
  }

  /** Main result: loading a canonical text gives the value back, up to key order. */
  lemma CanonicalRoundTrip(j: Json)
    ensures Loads(Canonical(j)) == Some(Normalize(j))
  {
    NormalizeNormal(j);
    ValueRoundTrip(Normalize(j), "");
  }

  /** Two values with one canonical text are equal as values of the language. */
  lemma CanonicalInjective(a: Json, b: Json)
    requires Canonical(a) == Canonical(b)
    ensures Normalize(a) == Normalize(b)
  {
    CanonicalRoundTrip(a);
    CanonicalRoundTrip(b);
  }

  lemma {:induction false} NatAppends(n: nat, more: string, rest: string)
    ensures NatTo(n, more + rest) == NatTo(n, more) + rest
    decreases n
  {
    if n >= 10 {
      var d := [Digit(n % 10)];
      NatAppends(n / 10, d + more, rest);
      assert d + (more + rest) == (d + more) + rest;
    }
  }

  lemma {:induction false} EscapeAppends(s: string, more: string, rest: string)
    ensures EscapeTo(s, more + rest) == EscapeTo(s, more) + rest
    decreases |s|
  {
    if s != "" { EscapeAppends(s[1..], more, rest); }
  }

  lemma StringAppends(s: string, more: string, rest: string)
    ensures StringTo(s, more + rest) == StringTo(s, more) + rest
  {
    EscapeAppends(s, "\"" + more, rest);
    assert "\"" + (more + rest) == ("\"" + more) + rest;
  }

  /** Printing a value in front of two texts. */
  lemma {:induction false} ValueAppends(j: Json, more: string, rest: string)
    ensures PrintTo(j, more + rest) == PrintTo(j, more) + rest
    decreases j
  {
    match j
    case Null =>
    case Bool(_) =>
    case Int(n) => NatAppends(if n < 0 then -n else n, more, rest);
    case Str(s) => StringAppends(s, more, rest);
    case Arr(items) =>
      ItemsAppend(items, "]" + more, rest);
      assert "]" + (more + rest) == ("]" + more) + rest;
    case Obj(fields) =>
      FieldsAppend(fields, "}" + more, rest);
      assert "}" + (more + rest) == ("}" + more) + rest;
  }

  /** Printing in front of a rest is printing and appending. */
  lemma PrintAppends(j: Json, rest: string)
    ensures PrintTo(j, rest) == PrintTo(j, "") + rest
  {
    ValueAppends(j, "", rest);
    assert "" + rest == rest;
  }

  lemma {:induction false} ItemsAppend(items: Items, more: string, rest: string)
    ensures ItemsTo(items, more + rest) == ItemsTo(items, more) + rest
    decreases items
  {
    if items.Item? {
      if items.tail.NoItems? {
        ValueAppends(items.head, more, rest);
      } else {
        ItemsAppend(items.tail, more, rest);
        ValueAppends(items.head, "," + ItemsTo(items.tail, more), rest);
        assert "," + (ItemsTo(items.tail, more) + rest) == ("," + ItemsTo(items.tail, more)) + rest;
      }
    }
  }

  lemma {:induction false} FieldsAppend(fs: Fields, more: string, rest: string)
    ensures FieldsTo(fs, more + rest) == FieldsTo(fs, more) + rest
    decreases fs
  {
    if fs.Field? {
      var tail := if fs.rest.NoFields? then more else "," + FieldsTo(fs.rest, more);
      var tail' := if fs.rest.NoFields? then more + rest else "," + FieldsTo(fs.rest, more + rest);
      FieldsAppend(fs.rest, more, rest);
      assert tail' == tail + rest;
      ValueAppends(fs.value, tail, rest);
      StringAppends(fs.key, ":" + PrintTo(fs.value, tail), rest);
      assert ":" + (PrintTo(fs.value, tail) + rest) == (":" + PrintTo(fs.value, tail)) + rest;
    }
  }
}
