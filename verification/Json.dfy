/**
 JSON values, the canonical printer and the parser.

 A dictionary is a list of fields in insertion order; the values the ledger handles
 have text keys, text, whole numbers, booleans and null. `Canonical` prints with
 sorted keys and no whitespace and leaves non-ASCII text as it is. The parser follows
 RFC 8259 as the language's standard library implements it.
 */
module Json {
  import opened Prelude
  import opened Text

  datatype Json =
    | Null
    | Bool(b: bool)
    | Int(n: int)
    | Str(s: string)
    | Arr(items: Items)
    | Obj(fields: Fields)

  datatype Items = NoItems | Item(head: Json, tail: Items)

  datatype Fields = NoFields | Field(key: string, value: Json, rest: Fields)

  // ---- Dictionaries ----

  function Lookup(fs: Fields, k: string): Option<Json> {
    match fs
    case NoFields => None
    case Field(key, value, rest) => if key == k then Some(value) else Lookup(rest, k)
  }

  /** Sets a key in a dictionary that is kept in key order. */
  function Put(fs: Fields, k: string, v: Json): Fields {
    match fs
    case NoFields => Field(k, v, NoFields)
    case Field(key, value, rest) =>
      if k == key then Field(k, v, rest)
      else if TextLess(k, key) then Field(k, v, fs)
      else Field(key, value, Put(rest, k, v))
  }

  /** The dictionary a list of fields denotes, in key order; of equal keys the last one wins. */
  function DictOf(fs: Fields): Fields {
    match fs
    case NoFields => NoFields
    case Field(k, v, rest) => if Lookup(DictOf(rest), k).Some? then DictOf(rest) else Put(DictOf(rest), k, v)
  }

  /** Keys strictly increase, starting above `low` when there is one. */
  predicate Increasing(fs: Fields, low: Option<string>) {
    match fs
    case NoFields => true
    case Field(k, _, rest) => (low.Some? ==> TextLess(low.value, k)) && Increasing(rest, Some(k))
  }

  /** The same value with every dictionary in key order: equality of values of the language
      is equality after this. */
  function Normalize(j: Json): Json {
    match j
    case Arr(items) => Arr(NormalizeItems(items))
    case Obj(fields) => Obj(DictOf(NormalizeValues(fields)))
    case _ => j
  }

  function NormalizeItems(items: Items): Items {
    match items
    case NoItems => NoItems
    case Item(h, t) => Item(Normalize(h), NormalizeItems(t))
  }

  function NormalizeValues(fs: Fields): Fields {
    match fs
    case NoFields => NoFields
    case Field(k, v, rest) => Field(k, Normalize(v), NormalizeValues(rest))
  }

  predicate Normal(j: Json) {
    match j
    case Arr(items) => NormalItems(items)
    case Obj(fields) => Increasing(fields, None) && NormalValues(fields)
    case _ => true
  }

  predicate NormalItems(items: Items) {
    items.Item? ==> Normal(items.head) && NormalItems(items.tail)
  }

  predicate NormalValues(fs: Fields) {
    fs.Field? ==> Normal(fs.value) && NormalValues(fs.rest)
  }

  // ---- Printing ----

  function Digit(d: int): char
    requires 0 <= d < 10
  {
    "0123456789"[d]
  }

  function HexDigit(d: int): char
    requires 0 <= d < 16
  {
    "0123456789abcdef"[d]
  }

  /** The text of n followed by `rest`. */
  function NatTo(n: nat, rest: string): string {
    if n < 10 then [Digit(n)] + rest else NatTo(n / 10, [Digit(n % 10)] + rest)
  }

  function IntTo(n: int, rest: string): string {
    if n < 0 then "-" + NatTo(-n, rest) else NatTo(n, rest)
  }

  /** How one character of a text is written (section 7 of RFC 8259, non-ASCII kept). */
  function EscapeChar(c: char): string {
    if c == '\"' then "\\\""
    else if c == '\\' then "\\\\"
    else if c == '\n' then "\\n"
    else if c == '\r' then "\\r"
    else if c == '\t' then "\\t"
    else if c as int == 8 then "\\b"
    else if c as int == 12 then "\\f"
    else if c as int < 32 then "\\u00" + [HexDigit(c as int / 16), HexDigit(c as int % 16)]
    else [c]
  }

  function EscapeTo(s: string, rest: string): string {
    if s == "" then rest else EscapeChar(s[0]) + EscapeTo(s[1..], rest)
  }

  function StringTo(s: string, rest: string): string {
    "\"" + EscapeTo(s, "\"" + rest)
  }

  /** The text of a value followed by `rest`. */
  function PrintTo(j: Json, rest: string): string {
    match j
    case Null => "null" + rest
    case Bool(b) => (if b then "true" else "false") + rest
    case Int(n) => IntTo(n, rest)
    case Str(s) => StringTo(s, rest)
    case Arr(items) => "[" + ItemsTo(items, "]" + rest)
    case Obj(fields) => "{" + FieldsTo(fields, "}" + rest)
  }

  function ItemsTo(items: Items, rest: string): string {
    match items
    case NoItems => rest
    case Item(h, t) => PrintTo(h, if t.NoItems? then rest else "," + ItemsTo(t, rest))
  }

  function FieldsTo(fs: Fields, rest: string): string {
    match fs
    case NoFields => rest
    case Field(k, v, more) =>
      StringTo(k, ":" + PrintTo(v, if more.NoFields? then rest else "," + FieldsTo(more, rest)))
  }

  /** `canonical`: sorted keys, separators without spaces, non-ASCII verbatim. */
  function Canonical(j: Json): string {
    PrintTo(Normalize(j), "")
  }

  // ---- Parsing ----

  predicate IsWs(c: char) {
    c == ' ' || c == '\t' || c == '\n' || c == '\r'
  }

  function SkipWs(s: string): (r: string)
    ensures |r| <= |s|
  {
    if s != "" && IsWs(s[0]) then SkipWs(s[1..]) else s
  }

  predicate IsDigit(c: char) {
    '0' <= c <= '9'
  }

  function DigitValue(c: char): (d: nat)
    requires IsDigit(c)
    ensures d < 10
  {
    c as int - '0' as int
  }

  /** Reads digits from the front, continuing the number n read so far. */
  function ParseDigits(s: string, n: nat): (r: (nat, string))
    ensures |r.1| <= |s|
  {
    if s != "" && IsDigit(s[0]) then ParseDigits(s[1..], 10 * n + DigitValue(s[0])) else (n, s)
  }

  /** A fraction or an exponent follows: the number is a float. */
  predicate FloatTail(s: string) {
    || (|s| >= 2 && s[0] == '.' && IsDigit(s[1]))
    || (|s| >= 2 && (s[0] == 'e' || s[0] == 'E')
        && (IsDigit(s[1]) || (|s| >= 3 && (s[1] == '+' || s[1] == '-') && IsDigit(s[2]))))
  }

  function ParseNat(s: string): (r: Option<(nat, string)>)
    ensures r.Some? ==> |r.value.1| < |s|
  {
    if s == "" || !IsDigit(s[0]) then None
    else
      var r := if s[0] == '0' then (0, s[1..]) else ParseDigits(s[1..], DigitValue(s[0]));
      if FloatTail(r.1) then None else Some(r)
  }

  function HexValue(c: char): int {
    if '0' <= c <= '9' then c as int - '0' as int
    else if 'a' <= c <= 'f' then c as int - 'a' as int + 10
    else if 'A' <= c <= 'F' then c as int - 'A' as int + 10
    else -1
  }

  /** The character of a four-digit escape, unless it is no digit or half of a surrogate pair. */
  function UnicodeEscape(s: string): (r: Option<char>)
    requires |s| >= 4
  {
    if HexValue(s[0]) < 0 || HexValue(s[1]) < 0 || HexValue(s[2]) < 0 || HexValue(s[3]) < 0 then None
    else
      var code := ((HexValue(s[0]) * 16 + HexValue(s[1])) * 16 + HexValue(s[2])) * 16 + HexValue(s[3]);
      if code < 0xD800 || 0xE000 <= code <= 0xFFFF then Some(code as char) else None
  }

  /** One escape sequence after its backslash: the character and how many characters it takes. */
  function ParseEscape(s: string): (r: Option<(char, nat)>)
    ensures r.Some? ==> 0 < r.value.1 <= |s|
  {
    if s == "" then None
    else if s[0] == '\"' then Some(('\"', 1))
    else if s[0] == '\\' then Some(('\\', 1))
    else if s[0] == '/' then Some(('/', 1))
    else if s[0] == 'b' then Some((8 as char, 1))
    else if s[0] == 'f' then Some((12 as char, 1))
    else if s[0] == 'n' then Some(('\n', 1))
    else if s[0] == 'r' then Some(('\r', 1))
    else if s[0] == 't' then Some(('\t', 1))
    else if s[0] == 'u' && |s| >= 5 && UnicodeEscape(s[1..]).Some? then Some((UnicodeEscape(s[1..]).value, 5))
    else None
  }

  /** Reads text up to its closing quote. Raw control characters are refused. */
  function ParseText(s: string): (r: Option<(string, string)>)
    ensures r.Some? ==> |r.value.1| < |s|
    decreases |s|
  {
    if s == "" || (s[0] as int) < 32 then None
    else if s[0] == '\"' then Some(("", s[1..]))
    else if s[0] == '\\' then
      var e := ParseEscape(s[1..]);
      if e.None? then None
      else
        var more := ParseText(s[1 + e.value.1..]);
        if more.None? then None else Some(([e.value.0] + more.value.0, more.value.1))
    else
      var more := ParseText(s[1..]);
      if more.None? then None else Some(([s[0]] + more.value.0, more.value.1))
  }

  /** Reads one value from the front of s, which does not start with whitespace. */
  function ParseValue(s: string): (r: Option<(Json, string)>)
    ensures r.Some? ==> |r.value.1| < |s|
    decreases |s|, 0
  {
    if s == "" then None
    else if s[0] == '\"' then
      var t := ParseText(s[1..]);
      if t.None? then None else Some((Str(t.value.0), t.value.1))
    else if s[0] == '{' then
      var t := SkipWs(s[1..]);
      if t != "" && t[0] == '}' then Some((Obj(NoFields), t[1..]))
      else
        var fs := ParseFields(t);
        if fs.None? then None else Some((Obj(DictOf(fs.value.0)), fs.value.1))
    else if s[0] == '[' then
      var t := SkipWs(s[1..]);
      if t != "" && t[0] == ']' then Some((Arr(NoItems), t[1..]))
      else
        var items := ParseItems(t);
        if items.None? then None else Some((Arr(items.value.0), items.value.1))
    else if "null" <= s then Some((Null, s[4..]))
    else if "true" <= s then Some((Bool(true), s[4..]))
    else if "false" <= s then Some((Bool(false), s[5..]))
    else if s[0] == '-' then
      var n := ParseNat(s[1..]);
      if n.None? then None else Some((Int(0 - n.value.0), n.value.1))
    else
      var n := ParseNat(s);
      if n.None? then None else Some((Int(n.value.0), n.value.1))
  }

  /** Reads `value, value, ... ]`. */
  function ParseItems(s: string): (r: Option<(Items, string)>)
    ensures r.Some? ==> |r.value.1| < |s|
    decreases |s|, 1
  {
    var v := ParseValue(s);
    if v.None? then None
    else
      var t := SkipWs(v.value.1);
      if t == "" then None
      else if t[0] == ']' then Some((Item(v.value.0, NoItems), t[1..]))
      else if t[0] != ',' then None
      else
        var more := ParseItems(SkipWs(t[1..]));
        if more.None? then None else Some((Item(v.value.0, more.value.0), more.value.1))
  }

  /** Reads `"key": value` and the whitespace behind it. */
  function ParseField(s: string): (r: Option<(string, Json, string)>)
    ensures r.Some? ==> |r.value.2| < |s|
    decreases |s|, 1
  {
    if s == "" || s[0] != '\"' || ParseText(s[1..]).None? then None
    else
      var k := ParseText(s[1..]).value;
      var c := SkipWs(k.1);
      if c == "" || c[0] != ':' then None
      else
        var v := ParseValue(SkipWs(c[1..]));
        if v.None? then None else Some((k.0, v.value.0, SkipWs(v.value.1)))
  }

  /** Reads `"key": value, ... }`. */
  function ParseFields(s: string): (r: Option<(Fields, string)>)
    ensures r.Some? ==> |r.value.1| < |s|
    decreases |s|, 2
  {
    var f := ParseField(s);
    if f.None? then None
    else
      var (k, v, t) := f.value;
      if t == "" then None
      else if t[0] == '}' then Some((Field(k, v, NoFields), t[1..]))
      else if t[0] != ',' then None
      else
        var more := ParseFields(SkipWs(t[1..]));
        if more.None? then None else Some((Field(k, v, more.value.0), more.value.1))
  }

  /** `json.loads`: one value with whitespace around it and nothing else. */
  function Loads(s: string): Option<Json> {
    var v := ParseValue(SkipWs(s));
    if v.Some? && SkipWs(v.value.1) == "" then Some(v.value.0) else None
  }
}
