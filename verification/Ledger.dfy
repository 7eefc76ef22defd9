/**
 The append-only evaluation ledger: one JSON line per case, each carrying the hash of
 the line before it.

 The hash function is a parameter, so every statement holds for all of them; a digest
 is 64 hexadecimal digits.
 */
module Ledger {
  import opened Prelude
  import opened Json
  import opened Lines

  predicate IsHex(c: char) {
    '0' <= c <= '9' || 'a' <= c <= 'f'
  }

  predicate IsDigest(s: string) {
    |s| == 64 && forall c :: c in s ==> IsHex(c)
  }

  function Zeros(n: nat): (s: string)
    ensures |s| == n && forall c :: c in s ==> c == '0'
  {
    if n == 0 then "" else "0" + Zeros(n - 1)
  }

  /** What the first entry chains from. */
  const GENESIS := Zeros(64)

  type Digest = s: string | IsDigest(s) witness GENESIS

  type Hash = string -> Digest

  /** One corpus fixture. An unsigned candidate has neither signature nor signer. */
  datatype Case = Case(
    caseId: string,
    kind: string,
    input: Json,
    groundTruth: Json,
    context: string,
    rationale: string,
    signature: Option<string>,
    signer: Option<string>)

  datatype Entry = Entry(fixture: Case, prevHash: string, entryHash: string)

  // ---- Payload, hash and line of one case ----

  function OptionalField(k: string, v: Option<string>, rest: Fields): Fields {
    if v.Some? then Field(k, Str(v.value), rest) else rest
  }

  /** The fields of a case in the order the program builds them, followed by `more`. */
  function PayloadThen(c: Case, more: Fields): Fields {
    Field("case_id", Str(c.caseId),
    Field("kind", Str(c.kind),
    Field("input", c.input,
    Field("ground_truth", c.groundTruth,
    Field("context", Str(c.context),
    Field("rationale", Str(c.rationale),
    OptionalField("signature", c.signature,
    OptionalField("signer", c.signer, more))))))))
  }

  /** `Case.payload`. */
  function Payload(c: Case): Json {
    Obj(PayloadThen(c, NoFields))
  }

  function Body(c: Case, prev: string): string {
    prev + Canonical(Payload(c))
  }

  /** `compute_entry_hash`. */
  function EntryHash(h: Hash, c: Case, prev: string): Digest {
    h(Body(c, prev))
  }

  function HashFields(prev: string, entry: string): Fields {
    Field("prev_hash", Str(prev), Field("entry_hash", Str(entry), NoFields))
  }

  /** The dictionary of one ledger line. */
  function LineRecord(e: Entry): Json {
    Obj(PayloadThen(e.fixture, HashFields(e.prevHash, e.entryHash)))
  }

  function Line(e: Entry): string {
    Canonical(LineRecord(e))
  }

  // ---- Chaining ----

  function Head(entries: seq<Entry>): string {
    if entries == [] then GENESIS else entries[|entries| - 1].entryHash
  }

  function Chained(h: Hash, c: Case, prev: string): Entry {
    Entry(c, prev, EntryHash(h, c, prev))
  }

  /** The entries a list of cases is written as, chained from genesis. */
  function Chain(h: Hash, cases: seq<Case>): seq<Entry> {
    if cases == [] then []
    else
      var init := Chain(h, cases[..|cases| - 1]);
      init + [Chained(h, cases[|cases| - 1], Head(init))]
  }

  /** One newline-terminated line per entry. */
  function FileText(entries: seq<Entry>): string {
    if entries == [] then ""
    else FileText(entries[..|entries| - 1]) + (Line(entries[|entries| - 1]) + "\n")
  }

  predicate LinkOk(h: Hash, entries: seq<Entry>, i: nat)
    requires i < |entries|
  {
    && entries[i].prevHash == Head(entries[..i])
    && entries[i].entryHash == EntryHash(h, entries[i].fixture, Head(entries[..i]))
  }

  /** Every link is in place and every hash is right. */
  predicate Verifies(h: Hash, entries: seq<Entry>) {
    forall i :: 0 <= i < |entries| ==> LinkOk(h, entries, i)
  }

  // ---- Loading ----

  datatype LoadError =
    | InvalidJson(line: nat)
    | MissingHashes(line: nat)
    | MalformedCase(line: nat)

  function TextAt(fs: Fields, k: string): Option<string> {
    match Lookup(fs, k)
    case Some(Str(s)) => Some(s)
    case _ => None
  }

  /** An optional text field; absent and null both mean nothing. Other values are outside
      the typed domain. */
  function OptionalText(fs: Fields, k: string): Option<Option<string>> {
    match Lookup(fs, k)
    case None => Some(None)
    case Some(Null) => Some(None)
    case Some(Str(s)) => Some(Some(s))
    case _ => None
  }

  /** A text field that defaults to the empty text. */
  function TextOrEmpty(fs: Fields, k: string): Option<string> {
    if Lookup(fs, k).None? then Some("") else TextAt(fs, k)
  }

  /** `_case_from_payload`. */
  function CaseOf(fs: Fields): Option<Case> {
    var id, kind := TextAt(fs, "case_id"), TextAt(fs, "kind");
    var input, truth := Lookup(fs, "input"), Lookup(fs, "ground_truth");
    var context, rationale := TextOrEmpty(fs, "context"), TextOrEmpty(fs, "rationale");
    var signature, signer := OptionalText(fs, "signature"), OptionalText(fs, "signer");
    if id.None? || kind.None? || input.None? || truth.None? || context.None? || rationale.None?
       || signature.None? || signer.None? then None
    else Some(Case(id.value, kind.value, input.value, truth.value, context.value, rationale.value,
                   signature.value, signer.value))
  }

  function EntryOf(fs: Fields, line: nat): Result<Entry, LoadError> {
    var entryHash, prevHash := TextAt(fs, "entry_hash"), TextAt(fs, "prev_hash");
    if entryHash.None? || prevHash.None? then Err(MissingHashes(line))
    else
      var c := CaseOf(fs);
      if c.None? then Err(MalformedCase(line)) else Ok(Entry(c.value, prevHash.value, entryHash.value))
  }

  /** One trimmed, non-empty line. */
  function LoadLine(text: string, line: nat): Result<Entry, LoadError> {
    match Loads(text)
    case None => Err(InvalidJson(line))
    case Some(Obj(fs)) => EntryOf(fs, line)
    case Some(_) => Err(MalformedCase(line))
  }

  /** All lines in order; blank lines are skipped and the first error stops the load. */
  function LoadLines(lines: seq<string>): Result<seq<Entry>, LoadError> {
    if lines == [] then Ok([])
    else
      var init := LoadLines(lines[..|lines| - 1]);
      var text := Strip(lines[|lines| - 1]);
      if init.Err? || text == "" then init
      else
        var e := LoadLine(text, |lines|);
        if e.Err? then Err(e.error) else Ok(init.value + [e.value])
  }

  /** `load_ledger` on the content of the file, or on its absence. */
  function Load(file: Option<string>): Result<seq<Entry>, LoadError> {
    if file.None? then Ok([]) else LoadLines(SplitLines(file.value))
  }

  /** What the loader stops at, it stops at however the file goes on. */
  lemma {:induction false} ErrorSticks(lines: seq<string>, k: nat)
    requires k <= |lines| && LoadLines(lines[..k]).Err?
    ensures LoadLines(lines) == LoadLines(lines[..k])
    decreases |lines|
  {
    if k == |lines| {
      assert lines[..k] == lines;
    } else {
      var init := lines[..|lines| - 1];
      assert init[..k] == lines[..k];
      ErrorSticks(init, k);
    }
  }

  lemma LoadLinesAppend(lines: seq<string>, line: string)
    ensures LoadLines(lines + [line]) ==
      var init := LoadLines(lines);
      if init.Err? || Strip(line) == "" then init
      else
        var e := LoadLine(Strip(line), |lines| + 1);
        if e.Err? then Err(e.error) else Ok(init.value + [e.value])
  {
    assert (lines + [line])[..|lines|] == lines;
  }

  /** `load_ledger`. */
  method LoadLedger(file: Option<string>) returns (r: Result<seq<Entry>, LoadError>)
    ensures r == Load(file)
  {
    hide LoadLine, Strip, SplitLines;
    if file.None? { return Ok([]); }
    var lines := SplitLines(file.value);
    var entries: seq<Entry> := [];
    for i := 0 to |lines|
      invariant LoadLines(lines[..i]) == Ok(entries)
    {
      assert lines[..i + 1] == lines[..i] + [lines[i]];
      LoadLinesAppend(lines[..i], lines[i]);
      var text := Strip(lines[i]);
      if text == "" { continue; }
      var e := LoadLine(text, i + 1);
      if e.Err? {
        ErrorSticks(lines, i + 1);
        return Err(e.error);
      }
      entries := entries + [e.value];
    }
    assert lines[..|lines|] == lines;
    return Ok(entries);
  }

  datatype ChainError = BrokenLink(index: nat) | WrongHash(index: nat)

  lemma LinkPrefix(h: Hash, entries: seq<Entry>, k: nat, i: nat)
    requires i < k <= |entries|
    ensures LinkOk(h, entries[..k], i) <==> LinkOk(h, entries, i)
  {
    assert entries[..k][..i] == entries[..i];
  }

  /** `verify_chain`: succeeds exactly on chains that verify; a failure names the first
      entry whose link or hash is wrong. */
  method VerifyChain(h: Hash, entries: seq<Entry>) returns (r: Result<(), ChainError>)
    ensures r.Ok? <==> Verifies(h, entries)
    ensures r.Err? ==> r.error.index < |entries|
    ensures r.Err? ==> Verifies(h, entries[..r.error.index]) && !LinkOk(h, entries, r.error.index)
    ensures r.Err? ==>
      (r.error.BrokenLink? <==> entries[r.error.index].prevHash != Head(entries[..r.error.index]))
  {
    var prev := GENESIS;
    for i := 0 to |entries|
      invariant prev == Head(entries[..i])
      invariant forall k :: 0 <= k < i ==> LinkOk(h, entries, k)
    {
      var entry := entries[i];
      forall k | 0 <= k < i
        ensures LinkOk(h, entries[..i], k)
      {
        LinkPrefix(h, entries, i, k);
      }
      var recomputed := EntryHash(h, entry.fixture, prev);
      assert LinkOk(h, entries, i) <==> entry.prevHash == prev && recomputed == entry.entryHash;
      if entry.prevHash != prev { return Err(BrokenLink(i)); }
      if recomputed != entry.entryHash { return Err(WrongHash(i)); }
      prev := entry.entryHash;
      assert Head(entries[..i + 1]) == entry.entryHash;
    }
    return Ok(());
  }
}
