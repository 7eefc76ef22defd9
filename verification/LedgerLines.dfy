/** One ledger line and back: what loading a written line gives, and when it can. */
module LedgerLines {
  import opened Prelude
  import opened Json
  import opened JsonRoundTrip
  import opened JsonPrefix
  import opened Lines
  import opened Ledger

  /** The same case as a value of the language: dictionaries compare without field order. */
  function NormalCase(c: Case): Case {
    c.(input := Normalize(c.input), groundTruth := Normalize(c.groundTruth))
  }

  predicate CleanOption(t: Option<string>) {
    t.Some? ==> CleanText(t.value)
  }

  /** No text of the case, keys included, contains U+0085, U+2028 or U+2029. */
  predicate CleanCase(c: Case) {
    && CleanText(c.caseId) && CleanText(c.kind) && CleanText(c.context) && CleanText(c.rationale)
    && CleanOption(c.signature) && CleanOption(c.signer)
    && CleanJson(Normalize(c.input)) && CleanJson(Normalize(c.groundTruth))
  }

  predicate PayloadKey(k: string) {
    k == "case_id" || k == "kind" || k == "input" || k == "ground_truth"
    || k == "context" || k == "rationale" || k == "signature" || k == "signer"
  }

  /** What a lookup in the payload finds. */
  lemma LookupPayload(c: Case, more: Fields, k: string)
    ensures Lookup(PayloadThen(c, more), k) ==
      if k == "case_id" then Some(Str(c.caseId))
      else if k == "kind" then Some(Str(c.kind))
      else if k == "input" then Some(c.input)
      else if k == "ground_truth" then Some(c.groundTruth)
      else if k == "context" then Some(Str(c.context))
      else if k == "rationale" then Some(Str(c.rationale))
      else if k == "signature" && c.signature.Some? then Some(Str(c.signature.value))
      else if k == "signer" && c.signer.Some? then Some(Str(c.signer.value))
      else Lookup(more, k)
  {
    var f7 := OptionalField("signer", c.signer, more);
    var f6 := OptionalField("signature", c.signature, f7);
    var f5 := Field("rationale", Str(c.rationale), f6);
    var f4 := Field("context", Str(c.context), f5);
    var f3 := Field("ground_truth", c.groundTruth, f4);
    var f2 := Field("input", c.input, f3);
    var f1 := Field("kind", Str(c.kind), f2);
    assert PayloadThen(c, more) == Field("case_id", Str(c.caseId), f1);
    assert Lookup(f6, k) ==
      if k == "signature" && c.signature.Some? then Some(Str(c.signature.value)) else Lookup(f7, k);
    assert Lookup(f5, k) == if k == "rationale" then Some(Str(c.rationale)) else Lookup(f6, k);
    assert Lookup(f4, k) == if k == "context" then Some(Str(c.context)) else Lookup(f5, k);
    assert Lookup(f3, k) == if k == "ground_truth" then Some(c.groundTruth) else Lookup(f4, k);
    assert Lookup(f2, k) == if k == "input" then Some(c.input) else Lookup(f3, k);
    assert Lookup(f1, k) == if k == "kind" then Some(Str(c.kind)) else Lookup(f2, k);
  }

  lemma DistinctPayload(c: Case, more: Fields)
    requires DistinctFields(more) && forall k :: PayloadKey(k) ==> Lookup(more, k) == None
    ensures DistinctFields(PayloadThen(c, more))
  {
    var f7 := OptionalField("signer", c.signer, more);
    var f6 := OptionalField("signature", c.signature, f7);
    var f5 := Field("rationale", Str(c.rationale), f6);
    var f4 := Field("context", Str(c.context), f5);
    var f3 := Field("ground_truth", c.groundTruth, f4);
    var f2 := Field("input", c.input, f3);
    var f1 := Field("kind", Str(c.kind), f2);
    forall k | PayloadKey(k) && k != "signature" && k != "signer"
      ensures Lookup(f6, k) == None
    {
    }
    assert Lookup(f7, "signature") == None && DistinctFields(f7);
    assert DistinctFields(f6);
    assert DistinctFields(f5);
    assert Lookup(f5, "context") == Lookup(f5, "ground_truth") == Lookup(f5, "input") == Lookup(f5, "kind")
        == Lookup(f5, "case_id") == None;
    assert Lookup(f4, "ground_truth") == Lookup(f4, "input") == Lookup(f4, "kind") == Lookup(f4, "case_id") == None;
    assert Lookup(f3, "input") == Lookup(f3, "kind") == Lookup(f3, "case_id") == None;
    assert Lookup(f2, "kind") == Lookup(f2, "case_id") == None;
    assert Lookup(f1, "case_id") == None;
    assert DistinctFields(f3);
    assert DistinctFields(f1);
  }

  /** Normalizing a payload normalizes its two dictionaries. */
  lemma NormalizePayloadValues(c: Case, more: Fields)
    ensures NormalizeValues(PayloadThen(c, more)) == PayloadThen(NormalCase(c), NormalizeValues(more))
  {
    var f7 := OptionalField("signer", c.signer, more);
    var f6 := OptionalField("signature", c.signature, f7);
    var f5 := Field("rationale", Str(c.rationale), f6);
    var f4 := Field("context", Str(c.context), f5);
    var f3 := Field("ground_truth", c.groundTruth, f4);
    var f2 := Field("input", c.input, f3);
    assert NormalizeValues(f7) == OptionalField("signer", c.signer, NormalizeValues(more));
    assert NormalizeValues(f6) == OptionalField("signature", c.signature, NormalizeValues(f7));
    assert NormalizeValues(f5) == Field("rationale", Str(c.rationale), NormalizeValues(f6));
    assert NormalizeValues(f4) == Field("context", Str(c.context), NormalizeValues(f5));
    assert NormalizeValues(f3) == Field("ground_truth", Normalize(c.groundTruth), NormalizeValues(f4));
    assert NormalizeValues(f2) == Field("input", Normalize(c.input), NormalizeValues(f3));
    assert NormalizeValues(Field("kind", Str(c.kind), f2)) == Field("kind", Str(c.kind), NormalizeValues(f2));
  }

  /** The field names themselves are clean. */
  lemma CleanNames()
    ensures forall k :: PayloadKey(k) || k == "prev_hash" || k == "entry_hash" ==> CleanText(k)
  {
    assert CleanText("case_id") && CleanText("kind") && CleanText("input") && CleanText("ground_truth");
    assert CleanText("context") && CleanText("rationale") && CleanText("signature") && CleanText("signer");
    assert CleanText("prev_hash") && CleanText("entry_hash");
  }

  /** A text value is clean when its text is. */
  lemma PlainTexts()
    ensures forall s :: CleanJson(Str(s)) <==> CleanText(s)
  {
  }

  lemma CleanPayload(c: Case, more: Fields)
    ensures CleanFields(PayloadThen(NormalCase(c), more)) <==> CleanCase(c) && CleanFields(more)
  {
    hide CleanText, CleanJson;
    CleanNames();
    PlainTexts();
    var n := NormalCase(c);
    var f7 := OptionalField("signer", n.signer, more);
    var f6 := OptionalField("signature", n.signature, f7);
    var f5 := Field("rationale", Str(n.rationale), f6);
    var f4 := Field("context", Str(n.context), f5);
    var f3 := Field("ground_truth", n.groundTruth, f4);
    var f2 := Field("input", n.input, f3);
    assert CleanFields(f7) <==> CleanOption(c.signer) && CleanFields(more);
    assert CleanFields(f6) <==> CleanOption(c.signature) && CleanFields(f7);
    assert CleanFields(f5) <==> CleanText(c.rationale) && CleanFields(f6);
    assert CleanFields(f4) <==> CleanText(c.context) && CleanFields(f5);
    assert CleanFields(f3) <==> CleanJson(n.groundTruth) && CleanFields(f4);
    assert CleanFields(f2) <==> CleanJson(n.input) && CleanFields(f3);
    assert CleanFields(Field("kind", Str(n.kind), f2)) <==> CleanText(c.kind) && CleanFields(f2);
  }

  // ---- Whole lines ----

  lemma NormalCaseTwice(c: Case)
    ensures NormalCase(NormalCase(c)) == NormalCase(c)
  {
    NormalizeNormal(c.input);
    NormalizeNormal(c.groundTruth);
    NormalizeFixed(Normalize(c.input));
    NormalizeFixed(Normalize(c.groundTruth));
  }

  /** Field order inside a case affects neither its hash nor its line. */
  lemma SameText(c: Case, more: Fields)
    ensures Canonical(Obj(PayloadThen(NormalCase(c), more))) == Canonical(Obj(PayloadThen(c, more)))
  {
    NormalCaseTwice(c);
    NormalizePayloadValues(c, more);
    NormalizePayloadValues(NormalCase(c), more);
  }

  /** The dictionary printed on a line, in key order. */
  function LineDict(e: Entry): Fields {
    DictOf(PayloadThen(NormalCase(e.fixture), HashFields(e.prevHash, e.entryHash)))
  }

  lemma LineIsDict(e: Entry)
    ensures Normalize(LineRecord(e)) == Obj(LineDict(e))
    ensures Line(e) == PrintTo(Obj(LineDict(e)), "")
    ensures Normal(Obj(LineDict(e)))
  {
    var more := HashFields(e.prevHash, e.entryHash);
    NormalizePayloadValues(e.fixture, more);
    NormalizeNormal(LineRecord(e));
    assert NormalizeValues(more) == more by {
      assert NormalizeValues(more.rest) == more.rest;
    }
  }

  /** Every field of the line is found in the printed dictionary. */
  lemma LookupLine(e: Entry, k: string)
    ensures Lookup(LineDict(e), k) == Lookup(PayloadThen(NormalCase(e.fixture), HashFields(e.prevHash, e.entryHash)), k)
    ensures DistinctFields(PayloadThen(NormalCase(e.fixture), HashFields(e.prevHash, e.entryHash)))
  {
    var more := HashFields(e.prevHash, e.entryHash);
    assert Lookup(more.rest, "prev_hash") == None && DistinctFields(more.rest);
    forall q | PayloadKey(q)
      ensures Lookup(more, q) == None
    {
      assert Lookup(more.rest, q) == None;
    }
    DistinctPayload(NormalCase(e.fixture), more);
    LookupDictOf(PayloadThen(NormalCase(e.fixture), more), k);
  }

  /** The parsed dictionary of a line is the entry again. */
  lemma EntryOfLine(e: Entry, n: nat)
    ensures EntryOf(LineDict(e), n) == Ok(e.(fixture := NormalCase(e.fixture)))
  {
    HashesFound(e);
    CaseFound(e);
  }

  lemma HashesFound(e: Entry)
    ensures TextAt(LineDict(e), "prev_hash") == Some(e.prevHash)
    ensures TextAt(LineDict(e), "entry_hash") == Some(e.entryHash)
  {
    var more := HashFields(e.prevHash, e.entryHash);
    LookupLine(e, "prev_hash");
    LookupLine(e, "entry_hash");
    LookupPayload(NormalCase(e.fixture), more, "prev_hash");
    LookupPayload(NormalCase(e.fixture), more, "entry_hash");
    assert Lookup(more.rest, "entry_hash") == Some(Str(e.entryHash));
  }

  lemma FieldFound(e: Entry, k: string)
    requires PayloadKey(k)
    ensures Lookup(LineDict(e), k) == Lookup(PayloadThen(NormalCase(e.fixture), NoFields), k)
  {
    var more := HashFields(e.prevHash, e.entryHash);
    LookupLine(e, k);
    LookupPayload(NormalCase(e.fixture), more, k);
    LookupPayload(NormalCase(e.fixture), NoFields, k);
    assert Lookup(more.rest, k) == None;
  }

  /** Reading the fields of a payload gives the case. */
  lemma CaseFromPayload(c: Case, fs: Fields)
    requires forall k :: PayloadKey(k) ==> Lookup(fs, k) == Lookup(PayloadThen(c, NoFields), k)
    ensures CaseOf(fs) == Some(c)
  {
    LookupPayload(c, NoFields, "case_id");
    LookupPayload(c, NoFields, "kind");
    LookupPayload(c, NoFields, "input");
    LookupPayload(c, NoFields, "ground_truth");
    LookupPayload(c, NoFields, "context");
    LookupPayload(c, NoFields, "rationale");
    LookupPayload(c, NoFields, "signature");
    LookupPayload(c, NoFields, "signer");
  }

  lemma CaseFound(e: Entry)
    ensures CaseOf(LineDict(e)) == Some(NormalCase(e.fixture))
  {
    forall k | PayloadKey(k)
      ensures Lookup(LineDict(e), k) == Lookup(PayloadThen(NormalCase(e.fixture), NoFields), k)
    {
      FieldFound(e, k);
    }
    CaseFromPayload(NormalCase(e.fixture), LineDict(e));
  }

  /** Loading a whole line gives its entry back. */
  lemma LineRoundTrip(e: Entry, n: nat)
    ensures LoadLine(Line(e), n) == Ok(e.(fixture := NormalCase(e.fixture)))
  {
    LineIsDict(e);
    CanonicalRoundTrip(LineRecord(e));
    EntryOfLine(e, n);
  }

  /** A line starts and ends with a brace, so trimming leaves it alone. */
  lemma LineTrimmed(e: Entry)
    ensures Line(e) != "" && Line(e)[0] == '{' && Line(e)[|Line(e)| - 1] == '}'
    ensures Strip(Line(e)) == Line(e)
  {
    LineIsDict(e);
    var fs := LineDict(e);
    FieldsAppend(fs, "", "}");
    assert "}" + "" == "}" && "" + "}" == "}";
    assert Line(e) == "{" + (FieldsTo(fs, "") + "}");
  }

  lemma CleanDigest(s: string)
    requires IsDigest(s)
    ensures CleanText(s)
  {
    forall c | c in s
      ensures !IsWideBreak(c)
    {
      assert IsHex(c);
      assert (c as int) < 128;
    }
  }

  lemma CleanHashes(prev: string, entry: string)
    requires IsDigest(prev) && IsDigest(entry)
    ensures CleanFields(HashFields(prev, entry))
  {
    CleanNames();
    CleanDigest(prev);
    CleanDigest(entry);
    var last := Field("entry_hash", Str(entry), NoFields);
    assert CleanFields(last);
  }

  /** A line has no break in it exactly when its case is clean. */
  lemma LineBreaks(e: Entry)
    requires IsDigest(e.prevHash) && IsDigest(e.entryHash)
    ensures NoBreaks(Line(e)) <==> CleanCase(e.fixture)
  {
    hide IsDigest, HashFields, CleanCase, PrintTo;
    var more := HashFields(e.prevHash, e.entryHash);
    LineIsDict(e);
    PrintBreaks(Obj(LineDict(e)), "");
    LookupLine(e, "");
    CleanDictOf(PayloadThen(NormalCase(e.fixture), more));
    CleanPayload(e.fixture, more);
    CleanHashes(e.prevHash, e.entryHash);
  }

  lemma {:induction false} StripRightPrefix(s: string)
    requires s != "" && !IsSpace(s[0])
    ensures StripRight(s) != ""
    decreases |s|
  {
    if IsSpace(s[|s| - 1]) { StripRightPrefix(s[..|s| - 1]); }
  }

  /** A line cut at a break inside it does not load. */
  lemma CutLineFails(e: Entry, m: nat, n: nat)
    requires 0 < m < |Line(e)|
    ensures Strip(Line(e)[..m]) != "" && LoadLine(Strip(Line(e)[..m]), n).Err?
  {
    var s := Line(e)[..m];
    LineTrimmed(e);
    StripRightPrefix(s);
    var t := Strip(s);
    assert t <= s && t == Line(e)[..|t|];
    LineIsDict(e);
    CutShortFails(Obj(LineDict(e)), |t|);
  }
}
