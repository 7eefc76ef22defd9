/** What the texts of the ledger hold, key by key and link by link. */
module LedgerText {
  import opened Prelude
  import opened Json
  import opened JsonRoundTrip
  import opened Lines
  import opened Ledger
  import opened LedgerLines
  import opened Signing

  /** A digest is 64 lower-case hexadecimal digits. */
  lemma DigestExactly(s: string)
    ensures IsDigest(s) <==> |s| == 64 && forall i :: 0 <= i < |s| ==> s[i] in "0123456789" || s[i] in "abcdef"
  {
    forall c
      ensures IsHex(c) <==> c in "0123456789" || c in "abcdef"
    {
      if '0' <= c <= '9' { assert "0123456789"[c as int - 48] == c; }
      if 'a' <= c <= 'f' { assert "abcdef"[c as int - 97] == c; }
    }
    hide IsHex;
    assert forall i :: 0 <= i < |s| ==> s[i] in s;
  }

  /** What a dictionary written for a case holds under a key. */
  function CaseValue(c: Case, k: string): Option<Json> {
    if k == "case_id" then Some(Str(c.caseId))
    else if k == "kind" then Some(Str(c.kind))
    else if k == "input" then Some(Normalize(c.input))
    else if k == "ground_truth" then Some(Normalize(c.groundTruth))
    else if k == "context" then Some(Str(c.context))
    else if k == "rationale" then Some(Str(c.rationale))
    else if k == "signature" && c.signature.Some? then Some(Str(c.signature.value))
    else if k == "signer" && c.signer.Some? then Some(Str(c.signer.value))
    else None
  }

  /** The fields of this text, read back as a dictionary. */
  ghost predicate Reads(text: string, fs: Fields) {
    Loads(text) == Some(Obj(fs))
  }

  /** An entry hash is the hash of the previous hash followed by a text that holds the eight
      fields of the case and nothing else. */
  lemma HashedText(h: Hash, c: Case, prev: string) returns (text: string, fs: Fields)
    ensures EntryHash(h, c, prev) == h(prev + text)
    ensures Reads(text, fs) && forall k :: Lookup(fs, k) == CaseValue(c, k)
  {
    text := Canonical(Payload(c));
    CanonicalRoundTrip(Payload(c));
    NormalizePayloadValues(c, NoFields);
    fs := DictOf(PayloadThen(NormalCase(c), NoFields));
    DistinctPayload(NormalCase(c), NoFields);
    forall k
      ensures Lookup(fs, k) == CaseValue(c, k)
    {
      LookupDictOf(PayloadThen(NormalCase(c), NoFields), k);
      LookupPayload(NormalCase(c), NoFields, k);
    }
  }

  /** A line of the file holds those fields and the two hashes. */
  lemma LineText(e: Entry) returns (fs: Fields)
    ensures Reads(Line(e), fs)
    ensures forall k ::
      Lookup(fs, k) == if k == "prev_hash" then Some(Str(e.prevHash))
                       else if k == "entry_hash" then Some(Str(e.entryHash))
                       else CaseValue(e.fixture, k)
  {
    LineIsDict(e);
    CanonicalRoundTrip(LineRecord(e));
    fs := LineDict(e);
    var more := HashFields(e.prevHash, e.entryHash);
    forall k
      ensures Lookup(fs, k) ==
        if k == "prev_hash" then Some(Str(e.prevHash))
        else if k == "entry_hash" then Some(Str(e.entryHash))
        else CaseValue(e.fixture, k)
    {
      LookupLine(e, k);
      LookupPayload(NormalCase(e.fixture), more, k);
      assert Lookup(more.rest, k) == if k == "entry_hash" then Some(Str(e.entryHash)) else None;
    }
  }

  /** The signed text holds identity, kind, input and answer and nothing else. */
  lemma SignedText(c: Case) returns (fs: Fields)
    ensures Reads(SigningText(c), fs)
    ensures forall k ::
      Lookup(fs, k) ==
      if k == "case_id" || k == "kind" || k == "input" || k == "ground_truth" then CaseValue(c, k) else None
  {
    var j := Obj(GradeableView(PayloadThen(c, NoFields)));
    CanonicalRoundTrip(j);
    SignedValue(c, "");
    fs := Normalize(j).fields;
    forall k
      ensures Lookup(fs, k) ==
        if k == "case_id" || k == "kind" || k == "input" || k == "ground_truth" then CaseValue(c, k) else None
    {
      SignedValue(c, k);
    }
  }

  /** Entry i names the hash of the one before it, the first one 64 zeros, and its own hash is
      that of this name followed by the text of its case. */
  predicate LinkHolds(h: Hash, entries: seq<Entry>, i: nat)
    requires i < |entries|
  {
    && (if i > 0 then entries[i].prevHash == entries[i - 1].entryHash else SixtyFourZeros(entries[i].prevHash))
    && entries[i].entryHash == h(entries[i].prevHash + Canonical(Payload(entries[i].fixture)))
  }

  /** Main result: a ledger verifies exactly when it does so link by link. */
  lemma VerifiesLinkByLink(h: Hash, entries: seq<Entry>)
    ensures Verifies(h, entries) <==> forall i :: 0 <= i < |entries| ==> LinkHolds(h, entries, i)
  {
    forall i | 0 <= i < |entries|
      ensures LinkOk(h, entries, i) <==> LinkHolds(h, entries, i)
    {
      if i > 0 {
        assert entries[..i][|entries[..i]| - 1] == entries[i - 1];
      } else {
        OnlyZeros(entries[i].prevHash);
      }
    }
    hide LinkOk, LinkHolds;
  }

  predicate SixtyFourZeros(s: string) {
    |s| == 64 && forall i :: 0 <= i < 64 ==> s[i] == '0'
  }

  lemma OnlyZeros(s: string)
    ensures s == GENESIS <==> SixtyFourZeros(s)
  {
    assert forall i :: 0 <= i < 64 ==> GENESIS[i] in GENESIS;
  }

  /** This key has a text. */
  predicate HasText(fs: Fields, k: string) {
    Lookup(fs, k).Some? && Lookup(fs, k).value.Str?
  }

  /** This key is absent or has a text. */
  predicate MayHaveText(fs: Fields, k: string) {
    Lookup(fs, k).Some? ==> Lookup(fs, k).value.Str?
  }

  /** All fields of a case are there, and of the right kind. */
  predicate HoldsCase(fs: Fields) {
    && HasText(fs, "case_id") && HasText(fs, "kind")
    && Lookup(fs, "input").Some? && Lookup(fs, "ground_truth").Some?
    && MayHaveText(fs, "context") && MayHaveText(fs, "rationale")
    && (MayHaveText(fs, "signature") || Lookup(fs, "signature") == Some(Null))
    && (MayHaveText(fs, "signer") || Lookup(fs, "signer") == Some(Null))
  }

  /** When the loader takes a dictionary: missing hashes come first, then a malformed case. */
  lemma DictionaryLoads(fs: Fields, line: nat)
    ensures EntryOf(fs, line).Ok? <==> HasText(fs, "entry_hash") && HasText(fs, "prev_hash") && HoldsCase(fs)
    ensures EntryOf(fs, line) == Err(MissingHashes(line)) <==> !HasText(fs, "entry_hash") || !HasText(fs, "prev_hash")
    ensures EntryOf(fs, line).Err? ==>
      EntryOf(fs, line) == Err(MissingHashes(line)) || EntryOf(fs, line) == Err(MalformedCase(line))
  {
  }

  /** What it takes from it: prose defaults to nothing, and a signature or signer that is
      null is none. */
  lemma LoadedFields(fs: Fields, line: nat, e: Entry)
    requires EntryOf(fs, line) == Ok(e)
    ensures Lookup(fs, "entry_hash") == Some(Str(e.entryHash)) && Lookup(fs, "prev_hash") == Some(Str(e.prevHash))
    ensures Lookup(fs, "case_id") == Some(Str(e.fixture.caseId)) && Lookup(fs, "kind") == Some(Str(e.fixture.kind))
    ensures Lookup(fs, "input") == Some(e.fixture.input)
    ensures Lookup(fs, "ground_truth") == Some(e.fixture.groundTruth)
    ensures TextOrNothing(fs, "context", e.fixture.context) && TextOrNothing(fs, "rationale", e.fixture.rationale)
    ensures TextOrNone(fs, "signature", e.fixture.signature) && TextOrNone(fs, "signer", e.fixture.signer)
  {
  }

  predicate TextOrNothing(fs: Fields, k: string, t: string) {
    if Lookup(fs, k) == None then t == "" else Lookup(fs, k) == Some(Str(t))
  }

  predicate TextOrNone(fs: Fields, k: string, t: Option<string>) {
    if Lookup(fs, k) == None || Lookup(fs, k) == Some(Null) then t == None
    else t.Some? && Lookup(fs, k) == Some(Str(t.value))
  }
}
