/**
 Operator signatures over a case's gradeable identity.

 One key pair of the signature scheme is a parameter: `sign` gives the hexadecimal
 signature of a text, `verify` says whether a signature is accepted for a text and is
 false on anything malformed.
 */
module Signing {
  import opened Prelude
  import opened Sequences
  import opened Json
  import opened JsonRoundTrip
  import opened Lines
  import opened Ledger
  import opened LedgerLines
  import opened LedgerFile

  datatype Scheme = Scheme(sign: string -> string, verify: (string, string) -> bool)

  /** Signatures are hexadecimal and verify for what they sign (section 5.1 of RFC 8032). */
  ghost predicate Correct(s: Scheme) {
    forall m :: s.sign(m) != "" && (forall c :: c in s.sign(m) ==> IsHex(c)) && s.verify(s.sign(m), m)
  }

  function KeepField(fs: Fields, k: string, rest: Fields): Fields {
    if Lookup(fs, k).Some? then Field(k, Lookup(fs, k).value, rest) else rest
  }

  /** `gradeable_view`: the fields a signature binds, those present. */
  function GradeableView(fs: Fields): Fields {
    KeepField(fs, "case_id", KeepField(fs, "kind", KeepField(fs, "input", KeepField(fs, "ground_truth", NoFields))))
  }

  /** `signing_bytes`, as text. */
  function SigningText(c: Case): string {
    Canonical(Obj(GradeableView(PayloadThen(c, NoFields))))
  }

  /** `sign_case`. */
  function SignCase(s: Scheme, c: Case, signer: string): Case {
    Case(c.caseId, c.kind, c.input, c.groundTruth, c.context, c.rationale, Some(s.sign(SigningText(c))), Some(signer))
  }

  /** `is_graded`, with or without an anchored key. */
  predicate IsGraded(key: Option<Scheme>, c: Case) {
    key.Some? && c.signature.Some? && c.signature.value != "" && key.value.verify(c.signature.value, SigningText(c))
  }

  function GradedFields(id: Json, kind: Json, input: Json, truth: Json): Fields {
    Field("case_id", id, Field("kind", kind, Field("input", input, Field("ground_truth", truth, NoFields))))
  }

  /** The view of a payload holds exactly its four gradeable values. */
  lemma ViewOfPayload(c: Case)
    ensures GradeableView(PayloadThen(c, NoFields)) == GradedFields(Str(c.caseId), Str(c.kind), c.input, c.groundTruth)
  {
    LookupPayload(c, NoFields, "case_id");
    LookupPayload(c, NoFields, "kind");
    LookupPayload(c, NoFields, "input");
    LookupPayload(c, NoFields, "ground_truth");
  }

  lemma LookupGraded(id: Json, kind: Json, input: Json, truth: Json, k: string)
    ensures DistinctFields(GradedFields(id, kind, input, truth))
    ensures Lookup(GradedFields(id, kind, input, truth), k) ==
      if k == "case_id" then Some(id) else if k == "kind" then Some(kind)
      else if k == "input" then Some(input) else if k == "ground_truth" then Some(truth) else None
  {
    var f3 := Field("ground_truth", truth, NoFields);
    var f2 := Field("input", input, f3);
    var f1 := Field("kind", kind, f2);
    assert Lookup(f3, k) == if k == "ground_truth" then Some(truth) else None;
    assert Lookup(f2, k) == if k == "input" then Some(input) else Lookup(f3, k);
    assert Lookup(f3, "input") == None && DistinctFields(f2);
    assert Lookup(f2, "kind") == Lookup(f3, "kind") == None && DistinctFields(f1);
    assert Lookup(f1, "case_id") == Lookup(f2, "case_id") == Lookup(f3, "case_id") == None;
  }

  lemma NormalizeGraded(c: Case)
    ensures Normalize(Obj(GradedFields(Str(c.caseId), Str(c.kind), c.input, c.groundTruth)))
         == Obj(DictOf(GradedFields(Str(c.caseId), Str(c.kind), Normalize(c.input), Normalize(c.groundTruth))))
  {
    var f3 := Field("ground_truth", c.groundTruth, NoFields);
    var f2 := Field("input", c.input, f3);
    var f1 := Field("kind", Str(c.kind), f2);
    assert NormalizeValues(f3) == Field("ground_truth", Normalize(c.groundTruth), NoFields);
    assert NormalizeValues(f2) == Field("input", Normalize(c.input), NormalizeValues(f3));
    assert NormalizeValues(f1) == Field("kind", Str(c.kind), NormalizeValues(f2));
    assert NormalizeValues(Field("case_id", Str(c.caseId), f1)) == Field("case_id", Str(c.caseId), NormalizeValues(f1));
  }

  /** Looking up one gradeable key in the signed dictionary. */
  lemma SignedValue(c: Case, k: string)
    ensures Normalize(Obj(GradeableView(PayloadThen(c, NoFields)))).Obj?
    ensures Lookup(Normalize(Obj(GradeableView(PayloadThen(c, NoFields)))).fields, k) ==
      if k == "case_id" then Some(Str(c.caseId)) else if k == "kind" then Some(Str(c.kind))
      else if k == "input" then Some(Normalize(c.input)) else if k == "ground_truth" then Some(Normalize(c.groundTruth))
      else None
  {
    ViewOfPayload(c);
    NormalizeGraded(c);
    LookupGraded(Str(c.caseId), Str(c.kind), Normalize(c.input), Normalize(c.groundTruth), k);
    LookupDictOf(GradedFields(Str(c.caseId), Str(c.kind), Normalize(c.input), Normalize(c.groundTruth)), k);
  }

  /** Main result: two cases have the same signing bytes exactly when they agree on
      identity, kind, input and answer; nothing else of a case matters. */
  lemma SigningBinds(a: Case, b: Case)
    ensures SigningText(a) == SigningText(b) <==>
      (a.caseId == b.caseId && a.kind == b.kind
       && Normalize(a.input) == Normalize(b.input) && Normalize(a.groundTruth) == Normalize(b.groundTruth))
  {
    hide Normalize, Canonical;
    if SigningText(a) == SigningText(b) {
      CanonicalInjective(Obj(GradeableView(PayloadThen(a, NoFields))), Obj(GradeableView(PayloadThen(b, NoFields))));
      SignedValue(a, "case_id");
      SignedValue(b, "case_id");
      SignedValue(a, "kind");
      SignedValue(b, "kind");
      SignedValue(a, "input");
      SignedValue(b, "input");
      SignedValue(a, "ground_truth");
      SignedValue(b, "ground_truth");
    }
    if a.caseId == b.caseId && a.kind == b.kind
       && Normalize(a.input) == Normalize(b.input) && Normalize(a.groundTruth) == Normalize(b.groundTruth)
    {
      SameView(a, b);
    }
  }

  lemma SameView(a: Case, b: Case)
    requires a.caseId == b.caseId && a.kind == b.kind
    requires Normalize(a.input) == Normalize(b.input) && Normalize(a.groundTruth) == Normalize(b.groundTruth)
    ensures SigningText(a) == SigningText(b)
  {
    hide Normalize;
    ViewOfPayload(a);
    ViewOfPayload(b);
    NormalizeGraded(a);
    NormalizeGraded(b);
  }

  /** A signed case is graded, whatever its prose and whoever signs. */
  lemma SignedIsGraded(s: Scheme, c: Case, signer: string)
    requires Correct(s)
    ensures IsGraded(Some(s), SignCase(s, c, signer))
    ensures SignCase(s, c, signer) == c.(signature := Some(s.sign(SigningText(c))), signer := Some(signer))
  {
    SigningBinds(c, SignCase(s, c, signer));
  }

  /** Main result: a case is graded exactly when a key is anchored and the key accepts the
      signature the case carries for its own signing text. */
  lemma GradedExactly(key: Option<Scheme>, c: Case)
    ensures IsGraded(key, c) <==> exists s, sig ::
      key == Some(s) && c.signature == Some(sig) && sig != "" && s.verify(sig, SigningText(c))
    ensures !IsGraded(None, c)
  {
    if IsGraded(key, c) {
      assert key == Some(key.value) && c.signature == Some(c.signature.value);
    }
  }

  /** The two cases carry one identity, kind, input and answer. */
  predicate SameGradeable(a: Case, b: Case) {
    && a.caseId == b.caseId && a.kind == b.kind
    && Normalize(a.input) == Normalize(b.input) && Normalize(a.groundTruth) == Normalize(b.groundTruth)
  }

  /** The key accepts one signature for two texts. */
  predicate AcceptsBoth(s: Scheme, sig: string, m: string, n: string) {
    m != n && s.verify(sig, m) && s.verify(sig, n)
  }

  /** Main result: a case that carries another case's signature, because it was moved there or
      because the case was changed after signing, is graded exactly when it has the same
      identity, kind, input and answer, unless the key accepts that signature for both texts. */
  lemma MovedSignature(s: Scheme, c: Case, signer: string, d: Case)
    requires Correct(s) && d.signature == SignCase(s, c, signer).signature
    ensures IsGraded(Some(s), d) <==>
      SameGradeable(c, d) || AcceptsBoth(s, d.signature.value, SigningText(c), SigningText(d))
  {
    hide SigningText;
    SigningBinds(c, d);
    assert d.signature == Some(s.sign(SigningText(c)));
  }

  /** Changing identity, kind, input or answer of a signed case un-grades it, with a key that
      accepts no signature for two texts. */
  lemma ChangedAfterSigning(s: Scheme, c: Case, signer: string, caseId: string, kind: string, input: Json, truth: Json)
    requires Correct(s) && forall sig, m, n :: !AcceptsBoth(s, sig, m, n)
    ensures var d := SignCase(s, c, signer).(caseId := caseId, kind := kind, input := input, groundTruth := truth);
      IsGraded(Some(s), d) <==>
        && caseId == c.caseId && kind == c.kind
        && Normalize(input) == Normalize(c.input) && Normalize(truth) == Normalize(c.groundTruth)
  {
    var d := SignCase(s, c, signer).(caseId := caseId, kind := kind, input := input, groundTruth := truth);
    MovedSignature(s, c, signer, d);
  }

  lemma NormalCaseGraded(key: Option<Scheme>, c: Case)
    ensures IsGraded(key, NormalCase(c)) == IsGraded(key, c)
  {
    NormalCaseTwice(c);
    SigningBinds(c, NormalCase(c));
  }

  lemma SignatureKept(s: Scheme, c: Case, signer: string)
    ensures SignCase(s, c, signer).signature == Some(s.sign(SigningText(c)))
    ensures forall d: Case :: NormalCase(d).signature == d.signature
  {
  }

  lemma SignedIsClean(s: Scheme, c: Case, signer: string)
    requires Correct(s) && CleanCase(c) && CleanText(signer)
    ensures CleanCase(SignCase(s, c, signer))
  {
    var sig := s.sign(SigningText(c));
    assert forall x :: x in sig ==> IsHex(x) && !IsWideBreak(x);
  }

  /** Main result: signing case i and rewriting the ledger gives a file that loads to a
      verifying chain whose graded cases are the old ones and case i, with every entry
      before i untouched. */
  lemma SignAndRewrite(s: Scheme, h: Hash, cases: seq<Case>, i: nat, signer: string)
    requires Correct(s) && AllClean(cases) && i < |cases| && CleanText(signer)
    ensures var signed := cases[i := SignCase(s, cases[i], signer)];
      var r := Load(Some(FileText(Chain(h, signed))));
      && r.Ok? && Verifies(h, r.value) && |r.value| == |cases|
      && (forall j :: 0 <= j < |cases| ==> r.value[j].fixture == NormalCase(signed[j]))
      && (forall j :: 0 <= j < |cases| ==>
            (IsGraded(Some(s), r.value[j].fixture) <==> j == i || IsGraded(Some(s), cases[j])))
      && r.value[i].fixture.signature == Some(s.sign(SigningText(cases[i])))
      && (forall j :: 0 <= j < |cases| && j != i ==> r.value[j].fixture.signature == cases[j].signature)
      && Chain(h, cases[..i]) <= Chain(h, cases) && Chain(h, cases[..i]) <= Chain(h, signed)
  {
    hide CleanCase, SigningText, Verifies, FileText, NormalCase, Chain, SignCase, IsGraded;
    var signed := cases[i := SignCase(s, cases[i], signer)];
    SignedIsClean(s, cases[i], signer);
    SignatureKept(s, cases[i], signer);
    assert forall c :: c in signed ==> c in cases || c == signed[i];
    assert AllClean(signed);
    RewriteRoundTrip(h, signed);
    var es := Load(Some(FileText(Chain(h, signed)))).value;
    forall j | 0 <= j < |cases|
      ensures es[j].fixture == NormalCase(signed[j])
      ensures IsGraded(Some(s), es[j].fixture) <==> j == i || IsGraded(Some(s), cases[j])
    {
      assert Map(es, FixtureOf)[j] == es[j].fixture;
      NormalCaseGraded(Some(s), signed[j]);
      if j == i { SignedIsGraded(s, cases[i], signer); }
    }
    ChainPrefix(h, cases, i);
    ChainPrefix(h, signed, i);
    assert signed[..i] == cases[..i];
  }
}
