/** The ledger file: rewriting it, appending to it, and what loading it back gives. */
module LedgerFile {
  import opened Prelude
  import opened Sequences
  import opened Json
  import opened Lines
  import opened Ledger
  import opened LedgerLines

  /** An entry as it comes back from its line. */
  function Loaded(e: Entry): Entry {
    e.(fixture := NormalCase(e.fixture))
  }

  function FixtureOf(e: Entry): Case {
    e.fixture
  }

  predicate AllClean(cases: seq<Case>) {
    forall c :: c in cases ==> CleanCase(c)
  }

  // ---- Chains ----

  lemma {:induction false} ChainShape(h: Hash, cases: seq<Case>)
    ensures |Chain(h, cases)| == |cases|
    ensures Map(Chain(h, cases), FixtureOf) == cases
    ensures IsDigest(Head(Chain(h, cases)))
    ensures forall e :: e in Chain(h, cases) ==> IsDigest(e.prevHash) && IsDigest(e.entryHash)
  {
    if cases != [] {
      var init, last := cases[..|cases| - 1], cases[|cases| - 1];
      ChainShape(h, init);
      assert cases == init + [last];
    }
  }

  lemma ChainStep(h: Hash, cases: seq<Case>, c: Case)
    ensures Chain(h, cases + [c]) == Chain(h, cases) + [Chained(h, c, Head(Chain(h, cases)))]
  {
    assert (cases + [c])[..|cases|] == cases;
  }

  lemma {:induction false} ChainPrefix(h: Hash, cases: seq<Case>, k: nat)
    requires k <= |cases|
    ensures |Chain(h, cases)| == |cases|
    ensures Chain(h, cases)[..k] == Chain(h, cases[..k])
    decreases |cases|
  {
    ChainShape(h, cases);
    if k == |cases| {
      assert cases[..k] == cases;
    } else {
      var init := cases[..|cases| - 1];
      assert init[..k] == cases[..k];
      ChainShape(h, init);
      ChainPrefix(h, init, k);
    }
  }

  lemma VerifiesStep(h: Hash, init: seq<Entry>, e: Entry)
    ensures Verifies(h, init + [e]) <==> Verifies(h, init) && e == Chained(h, e.fixture, Head(init))
  {
    var entries, k := init + [e], |init|;
    assert entries[..k] == init;
    assert LinkOk(h, entries, k) <==> e == Chained(h, e.fixture, Head(init));
    forall i | 0 <= i < k
      ensures LinkOk(h, init, i) <==> LinkOk(h, entries, i)
    {
      LinkPrefix(h, entries, k, i);
    }
  }

  /** A chain verifies, and nothing else does: a verifying ledger is the chain of its cases. */
  lemma {:induction false} VerifiesIffChain(h: Hash, entries: seq<Entry>)
    ensures Verifies(h, entries) <==> entries == Chain(h, Map(entries, FixtureOf))
  {
    hide LinkOk, Chained;
    if entries != [] {
      var init, last := entries[..|entries| - 1], entries[|entries| - 1];
      assert entries == init + [last];
      MapAppend(init, last, FixtureOf);
      VerifiesIffChain(h, init);
      VerifiesStep(h, init, last);
      ChainStep(h, Map(init, FixtureOf), last.fixture);
      ChainShape(h, Map(init, FixtureOf));
      var chain := Chain(h, Map(init, FixtureOf));
      assert |chain| == |init|;
      assert entries[..|init|] == init && entries[|init|] == last;
      assert (chain + [Chained(h, last.fixture, Head(chain))])[..|init|] == chain;
    }
  }

  lemma ChainVerifies(h: Hash, cases: seq<Case>)
    ensures Verifies(h, Chain(h, cases))
  {
    ChainShape(h, cases);
    VerifiesIffChain(h, Chain(h, cases));
  }

  /** Field order inside the cases changes no hash of the chain. */
  lemma {:induction false} ChainNormal(h: Hash, cases: seq<Case>)
    ensures Chain(h, Map(cases, NormalCase)) == Map(Chain(h, cases), Loaded)
  {
    if cases != [] {
      var init, last := cases[..|cases| - 1], cases[|cases| - 1];
      ChainNormal(h, init);
      assert cases == init + [last];
      MapAppend(init, last, NormalCase);
      ChainStep(h, Map(init, NormalCase), NormalCase(last));
      ChainStep(h, init, last);
      SameText(last, NoFields);
      assert Head(Map(Chain(h, init), Loaded)) == Head(Chain(h, init));
      MapAppend(Chain(h, init), Chained(h, last, Head(Chain(h, init))), Loaded);
    }
  }

  // ---- The text of a chain ----

  lemma FileTextEnds(entries: seq<Entry>)
    ensures FileText(entries) == "" || FileText(entries)[|FileText(entries)| - 1] == '\n'
  {
  }

  lemma FileTextStep(entries: seq<Entry>, e: Entry)
    ensures FileText(entries + [e]) == FileText(entries) + (Line(e) + "\n")
    ensures SplitLines(FileText(entries + [e])) == SplitLines(FileText(entries)) + SplitLines(Line(e) + "\n")
  {
    assert (entries + [e])[..|entries|] == entries;
    FileTextEnds(entries);
    SplitAppend(FileText(entries), Line(e) + "\n");
  }

  predicate Digests(e: Entry) {
    IsDigest(e.prevHash) && IsDigest(e.entryHash)
  }

  /** Appending a clean line to lines that load adds its entry. */
  lemma CleanLineLoads(lines: seq<string>, e: Entry)
    requires Digests(e) && CleanCase(e.fixture) && LoadLines(lines).Ok?
    ensures SplitLines(Line(e) + "\n") == [Line(e)]
    ensures LoadLines(lines + SplitLines(Line(e) + "\n")) == Ok(LoadLines(lines).value + [Loaded(e)])
  {
    LineBreaks(e);
    SplitOne(Line(e), "");
    assert "\n" + "" == "\n";
    LineTrimmed(e);
    LineRoundTrip(e, |lines| + 1);
    LoadLinesAppend(lines, Line(e));
  }

  /** Where the first line of an unclean entry's text ends: inside the entry. */
  lemma UncleanLineCut(e: Entry) returns (m: nat)
    requires Digests(e) && !CleanCase(e.fixture)
    ensures 0 < m < |Line(e)|
    ensures SplitLines(Line(e) + "\n") != [] && SplitLines(Line(e) + "\n")[0] == Line(e)[..m]
  {
    LineBreaks(e);
    LineTrimmed(e);
    LineCut(Line(e), "\n");
    m := LineLength(Line(e));
    assert !IsLineBreak('{');
    assert Line(e)[..m] == (Line(e) + "\n")[..m];
  }

  /** Lines that begin with one that fails make the whole load fail. */
  lemma LoadFailsAt(lines: seq<string>, more: seq<string>)
    requires LoadLines(lines).Ok? && more != []
    requires Strip(more[0]) != "" && LoadLine(Strip(more[0]), |lines| + 1).Err?
    ensures LoadLines(lines + more).Err?
  {
    LoadLinesAppend(lines, more[0]);
    assert (lines + more)[..|lines| + 1] == lines + [more[0]];
    ErrorSticks(lines + more, |lines| + 1);
  }

  lemma UncleanLineFails(lines: seq<string>, e: Entry)
    requires Digests(e) && !CleanCase(e.fixture) && LoadLines(lines).Ok?
    ensures LoadLines(lines + SplitLines(Line(e) + "\n")).Err?
  {
    var m := UncleanLineCut(e);
    CutLineFails(e, m, |lines| + 1);
    LoadFailsAt(lines, SplitLines(Line(e) + "\n"));
  }

  /** Loading the text of a chain gives its entries back exactly when every case is clean. */
  lemma {:induction false} LoadFileText(entries: seq<Entry>)
    requires forall e :: e in entries ==> Digests(e)
    ensures var r := LoadLines(SplitLines(FileText(entries)));
      if forall e :: e in entries ==> CleanCase(e.fixture) then r == Ok(Map(entries, Loaded)) else r.Err?
  {
    if entries == [] {
      assert SplitLines("") == [];
    } else {
      var init, last := entries[..|entries| - 1], entries[|entries| - 1];
      assert entries == init + [last];
      LoadFileText(init);
      FileTextStep(init, last);
      var lines := SplitLines(FileText(init));
      if LoadLines(lines).Err? {
        var all := lines + SplitLines(Line(last) + "\n");
        assert all[..|lines|] == lines;
        ErrorSticks(all, |lines|);
      } else if CleanCase(last.fixture) {
        CleanLineLoads(lines, last);
        MapAppend(init, last, Loaded);
      } else {
        UncleanLineFails(lines, last);
      }
    }
  }

  /** Main result: what `write_ledger` wrote loads back as the same cases, in a chain that
      verifies, exactly when no text holds U+0085, U+2028 or U+2029; otherwise the file no
      longer loads at all. */
  lemma RewriteRoundTrip(h: Hash, cases: seq<Case>)
    ensures var r := Load(Some(FileText(Chain(h, cases))));
      && (AllClean(cases) ==> r == Ok(Chain(h, Map(cases, NormalCase))))
      && (AllClean(cases) ==> Map(r.value, FixtureOf) == Map(cases, NormalCase) && Verifies(h, r.value))
      && (!AllClean(cases) ==> r.Err?)
  {
    hide CleanCase, Verifies, FileText, NormalCase, Chain, LoadLines, SplitLines;
    var entries := Chain(h, cases);
    ChainShape(h, cases);
    LoadFileText(entries);
    ChainNormal(h, cases);
    ChainVerifies(h, Map(cases, NormalCase));
    ChainShape(h, Map(cases, NormalCase));
    assert forall i :: 0 <= i < |cases| ==> entries[i].fixture == cases[i];
    if exists c :: c in cases && !CleanCase(c) {
      var i :| 0 <= i < |cases| && !CleanCase(cases[i]);
      assert entries[i] in entries && !CleanCase(entries[i].fixture);
    }
  }

  // ---- The operations ----

  function Join(lines: seq<string>): string {
    if lines == [] then ""
    else if |lines| == 1 then lines[0]
    else Join(lines[..|lines| - 1]) + "\n" + lines[|lines| - 1]
  }

  lemma {:induction false} JoinLines(entries: seq<Entry>)
    ensures Join(Map(entries, Line)) + (if entries != [] then "\n" else "") == FileText(entries)
  {
    if entries != [] {
      var init, last := entries[..|entries| - 1], entries[|entries| - 1];
      assert entries == init + [last];
      JoinLines(init);
      MapAppend(init, last, Line);
      var lines := Map(entries, Line);
      assert lines[..|lines| - 1] == Map(init, Line);
      if init == [] {
        assert FileText(init) == "";
        assert "" + (Line(last) + "\n") == Line(last) + "\n";
      } else {
        assert Join(lines) + "\n" == (Join(Map(init, Line)) + "\n") + (Line(last) + "\n");
      }
    }
  }

  datatype AppendError = Unreadable(load: LoadError) | Tampered(chain: ChainError)

  /** A file whose ledger loads and verifies; only such a file is extended. */
  predicate Sound(h: Hash, file: Option<string>) {
    Load(file).Ok? && Verifies(h, Load(file).value)
  }

  function Content(file: Option<string>): string {
    if file.Some? then file.value else ""
  }

  /** The file after one append, whether it went through or was refused. */
  function Appended(h: Hash, file: Option<string>, c: Case): Option<string> {
    if !Sound(h, file) then file
    else Some(Content(file) + (Line(Chained(h, c, Head(Load(file).value))) + "\n"))
  }

  class LedgerFile {
    var file: Option<string>

    constructor ()
      ensures file == None
    {
      file := None;
    }

    /** `write_ledger`. */
    method WriteLedger(h: Hash, cases: seq<Case>)
      modifies this
      ensures file == Some(FileText(Chain(h, cases)))
    {
      assert Chain(h, cases[..0]) == [];
      hide Line, Chain, Chained, EntryHash, FileText, Join;
      var prev := GENESIS;
      var lines: seq<string> := [];
      for i := 0 to |cases|
        invariant prev == Head(Chain(h, cases[..i]))
        invariant lines == Map(Chain(h, cases[..i]), Line)
      {
        var entry := Chained(h, cases[i], prev);
        assert cases[..i + 1] == cases[..i] + [cases[i]];
        ChainStep(h, cases[..i], cases[i]);
        MapAppend(Chain(h, cases[..i]), entry, Line);
        lines := lines + [Line(entry)];
        prev := entry.entryHash;
      }
      assert cases[..|cases|] == cases && lines == Map(Chain(h, cases), Line);
      JoinLines(Chain(h, cases));
      file := Some(Join(lines) + if lines != [] then "\n" else "");
    }

    /** `append_case`: refuses, and leaves alone, a file that does not load or verify. */
    method AppendCase(h: Hash, c: Case) returns (r: Result<Entry, AppendError>)
      modifies this
      ensures r.Ok? <==> old(Sound(h, file))
      ensures r.Ok? ==> r.value == Chained(h, c, Head(Load(old(file)).value))
      ensures file == Appended(h, old(file), c)
      ensures r.Err? ==> file == old(file)
      ensures r.Err? ==> (r.error.Unreadable? <==> Load(file).Err?)
    {
      var loaded := LoadLedger(file);
      if loaded.Err? { return Err(Unreadable(loaded.error)); }
      var entries := loaded.value;
      var checked := VerifyChain(h, entries);
      if checked.Err? { return Err(Tampered(checked.error)); }
      var prev := Head(entries);
      var entry := Entry(c, prev, EntryHash(h, c, prev));
      file := Some(Content(file) + (Line(entry) + "\n"));
      return Ok(entry);
    }
  }

  // ---- Appending one by one ----

  /** The file after appending the cases in turn to an absent one. */
  function AppendRun(h: Hash, cases: seq<Case>): Option<string> {
    if cases == [] then None
    else Appended(h, AppendRun(h, cases[..|cases| - 1]), cases[|cases| - 1])
  }

  /** One append to what `write_ledger` writes for clean cases. */
  lemma AppendToText(h: Hash, init: seq<Case>, last: Case)
    requires AllClean(init)
    ensures Appended(h, Some(FileText(Chain(h, init))), last) == Some(FileText(Chain(h, init + [last])))
  {
    hide CleanCase, FileText, Line, Verifies;
    RewriteRoundTrip(h, init);
    ChainNormal(h, init);
    ChainStep(h, init, last);
    FileTextStep(Chain(h, init), Chained(h, last, Head(Chain(h, init))));
    assert Head(Map(Chain(h, init), Loaded)) == Head(Chain(h, init));
  }

  lemma {:induction false} AppendRunText(h: Hash, cases: seq<Case>)
    requires cases != [] && AllClean(cases[..|cases| - 1])
    ensures AppendRun(h, cases) == Some(FileText(Chain(h, cases)))
  {
    hide CleanCase, Line;
    var init, last := cases[..|cases| - 1], cases[|cases| - 1];
    assert cases == init + [last];
    if init == [] {
      AppendToAbsent(h, last);
      assert cases == [last];
    } else {
      hide FileText, Chain;
      assert forall c :: c in init[..|init| - 1] ==> c in init;
      AppendRunText(h, init);
      AppendToText(h, init, last);
    }
  }

  lemma AppendToAbsent(h: Hash, c: Case)
    ensures Appended(h, None, c) == Some(FileText(Chain(h, [c])))
  {
    hide CleanCase, Line;
    ChainStep(h, [], c);
    assert [] + [c] == [c];
    FileTextStep([], Chained(h, c, GENESIS));
    assert Load(None) == Ok([]) && Head([]) == GENESIS;
    assert [] + [Chained(h, c, GENESIS)] == [Chained(h, c, GENESIS)];
    assert "" + (Line(Chained(h, c, GENESIS)) + "\n") == Line(Chained(h, c, GENESIS)) + "\n";
  }

  lemma {:induction false} AppendRunStuck(h: Hash, cases: seq<Case>, k: nat)
    requires k < |cases| && AllClean(cases[..k]) && !CleanCase(cases[k])
    ensures AppendRun(h, cases) == Some(FileText(Chain(h, cases[..k + 1]))) && !Sound(h, AppendRun(h, cases))
    decreases |cases|
  {
    var upTo := cases[..k + 1];
    assert upTo[..k] == cases[..k] && upTo[k] == cases[k];
    assert cases[k] in upTo;
    AppendRunText(h, upTo);
    RewriteRoundTrip(h, upTo);
    if k + 1 == |cases| {
      assert upTo == cases;
    } else {
      var init := cases[..|cases| - 1];
      assert init[..k + 1] == upTo && init[..k] == cases[..k];
      AppendRunStuck(h, init, k);
    }
  }

  lemma {:induction false} LongerChain(h: Hash, cases: seq<Case>, k: nat)
    requires k < |cases|
    ensures |FileText(Chain(h, cases[..k]))| < |FileText(Chain(h, cases))|
    decreases |cases|
  {
    var init, last := cases[..|cases| - 1], cases[|cases| - 1];
    assert cases == init + [last];
    ChainStep(h, init, last);
    FileTextStep(Chain(h, init), Chained(h, last, Head(Chain(h, init))));
    assert init[..k] == cases[..k];
    if k < |init| { LongerChain(h, init, k); } else { assert init[..k] == init; }
  }

  lemma {:induction false} FirstUnclean(cases: seq<Case>) returns (k: nat)
    requires !AllClean(cases)
    ensures k < |cases| && AllClean(cases[..k]) && !CleanCase(cases[k])
  {
    var init := cases[..|cases| - 1];
    assert cases == init + [cases[|init|]];
    if AllClean(init) {
      k := |init|;
    } else {
      k := FirstUnclean(init);
      assert init[..k] == cases[..k];
    }
  }

  /** Main result: appending one by one to an absent file writes, byte for byte, what
      `write_ledger` writes, exactly when every case before the last is clean. */
  lemma AppendsAreARewrite(h: Hash, cases: seq<Case>)
    requires cases != []
    ensures AppendRun(h, cases) == Some(FileText(Chain(h, cases))) <==> AllClean(cases[..|cases| - 1])
  {
    hide CleanCase, FileText, Chain, AppendRun;
    var init := cases[..|cases| - 1];
    if AllClean(init) {
      AppendRunText(h, cases);
    } else {
      var k := FirstUnclean(init);
      assert init[..k] == cases[..k];
      AppendRunStuck(h, cases, k);
      LongerChain(h, cases, k + 1);
    }
  }
}
