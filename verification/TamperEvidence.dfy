/**
 What the hash chain does and does not reveal.

 Nothing is assumed about the hash function. Each statement says: either the ledgers
 agree, or two bodies that are really in these ledgers collide, or one of them hashes
 to the genesis value.
 */
module TamperEvidence {
  import opened Prelude
  import opened Sequences
  import opened Json
  import opened JsonRoundTrip
  import opened Lines
  import opened Ledger
  import opened LedgerLines
  import opened LedgerFile

  /** The text that was hashed for entry i. */
  function BodyAt(entries: seq<Entry>, i: nat): string
    requires i < |entries|
  {
    Body(entries[i].fixture, entries[i].prevHash)
  }

  predicate Collide(h: Hash, a: seq<Entry>, i: int, b: seq<Entry>, j: int) {
    0 <= i < |a| && 0 <= j < |b| && BodyAt(a, i) != BodyAt(b, j) && h(BodyAt(a, i)) == h(BodyAt(b, j))
  }

  predicate HitsGenesis(h: Hash, a: seq<Entry>, i: int) {
    0 <= i < |a| && h(BodyAt(a, i)) == GENESIS
  }

  /** The hash function failed on bodies of these two ledgers. */
  ghost predicate HashFailed(h: Hash, a: seq<Entry>, b: seq<Entry>) {
    || (exists i, j :: Collide(h, a, i, b, j))
    || (exists i :: HitsGenesis(h, a, i))
    || (exists j :: HitsGenesis(h, b, j))
  }

  /** A ledger's cases as values. */
  function NormalCases(entries: seq<Entry>): seq<Case> {
    Map(entries, (e: Entry) => NormalCase(e.fixture))
  }

  /** The printed payload determines the case. */
  lemma PayloadInjective(a: Case, b: Case)
    ensures Canonical(Payload(a)) == Canonical(Payload(b)) <==> NormalCase(a) == NormalCase(b)
  {
    SameText(a, NoFields);
    SameText(b, NoFields);
    if Canonical(Payload(a)) == Canonical(Payload(b)) {
      CanonicalInjective(Payload(a), Payload(b));
      CaseOfPayload(a);
      CaseOfPayload(b);
    }
  }

  lemma CaseOfPayload(c: Case)
    ensures Normalize(Payload(c)).Obj? && CaseOf(Normalize(Payload(c)).fields) == Some(NormalCase(c))
  {
    var fs := PayloadThen(NormalCase(c), NoFields);
    NormalizePayloadValues(c, NoFields);
    DistinctPayload(NormalCase(c), NoFields);
    forall k | PayloadKey(k)
      ensures Lookup(DictOf(fs), k) == Lookup(fs, k)
    {
      LookupDictOf(fs, k);
    }
    CaseFromPayload(NormalCase(c), DictOf(fs));
  }

  /** Equal bodies have equal predecessors and equal cases. */
  lemma BodyInjective(a: Case, p: string, b: Case, q: string)
    requires IsDigest(p) && IsDigest(q) && Body(a, p) == Body(b, q)
    ensures p == q && NormalCase(a) == NormalCase(b)
  {
    assert p == Body(a, p)[..64] && q == Body(b, q)[..64];
    assert Canonical(Payload(a)) == Body(a, p)[64..] && Canonical(Payload(b)) == Body(b, q)[64..];
    PayloadInjective(a, b);
  }

  lemma PrefixVerifies(h: Hash, entries: seq<Entry>, k: nat)
    requires Verifies(h, entries) && k <= |entries|
    ensures Verifies(h, entries[..k])
    ensures k < |entries| ==> Head(entries[..k + 1]) == entries[k].entryHash == h(BodyAt(entries, k))
    ensures k < |entries| ==> Head(entries[..k]) == entries[k].prevHash && IsDigest(entries[k].prevHash)
  {
    forall i | 0 <= i < k
      ensures LinkOk(h, entries[..k], i)
    {
      LinkPrefix(h, entries, k, i);
    }
    HeadIsDigest(h, entries[..k]);
    if k < |entries| {
      assert LinkOk(h, entries, k);
      assert entries[..k + 1][k] == entries[k];
    }
  }

  lemma HeadIsDigest(h: Hash, entries: seq<Entry>)
    requires Verifies(h, entries)
    ensures IsDigest(Head(entries))
  {
    if entries != [] { assert LinkOk(h, entries, |entries| - 1); }
  }

  /** A failure within prefixes is a failure within the whole ledgers. */
  lemma FailureGrows(h: Hash, a: seq<Entry>, b: seq<Entry>, k: nat, l: nat)
    requires k <= |a| && l <= |b| && HashFailed(h, a[..k], b[..l])
    ensures HashFailed(h, a, b)
  {
    assert forall i :: 0 <= i < k ==> BodyAt(a[..k], i) == BodyAt(a, i);
    assert forall j :: 0 <= j < l ==> BodyAt(b[..l], j) == BodyAt(b, j);
    if i, j :| Collide(h, a[..k], i, b[..l], j) {
      assert Collide(h, a, i, b, j);
    } else if i :| HitsGenesis(h, a[..k], i) {
      assert HitsGenesis(h, a, i);
    } else {
      var j :| HitsGenesis(h, b[..l], j);
      assert HitsGenesis(h, b, j);
    }
  }

  /** Main result: two verifying ledgers with one head hash hold the same cases, or the hash
      function failed on bodies of theirs. */
  lemma {:induction false} HeadDeterminesCases(h: Hash, a: seq<Entry>, b: seq<Entry>)
    requires Verifies(h, a) && Verifies(h, b) && Head(a) == Head(b)
    ensures NormalCases(a) == NormalCases(b) || HashFailed(h, a, b)
    decreases |a|
  {
    var k, l := |a| - 1, |b| - 1;
    if a == [] && b == [] {
    } else if a == [] {
      PrefixVerifies(h, b, l);
      assert HitsGenesis(h, b, l);
    } else if b == [] {
      PrefixVerifies(h, a, k);
      assert HitsGenesis(h, a, k);
    } else {
      PrefixVerifies(h, a, k);
      PrefixVerifies(h, b, l);
      if BodyAt(a, k) != BodyAt(b, l) {
        assert Collide(h, a, k, b, l);
      } else {
        BodyInjective(a[k].fixture, a[k].prevHash, b[l].fixture, b[l].prevHash);
        HeadDeterminesCases(h, a[..k], b[..l]);
        if HashFailed(h, a[..k], b[..l]) {
          FailureGrows(h, a, b, k, l);
        } else {
          SameLast(a, b);
        }
      }
    }
  }

  lemma SameLast(a: seq<Entry>, b: seq<Entry>)
    requires a != [] && b != [] && NormalCases(a[..|a| - 1]) == NormalCases(b[..|b| - 1])
    requires NormalCase(a[|a| - 1].fixture) == NormalCase(b[|b| - 1].fixture)
    ensures NormalCases(a) == NormalCases(b)
  {
    var f := (e: Entry) => NormalCase(e.fixture);
    assert a == a[..|a| - 1] + [a[|a| - 1]] && b == b[..|b| - 1] + [b[|b| - 1]];
    MapAppend(a[..|a| - 1], a[|a| - 1], f);
    MapAppend(b[..|b| - 1], b[|b| - 1], f);
  }

  /** The hashes along a verifying ledger are pairwise distinct, with the same proviso. */
  lemma HashesDistinct(h: Hash, entries: seq<Entry>, i: nat, j: nat)
    requires Verifies(h, entries) && i < j < |entries|
    ensures entries[i].entryHash != entries[j].entryHash || HashFailed(h, entries, entries)
  {
    hide Verifies, HashFailed, BodyAt, Body;
    if entries[i].entryHash == entries[j].entryHash {
      var a, b := entries[..i + 1], entries[..j + 1];
      PrefixVerifies(h, entries, i + 1);
      PrefixVerifies(h, entries, j + 1);
      assert |NormalCases(a)| != |NormalCases(b)|;
      HeadDeterminesCases(h, a, b);
      FailureGrows(h, entries, entries, i + 1, j + 1);
    }
  }

  function Without(entries: seq<Entry>, k: nat): seq<Entry>
    requires k < |entries|
  {
    entries[..k] + entries[k + 1..]
  }

  /** Main result: deleting one entry goes unnoticed exactly when it is the last one. */
  lemma DeletionDetected(h: Hash, entries: seq<Entry>, k: nat)
    requires Verifies(h, entries) && k < |entries|
    ensures (Verifies(h, Without(entries, k)) <==> k == |entries| - 1)
         || HashFailed(h, entries, Without(entries, k))
  {
    var rest := Without(entries, k);
    if k == |entries| - 1 {
      assert rest == entries[..k];
      PrefixVerifies(h, entries, k);
    } else if Verifies(h, rest) {
      assert rest[|rest| - 1] == entries[|entries| - 1];
      assert |NormalCases(rest)| != |NormalCases(entries)|;
      HeadDeterminesCases(h, entries, rest);
    }
  }

  /** An entry of a verifying ledger stands where it stood: if another verifying ledger has
      it, it has it at the same place. */
  lemma SamePlace(h: Hash, a: seq<Entry>, m: nat, b: seq<Entry>, i: nat)
    requires Verifies(h, a) && Verifies(h, b) && m < |a| && i < |b| && b[i] == a[m]
    ensures m == i || HashFailed(h, a, b)
  {
    hide Verifies, HashFailed, BodyAt, Body;
    PrefixVerifies(h, a, m);
    PrefixVerifies(h, b, i);
    PrefixVerifies(h, a, m + 1);
    PrefixVerifies(h, b, i + 1);
    HeadDeterminesCases(h, a[..m + 1], b[..i + 1]);
    if m != i {
      assert |NormalCases(a[..m + 1])| != |NormalCases(b[..i + 1])|;
      FailureGrows(h, a, b, m + 1, i + 1);
    }
  }

  /** Main result: a list put together from entries of a verifying ledger, by any deletions,
      moves and repetitions, verifies exactly when it is a prefix of it. */
  lemma DrawnDetected(h: Hash, entries: seq<Entry>, drawn: seq<Entry>)
    requires Verifies(h, entries) && forall e :: e in drawn ==> e in entries
    ensures (Verifies(h, drawn) <==> drawn <= entries) || HashFailed(h, entries, drawn)
  {
    if drawn <= entries {
      PrefixVerifies(h, entries, |drawn|);
      assert drawn == entries[..|drawn|];
    }
    if Verifies(h, drawn) && !HashFailed(h, entries, drawn) {
      forall i | 0 <= i < |drawn|
        ensures i < |entries| && drawn[i] == entries[i]
      {
        assert drawn[i] in entries;
        var m :| 0 <= m < |entries| && entries[m] == drawn[i];
        SamePlace(h, entries, m, drawn, i);
      }
      if drawn != [] {
        var last := drawn[|drawn| - 1];
        assert |drawn| - 1 < |entries|;
      }
      assert |drawn| <= |entries| && drawn == entries[..|drawn|];
    }
  }

  /** Any dropped tail goes unnoticed: what is left still verifies. The chain alone does not
      reveal every deletion. */
  lemma DroppedTailVerifies(h: Hash, cases: seq<Case>, k: nat)
    requires k <= |cases|
    ensures Chain(h, cases[..k]) <= Chain(h, cases) && Verifies(h, Chain(h, cases[..k]))
  {
    hide Verifies, Chain;
    ChainPrefix(h, cases, k);
    ChainVerifies(h, cases[..k]);
  }

  /** Main result: a case edited in place, hashes left alone, still verifies exactly when the
      edit changed no value, unless the two versions of the entry collide. */
  lemma EditDetected(h: Hash, entries: seq<Entry>, k: nat, c: Case)
    requires Verifies(h, entries) && k < |entries|
    ensures var edited := entries[k := entries[k].(fixture := c)];
      (Verifies(h, edited) <==> NormalCase(c) == NormalCase(entries[k].fixture)) || Collide(h, entries, k, edited, k)
  {
    var edited := entries[k := entries[k].(fixture := c)];
    PayloadInjective(c, entries[k].fixture);
    forall i | 0 <= i < |entries|
      ensures LinkOk(h, edited, i) <==>
              (i == k ==> EntryHash(h, c, entries[k].prevHash) == entries[k].entryHash)
    {
      assert LinkOk(h, entries, i);
      assert i > 0 ==> edited[i - 1].entryHash == entries[i - 1].entryHash;
    }
    assert LinkOk(h, entries, k);
    var before, after := BodyAt(entries, k), BodyAt(edited, k);
    assert before == after <==> NormalCase(c) == NormalCase(entries[k].fixture) by {
      var p := entries[k].prevHash;
      assert before[|p|..] == Canonical(Payload(entries[k].fixture)) && after[|p|..] == Canonical(Payload(c));
    }
    assert LinkOk(h, edited, k) <==> h(after) == h(before);
  }

  /** Whatever is done to the entries before the last: if the result verifies and ends in the
      same entry, no case before it was edited, removed, added or moved. */
  lemma RewriteDetected(h: Hash, a: seq<Entry>, b: seq<Entry>)
    requires Verifies(h, a) && Verifies(h, b) && a != [] && b != [] && a[|a| - 1] == b[|b| - 1]
    ensures NormalCases(a) == NormalCases(b) || HashFailed(h, a, b)
  {
    HeadDeterminesCases(h, a, b);
  }
}
