/**
 What holds over a whole sequence of `decide` runs, each fed the artifacts of the
 earlier ones: cooldown spacing and upstream-before-downstream order.
 */
module DecisionHistory {
  import opened Sequences
  import opened DecisionModel
  import opened DecisionPolicy
  import opened DecisionService
  import DecisionOptimality

  predicate NewerFirst(a: Artifact, b: Artifact) {
    a.generatedAt >= b.generatedAt
  }

  /** Artifacts of this repo that stem from another insight run. */
  function Relevant(repoPath: string, insightRunId: string): Artifact -> bool {
    (a: Artifact) => a.repoPath == repoPath && a.sourceInsightRunId != insightRunId
  }

  function InWindow(cutoff: int): Artifact -> bool {
    (a: Artifact) => a.generatedAt >= cutoff
  }

  function Take<T>(s: seq<T>, n: nat): seq<T> {
    if |s| <= n then s else s[..n]
  }

  /** `DecisionLoader.load`: newest first, filtered, then cut to the history limit. */
  function LoadPrior(files: seq<Artifact>, repoPath: string, insightRunId: string, limit: nat): seq<Artifact> {
    Take(Filter(StableSort(files, NewerFirst), Relevant(repoPath, insightRunId)), limit)
  }

  /** The inputs of one run. `files` is the decision directory in the order it is listed. */
  datatype Run = Run(
    ctx: Context,
    around: Surroundings,
    specs: seq<CandidateSpec>,
    repoPath: string,
    insightRunId: string,
    files: seq<Artifact>)

  function Outcome(run: Run): Artifact {
    var prior := LoadPrior(run.files, run.repoPath, run.insightRunId, run.ctx.historyLimit);
    Decision(run.ctx, run.around, prior, run.specs, run.repoPath, run.insightRunId)
  }

  /** Each run sees exactly the artifacts of the runs before it, listed in any order. */
  ghost predicate History(runs: seq<Run>) {
    forall j :: 0 <= j < |runs| ==> multiset(runs[j].files) == multiset(Map(runs[..j], Outcome))
  }

  /** The history limit does not cut off any artifact inside the cooldown window. */
  predicate CoversWindow(run: Run) {
    var cutoff := run.ctx.generatedAt - run.ctx.cooldown;
    |Filter(Filter(run.files, Relevant(run.repoPath, run.insightRunId)), InWindow(cutoff))| <= run.ctx.historyLimit
  }

  lemma NewerFirstOrders()
    ensures TotalPreorder(NewerFirst)
  {
  }

  lemma {:induction false} FilterKeepsOrder<T(!new)>(s: seq<T>, p: T -> bool, leq: (T, T) -> bool)
    requires Sorted(s, leq)
    ensures Sorted(Filter(s, p), leq)
  {
    if s != [] {
      var init, last := s[..|s| - 1], s[|s| - 1];
      assert s == init + [last];
      FilterKeepsOrder(init, p, leq);
      FilterMember(init, p);
      forall x | x in Filter(init, p)
        ensures leq(x, last)
      {
        assert x in init;
        var i :| 0 <= i < |init| && init[i] == x;
        assert s[i] == x;
      }
    }
  }

  lemma {:induction false} FilterBag<T(!new)>(s: seq<T>, p: T -> bool, x: T)
    ensures multiset(Filter(s, p))[x] == if p(x) then multiset(s)[x] else 0
  {
    if s != [] {
      assert s == s[..|s| - 1] + [s[|s| - 1]];
      FilterBag(s[..|s| - 1], p, x);
    }
  }

  /** The number of elements that pass a test does not depend on their order. */
  lemma FilterSize<T(!new)>(a: seq<T>, b: seq<T>, p: T -> bool)
    requires multiset(a) == multiset(b)
    ensures multiset(Filter(a, p)) == multiset(Filter(b, p))
    ensures |Filter(a, p)| == |Filter(b, p)|
  {
    forall x
      ensures multiset(Filter(a, p))[x] == multiset(Filter(b, p))[x]
    {
      FilterBag(a, p, x);
      FilterBag(b, p, x);
    }
    SameBag(Filter(a, p), Filter(b, p));
  }

  /** In a newest-first list, the artifacts in the window come first. */
  lemma {:induction false} WindowIsPrefix(s: seq<Artifact>, cutoff: int, i: nat)
    requires Sorted(s, NewerFirst) && i < |s| && s[i].generatedAt >= cutoff
    ensures i < |Filter(s, InWindow(cutoff))|
  {
    var init, last := s[..|s| - 1], s[|s| - 1];
    assert s == init + [last];
    if i < |s| - 1 {
      WindowIsPrefix(init, cutoff, i);
    } else if i > 0 {
      assert NewerFirst(s[i - 1], s[i]);
      WindowIsPrefix(init, cutoff, i - 1);
    }
  }

  /** The stored artifacts in the order the loader sees them. */
  lemma SortedFiles(files: seq<Artifact>)
    ensures var sorted := StableSort(files, NewerFirst);
      Sorted(sorted, NewerFirst) && multiset(sorted) == multiset(files)
  {
    NewerFirstOrders();
    StableSortSorts(files, NewerFirst);
  }

  /** Loading does not change how many relevant artifacts lie in the window. */
  lemma WindowSize(files: seq<Artifact>, sorted: seq<Artifact>, p: Artifact -> bool, cutoff: int)
    requires multiset(sorted) == multiset(files)
    ensures |Filter(Filter(sorted, p), InWindow(cutoff))| == |Filter(Filter(files, p), InWindow(cutoff))|
  {
    FilterSize(sorted, files, p);
    FilterSize(Filter(sorted, p), Filter(files, p), InWindow(cutoff));
  }

  /** Every relevant stored artifact inside the cooldown window is loaded. */
  lemma LoadsWindow(run: Run, a: Artifact)
    requires a in run.files && CoversWindow(run)
    requires a.repoPath == run.repoPath && a.sourceInsightRunId != run.insightRunId
    requires a.generatedAt >= run.ctx.generatedAt - run.ctx.cooldown
    ensures a in LoadPrior(run.files, run.repoPath, run.insightRunId, run.ctx.historyLimit)
  {
    hide Filter, StableSort;
    var p := Relevant(run.repoPath, run.insightRunId);
    var cutoff := run.ctx.generatedAt - run.ctx.cooldown;
    var sorted := StableSort(run.files, NewerFirst);
    SortedFiles(run.files);
    SameBag(sorted, run.files);
    var relevant := Filter(sorted, p);
    FilterMember(sorted, p);
    FilterKeepsOrder(sorted, p, NewerFirst);
    var i :| 0 <= i < |relevant| && relevant[i] == a;
    WindowIsPrefix(relevant, cutoff, i);
    WindowSize(run.files, sorted, p, cutoff);
    assert Take(relevant, run.ctx.historyLimit)[i] == a;
  }

  lemma LoadedInOrder(run: Run)
    ensures Sorted(LoadPrior(run.files, run.repoPath, run.insightRunId, run.ctx.historyLimit), NewerFirst)
  {
    SortedFiles(run.files);
    FilterKeepsOrder(StableSort(run.files, NewerFirst), Relevant(run.repoPath, run.insightRunId), NewerFirst);
  }

  /** The first n of a newest-first list, or all of it when it is no longer. */
  lemma TakeTells(s: seq<Artifact>, n: nat)
    requires Sorted(s, NewerFirst)
    ensures var t := Take(s, n);
      && |t| <= n && (forall a :: a in t ==> a in s)
      && (forall i, j :: 0 <= i < j < |t| ==> t[i].generatedAt >= t[j].generatedAt)
      && (forall a, b :: a in t && b in s && b !in t ==> a.generatedAt >= b.generatedAt)
  {
    var t := Take(s, n);
    assert forall i :: 0 <= i < |t| ==> t[i] == s[i];
    assert forall i, j :: 0 <= i < j < |s| ==> NewerFirst(s[i], s[j]);
    hide Take, Sorted;
    forall a, b | a in t && b in s && b !in t
      ensures a.generatedAt >= b.generatedAt
    {
      var i :| 0 <= i < |t| && t[i] == a;
      var j :| 0 <= j < |s| && s[j] == b;
      assert j >= |t| > i;
      assert NewerFirst(s[i], s[j]);
    }
  }

  /** What is loaded: artifacts of this repo from other insight runs, newest first, no more
      than the limit, and none that is older than one left out. */
  lemma LoadedTell(run: Run)
    ensures var prior := LoadPrior(run.files, run.repoPath, run.insightRunId, run.ctx.historyLimit);
      && |prior| <= run.ctx.historyLimit
      && (forall a :: a in prior ==>
            a in run.files && a.repoPath == run.repoPath && a.sourceInsightRunId != run.insightRunId)
      && (forall i, j :: 0 <= i < j < |prior| ==> prior[i].generatedAt >= prior[j].generatedAt)
      && (forall a, b ::
            (a in prior && b in run.files && b !in prior
             && b.repoPath == run.repoPath && b.sourceInsightRunId != run.insightRunId) ==>
            a.generatedAt >= b.generatedAt)
  {
    hide Filter, StableSort;
    var p := Relevant(run.repoPath, run.insightRunId);
    var sorted := StableSort(run.files, NewerFirst);
    SortedFiles(run.files);
    SameBag(sorted, run.files);
    var relevant := Filter(sorted, p);
    FilterMember(sorted, p);
    FilterKeepsOrder(sorted, p, NewerFirst);
    var prior := LoadPrior(run.files, run.repoPath, run.insightRunId, run.ctx.historyLimit);
    assert prior == Take(relevant, run.ctx.historyLimit);
    TakeTells(relevant, run.ctx.historyLimit);
    assert forall a :: p(a) <==> a.repoPath == run.repoPath && a.sourceInsightRunId != run.insightRunId;
    hide Take, LoadPrior, Relevant;
  }

  /** The newest-first scan finds an emission at least as recent as any in the list. */
  lemma {:induction false} LastEmittedIsNewest(key: string, prior: seq<Artifact>, a: Artifact)
    requires Sorted(prior, NewerFirst) && a in prior
    requires exists c :: c in a.candidates && c.dedupKey == key
    ensures LastEmittedAt(key, prior).Some? && LastEmittedAt(key, prior).value >= a.generatedAt
  {
    var i :| 0 <= i < |prior| && prior[i] == a;
    assert i > 0 ==> NewerFirst(prior[0], prior[i]);
    if !(exists c :: c in prior[0].candidates && c.dedupKey == key) {
      assert a in prior[1..];
      LastEmittedIsNewest(key, prior[1..], a);
    }
  }

  /** This artifact emits this key. */
  ghost predicate Emits(a: Artifact, key: string) {
    exists c :: c in a.candidates && c.dedupKey == key
  }

  ghost predicate EmitsFamily(a: Artifact, family: string) {
    exists c :: c in a.candidates && c.family == family
  }

  /** An emitted candidate comes from a spec that passed every gate. */
  lemma CandidateFromSpec(ctx: Context, around: Surroundings, prior: seq<Artifact>, specs: seq<CandidateSpec>,
                          repoPath: string, insightRunId: string, c: Candidate) returns (s: CandidateSpec)
    requires c in Decision(ctx, around, prior, specs, repoPath, insightRunId).candidates
    ensures c == Build(s) && s in Funnel(ctx, around, prior, specs).live
    ensures Eligible(Config(ctx), prior, ctx.generatedAt, s)
  {
    var live := Funnel(ctx, around, prior, specs).live;
    var sorted := StableSort(live, SpecLeq);
    var picked := Picked(Config(ctx), prior, ctx.generatedAt, sorted);
    var i :| 0 <= i < |Map(picked, Build)| && Map(picked, Build)[i] == c;
    s := picked[i];
    DecisionOptimality.PickedMembers(Config(ctx), prior, ctx.generatedAt, sorted);
    DecisionOptimality.SpecLeqOrders();
    StableSortSorts(live, SpecLeq);
    SameBag(sorted, live);
  }

  lemma EarlierIsStored(runs: seq<Run>, i: nat, j: nat)
    requires History(runs) && i < j < |runs|
    ensures Outcome(runs[i]) in runs[j].files
  {
    assert Map(runs[..j], Outcome)[i] == Outcome(runs[i]);
    assert Outcome(runs[i]) in multiset(Map(runs[..j], Outcome));
  }

  /** Main result: two emissions of one key for one repo are more than the cooldown apart. */
  lemma CooldownSpacing(runs: seq<Run>, i: nat, j: nat, key: string)
    requires History(runs) && i < j < |runs| && CoversWindow(runs[j])
    requires runs[i].repoPath == runs[j].repoPath && runs[i].insightRunId != runs[j].insightRunId
    requires Emits(Outcome(runs[i]), key) && Emits(Outcome(runs[j]), key)
    ensures runs[j].ctx.generatedAt - runs[i].ctx.generatedAt > runs[j].ctx.cooldown
  {
    var run, first := runs[j], Outcome(runs[i]);
    var prior := LoadPrior(run.files, run.repoPath, run.insightRunId, run.ctx.historyLimit);
    EarlierIsStored(runs, i, j);
    if first.generatedAt >= run.ctx.generatedAt - run.ctx.cooldown {
      LoadsWindow(run, first);
      LoadedInOrder(run);
      LastEmittedIsNewest(key, prior, first);
      var c :| c in Outcome(run).candidates && c.dedupKey == key;
      var s := CandidateFromSpec(run.ctx, run.around, prior, run.specs, run.repoPath, run.insightRunId, c);
    }
  }

  /** No key is emitted twice in one run. */
  lemma KeysOnceInRun(run: Run, i: nat, j: nat)
    requires i < j < |Outcome(run).candidates|
    ensures Outcome(run).candidates[i].dedupKey != Outcome(run).candidates[j].dedupKey
  {
    var prior := LoadPrior(run.files, run.repoPath, run.insightRunId, run.ctx.historyLimit);
    var sorted := StableSort(Funnel(run.ctx, run.around, prior, run.specs).live, SpecLeq);
    DecisionOptimality.PickedMembers(Config(run.ctx), prior, run.ctx.generatedAt, sorted);
  }

  /** A spec behind the chain gate has no active upstream family. */
  lemma LiveIsUnblocked(specs: seq<CandidateSpec>, prior: seq<Artifact>, cutoff: int, s: CandidateSpec,
                        upstream: string)
    requires s in ChainLive(specs, prior, cutoff) && upstream in Prerequisites(s.family)
    ensures upstream !in Families(specs) && upstream !in RecentFamilies(prior, cutoff)
  {
    FilterMember(specs, Unblocked(Families(specs), RecentFamilies(prior, cutoff)));
    assert Prerequisites(s.family) == [upstream];
  }

  lemma LiveWasThere(specs: seq<CandidateSpec>, prior: seq<Artifact>, cutoff: int, s: CandidateSpec)
    requires s in ChainLive(specs, prior, cutoff)
    ensures s.family in Families(specs)
  {
    FilterMember(specs, Unblocked(Families(specs), RecentFamilies(prior, cutoff)));
  }

  /** An upstream emission inside the window is seen by the chain policy. */
  lemma RecentUpstream(earlier: Run, run: Run, upstream: string)
    requires Outcome(earlier) in run.files && CoversWindow(run)
    requires earlier.repoPath == run.repoPath && earlier.insightRunId != run.insightRunId
    requires EmitsFamily(Outcome(earlier), upstream)
    ensures var cutoff := run.ctx.generatedAt - run.ctx.cooldown;
      var prior := LoadPrior(run.files, run.repoPath, run.insightRunId, run.ctx.historyLimit);
      earlier.ctx.generatedAt >= cutoff ==> upstream in RecentFamilies(prior, cutoff)
  {
    var cutoff := run.ctx.generatedAt - run.ctx.cooldown;
    if earlier.ctx.generatedAt >= cutoff {
      var a := Outcome(earlier);
      LoadsWindow(run, a);
      var c :| c in a.candidates && c.family == upstream;
      var prior := LoadPrior(earlier.files, earlier.repoPath, earlier.insightRunId, earlier.ctx.historyLimit);
      var s := CandidateFromSpec(earlier.ctx, earlier.around, prior, earlier.specs,
                                 earlier.repoPath, earlier.insightRunId, c);
      assert c.status == "emit";
    }
  }

  /** Main result: a downstream proposal is emitted only when no upstream proposal is
      emitted in the same run, and every earlier upstream emission for the repo is older
      than the cooldown. */
  lemma UpstreamFirst(runs: seq<Run>, i: nat, j: nat, downstream: string, upstream: string)
    requires History(runs) && i < j < |runs| && CoversWindow(runs[j])
    requires runs[i].repoPath == runs[j].repoPath && runs[i].insightRunId != runs[j].insightRunId
    requires upstream in Prerequisites(downstream) && EmitsFamily(Outcome(runs[j]), downstream)
    ensures !EmitsFamily(Outcome(runs[j]), upstream)
    ensures EmitsFamily(Outcome(runs[i]), upstream) ==>
      runs[j].ctx.generatedAt - runs[i].ctx.generatedAt > runs[j].ctx.cooldown
  {
    DownstreamIsUnblocked(runs[j], downstream, upstream);
    if EmitsFamily(Outcome(runs[i]), upstream) {
      EarlierIsStored(runs, i, j);
      RecentUpstream(runs[i], runs[j], upstream);
    }
  }

  /** An emitted family has a spec that is alive behind the chain gate. */
  lemma EmittedFamily(run: Run, family: string) returns (s: CandidateSpec)
    requires EmitsFamily(Outcome(run), family)
    ensures s.family == family && s in LiveSpecs(run)
  {
    hide Filter, StableSort, Picked, Eligible, Timely, ChainLive, ChainSuppressed, LoadPrior, Rejected;
    var prior := LoadPrior(run.files, run.repoPath, run.insightRunId, run.ctx.historyLimit);
    var c :| c in Outcome(run).candidates && c.family == family;
    s := CandidateFromSpec(run.ctx, run.around, prior, run.specs, run.repoPath, run.insightRunId, c);
  }

  function LiveSpecs(run: Run): seq<CandidateSpec> {
    ChainLive(Timely(run.ctx, run.around, run.specs).live,
              LoadPrior(run.files, run.repoPath, run.insightRunId, run.ctx.historyLimit),
              run.ctx.generatedAt - run.ctx.cooldown)
  }

  /** An emitted downstream proposal has no active upstream family. */
  lemma DownstreamIsUnblocked(run: Run, downstream: string, upstream: string)
    requires upstream in Prerequisites(downstream) && EmitsFamily(Outcome(run), downstream)
    ensures !EmitsFamily(Outcome(run), upstream)
    ensures upstream !in RecentFamilies(
      LoadPrior(run.files, run.repoPath, run.insightRunId, run.ctx.historyLimit),
      run.ctx.generatedAt - run.ctx.cooldown)
  {
    hide Timely, LoadPrior, ChainLive, Outcome;
    var cutoff := run.ctx.generatedAt - run.ctx.cooldown;
    var prior := LoadPrior(run.files, run.repoPath, run.insightRunId, run.ctx.historyLimit);
    var live := Timely(run.ctx, run.around, run.specs).live;
    var s := EmittedFamily(run, downstream);
    LiveIsUnblocked(live, prior, cutoff, s, upstream);
    if EmitsFamily(Outcome(run), upstream) {
      var u := EmittedFamily(run, upstream);
      LiveWasThere(live, prior, cutoff, u);
    }
  }

  lemma {:induction false} FilterInsert(s: seq<Artifact>, x: Artifact, p: Artifact -> bool)
    requires !p(x)
    ensures Filter(Insert(s, x, NewerFirst), p) == Filter(s, p)
  {
    if s != [] {
      var init, last := s[..|s| - 1], s[|s| - 1];
      assert s == init + [last];
      FilterAppend(s, x, p);
      FilterInsert(init, x, p);
      FilterAppend(Insert(init, x, NewerFirst), last, p);
    }
  }

  /** The proviso on insight runs is needed: deciding again on the same insight run, right
      after the first time, ignores the first artifact and emits every key once more. */
  lemma RerunRepeats(run: Run)
    ensures var rerun := run.(files := run.files + [Outcome(run)]);
      Outcome(rerun) == Outcome(run)
  {
    var first := Outcome(run);
    var files := run.files + [first];
    assert files[..|files| - 1] == run.files;
    FilterInsert(StableSort(run.files, NewerFirst), first, Relevant(run.repoPath, run.insightRunId));
  }
}
