/**
 The greedy selection is optimal.

 One candidate per dedup key, q per family and n in total are nested quotas, because
 the key contains the family. So taking specs greedily in priority order selects as
 many as any choice that respects the quotas, each at least as urgent.
 */
module DecisionOptimality {
  import opened Text
  import opened Sequences
  import opened DecisionModel
  import opened DecisionPolicy

  function AtLeastZero(x: int): nat {
    if x < 0 then 0 else x
  }

  ghost predicate DistinctKeys(t: seq<CandidateSpec>) {
    forall i, j :: 0 <= i < j < |t| ==> DedupKey(t[i]) != DedupKey(t[j])
  }

  /** A choice among `specs` that respects every check and quota, in priority order. */
  ghost predicate Selection(cfg: PolicyConfig, prior: seq<Artifact>, now: int,
                            specs: seq<CandidateSpec>, t: seq<CandidateSpec>)
  {
    && (forall s :: s in t ==> s in specs && Eligible(cfg, prior, now, s))
    && DistinctKeys(t)
    && (forall f :: FamilyCount(t, f) <= AtLeastZero(cfg.maxCandidatesPerFamily))
    && |t| <= AtLeastZero(cfg.maxCandidates)
    && Sorted(t, SpecLeq)
  }

  ghost predicate BarFree(specs: seq<CandidateSpec>) {
    forall s :: s in specs ==> '|' !in s.family
  }

  /** The keys of one family. */
  function Of(keys: set<string>, family: string): set<string> {
    set k | k in keys && FamilyOf(k) == family
  }

  lemma SubsetSize<T>(a: set<T>, b: set<T>)
    requires a <= b
    ensures |a| <= |b|
  {
    assert b == a + (b - a);
  }

  lemma {:induction false} KeysCount(t: seq<CandidateSpec>)
    requires DistinctKeys(t)
    ensures |Keys(t)| == |t|
  {
    if t != [] {
      var init, last := t[..|t| - 1], t[|t| - 1];
      assert t == init + [last];
      KeysCount(init);
      ChooseOneMore(init, last);
    }
  }

  lemma OfOneMore(keys: set<string>, k: string, f: string)
    ensures Of(keys + {k}, f) == Of(keys, f) + (if FamilyOf(k) == f then {k} else {})
  {
  }

  /** Distinct keys are counted by their set, family by family. */
  lemma {:induction false} FamilyKeysCount(t: seq<CandidateSpec>, f: string)
    requires DistinctKeys(t) && BarFree(t)
    ensures |Of(Keys(t), f)| == FamilyCount(t, f)
  {
    if t == [] {
      assert Of(Keys(t), f) == {};
    } else {
      var init, last := t[..|t| - 1], t[|t| - 1];
      assert t == init + [last];
      FamilyKeysCount(init, f);
      ChooseOneMore(init, last);
      FamilyOfKey(last);
      assert DedupKey(last) !in Keys(init);
      OfOneMore(Keys(init), DedupKey(last), f);
      hide Keys, FamilyCount, DedupKey, FamilyOf;
    }
  }

  /** Sets of keys compare as their families do. */
  lemma {:induction false} FamilyWise(a: set<string>, b: set<string>)
    requires forall f :: |Of(a, f)| <= |Of(b, f)|
    ensures |a| <= |b|
    decreases |a|
  {
    if a != {} {
      var k :| k in a;
      var f := FamilyOf(k);
      var a', b' := a - Of(a, f), b - Of(b, f);
      assert k in Of(a, f);
      assert a == a' + Of(a, f) && b == b' + Of(b, f);
      forall g
        ensures |Of(a', g)| <= |Of(b', g)|
      {
        if g == f {
          assert Of(a', g) == {};
        } else {
          assert Of(a', g) == Of(a, g) && Of(b', g) == Of(b, g);
        }
      }
      FamilyWise(a', b');
    }
  }

  /** A longer list only adds to the selection. */
  lemma {:induction false} PickedPrefix(cfg: PolicyConfig, prior: seq<Artifact>, now: int,
                                        specs: seq<CandidateSpec>, k: nat)
    requires k <= |specs|
    ensures Picked(cfg, prior, now, specs[..k]) <= Picked(cfg, prior, now, specs)
    decreases |specs|
  {
    if k == |specs| {
      assert specs[..k] == specs;
    } else {
      var init := specs[..|specs| - 1];
      assert init[..k] == specs[..k];
      PickedPrefix(cfg, prior, now, init, k);
    }
  }

  lemma {:induction false} PickedMembers(cfg: PolicyConfig, prior: seq<Artifact>, now: int, specs: seq<CandidateSpec>)
    ensures forall s :: s in Picked(cfg, prior, now, specs) ==> s in specs && Eligible(cfg, prior, now, s)
    ensures DistinctKeys(Picked(cfg, prior, now, specs))
    ensures forall f :: FamilyCount(Picked(cfg, prior, now, specs), f) <= AtLeastZero(cfg.maxCandidatesPerFamily)
    ensures |Picked(cfg, prior, now, specs)| <= AtLeastZero(cfg.maxCandidates)
  {
    if specs != [] {
      var init, last := specs[..|specs| - 1], specs[|specs| - 1];
      PickedMembers(cfg, prior, now, init);
      ChooseOneMore(Picked(cfg, prior, now, init), last);
    }
  }

  lemma {:induction false} PickedSorted(cfg: PolicyConfig, prior: seq<Artifact>, now: int, specs: seq<CandidateSpec>)
    requires Sorted(specs, SpecLeq)
    ensures Sorted(Picked(cfg, prior, now, specs), SpecLeq)
  {
    if specs != [] {
      var init, last := specs[..|specs| - 1], specs[|specs| - 1];
      PickedSorted(cfg, prior, now, init);
      PickedMembers(cfg, prior, now, init);
      forall s | s in init
        ensures SpecLeq(s, last)
      {
        var i :| 0 <= i < |init| && init[i] == s;
        assert specs[i] == s;
      }
    }
  }

  lemma FamilyCountPrefix(t: seq<CandidateSpec>, k: nat, f: string)
    requires k <= |t|
    ensures FamilyCount(t[..k], f) <= FamilyCount(t, f)
    decreases |t|
  {
    if k == |t| {
      assert t[..k] == t;
    } else {
      var init := t[..|t| - 1];
      assert t == init + [t[|t| - 1]] && init[..k] == t[..k];
      FamilyCountPrefix(init, k, f);
      FilterAppend(init, t[|t| - 1], (s: CandidateSpec) => s.family == f);
    }
  }

  /** While no quota is reached, every eligible key of the list is taken. */
  lemma {:induction false} AllTaken(cfg: PolicyConfig, prior: seq<Artifact>, now: int,
                                    specs: seq<CandidateSpec>, s: CandidateSpec)
    requires s in specs && Eligible(cfg, prior, now, s)
    requires |Picked(cfg, prior, now, specs)| < cfg.maxCandidates
    requires FamilyCount(Picked(cfg, prior, now, specs), s.family) < cfg.maxCandidatesPerFamily
    ensures DedupKey(s) in Keys(Picked(cfg, prior, now, specs))
  {
    var init, last := specs[..|specs| - 1], specs[|specs| - 1];
    var before := Picked(cfg, prior, now, init);
    ChooseOneMore(before, last);
    if s != last {
      assert s in init;
      AllTaken(cfg, prior, now, init, s);
    }
  }

  /** No selection from a list is larger than the greedy one. */
  lemma NoLargerSelection(cfg: PolicyConfig, prior: seq<Artifact>, now: int,
                          specs: seq<CandidateSpec>, t: seq<CandidateSpec>)
    requires BarFree(specs) && Selection(cfg, prior, now, specs, t)
    ensures |t| <= |Picked(cfg, prior, now, specs)|
  {
    var g := Picked(cfg, prior, now, specs);
    PickedMembers(cfg, prior, now, specs);
    KeysCount(t);
    KeysCount(g);
    if |g| < cfg.maxCandidates {
      forall f
        ensures |Of(Keys(t), f)| <= |Of(Keys(g), f)|
      {
        FamilyKeysCount(t, f);
        FamilyKeysCount(g, f);
        if FamilyCount(g, f) < cfg.maxCandidatesPerFamily {
          forall k | k in Of(Keys(t), f)
            ensures k in Of(Keys(g), f)
          {
            var s :| s in t && DedupKey(s) == k;
            FamilyOfKey(s);
            AllTaken(cfg, prior, now, specs, s);
          }
          SubsetSize(Of(Keys(t), f), Of(Keys(g), f));
        }
      }
      FamilyWise(Keys(t), Keys(g));
    }
  }

  lemma SpecLeqOrders()
    ensures TotalPreorder(SpecLeq)
  {
    forall x: CandidateSpec, y: CandidateSpec
      ensures SpecLeq(x, y) || SpecLeq(y, x)
    {
      TextLeqTotal(x.priority.tag, y.priority.tag);
    }
    forall x: CandidateSpec, y: CandidateSpec, z: CandidateSpec | SpecLeq(x, y) && SpecLeq(y, z)
      ensures SpecLeq(x, z)
    {
      if TextLeq(x.priority.tag, y.priority.tag) && TextLeq(y.priority.tag, z.priority.tag) {
        TextLeqTransitive(x.priority.tag, y.priority.tag, z.priority.tag);
      }
    }
  }

  /** The part of a sorted list that is at least as urgent as t. */
  lemma {:induction false} UrgentPrefix(specs: seq<CandidateSpec>, t: CandidateSpec) returns (k: nat)
    requires Sorted(specs, SpecLeq)
    ensures k <= |specs|
    ensures forall s :: s in specs[..k] ==> SpecLeq(s, t)
    ensures forall s :: s in specs && SpecLeq(s, t) ==> s in specs[..k]
  {
    SpecLeqOrders();
    if specs == [] || SpecLeq(specs[|specs| - 1], t) {
      k := |specs|;
      assert specs[..k] == specs;
      forall s | s in specs
        ensures SpecLeq(s, t)
      {
        var i :| 0 <= i < |specs| && specs[i] == s;
        assert i < |specs| - 1 ==> SpecLeq(s, specs[|specs| - 1]);
      }
    } else {
      var init := specs[..|specs| - 1];
      assert specs == init + [specs[|specs| - 1]];
      k := UrgentPrefix(init, t);
      assert init[..k] == specs[..k];
    }
  }

  /** Main result: the emitted list is itself a selection, no selection is larger, and
      position by position none is more urgent. */
  lemma GreedyIsOptimal(cfg: PolicyConfig, prior: seq<Artifact>, now: int,
                        specs: seq<CandidateSpec>, t: seq<CandidateSpec>)
    requires BarFree(specs) && Selection(cfg, prior, now, specs, t)
    ensures var g := Picked(cfg, prior, now, StableSort(specs, SpecLeq));
      && Selection(cfg, prior, now, specs, g)
      && |t| <= |g|
      && forall i :: 0 <= i < |t| ==>
           var p, q := g[i].priority, t[i].priority;
           || p.major < q.major
           || (p.major == q.major && p.minor < q.minor)
           || (p.major == q.major && p.minor == q.minor && TextLeq(p.tag, q.tag))
  {
    var sorted := StableSort(specs, SpecLeq);
    var g := Picked(cfg, prior, now, sorted);
    SpecLeqOrders();
    StableSortSorts(specs, SpecLeq);
    SameBag(sorted, specs);
    PickedMembers(cfg, prior, now, sorted);
    PickedSorted(cfg, prior, now, sorted);
    NoLargerSelection(cfg, prior, now, sorted, t);
    forall i | 0 <= i < |t|
      ensures SpecLeq(g[i], t[i])
    {
      AsUrgent(cfg, prior, now, sorted, t, i);
    }
  }

  /** The emitted specs come in ascending order of their major number, then of their minor
      number, then of their tag as text. */
  lemma EmittedInOrder(cfg: PolicyConfig, prior: seq<Artifact>, now: int, specs: seq<CandidateSpec>, i: nat, j: nat)
    requires i < j < |Picked(cfg, prior, now, StableSort(specs, SpecLeq))|
    ensures var g := Picked(cfg, prior, now, StableSort(specs, SpecLeq));
      var p, q := g[i].priority, g[j].priority;
      || p.major < q.major
      || (p.major == q.major && p.minor < q.minor)
      || (p.major == q.major && p.minor == q.minor && TextLeq(p.tag, q.tag))
  {
    SpecLeqOrders();
    StableSortSorts(specs, SpecLeq);
    PickedSorted(cfg, prior, now, StableSort(specs, SpecLeq));
  }

  /** The first members of a selection are one among the specs at least as urgent. */
  lemma FirstMembers(cfg: PolicyConfig, prior: seq<Artifact>, now: int, sorted: seq<CandidateSpec>,
                     t: seq<CandidateSpec>, i: nat, k: nat)
    requires Selection(cfg, prior, now, sorted, t) && i < |t| && k <= |sorted|
    requires forall s :: s in sorted && SpecLeq(s, t[i]) ==> s in sorted[..k]
    ensures Selection(cfg, prior, now, sorted[..k], t[..i + 1])
  {
    SpecLeqOrders();
    var first := t[..i + 1];
    forall s | s in first
      ensures s in sorted[..k] && Eligible(cfg, prior, now, s)
    {
      var j :| 0 <= j < |first| && first[j] == s;
      assert t[j] == s && s in t;
      assert SpecLeq(t[i], t[i]);
      assert SpecLeq(s, t[i]);
    }
    forall f
      ensures FamilyCount(first, f) <= AtLeastZero(cfg.maxCandidatesPerFamily)
    {
      FamilyCountPrefix(t, i + 1, f);
    }
  }

  lemma AsUrgent(cfg: PolicyConfig, prior: seq<Artifact>, now: int,
                 sorted: seq<CandidateSpec>, t: seq<CandidateSpec>, i: nat)
    requires BarFree(sorted) && Sorted(sorted, SpecLeq) && Selection(cfg, prior, now, sorted, t) && i < |t|
    ensures i < |Picked(cfg, prior, now, sorted)|
    ensures SpecLeq(Picked(cfg, prior, now, sorted)[i], t[i])
  {
    var k := UrgentPrefix(sorted, t[i]);
    var h := Picked(cfg, prior, now, sorted[..k]);
    FirstMembers(cfg, prior, now, sorted, t, i, k);
    NoLargerSelection(cfg, prior, now, sorted[..k], t[..i + 1]);
    PickedPrefix(cfg, prior, now, sorted, k);
    PickedMembers(cfg, prior, now, sorted[..k]);
    assert h[i] in h;
  }
}
