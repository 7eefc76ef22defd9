/** Filtering and stable sorting of sequences, as the list operations of the program do them. */
module Sequences {

  /** The elements that satisfy p, in order. */
  function Filter<T>(s: seq<T>, p: T -> bool): seq<T> {
    if s == [] then []
    else
      var init, last := s[..|s| - 1], s[|s| - 1];
      if p(last) then Filter(init, p) + [last] else Filter(init, p)
  }

  function Map<T, U>(s: seq<T>, f: T -> U): (r: seq<U>)
    ensures |r| == |s|
    ensures forall i :: 0 <= i < |s| ==> r[i] == f(s[i])
  {
    seq(|s|, i requires 0 <= i < |s| => f(s[i]))
  }

  lemma {:induction false} FilterMember<T(!new)>(s: seq<T>, p: T -> bool)
    ensures forall x :: x in Filter(s, p) <==> x in s && p(x)
  {
    if s != [] {
      assert s == s[..|s| - 1] + [s[|s| - 1]];
      FilterMember(s[..|s| - 1], p);
    }
  }

  lemma FilterAppend<T(!new)>(s: seq<T>, x: T, p: T -> bool)
    ensures Filter(s + [x], p) == if p(x) then Filter(s, p) + [x] else Filter(s, p)
  {
    assert (s + [x])[..|s + [x]| - 1] == s;
  }

  lemma MapAppend<T, U>(s: seq<T>, x: T, f: T -> U)
    ensures Map(s + [x], f) == Map(s, f) + [f(x)]
  {
  }

  /** The loop forms of the two: one more element of s has been visited. */
  lemma FilterStep<T(!new)>(s: seq<T>, i: nat, p: T -> bool)
    requires i < |s|
    ensures Filter(s[..i + 1], p) == if p(s[i]) then Filter(s[..i], p) + [s[i]] else Filter(s[..i], p)
  {
    assert s[..i + 1] == s[..i] + [s[i]];
    FilterAppend(s[..i], s[i], p);
  }

  lemma FilterMapStep<T(!new), U>(s: seq<T>, i: nat, p: T -> bool, f: T -> U)
    requires i < |s|
    ensures Map(Filter(s[..i + 1], p), f)
         == if p(s[i]) then Map(Filter(s[..i], p), f) + [f(s[i])] else Map(Filter(s[..i], p), f)
  {
    FilterStep(s, i, p);
    MapAppend(Filter(s[..i], p), s[i], f);
  }

  lemma WholeSlice<T>(s: seq<T>)
    ensures s[..|s|] == s
  {
  }

  /** Splitting by a test loses nothing and invents nothing. */
  lemma {:induction false} FilterSplits<T(!new)>(s: seq<T>, p: T -> bool, q: T -> bool)
    requires forall x :: q(x) == !p(x)
    ensures multiset(Filter(s, p)) + multiset(Filter(s, q)) == multiset(s)
  {
    if s != [] {
      var init, last := s[..|s| - 1], s[|s| - 1];
      assert s == init + [last];
      FilterSplits(init, p, q);
    }
  }

  /** The relation orders any two elements, and consistently. */
  ghost predicate TotalPreorder<T(!new)>(leq: (T, T) -> bool) {
    && (forall x, y :: leq(x, y) || leq(y, x))
    && (forall x, y, z :: leq(x, y) && leq(y, z) ==> leq(x, z))
  }

  ghost predicate Sorted<T(!new)>(s: seq<T>, leq: (T, T) -> bool) {
    forall i, j :: 0 <= i < j < |s| ==> leq(s[i], s[j])
  }

  /** x goes behind everything it does not have to precede. */
  function Insert<T>(s: seq<T>, x: T, leq: (T, T) -> bool): seq<T> {
    if s == [] then [x]
    else if leq(s[|s| - 1], x) then s + [x]
    else Insert(s[..|s| - 1], x, leq) + [s[|s| - 1]]
  }

  /** The language's stable sort, as insertion sort. */
  function StableSort<T>(s: seq<T>, leq: (T, T) -> bool): seq<T> {
    if s == [] then [] else Insert(StableSort(s[..|s| - 1], leq), s[|s| - 1], leq)
  }

  lemma {:induction false} InsertBag<T(!new)>(s: seq<T>, x: T, leq: (T, T) -> bool)
    ensures multiset(Insert(s, x, leq)) == multiset(s) + multiset{x}
    ensures forall y :: y in Insert(s, x, leq) ==> y in s || y == x
  {
    if s != [] {
      assert s == s[..|s| - 1] + [s[|s| - 1]];
      InsertBag(s[..|s| - 1], x, leq);
    }
  }

  /** A sorted list stays sorted when something no smaller than its last comes behind it. */
  lemma SortedAppend<T(!new)>(s: seq<T>, x: T, leq: (T, T) -> bool)
    requires Sorted(s, leq) && forall y :: y in s ==> leq(y, x)
    ensures Sorted(s + [x], leq)
  {
  }

  lemma {:induction false} InsertSorted<T(!new)>(s: seq<T>, x: T, leq: (T, T) -> bool)
    requires TotalPreorder(leq) && Sorted(s, leq)
    ensures Sorted(Insert(s, x, leq), leq)
    ensures multiset(Insert(s, x, leq)) == multiset(s) + multiset{x}
  {
    InsertBag(s, x, leq);
    if s != [] {
      var init, last := s[..|s| - 1], s[|s| - 1];
      assert s == init + [last];
      assert forall y :: y in init ==> leq(y, last);
      if leq(last, x) {
        assert forall y :: y in s ==> leq(y, x);
        SortedAppend(s, x, leq);
      } else {
        InsertSorted(init, x, leq);
        InsertBag(init, x, leq);
        SortedAppend(Insert(init, x, leq), last, leq);
      }
    }
  }

  lemma {:induction false} StableSortSorts<T(!new)>(s: seq<T>, leq: (T, T) -> bool)
    requires TotalPreorder(leq)
    ensures Sorted(StableSort(s, leq), leq)
    ensures multiset(StableSort(s, leq)) == multiset(s)
    ensures |StableSort(s, leq)| == |s|
  {
    if s != [] {
      assert s == s[..|s| - 1] + [s[|s| - 1]];
      StableSortSorts(s[..|s| - 1], leq);
      InsertSorted(StableSort(s[..|s| - 1], leq), s[|s| - 1], leq);
    }
    SameBag(StableSort(s, leq), s);
  }

  lemma SameBag<T(!new)>(a: seq<T>, b: seq<T>)
    requires multiset(a) == multiset(b)
    ensures |a| == |b|
    ensures forall x :: x in a <==> x in b
  {
    assert |multiset(a)| == |a| && |multiset(b)| == |b|;
    assert forall x :: x in a <==> x in multiset(a);
    assert forall x :: x in b <==> x in multiset(b);
  }

  /** Elements that rank alike with e. */
  predicate Alike<T>(leq: (T, T) -> bool, e: T, x: T) {
    leq(e, x) && leq(x, e)
  }

  lemma {:induction false} InsertStable<T(!new)>(s: seq<T>, x: T, leq: (T, T) -> bool, e: T)
    requires TotalPreorder(leq)
    ensures Filter(Insert(s, x, leq), y => Alike(leq, e, y)) == Filter(s + [x], y => Alike(leq, e, y))
  {
    var p := y => Alike(leq, e, y);
    FilterAppend(s, x, p);
    if s != [] && !leq(s[|s| - 1], x) {
      var init, last := s[..|s| - 1], s[|s| - 1];
      assert s == init + [last];
      InsertStable(init, x, leq, e);
      FilterAppend(init, x, p);
      FilterAppend(init, last, p);
      FilterAppend(Insert(init, x, leq), last, p);
      assert !(p(x) && p(last));
    } else if s == [] {
      assert s + [x] == [x];
    }
  }

  /** Elements that rank alike keep their order. */
  lemma {:induction false} StableSortStable<T(!new)>(s: seq<T>, leq: (T, T) -> bool, e: T)
    requires TotalPreorder(leq)
    ensures Filter(StableSort(s, leq), y => Alike(leq, e, y)) == Filter(s, y => Alike(leq, e, y))
  {
    if s != [] {
      var p := y => Alike(leq, e, y);
      var init, last := s[..|s| - 1], s[|s| - 1];
      assert s == init + [last];
      StableSortStable(init, leq, e);
      InsertStable(StableSort(init, leq), last, leq, e);
      FilterAppend(StableSort(init, leq), last, p);
      FilterAppend(init, last, p);
    }
  }
}
