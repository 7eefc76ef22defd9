/**
 Grading by vote: the single-extractor drift monitor and the cross-family panel.

 An extractor is an arbitrary function from a case and a vote to the verdict computed from
 what it extracted.
 */
module Panel {
  import opened Prelude
  import opened Sequences
  import opened Text

  /** A verdict as it is compared: the failing checks are sorted. */
  datatype Answer = Answer(result: Option<string>, failing: seq<string>)

  /** A verdict as it is computed. */
  datatype Verdict = Verdict(result: string, failing: seq<string>)

  datatype Graded = Graded(caseId: string, result: Option<string>, failing: seq<string>)

  type Extractor = (Graded, nat) -> Verdict

  function Render(v: Verdict): Answer {
    Answer(Some(v.result), StableSort(v.failing, TextLeq))
  }

  function Expected(c: Graded): Answer {
    Answer(c.result, StableSort(c.failing, TextLeq))
  }

  function Commas(parts: seq<string>): string {
    if parts == [] then ""
    else if |parts| == 1 then parts[0]
    else parts[0] + "," + Commas(parts[1..])
  }

  /** The text a verdict is tallied under. Two verdicts may share it. */
  function KeyOf(a: Answer): string {
    (if a.result.Some? then a.result.value else "None") + "|" + Commas(a.failing)
  }

  // ---- The counter ----

  /** Counts by key in the order the keys first came up, and the last answer of each key. */
  datatype Tally = Tally(order: seq<string>, counts: map<string, nat>, rendered: map<string, Answer>) {
    function Add(a: Answer): Tally {
      var k := KeyOf(a);
      if k in counts then Tally(order, counts[k := counts[k] + 1], rendered[k := a])
      else Tally(order + [k], counts[k := 1], rendered[k := a])
    }
  }

  const NO_VOTES := Tally([], map[], map[])

  function TallyOf(answers: seq<Answer>): Tally {
    if answers == [] then NO_VOTES else TallyOf(answers[..|answers| - 1]).Add(answers[|answers| - 1])
  }

  lemma TallyStep(answers: seq<Answer>, a: Answer)
    ensures TallyOf(answers + [a]) == TallyOf(answers).Add(a)
  {
    assert (answers + [a])[..|answers|] == answers;
  }

  // ---- What it counts ----

  function Votes(answers: seq<Answer>, k: string): nat {
    if answers == [] then 0
    else Votes(answers[..|answers| - 1], k) + if KeyOf(answers[|answers| - 1]) == k then 1 else 0
  }

  predicate LastOf(answers: seq<Answer>, k: string, a: Answer) {
    exists i :: 0 <= i < |answers| && answers[i] == a && KeyOf(a) == k
      && forall j :: i < j < |answers| ==> KeyOf(answers[j]) != k
  }

  /** The first vote under k comes before any under l. */
  predicate Sooner(answers: seq<Answer>, k: string, l: string) {
    exists i :: 0 <= i < |answers| && KeyOf(answers[i]) == k && forall j :: 0 <= j <= i ==> KeyOf(answers[j]) != l
  }

  /** k has the most votes, and came up before every other key with as many. */
  ghost predicate Wins(answers: seq<Answer>, k: string) {
    && Votes(answers, k) > 0
    && (forall l :: Votes(answers, l) <= Votes(answers, k))
    && (forall l :: l != k && Votes(answers, l) == Votes(answers, k) ==> Sooner(answers, k, l))
  }

  ghost predicate CountsOk(t: Tally, answers: seq<Answer>) {
    && (forall k :: k in t.counts <==> Votes(answers, k) > 0)
    && (forall k :: k in t.counts ==> t.counts[k] == Votes(answers, k))
  }

  ghost predicate RenderedOk(t: Tally, answers: seq<Answer>) {
    && (forall k :: k in t.rendered <==> k in t.counts)
    && (forall k :: k in t.rendered ==> LastOf(answers, k, t.rendered[k]))
  }

  ghost predicate OrderOk(t: Tally, answers: seq<Answer>) {
    && (forall k :: k in t.order <==> k in t.counts)
    && (forall i, j :: 0 <= i < j < |t.order| ==> Sooner(answers, t.order[i], t.order[j]))
  }

  ghost predicate Describes(t: Tally, answers: seq<Answer>) {
    CountsOk(t, answers) && RenderedOk(t, answers) && OrderOk(t, answers)
  }

  lemma VotesStep(answers: seq<Answer>, a: Answer, k: string)
    ensures Votes(answers + [a], k) == Votes(answers, k) + if KeyOf(a) == k then 1 else 0
  {
    assert (answers + [a])[..|answers|] == answers;
  }

  lemma {:induction false} SomeVote(answers: seq<Answer>, k: string)
    ensures Votes(answers, k) > 0 <==> exists i :: 0 <= i < |answers| && KeyOf(answers[i]) == k
  {
    if answers != [] {
      var init := answers[..|answers| - 1];
      assert answers == init + [answers[|answers| - 1]];
      SomeVote(init, k);
      if KeyOf(answers[|answers| - 1]) != k && Votes(answers, k) > 0 {
        var i :| 0 <= i < |init| && KeyOf(init[i]) == k;
        assert KeyOf(answers[i]) == k;
      }
    }
  }

  lemma LastOfStep(answers: seq<Answer>, a: Answer, k: string, b: Answer)
    ensures LastOf(answers + [a], KeyOf(a), a)
    ensures k != KeyOf(a) && LastOf(answers, k, b) ==> LastOf(answers + [a], k, b)
  {
    var more := answers + [a];
    assert more[|answers|] == a;
    if k != KeyOf(a) && LastOf(answers, k, b) {
      var i :| 0 <= i < |answers| && answers[i] == b && KeyOf(b) == k
        && forall j :: i < j < |answers| ==> KeyOf(answers[j]) != k;
      assert more[i] == b;
    }
  }

  lemma SoonerAppend(answers: seq<Answer>, more: seq<Answer>, k: string, l: string)
    ensures Sooner(answers, k, l) ==> Sooner(answers + more, k, l)
  {
    if Sooner(answers, k, l) {
      var i :| 0 <= i < |answers| && KeyOf(answers[i]) == k && forall j :: 0 <= j <= i ==> KeyOf(answers[j]) != l;
      assert KeyOf((answers + more)[i]) == k;
    }
  }

  /** A key that has votes is sooner than one that has none yet. */
  lemma SoonerThanNew(answers: seq<Answer>, a: Answer, k: string)
    requires Votes(answers, k) > 0 && Votes(answers, KeyOf(a)) == 0
    ensures Sooner(answers + [a], k, KeyOf(a))
  {
    SomeVote(answers, k);
    SomeVote(answers, KeyOf(a));
    var i :| 0 <= i < |answers| && KeyOf(answers[i]) == k;
    assert KeyOf((answers + [a])[i]) == k;
  }

  lemma AddCounts(t: Tally, answers: seq<Answer>, a: Answer)
    requires CountsOk(t, answers)
    ensures CountsOk(t.Add(a), answers + [a])
  {
    forall k
      ensures Votes(answers + [a], k) == Votes(answers, k) + if KeyOf(a) == k then 1 else 0
    {
      VotesStep(answers, a, k);
    }
    hide Votes, KeyOf;
  }

  lemma AddRendered(t: Tally, answers: seq<Answer>, a: Answer)
    requires RenderedOk(t, answers)
    ensures RenderedOk(t.Add(a), answers + [a])
  {
    hide LastOf, KeyOf;
    var t' := t.Add(a);
    forall k | k in t'.rendered
      ensures LastOf(answers + [a], k, t'.rendered[k])
    {
      LastOfStep(answers, a, k, t'.rendered[k]);
    }
  }

  lemma AddOrder(t: Tally, answers: seq<Answer>, a: Answer)
    requires CountsOk(t, answers) && OrderOk(t, answers)
    ensures OrderOk(t.Add(a), answers + [a])
  {
    hide Sooner, KeyOf, Votes;
    var t' := t.Add(a);
    forall i, j | 0 <= i < j < |t'.order|
      ensures Sooner(answers + [a], t'.order[i], t'.order[j])
    {
      if j < |t.order| {
        SoonerAppend(answers, [a], t.order[i], t.order[j]);
      } else {
        assert t.order[i] in t.order;
        SoonerThanNew(answers, a, t.order[i]);
      }
    }
  }

  lemma {:induction false} TallyDescribes(answers: seq<Answer>)
    ensures Describes(TallyOf(answers), answers)
  {
    if answers != [] {
      var init := answers[..|answers| - 1];
      assert answers == init + [answers[|answers| - 1]];
      TallyDescribes(init);
      hide CountsOk, RenderedOk, OrderOk;
      AddCounts(TallyOf(init), init, answers[|answers| - 1]);
      AddRendered(TallyOf(init), init, answers[|answers| - 1]);
      AddOrder(TallyOf(init), init, answers[|answers| - 1]);
    }
  }

  // ---- The winner ----

  ghost predicate Counted(t: Tally) {
    forall k :: k in t.order ==> k in t.counts
  }

  ghost function CountAt(t: Tally, i: nat): nat
    requires Counted(t) && i < |t.order|
  {
    assert t.order[i] in t.order;
    t.counts[t.order[i]]
  }

  /** `Counter.most_common(1)`: the first key, in counter order, with the highest count. */
  method MostCommon(t: Tally) returns (k: string, agree: nat, ghost b: nat)
    requires Counted(t) && t.order != []
    ensures b < |t.order| && k == t.order[b] && agree == CountAt(t, b)
    ensures forall i :: 0 <= i < |t.order| ==> CountAt(t, i) <= agree
    ensures forall i :: 0 <= i < b ==> CountAt(t, i) < agree
  {
    assert t.order[0] in t.order;
    k, agree, b := t.order[0], t.counts[t.order[0]], 0;
    for i := 1 to |t.order|
      invariant b < i && k == t.order[b] && agree == CountAt(t, b)
      invariant forall j :: 0 <= j < i ==> CountAt(t, j) <= agree
      invariant forall j :: 0 <= j < b ==> CountAt(t, j) < agree
    {
      assert t.order[i] in t.order;
      if t.counts[t.order[i]] > agree { k, agree, b := t.order[i], t.counts[t.order[i]], i; }
    }
  }

  lemma BestWins(t: Tally, answers: seq<Answer>, b: nat)
    requires Describes(t, answers) && b < |t.order|
    requires forall i :: 0 <= i < |t.order| ==> CountAt(t, i) <= CountAt(t, b)
    requires forall i :: 0 <= i < b ==> CountAt(t, i) < CountAt(t, b)
    ensures Wins(answers, t.order[b]) && CountAt(t, b) == Votes(answers, t.order[b])
  {
    hide Sooner, Votes;
    assert t.order[b] in t.order;
    forall l
      ensures Votes(answers, l) <= Votes(answers, t.order[b])
      ensures l != t.order[b] && Votes(answers, l) == Votes(answers, t.order[b]) ==> Sooner(answers, t.order[b], l)
    {
      if Votes(answers, l) > 0 {
        assert l in t.order;
        var i :| 0 <= i < |t.order| && t.order[i] == l;
        assert CountAt(t, i) == Votes(answers, l);
      }
    }
  }

  lemma WinsUnique(answers: seq<Answer>, k: string, l: string)
    requires Wins(answers, k) && Wins(answers, l)
    ensures k == l
  {
    assert k != l ==> Sooner(answers, k, l) && Sooner(answers, l, k);
  }

  lemma LastUnique(answers: seq<Answer>, k: string, a: Answer, b: Answer)
    requires LastOf(answers, k, a) && LastOf(answers, k, b)
    ensures a == b
  {
    var i :| 0 <= i < |answers| && answers[i] == a && KeyOf(a) == k
      && forall j :: i < j < |answers| ==> KeyOf(answers[j]) != k;
    var m :| 0 <= m < |answers| && answers[m] == b && KeyOf(b) == k
      && forall j :: m < j < |answers| ==> KeyOf(answers[j]) != k;
    assert i == m;
  }

  /** The majority of some votes: the winning key's last answer, and its votes. */
  ghost predicate Majority(answers: seq<Answer>, majority: Answer, agree: nat) {
    exists k :: Wins(answers, k) && LastOf(answers, k, majority) && agree == Votes(answers, k)
  }

  lemma MajorityUnique(answers: seq<Answer>, a: Answer, m: nat, b: Answer, n: nat)
    requires Majority(answers, a, m) && Majority(answers, b, n)
    ensures a == b && m == n
  {
    var k :| Wins(answers, k) && LastOf(answers, k, a) && m == Votes(answers, k);
    var l :| Wins(answers, l) && LastOf(answers, l, b) && n == Votes(answers, l);
    WinsUnique(answers, k, l);
    LastUnique(answers, k, a, b);
  }

  // ---- The winner, by counting equal answers ----

  /** No text of the answer could be taken for a separator of its key. */
  predicate Plain(a: Answer) {
    && a.result.Some? && '|' !in a.result.value
    && forall check :: check in a.failing ==> check != "" && ',' !in check
  }

  predicate AllPlain(answers: seq<Answer>) {
    forall a :: a in answers ==> Plain(a)
  }

  /** x was given n times, no other answer more often, and any other as often came up later. */
  ghost predicate MostFrequent(answers: seq<Answer>, x: Answer, n: nat) {
    && 0 < n == multiset(answers)[x]
    && (forall y :: multiset(answers)[y] <= n)
    && (forall y :: y != x && multiset(answers)[y] == n ==>
          exists i :: 0 <= i < |answers| && answers[i] == x && forall j :: 0 <= j <= i ==> answers[j] != y)
  }

  /** The text in front of the first mark of this kind. */
  lemma {:induction false} SplitOnce(a: string, x: string, b: string, y: string, mark: char)
    requires mark !in a && mark !in b && a + [mark] + x == b + [mark] + y
    ensures a == b && x == y
    decreases |a|
  {
    var s := a + [mark] + x;
    MarkInFront(a, x, mark);
    MarkInFront(b, y, mark);
    if a == "" {
      assert s[1..] == x && (b + [mark] + y)[1..] == y;
    } else {
      assert s[0] == a[0] == b[0];
      assert s[1..] == a[1..] + [mark] + x && (b + [mark] + y)[1..] == b[1..] + [mark] + y;
      SplitOnce(a[1..], x, b[1..], y, mark);
      assert a == [a[0]] + a[1..] && b == [b[0]] + b[1..];
    }
  }

  lemma MarkInFront(a: string, x: string, mark: char)
    requires mark !in a
    ensures (a + [mark] + x)[0] == mark <==> a == ""
  {
    if a != "" { assert (a + [mark] + x)[0] == a[0] && a[0] in a; }
  }

  lemma NoParts(parts: seq<string>)
    requires CommaFree(parts)
    ensures Commas(parts) == "" <==> parts == []
  {
    if parts != [] { assert parts[0] in parts; }
  }

  lemma HasComma(parts: seq<string>)
    requires CommaFree(parts) && parts != []
    ensures ',' in Commas(parts) <==> |parts| > 1
  {
    assert parts[0] in parts;
    if |parts| > 1 { assert Commas(parts)[|parts[0]|] == ','; }
  }

  predicate CommaFree(parts: seq<string>) {
    forall p :: p in parts ==> p != "" && ',' !in p
  }

  lemma {:induction false} CommasIdentify(a: seq<string>, b: seq<string>)
    requires CommaFree(a) && CommaFree(b) && Commas(a) == Commas(b)
    ensures a == b
    decreases |a|
  {
    if a == [] || b == [] {
      NoParts(a);
      NoParts(b);
    } else {
      assert a[0] in a && b[0] in b;
      assert forall p :: p in a[1..] ==> p in a;
      assert forall p :: p in b[1..] ==> p in b;
      assert CommaFree(a[1..]) && CommaFree(b[1..]);
      if |a| == 1 || |b| == 1 {
        HasComma(a);
        HasComma(b);
      } else {
        assert Commas(a) == a[0] + [','] + Commas(a[1..]) && Commas(b) == b[0] + [','] + Commas(b[1..]);
        SplitOnce(a[0], Commas(a[1..]), b[0], Commas(b[1..]), ',');
        CommasIdentify(a[1..], b[1..]);
        assert a == [a[0]] + a[1..] && b == [b[0]] + b[1..];
      }
    }
  }

  /** Plain answers share a key only when they are equal. */
  lemma KeyIdentifies(a: Answer, b: Answer)
    requires Plain(a) && Plain(b) && KeyOf(a) == KeyOf(b)
    ensures a == b
  {
    assert KeyOf(a) == a.result.value + ['|'] + Commas(a.failing);
    assert KeyOf(b) == b.result.value + ['|'] + Commas(b.failing);
    SplitOnce(a.result.value, Commas(a.failing), b.result.value, Commas(b.failing), '|');
    CommasIdentify(a.failing, b.failing);
  }

  lemma {:induction false} VotesAreCounts(answers: seq<Answer>, x: Answer)
    requires AllPlain(answers) && Plain(x)
    ensures Votes(answers, KeyOf(x)) == multiset(answers)[x]
  {
    if answers != [] {
      var init, last := answers[..|answers| - 1], answers[|answers| - 1];
      assert answers == init + [last] && last in answers;
      VotesAreCounts(init, x);
      if KeyOf(last) == KeyOf(x) { KeyIdentifies(last, x); }
      hide KeyOf, Plain;
    }
  }

  /** Main result: of plain votes, the reported majority is the answer given most often, its
      agreement is how often, and of equally frequent ones it is the first that came up. */
  lemma MajorityIsMostFrequent(answers: seq<Answer>, x: Answer, n: nat)
    requires AllPlain(answers) && Majority(answers, x, n)
    ensures MostFrequent(answers, x, n)
  {
    var k :| Wins(answers, k) && LastOf(answers, k, x) && n == Votes(answers, k);
    LastOfKey(answers, k, x);
    assert x in answers && Plain(x);
    VotesAreCounts(answers, x);
    forall y
      ensures multiset(answers)[y] <= n
      ensures y != x && multiset(answers)[y] == n ==>
        exists i :: 0 <= i < |answers| && answers[i] == x && forall j :: 0 <= j <= i ==> answers[j] != y
    {
      if multiset(answers)[y] > 0 {
        assert y in answers && Plain(y);
        VotesAreCounts(answers, y);
        if y != x && multiset(answers)[y] == n { EarlierAnswer(answers, x, y); }
      }
    }
  }

  lemma EarlierAnswer(answers: seq<Answer>, x: Answer, y: Answer)
    requires AllPlain(answers) && Plain(x) && Plain(y) && x != y && Wins(answers, KeyOf(x))
    requires Votes(answers, KeyOf(y)) == Votes(answers, KeyOf(x))
    ensures exists i :: 0 <= i < |answers| && answers[i] == x && forall j :: 0 <= j <= i ==> answers[j] != y
  {
    if KeyOf(x) == KeyOf(y) { KeyIdentifies(x, y); }
    assert Sooner(answers, KeyOf(x), KeyOf(y));
    var i :| 0 <= i < |answers| && KeyOf(answers[i]) == KeyOf(x)
      && forall j :: 0 <= j <= i ==> KeyOf(answers[j]) != KeyOf(y);
    assert answers[i] in answers;
    KeyIdentifies(answers[i], x);
  }

  /** Two answers that share a key are tallied as one, and shown as the later one. */
  lemma SharedKeyMerges(a: Answer, b: Answer)
    requires KeyOf(a) == KeyOf(b)
    ensures Majority([a, b, b], b, 3)
  {
    var k := KeyOf(b);
    assert [a, b, b] == [a] + [b] + [b] && [a] == [] + [a];
    forall l
      ensures Votes([a, b, b], l) == if l == k then 3 else 0
    {
      VotesStep([], a, l);
      VotesStep([a], b, l);
      VotesStep([a] + [b], b, l);
      NoVotes(l);
    }
    hide Votes, KeyOf;
    assert [a, b, b][2] == b && LastOf([a, b, b], k, b);
    assert Wins([a, b, b], k);
  }

  /** Without that, different verdicts can be tallied as one: a check named with a comma
      counts as two checks. */
  lemma CommasMerge()
    ensures exists a, b :: a != b && Majority([a, b, b], b, 3)
  {
    var a, b := Answer(Some("fail"), ["x", "y"]), Answer(Some("fail"), ["x,y"]);
    assert ["x", "y"][1..] == ["y"];
    assert Commas(["x", "y"]) == "x" + "," + "y" == "x,y" == Commas(["x,y"]);
    SharedKeyMerges(a, b);
  }

  // ---- The single monitor ----

  method MajorityOf(t: Tally, ghost answers: seq<Answer>) returns (majority: Answer, agree: nat)
    requires t == TallyOf(answers) && answers != []
    ensures Majority(answers, majority, agree)
    ensures AllPlain(answers) ==> MostFrequent(answers, majority, agree)
  {
    TallyDescribes(answers);
    assert KeyOf(answers[0]) in t.order by { SomeVote(answers, KeyOf(answers[0])); }
    hide Votes, Sooner, LastOf;
    var k, n, b := MostCommon(t);
    BestWins(t, answers, b);
    assert t.order[b] in t.order;
    majority, agree := t.rendered[k], n;
    if AllPlain(answers) { MajorityIsMostFrequent(answers, majority, agree); }
  }

  /** The votes of one extractor on one case. */
  function VotesOf(x: Extractor, c: Graded, votes: nat): (r: seq<Answer>)
    ensures |r| == votes
  {
    if votes == 0 then [] else VotesOf(x, c, votes - 1) + [Render(x(c, votes - 1))]
  }

  datatype DriftResult = DriftResult(
    caseId: string, expected: Answer, majority: Answer, agreeVotes: nat, totalVotes: nat, drifted: bool)

  datatype MonitorError = VotesBelowOne | NoFamilies

  ghost predicate Reports(c: Graded, answers: seq<Answer>, r: DriftResult) {
    && r.caseId == c.caseId && r.expected == Expected(c) && r.totalVotes == |answers|
    && Majority(answers, r.majority, r.agreeVotes)
    && (AllPlain(answers) ==> MostFrequent(answers, r.majority, r.agreeVotes))
    && (r.drifted <==> r.majority != r.expected)
  }

  /** `run_drift_monitor`. */
  method RunDriftMonitor(cases: seq<Graded>, x: Extractor, votes: int)
    returns (r: Result<seq<DriftResult>, MonitorError>)
    ensures r.Err? <==> votes < 1
    ensures r.Ok? ==> |r.value| == |cases|
    ensures r.Ok? ==> forall i :: 0 <= i < |cases| ==> Reports(cases[i], VotesOf(x, cases[i], votes), r.value[i])
  {
    if votes < 1 { return Err(VotesBelowOne); }
    var out: seq<DriftResult> := [];
    for i := 0 to |cases|
      invariant |out| == i
      invariant forall j :: 0 <= j < i ==> Reports(cases[j], VotesOf(x, cases[j], votes), out[j])
    {
      var c, tally := cases[i], NO_VOTES;
      for v := 0 to votes
        invariant tally == TallyOf(VotesOf(x, c, v))
      {
        TallyStep(VotesOf(x, c, v), Render(x(c, v)));
        tally := tally.Add(Render(x(c, v)));
      }
      var majority, agree := MajorityOf(tally, VotesOf(x, c, votes));
      var expected := Expected(c);
      out := out + [DriftResult(c.caseId, expected, majority, agree, votes, majority != expected)];
    }
    return Ok(out);
  }

  /** The order of names in which a verdict's failing checks are listed. */
  ghost predicate ByCodePoint(names: seq<string>) {
    forall i, j :: 0 <= i < j < |names| ==> BeforeOrSame(names[i], names[j])
  }

  /** b begins with a, or has the larger code point at their first difference. */
  ghost predicate BeforeOrSame(a: string, b: string) {
    a <= b || exists k :: 0 <= k < |a| && k < |b| && a[..k] == b[..k] && a[k] < b[k]
  }

  lemma SortedNames(names: seq<string>)
    ensures multiset(StableSort(names, TextLeq)) == multiset(names) && ByCodePoint(StableSort(names, TextLeq))
  {
    TextLeqOrders();
    StableSortSorts(names, TextLeq);
    var sorted := StableSort(names, TextLeq);
    forall i, j | 0 <= i < j < |sorted|
      ensures BeforeOrSame(sorted[i], sorted[j])
    {
      TextLeqExactly(sorted[i], sorted[j]);
    }
  }

  lemma TextLeqOrders()
    ensures TotalPreorder(TextLeq)
  {
    forall x, y
      ensures TextLeq(x, y) || TextLeq(y, x)
    {
      TextLeqTotal(x, y);
    }
    forall x, y, z | TextLeq(x, y) && TextLeq(y, z)
      ensures TextLeq(x, z)
    {
      TextLeqTransitive(x, y, z);
    }
  }

  /** The v-th vote is the extractor's v-th verdict, and the answer expected is the signed
      one, each with its failing checks in code-point order. */
  lemma {:induction false} VotesTell(x: Extractor, c: Graded, votes: nat, v: nat)
    requires v < votes
    ensures var vote, verdict := VotesOf(x, c, votes)[v], x(c, v);
      && vote.result == Some(verdict.result)
      && multiset(vote.failing) == multiset(verdict.failing) && ByCodePoint(vote.failing)
    ensures Expected(c).result == c.result
    ensures multiset(Expected(c).failing) == multiset(c.failing) && ByCodePoint(Expected(c).failing)
    decreases votes
  {
    SortedNames(c.failing);
    if v == votes - 1 {
      SortedNames(x(c, v).failing);
    } else {
      VotesTell(x, c, votes - 1, v);
    }
  }

  // ---- The panel ----

  datatype Family = Family(name: string, extractor: Extractor)

  datatype FamilyResult = FamilyResult(name: string, majority: Answer, agreeVotes: nat, totalVotes: nat)

  datatype PanelResult = PanelResult(overall: DriftResult, perFamily: seq<FamilyResult>)

  /** The votes of all families one after another. */
  function Pooled(families: seq<Family>, c: Graded, votes: nat): (r: seq<Answer>)
    ensures |r| == votes * |families|
  {
    if families == [] then []
    else
      Pooled(families[..|families| - 1], c, votes) + VotesOf(families[|families| - 1].extractor, c, votes)
  }

  ghost predicate FamilyReports(c: Graded, f: Family, votes: nat, r: FamilyResult) {
    var answers := VotesOf(f.extractor, c, votes);
    && r.name == f.name && r.totalVotes == votes && Majority(answers, r.majority, r.agreeVotes)
    && (AllPlain(answers) ==> MostFrequent(answers, r.majority, r.agreeVotes))
  }

  ghost predicate PanelReports(c: Graded, families: seq<Family>, votes: nat, r: PanelResult) {
    && r.overall.caseId == c.caseId && r.overall.expected == Expected(c)
    && r.overall.totalVotes == votes * |families|
    && Majority(Pooled(families, c, votes), r.overall.majority, r.overall.agreeVotes)
    && (AllPlain(Pooled(families, c, votes)) ==>
          MostFrequent(Pooled(families, c, votes), r.overall.majority, r.overall.agreeVotes))
    && |r.perFamily| == |families|
    && (forall i :: 0 <= i < |families| ==> FamilyReports(c, families[i], votes, r.perFamily[i]))
    && (r.overall.drifted <==> exists i :: 0 <= i < |families| && r.perFamily[i].majority != Expected(c))
  }

  /** The pool holds every family's votes, behind those of the families before it. */
  lemma {:induction false} PooledTell(families: seq<Family>, c: Graded, votes: nat, f: nat)
    requires f < |families|
    ensures Pooled(families[..f], c, votes) + VotesOf(families[f].extractor, c, votes) <= Pooled(families, c, votes)
    decreases |families|
  {
    var n := |families| - 1;
    if f < n {
      assert families[..n][..f] == families[..f];
      PooledTell(families[..n], c, votes, f);
    }
  }

  lemma PooledStep(families: seq<Family>, i: nat, c: Graded, votes: nat)
    requires i < |families|
    ensures Pooled(families[..i + 1], c, votes)
         == Pooled(families[..i], c, votes) + VotesOf(families[i].extractor, c, votes)
  {
    assert families[..i + 1][..i] == families[..i];
  }

  /** One more vote of a family, in its own tally and in the pool. */
  lemma VoteStep(x: Extractor, c: Graded, v: nat, before: seq<Answer>)
    ensures TallyOf(VotesOf(x, c, v + 1)) == TallyOf(VotesOf(x, c, v)).Add(Render(x(c, v)))
    ensures TallyOf(before + VotesOf(x, c, v + 1)) == TallyOf(before + VotesOf(x, c, v)).Add(Render(x(c, v)))
  {
    hide TallyOf, Render;
    var answer := Render(x(c, v));
    TallyStep(VotesOf(x, c, v), answer);
    TallyStep(before + VotesOf(x, c, v), answer);
    assert before + (VotesOf(x, c, v) + [answer]) == before + VotesOf(x, c, v) + [answer];
  }

  lemma FirstTally(x: Extractor, c: Graded, before: seq<Answer>)
    ensures TallyOf(VotesOf(x, c, 0)) == NO_VOTES && before + VotesOf(x, c, 0) == before
  {
  }

  /** One family's votes on one case, counted for itself and into the pool. */
  method Poll(f: Family, c: Graded, votes: nat, pool: Tally, ghost before: seq<Answer>)
    returns (r: FamilyResult, pool': Tally)
    requires votes >= 1 && pool == TallyOf(before)
    ensures FamilyReports(c, f, votes, r)
    ensures pool' == TallyOf(before + VotesOf(f.extractor, c, votes))
  {
    hide TallyOf, VotesOf, Majority, Render;
    var tally := NO_VOTES;
    pool' := pool;
    FirstTally(f.extractor, c, before);
    for v := 0 to votes
      invariant tally == TallyOf(VotesOf(f.extractor, c, v))
      invariant pool' == TallyOf(before + VotesOf(f.extractor, c, v))
    {
      var answer := Render(f.extractor(c, v));
      VoteStep(f.extractor, c, v, before);
      tally, pool' := tally.Add(answer), pool'.Add(answer);
    }
    var majority, agree := MajorityOf(tally, VotesOf(f.extractor, c, votes));
    r := FamilyResult(f.name, majority, agree, votes);
  }

  method GradeCase(c: Graded, families: seq<Family>, votes: nat) returns (r: PanelResult)
    requires votes >= 1 && families != []
    ensures PanelReports(c, families, votes, r)
  {
    hide Majority, TallyOf, MostFrequent, AllPlain, VotesOf;
    var perFamily: seq<FamilyResult> := [];
    var pool, drifted, expected := NO_VOTES, false, Expected(c);
    assert TallyOf([]) == NO_VOTES by { EmptyTally(); }
    for i := 0 to |families|
      invariant |perFamily| == i
      invariant forall j :: 0 <= j < i ==> FamilyReports(c, families[j], votes, perFamily[j])
      invariant pool == TallyOf(Pooled(families[..i], c, votes))
      invariant drifted <==> exists j :: 0 <= j < i && perFamily[j].majority != expected
    {
      var one: FamilyResult;
      PooledStep(families, i, c, votes);
      one, pool := Poll(families[i], c, votes, pool, Pooled(families[..i], c, votes));
      drifted := drifted || one.majority != expected;
      perFamily := perFamily + [one];
    }
    assert families[..|families|] == families;
    PooledSome(families, c, votes);
    var majority, agree := MajorityOf(pool, Pooled(families, c, votes));
    r := PanelResult(DriftResult(c.caseId, expected, majority, agree, votes * |families|, drifted), perFamily);
  }

  lemma EmptyTally()
    ensures TallyOf([]) == NO_VOTES
  {
  }

  lemma PooledSome(families: seq<Family>, c: Graded, votes: nat)
    requires votes >= 1 && families != []
    ensures Pooled(families, c, votes) != []
  {
    assert |VotesOf(families[|families| - 1].extractor, c, votes)| >= 1;
  }

  /** `run_panel_drift_monitor`. */
  method RunPanelDriftMonitor(cases: seq<Graded>, families: seq<Family>, votes: int)
    returns (r: Result<seq<PanelResult>, MonitorError>)
    ensures votes < 1 ==> r == Err(VotesBelowOne)
    ensures votes >= 1 && families == [] ==> r == Err(NoFamilies)
    ensures votes >= 1 && families != [] ==>
      && r.Ok? && |r.value| == |cases|
      && forall i :: 0 <= i < |cases| ==> PanelReports(cases[i], families, votes, r.value[i])
  {
    hide PanelReports;
    if votes < 1 { return Err(VotesBelowOne); }
    if families == [] { return Err(NoFamilies); }
    var out: seq<PanelResult> := [];
    for i := 0 to |cases|
      invariant |out| == i
      invariant forall j :: 0 <= j < i ==> PanelReports(cases[j], families, votes, out[j])
    {
      var one := GradeCase(cases[i], families, votes);
      out := out + [one];
    }
    return Ok(out);
  }

  // ---- The panel against the single monitor ----

  /** Main result: the panel flags a case exactly when some family's monitor, run alone,
      flags it. */
  lemma PanelFlagsExactly(c: Graded, families: seq<Family>, votes: nat, r: PanelResult, alone: seq<DriftResult>)
    requires PanelReports(c, families, votes, r) && |alone| == |families|
    requires forall i :: 0 <= i < |families| ==> Reports(c, VotesOf(families[i].extractor, c, votes), alone[i])
    ensures r.overall.drifted <==> exists i :: 0 <= i < |families| && alone[i].drifted
  {
    hide Majority;
    forall i | 0 <= i < |families|
      ensures alone[i].drifted <==> r.perFamily[i].majority != Expected(c)
    {
      assert FamilyReports(c, families[i], votes, r.perFamily[i]);
      MajorityUnique(VotesOf(families[i].extractor, c, votes), alone[i].majority, alone[i].agreeVotes,
                     r.perFamily[i].majority, r.perFamily[i].agreeVotes);
    }
  }

  lemma {:induction false} VotesAppend(a: seq<Answer>, b: seq<Answer>, k: string)
    ensures Votes(a + b, k) == Votes(a, k) + Votes(b, k)
    decreases |b|
  {
    if b == [] {
      assert a + b == a;
    } else {
      var n := |b| - 1;
      assert a + b == (a + b[..n]) + [b[n]] && b == b[..n] + [b[n]];
      VotesStep(a + b[..n], b[n], k);
      VotesAppend(a, b[..n], k);
    }
  }

  function FamilyVotes(families: seq<Family>, c: Graded, votes: nat, k: string): nat {
    if families == [] then 0
    else
      FamilyVotes(families[..|families| - 1], c, votes, k)
      + Votes(VotesOf(families[|families| - 1].extractor, c, votes), k)
  }

  lemma NoVotes(k: string)
    ensures Votes([], k) == 0
  {
  }

  /** The pooled tally is the sum of the families' tallies, at least each of them. */
  lemma {:induction false} PooledIsSum(families: seq<Family>, c: Graded, votes: nat, k: string)
    ensures Votes(Pooled(families, c, votes), k) == FamilyVotes(families, c, votes, k)
    ensures forall i :: 0 <= i < |families| ==>
      Votes(VotesOf(families[i].extractor, c, votes), k) <= Votes(Pooled(families, c, votes), k)
  {
    hide Votes, VotesOf;
    if families == [] {
      NoVotes(k);
    } else {
      var init, last := families[..|families| - 1], families[|families| - 1];
      PooledIsSum(init, c, votes, k);
      VotesAppend(Pooled(init, c, votes), VotesOf(last.extractor, c, votes), k);
      forall i | 0 <= i < |families|
        ensures Votes(VotesOf(families[i].extractor, c, votes), k) <= Votes(Pooled(families, c, votes), k)
      {
        assert i < |init| ==> families[i] == init[i];
      }
    }
  }

  /** Pooled agreement is at least every family's own. */
  lemma PooledAgreement(c: Graded, families: seq<Family>, votes: nat, r: PanelResult, i: nat)
    requires PanelReports(c, families, votes, r) && i < |families|
    ensures r.overall.agreeVotes >= r.perFamily[i].agreeVotes
  {
    var answers, pool := VotesOf(families[i].extractor, c, votes), Pooled(families, c, votes);
    assert FamilyReports(c, families[i], votes, r.perFamily[i]);
    var k :| Wins(answers, k) && LastOf(answers, k, r.perFamily[i].majority)
      && r.perFamily[i].agreeVotes == Votes(answers, k);
    var l :| Wins(pool, l) && LastOf(pool, l, r.overall.majority) && r.overall.agreeVotes == Votes(pool, l);
    PooledIsSum(families, c, votes, k);
  }

  /** A panel of one family returns the single monitor's report, ties included. */
  lemma OneFamilyPanel(c: Graded, f: Family, votes: nat, r: PanelResult, alone: DriftResult)
    requires PanelReports(c, [f], votes, r) && Reports(c, VotesOf(f.extractor, c, votes), alone)
    ensures r.overall == alone
  {
    hide Majority;
    assert [f][..0] == [];
    assert Pooled([f], c, votes) == [] + VotesOf(f.extractor, c, votes) == VotesOf(f.extractor, c, votes);
    MajorityUnique(Pooled([f], c, votes), r.overall.majority, r.overall.agreeVotes, alone.majority, alone.agreeVotes);
    PanelFlagsExactly(c, [f], votes, r, [alone]);
    assert [alone][0] == alone;
  }

  /** A key that wins two polls wins them pooled. */
  lemma WinsBoth(a: seq<Answer>, b: seq<Answer>, k: string)
    requires Wins(a, k) && Wins(b, k)
    ensures Wins(a + b, k)
  {
    VotesAppend(a, b, k);
    forall l
      ensures Votes(a + b, l) <= Votes(a + b, k)
      ensures l != k && Votes(a + b, l) == Votes(a + b, k) ==> Sooner(a + b, k, l)
    {
      VotesAppend(a, b, l);
      SoonerAppend(a, b, k, l);
    }
  }

  lemma LastOfAppend(a: seq<Answer>, b: seq<Answer>, k: string, x: Answer)
    requires LastOf(b, k, x)
    ensures LastOf(a + b, k, x)
  {
    var i :| 0 <= i < |b| && b[i] == x && KeyOf(x) == k && forall j :: i < j < |b| ==> KeyOf(b[j]) != k;
    assert (a + b)[|a| + i] == x;
    assert forall j :: |a| + i < j < |a + b| ==> (a + b)[j] == b[j - |a|];
  }

  /** x is the majority of these votes. */
  ghost predicate MajorityIs(answers: seq<Answer>, x: Answer) {
    Wins(answers, KeyOf(x)) && LastOf(answers, KeyOf(x), x)
  }

  lemma MajorityIsExactly(answers: seq<Answer>, x: Answer)
    ensures MajorityIs(answers, x) <==> exists n :: Majority(answers, x, n)
    ensures MajorityIs(answers, x) ==> Majority(answers, x, Votes(answers, KeyOf(x)))
  {
    hide Wins, Votes, KeyOf;
    if n :| Majority(answers, x, n) {
      var k :| Wins(answers, k) && LastOf(answers, k, x) && n == Votes(answers, k);
      LastOfKey(answers, k, x);
    }
    assert MajorityIs(answers, x) ==> Majority(answers, x, Votes(answers, KeyOf(x)));
  }

  lemma LastOfKey(answers: seq<Answer>, k: string, x: Answer)
    requires LastOf(answers, k, x)
    ensures k == KeyOf(x)
  {
  }

  lemma {:induction false} AllAgree(families: seq<Family>, c: Graded, votes: nat, x: Answer)
    requires families != []
    requires forall i :: 0 <= i < |families| ==> MajorityIs(VotesOf(families[i].extractor, c, votes), x)
    ensures MajorityIs(Pooled(families, c, votes), x)
  {
    hide Wins, LastOf, VotesOf, KeyOf;
    var init, last := families[..|families| - 1], families[|families| - 1];
    var answers, k := VotesOf(last.extractor, c, votes), KeyOf(x);
    if init == [] {
      assert Pooled(init, c, votes) == [] && [] + answers == answers;
    } else {
      assert forall i :: 0 <= i < |init| ==> init[i] == families[i];
      AllAgree(init, c, votes, x);
      WinsBoth(Pooled(init, c, votes), answers, k);
      LastOfAppend(Pooled(init, c, votes), answers, k, x);
    }
  }

  /** Main result: when no family drifts, the pooled majority is the signed answer too,
      whatever the ties. */
  lemma UndriftedPanel(c: Graded, families: seq<Family>, votes: nat, r: PanelResult)
    requires PanelReports(c, families, votes, r) && families != [] && !r.overall.drifted
    ensures r.overall.majority == Expected(c)
  {
    hide Majority, MajorityIs, VotesOf, Pooled, Votes, Expected;
    var x := Expected(c);
    forall i | 0 <= i < |families|
      ensures MajorityIs(VotesOf(families[i].extractor, c, votes), x)
    {
      assert FamilyReports(c, families[i], votes, r.perFamily[i]) && r.perFamily[i].majority == x;
      MajorityIsExactly(VotesOf(families[i].extractor, c, votes), x);
    }
    AllAgree(families, c, votes, x);
    var pool := Pooled(families, c, votes);
    MajorityIsExactly(pool, x);
    MajorityUnique(pool, x, Votes(pool, KeyOf(x)), r.overall.majority, r.overall.agreeVotes);
  }
}
