/** Benjamini-Hochberg selection and the greedy correlation filter. */
module Selection {
  import opened Wrappers
  import Evaluator
  import Sequences
  import Sorting

  datatype SelectionError = InvalidPValues | InvalidThreshold

  /** The rank-k threshold among m tests. */
  function Threshold(alpha: real, k: nat, m: nat): real
    requires 0 < m
  {
    alpha * k as real / m as real
  }

  lemma ThresholdGrows(alpha: real, larger: real, k: nat, further: nat, m: nat)
    requires 0 < m && 0.0 <= alpha <= larger && k <= further
    ensures Threshold(alpha, k, m) <= Threshold(larger, further, m)
  {
    assert 0.0 < m as real && 0.0 <= k as real <= further as real;
    Products(alpha, larger, k as real, further as real);
    Quotients(alpha * k as real, larger * further as real, m as real);
  }

  lemma Products(a: real, b: real, x: real, y: real)
    requires 0.0 <= a <= b && 0.0 <= x <= y
    ensures a * x <= b * y
  {
    assert a * x <= a * y <= b * y;
  }

  lemma Quotients(a: real, b: real, d: real)
    requires a <= b && 0.0 < d
    ensures a / d <= b / d
  {
  }

  /** How many p-values are at most x. */
  function Count(p: seq<real>, x: real): (n: nat)
    ensures n <= |p|
  {
    if p == [] then 0 else Count(p[..|p| - 1], x) + if p[|p| - 1] <= x then 1 else 0
  }

  /** k tests lie at or below the rank-k threshold. */
  predicate Passes(p: seq<real>, alpha: real, k: nat)
    requires p != []
  {
    k <= Count(p, Threshold(alpha, k, |p|))
  }

  /** The largest rank up to n that passes, or 0. */
  function LargestRank(p: seq<real>, alpha: real, n: nat): (k: nat)
    requires p != []
    ensures k <= n
  {
    if n == 0 || Passes(p, alpha, n) then n else LargestRank(p, alpha, n - 1)
  }

  /** What Benjamini and Hochberg (1995, section 3.1) accept: the p-values at or below the threshold
      of the largest rank that passes. */
  predicate Accepts(p: seq<real>, alpha: real, i: nat)
    requires i < |p|
  {
    p[i] <= Threshold(alpha, LargestRank(p, alpha, |p|), |p|)
  }

  predicate ValidInputs(p: seq<real>, alpha: real) {
    0.0 < alpha < 1.0 && forall i :: 0 <= i < |p| ==> 0.0 <= p[i] <= 1.0
  }

  lemma {:induction false} LargestRankPasses(p: seq<real>, alpha: real, n: nat)
    requires p != []
    ensures Passes(p, alpha, LargestRank(p, alpha, n))
    ensures forall k :: LargestRank(p, alpha, n) < k <= n ==> !Passes(p, alpha, k)
  {
    if n > 0 && !Passes(p, alpha, n) {
      LargestRankPasses(p, alpha, n - 1);
    }
  }

  lemma {:induction false} CountGrows(p: seq<real>, q: seq<real>, x: real, y: real)
    requires |p| == |q| && x <= y && forall i :: 0 <= i < |p| ==> q[i] <= p[i]
    ensures Count(p, x) <= Count(q, y)
  {
    if p != [] {
      CountGrows(p[..|p| - 1], q[..|q| - 1], x, y);
    }
  }

  /** Exactly as many tests are accepted as the largest passing rank. */
  lemma ExactlyThatMany(p: seq<real>, alpha: real)
    requires p != [] && 0.0 <= alpha
    ensures Count(p, Threshold(alpha, LargestRank(p, alpha, |p|), |p|)) == LargestRank(p, alpha, |p|)
  {
    var k := LargestRank(p, alpha, |p|);
    LargestRankPasses(p, alpha, |p|);
    var c := Count(p, Threshold(alpha, k, |p|));
    if k < c {
      ThresholdGrows(alpha, alpha, k, c, |p|);
      CountGrows(p, p, Threshold(alpha, k, |p|), Threshold(alpha, c, |p|));
      assert Passes(p, alpha, c);
    }
  }

  /** Lowering p-values or raising alpha never revokes an acceptance. */
  lemma AcceptanceMonotone(p: seq<real>, q: seq<real>, alpha: real, larger: real, i: nat)
    requires |p| == |q| && i < |p| && 0.0 <= alpha <= larger
    requires forall j :: 0 <= j < |p| ==> q[j] <= p[j]
    ensures Accepts(p, alpha, i) ==> Accepts(q, larger, i)
  {
    var k := LargestRank(p, alpha, |p|);
    LargestRankPasses(p, alpha, |p|);
    LargestRankPasses(q, larger, |q|);
    ThresholdGrows(alpha, larger, k, k, |p|);
    CountGrows(p, q, Threshold(alpha, k, |p|), Threshold(larger, k, |p|));
    assert Passes(q, larger, k);
    ThresholdGrows(alpha, larger, k, LargestRank(q, larger, |q|), |p|);
  }

  lemma {:induction false} CountSplit(p: seq<real>, q: seq<real>, x: real)
    ensures Count(p + q, x) == Count(p, x) + Count(q, x)
  {
    if q == [] {
      assert p + q == p;
    } else {
      CountSplit(p, q[..|q| - 1], x);
      assert (p + q)[..|p + q| - 1] == p + q[..|q| - 1];
    }
  }

  lemma TakeOut(q: seq<real>, j: nat, x: real)
    requires j < |q|
    ensures var rest := q[..j] + q[j + 1..];
      && multiset(q) == multiset(rest) + multiset{q[j]}
      && Count(q, x) == Count(rest, x) + if q[j] <= x then 1 else 0
  {
    var front, back := q[..j], q[j + 1..];
    assert q == front + ([q[j]] + back);
    CountSplit(front, [q[j]] + back, x);
    CountSplit([q[j]], back, x);
    CountSplit(front, back, x);
  }

  lemma {:induction false} CountPermuted(p: seq<real>, q: seq<real>, x: real)
    requires multiset(p) == multiset(q)
    ensures Count(p, x) == Count(q, x)
    decreases |p|
  {
    if p == [] {
      assert |multiset(q)| == |q|;
    } else {
      var init, last := p[..|p| - 1], p[|p| - 1];
      assert p == init + [last];
      assert last in multiset(q);
      var j :| 0 <= j < |q| && q[j] == last;
      TakeOut(q, j, x);
      assert multiset(init) == multiset(p) - multiset{last};
      CountPermuted(init, q[..j] + q[j + 1..], x);
    }
  }

  lemma {:induction false} RankPermuted(p: seq<real>, q: seq<real>, alpha: real, n: nat)
    requires multiset(p) == multiset(q) && p != [] && |p| == |q|
    ensures LargestRank(p, alpha, n) == LargestRank(q, alpha, n)
  {
    if n > 0 {
      CountPermuted(p, q, Threshold(alpha, n, |p|));
      RankPermuted(p, q, alpha, n - 1);
    }
  }

  /** The decision on a value does not depend on where it stands, so ties are never split and
      permuting the input permutes the answer. */
  lemma AcceptancePermutes(p: seq<real>, q: seq<real>, alpha: real, i: nat, j: nat)
    requires multiset(p) == multiset(q) && i < |p| && j < |q| && p[i] == q[j]
    ensures Accepts(p, alpha, i) <==> Accepts(q, alpha, j)
  {
    assert |p| == |multiset(p)| == |multiset(q)| == |q|;
    RankPermuted(p, q, alpha, |p|);
  }

  // The loop.

  datatype Indexed = Indexed(index: nat, value: real)

  predicate ByValue(a: Indexed, b: Indexed) {
    a.value <= b.value
  }

  function Enumerated(p: seq<real>, n: nat): (r: seq<Indexed>)
    requires n <= |p|
    ensures |r| == n
  {
    if n == 0 then [] else Enumerated(p, n - 1) + [Indexed(n - 1, p[n - 1])]
  }

  function CountItems(items: seq<Indexed>, x: real): nat {
    if items == [] then 0
    else CountItems(items[..|items| - 1], x) + if items[|items| - 1].value <= x then 1 else 0
  }

  lemma CountAppended(items: seq<Indexed>, item: Indexed, x: real)
    ensures CountItems(items + [item], x) == CountItems(items, x) + if item.value <= x then 1 else 0
  {
    assert (items + [item])[..|items|] == items;
  }

  lemma {:induction false} CountInserted(items: seq<Indexed>, item: Indexed, x: real)
    ensures CountItems(Sorting.Inserted(items, item, ByValue), x) == CountItems(items, x) + if item.value <= x then 1
      else 0
  {
    if items == [] || ByValue(items[|items| - 1], item) {
      CountAppended(items, item, x);
    } else {
      CountInserted(items[..|items| - 1], item, x);
      CountAppended(Sorting.Inserted(items[..|items| - 1], item, ByValue), items[|items| - 1], x);
    }
  }

  lemma {:induction false} CountSorted(p: seq<real>, n: nat, x: real)
    requires n <= |p|
    ensures CountItems(Sorting.SortedBy(Enumerated(p, n), ByValue), x) == Count(p[..n], x)
  {
    if n > 0 {
      CountSorted(p, n - 1, x);
      assert Enumerated(p, n)[..n - 1] == Enumerated(p, n - 1);
      assert p[..n][..n - 1] == p[..n - 1];
      CountInserted(Sorting.SortedBy(Enumerated(p, n - 1), ByValue), Indexed(n - 1, p[n - 1]), x);
    }
  }

  /** Among sorted items, the one of rank r is at most x exactly when r items are. */
  lemma {:induction false} SortedCount(items: seq<Indexed>, x: real, r: nat)
    requires Sorting.IsSorted(items, ByValue) && r < |items|
    ensures items[r].value <= x <==> r + 1 <= CountItems(items, x)
  {
    var n := |items| - 1;
    var init := items[..n];
    assert items == init + [items[n]];
    CountBound(init, x);
    if r < n {
      SortedCount(init, x, r);
      assert ByValue(items[r], items[n]);
    } else if n > 0 {
      SortedCount(init, x, n - 1);
      assert ByValue(items[n - 1], items[n]);
    }
  }

  lemma {:induction false} CountBound(items: seq<Indexed>, x: real)
    ensures CountItems(items, x) <= |items|
  {
    if items != [] {
      CountBound(items[..|items| - 1], x);
    }
  }

  lemma {:induction false} EnumeratedElements(p: seq<real>, n: nat)
    requires n <= |p|
    ensures forall item :: item in Enumerated(p, n) <==> item.index < n && item.value == p[item.index]
    ensures forall i, j :: 0 <= i < j < n ==> Enumerated(p, n)[i] != Enumerated(p, n)[j]
  {
    if n > 0 {
      EnumeratedElements(p, n - 1);
    }
  }

  ghost function Ordered(p: seq<real>): seq<Indexed> {
    Sorting.SortedBy(Enumerated(p, |p|), ByValue)
  }

  lemma ByValueIsOrder()
    ensures Sorting.TotalPreorder(ByValue)
  {
  }

  /** The sorted enumeration holds every index once, with its p-value. */
  lemma OrderedElements(p: seq<real>)
    ensures |Ordered(p)| == |p| && Sorting.IsSorted(Ordered(p), ByValue)
    ensures forall item :: item in Ordered(p) <==> item.index < |p| && item.value == p[item.index]
  {
    ByValueIsOrder();
    Sorting.SortedByFacts(Enumerated(p, |p|), ByValue);
    EnumeratedElements(p, |p|);
    SameElements(Ordered(p), Enumerated(p, |p|));
  }

  lemma SameElements(a: seq<Indexed>, b: seq<Indexed>)
    requires multiset(a) == multiset(b)
    ensures forall item :: item in a <==> item in b
  {
    forall item
      ensures item in a <==> item in b
    {
      assert item in a <==> item in multiset(a);
      assert item in b <==> item in multiset(b);
    }
  }

  lemma RankWithin(p: seq<real>, x: real, r: nat)
    requires r < |p|
    ensures |Ordered(p)| == |p|
    ensures Ordered(p)[r].value <= x <==> r + 1 <= Count(p, x)
  {
    OrderedElements(p);
    SortedCount(Ordered(p), x, r);
    CountSorted(p, |p|, x);
    assert p[..|p|] == p;
  }

  /** The first k items, k the largest passing rank, are exactly the accepted tests. */
  lemma FirstAreAccepted(p: seq<real>, alpha: real, i: nat)
    requires 0.0 <= alpha && i < |p|
    ensures |Ordered(p)| == |p|
    ensures Accepts(p, alpha, i) <==> Indexed(i, p[i]) in Ordered(p)[..LargestRank(p, alpha, |p|)]
  {
    OrderedElements(p);
    ExactlyThatMany(p, alpha);
    var k, ordered, x := LargestRank(p, alpha, |p|), Ordered(p), Threshold(alpha, LargestRank(p, alpha, |p|), |p|);
    assert Indexed(i, p[i]) in ordered;
    var r :| 0 <= r < |p| && ordered[r] == Indexed(i, p[i]);
    RankWithin(p, x, r);
    if r < k {
      assert ordered[..k][r] == Indexed(i, p[i]);
    }
    forall q | 0 <= q < k
      ensures ordered[q].value <= x
    {
      RankWithin(p, x, q);
    }
  }

  method BenjaminiHochberg(p: seq<real>, alpha: real) returns (r: Result<seq<bool>, SelectionError>)
    ensures r.Ok? <==> ValidInputs(p, alpha)
    ensures r.Err? ==> r.error == InvalidPValues
    ensures r.Ok? ==> |r.value| == |p| && forall i :: 0 <= i < |p| ==> (r.value[i] <==> Accepts(p, alpha, i))
  {
    if !ValidInputs(p, alpha) {
      return Err(InvalidPValues);
    }
    var enumerated: seq<Indexed> := [];
    for i := 0 to |p|
      invariant enumerated == Enumerated(p, i)
    {
      enumerated := enumerated + [Indexed(i, p[i])];
    }
    var ordered := Sorting.Sort(enumerated, ByValue);
    OrderedElements(p);
    var thresholdRank := ThresholdRank(p, alpha, ordered);
    var accepted := MarkAccepted(p, ordered[..thresholdRank]);
    forall i | 0 <= i < |p|
      ensures accepted[i] <==> Accepts(p, alpha, i)
    {
      FirstAreAccepted(p, alpha, i);
    }
    return Ok(accepted);
  }

  /** The first loop: the last rank whose value is within its threshold. */
  method ThresholdRank(p: seq<real>, alpha: real, ordered: seq<Indexed>) returns (thresholdRank: nat)
    requires ordered == Ordered(p) && |ordered| == |p|
    ensures thresholdRank == if p == [] then 0 else LargestRank(p, alpha, |p|)
  {
    thresholdRank := 0;
    for rank := 1 to |p| + 1
      invariant thresholdRank == if p == [] then 0 else LargestRank(p, alpha, rank - 1)
    {
      RankWithin(p, Threshold(alpha, rank, |p|), rank - 1);
      if ordered[rank - 1].value <= Threshold(alpha, rank, |p|) {
        thresholdRank := rank;
      }
    }
  }

  /** The second loop: marks the indices of the chosen items. */
  method MarkAccepted(p: seq<real>, chosen: seq<Indexed>) returns (r: seq<bool>)
    requires forall item :: item in chosen ==> item.index < |p| && item.value == p[item.index]
    ensures |r| == |p| && forall i :: 0 <= i < |p| ==> (r[i] <==> Indexed(i, p[i]) in chosen)
  {
    var accepted := new bool[|p|](_ => false);
    for j := 0 to |chosen|
      invariant forall i :: 0 <= i < |p| ==> (accepted[i] <==> Indexed(i, p[i]) in chosen[..j])
    {
      assert chosen[j] in chosen;
      assert chosen[..j + 1] == chosen[..j] + [chosen[j]];
      accepted[chosen[j].index] := true;
    }
    assert chosen[..|chosen|] == chosen;
    r := accepted[..];
  }

  // The greedy correlation filter.

  datatype Candidate = Candidate(name: string, score: real, values: Evaluator.Row)

  /** Too few common observations, or a constant series, count as fully correlated. */
  function AbsoluteCorrelation(k: Evaluator.Kernels, x: Evaluator.Row, y: Evaluator.Row): Evaluator.Value {
    var left, right := Evaluator.Numbers(Evaluator.Present(x, y)), Evaluator.Numbers(Evaluator.Present(y, x));
    if |left| < 2 || k.std(left) == Some(0.0) || k.std(right) == Some(0.0) then Some(1.0)
    else
      var c := k.corr(left, right);
      if c.Some? && c.value < 0.0 then Some(-c.value) else c
  }

  /** A NaN correlation is within no limit. */
  predicate Within(k: Evaluator.Kernels, limit: real, a: Candidate, b: Candidate) {
    var c := AbsoluteCorrelation(k, a.values, b.values);
    c.Some? && c.value <= limit
  }

  /** Two candidates are within the limit when, over at least two common observations and with deviations that are
      not zero, their correlation lies between minus and plus the limit; any other pair counts as fully correlated. */
  lemma WithinExactly(k: Evaluator.Kernels, limit: real, a: Candidate, b: Candidate)
    ensures var x, y := Evaluator.Numbers(Evaluator.Present(a.values, b.values)),
        Evaluator.Numbers(Evaluator.Present(b.values, a.values));
      Within(k, limit, a, b) <==>
        if 2 <= |x| && k.std(x) != Some(0.0) && k.std(y) != Some(0.0)
        then k.corr(x, y).Some? && -limit <= k.corr(x, y).value <= limit
        else 1.0 <= limit
  {
  }

  predicate ByScore(a: Candidate, b: Candidate) {
    b.score <= a.score
  }

  predicate Admits(k: Evaluator.Kernels, limit: real, accepted: seq<Candidate>, next: Candidate) {
    forall c :: c in accepted ==> Within(k, limit, next, c)
  }

  /** What a pass over candidates in the given order accepts. */
  function Greedy(k: Evaluator.Kernels, limit: real, candidates: seq<Candidate>): seq<Candidate> {
    if candidates == [] then []
    else
      var accepted, next := Greedy(k, limit, candidates[..|candidates| - 1]), candidates[|candidates| - 1];
      if Admits(k, limit, accepted, next) then accepted + [next] else accepted
  }

  ghost predicate WithinAt(k: Evaluator.Kernels, limit: real, accepted: seq<Candidate>, i: nat, j: nat)
    requires i < |accepted| && j < |accepted|
  {
    Within(k, limit, accepted[j], accepted[i])
  }

  ghost predicate PairwiseWithin(k: Evaluator.Kernels, limit: real, accepted: seq<Candidate>) {
    forall i, j {:trigger WithinAt(k, limit, accepted, i, j)} :: 0 <= i < j < |accepted| ==>
      WithinAt(k, limit, accepted, i, j)
  }

  /** The accepted candidates are pairwise within the limit. */
  lemma {:induction false} AcceptedWithinLimit(k: Evaluator.Kernels, limit: real, candidates: seq<Candidate>)
    ensures forall c :: c in Greedy(k, limit, candidates) ==> c in candidates
    ensures PairwiseWithin(k, limit, Greedy(k, limit, candidates))
  {
    if candidates != [] {
      var init, next := candidates[..|candidates| - 1], candidates[|candidates| - 1];
      assert candidates == init + [next];
      AcceptedWithinLimit(k, limit, init);
      var before, accepted := Greedy(k, limit, init), Greedy(k, limit, candidates);
      forall i, j | 0 <= i < j < |accepted|
        ensures WithinAt(k, limit, accepted, i, j)
      {
        if j < |before| {
          assert WithinAt(k, limit, before, i, j);
        } else {
          assert before[i] in before;
        }
      }
    }
  }

  /** Some accepted candidate scores at least as high and is too correlated. */
  ghost predicate Dominated(k: Evaluator.Kernels, limit: real, accepted: seq<Candidate>, c: Candidate) {
    exists a :: a in accepted && c.score <= a.score && !Within(k, limit, c, a)
  }

  /** Every refused candidate is over the limit with an accepted one that scores at least as high. */
  lemma {:induction false} RefusedAreDominated(k: Evaluator.Kernels, limit: real, candidates: seq<Candidate>,
      c: Candidate)
    requires Sorting.IsSorted(candidates, ByScore) && c in candidates && c !in Greedy(k, limit, candidates)
    ensures Dominated(k, limit, Greedy(k, limit, candidates), c)
  {
    var init, next := candidates[..|candidates| - 1], candidates[|candidates| - 1];
    var before, accepted := Greedy(k, limit, init), Greedy(k, limit, candidates);
    assert candidates == init + [next];
    if c in init {
      RefusedAreDominated(k, limit, init, c);
      var a :| a in before && c.score <= a.score && !Within(k, limit, c, a);
      assert a in accepted;
    } else {
      var a :| a in before && !Within(k, limit, next, a);
      AcceptedWithinLimit(k, limit, init);
      var i :| 0 <= i < |init| && init[i] == a;
      assert ByScore(candidates[i], candidates[|init|]);
      assert a in accepted;
    }
  }

  function Scoring(score: real): Candidate -> bool {
    (c: Candidate) => c.score == score
  }

  lemma {:induction false} ScoreTies(candidates: seq<Candidate>, score: real, example: Candidate)
    requires example.score == score
    ensures Sequences.Kept(Scoring(score), candidates) == Sequences.Kept(Sorting.Ties(example, ByScore), candidates)
  {
    if candidates != [] {
      var last := candidates[|candidates| - 1];
      ScoreTies(candidates[..|candidates| - 1], score, example);
      var tie := Sorting.Ties(example, ByScore);
      assert tie(last) == (ByScore(example, last) && ByScore(last, example));
      assert Scoring(score)(last) == tie(last);
    }
  }

  lemma HighestFirst(ordered: seq<Candidate>)
    requires Sorting.IsSorted(ordered, ByScore)
    ensures forall i, j :: 0 <= i < j < |ordered| ==> ordered[j].score <= ordered[i].score
  {
    forall i, j | 0 <= i < j < |ordered|
      ensures ordered[j].score <= ordered[i].score
    {
      assert ByScore(ordered[i], ordered[j]);
    }
  }

  /** Candidates are taken from the highest score down, and in the order given where scores are equal. */
  lemma CandidatesOrdered(candidates: seq<Candidate>, score: real)
    ensures var ordered := Sorting.SortedBy(candidates, ByScore);
      && multiset(ordered) == multiset(candidates)
      && (forall i, j :: 0 <= i < j < |ordered| ==> ordered[j].score <= ordered[i].score)
      && Sequences.Kept(Scoring(score), ordered) == Sequences.Kept(Scoring(score), candidates)
  {
    var ordered, example := Sorting.SortedBy(candidates, ByScore), Candidate("", score, []);
    ScoreTies(candidates, score, example);
    ScoreTies(ordered, score, example);
    Sorting.SortedByIsStable(candidates, example, ByScore);
    Sorting.SortedByFacts(candidates, ByScore);
    HighestFirst(ordered);
  }

  /** The filter leaves candidates that are pairwise within the limit, and leaves out only those over the limit with
      one of these that scores at least as high. */
  lemma FilterChoice(k: Evaluator.Kernels, limit: real, candidates: seq<Candidate>)
    ensures var accepted := Greedy(k, limit, Sorting.SortedBy(candidates, ByScore));
      && PairwiseWithin(k, limit, accepted)
      && (forall c :: c in accepted ==> c in candidates)
      && (forall c :: c in candidates && c !in accepted ==> Dominated(k, limit, accepted, c))
  {
    var ordered := Sorting.SortedBy(candidates, ByScore);
    Sorting.SortedByFacts(candidates, ByScore);
    AcceptedWithinLimit(k, limit, ordered);
    forall c
      ensures c in ordered <==> c in candidates
    {
      assert c in ordered <==> c in multiset(ordered);
    }
    forall c | c in candidates && c !in Greedy(k, limit, ordered)
      ensures Dominated(k, limit, Greedy(k, limit, ordered), c)
    {
      RefusedAreDominated(k, limit, ordered, c);
    }
  }

  method CorrelationFilter(k: Evaluator.Kernels, candidates: seq<Candidate>, limit: real)
    returns (r: Result<seq<Candidate>, SelectionError>)
    ensures r.Ok? <==> 0.0 <= limit <= 1.0
    ensures r.Err? ==> r.error == InvalidThreshold
    ensures r.Ok? ==> r.value == Greedy(k, limit, Sorting.SortedBy(candidates, ByScore))
  {
    if !(0.0 <= limit <= 1.0) {
      return Err(InvalidThreshold);
    }
    var accepted: seq<Candidate> := [];
    var ordered := Sorting.Sort(candidates, ByScore);
    for i := 0 to |ordered|
      invariant accepted == Greedy(k, limit, ordered[..i])
    {
      assert ordered[..i + 1][..i] == ordered[..i];
      if Admits(k, limit, accepted, ordered[i]) {
        accepted := accepted + [ordered[i]];
      }
    }
    assert ordered[..|ordered|] == ordered;
    return Ok(accepted);
  }
}
