/** Stable argsort, the two ways the program turns it into ranks, and the quantile groups. */
module Ranking {
  import opened Market
  import opened Sequences
  import Sorting

  type Values = seq<real>

  function At(x: Values, i: int): real {
    if 0 <= i < |x| then x[i] else 0.0
  }

  function ByValue(x: Values): Sorting.Order<int> {
    (i, j) => At(x, i) <= At(x, j)
  }

  /** i is ranked before j: by value, and by position between equal values. */
  predicate Precedes(x: Values, i: int, j: int) {
    At(x, i) < At(x, j) || (At(x, i) == At(x, j) && i < j)
  }

  ghost predicate PrecedesAt(x: Values, order: seq<int>, p: nat, q: nat)
    requires p < |order| && q < |order|
  {
    Precedes(x, order[p], order[q])
  }

  ghost predicate Ranked(x: Values, order: seq<int>) {
    forall p, q {:trigger PrecedesAt(x, order, p, q)} :: 0 <= p < q < |order| ==> PrecedesAt(x, order, p, q)
  }

  ghost predicate InRange(order: seq<int>, n: nat) {
    forall p :: 0 <= p < |order| ==> 0 <= order[p] < n
  }

  /** What a stable argsort returns. */
  ghost predicate IsArgSort(x: Values, order: seq<int>) {
    |order| == |x| && InRange(order, |x|) && Ranked(x, order)
  }

  function Indices(n: nat): (r: seq<int>)
    ensures |r| == n
  {
    if n == 0 then [] else Indices(n - 1) + [n - 1]
  }

  lemma {:induction false} InsertedRanked(x: Values, items: seq<int>, i: int)
    requires Ranked(x, items) && forall item :: item in items ==> item < i
    ensures Ranked(x, Sorting.Inserted(items, i, ByValue(x)))
  {
    var r, n := Sorting.Inserted(items, i, ByValue(x)), |items| - 1;
    if items == [] {
    } else if At(x, items[n]) <= At(x, i) {
      forall p, q | 0 <= p < q < |r|
        ensures PrecedesAt(x, r, p, q)
      {
        assert q < |items| ==> PrecedesAt(x, items, p, q);
        assert p < n ==> PrecedesAt(x, items, p, n);
        assert p <= n ==> items[p] in items;
      }
    } else {
      var init := items[..n];
      var front := Sorting.Inserted(init, i, ByValue(x));
      forall p, q | 0 <= p < q < |init|
        ensures PrecedesAt(x, init, p, q)
      {
        assert PrecedesAt(x, items, p, q);
      }
      forall item | item in init
        ensures item < i
      {
        assert item in items;
      }
      InsertedRanked(x, init, i);
      Sorting.InsertedElements(init, i, ByValue(x));
      forall p, q | 0 <= p < q < |r|
        ensures PrecedesAt(x, r, p, q)
      {
        if q < |front| {
          assert PrecedesAt(x, front, p, q);
        } else {
          assert front[p] in multiset(front);
          if front[p] != i {
            var k :| 0 <= k < |init| && init[k] == front[p];
            assert PrecedesAt(x, items, k, n);
          }
        }
      }
    }
  }

  /** Sorting the positions by value alone, stably, is the argsort. */
  lemma {:induction false} StableSortRanks(x: Values, n: nat)
    ensures var order := Sorting.SortedBy(Indices(n), ByValue(x));
      |order| == n && InRange(order, n) && Ranked(x, order)
  {
    if n > 0 {
      StableSortRanks(x, n - 1);
      assert Indices(n)[..n - 1] == Indices(n - 1);
      var before, order := Sorting.SortedBy(Indices(n - 1), ByValue(x)), Sorting.SortedBy(Indices(n), ByValue(x));
      InsertedRanked(x, before, n - 1);
      Sorting.InsertedElements(before, n - 1, ByValue(x));
      forall p | 0 <= p < n
        ensures 0 <= order[p] < n
      {
        assert order[p] in multiset(order);
        assert order[p] == n - 1 || order[p] in before;
      }
    }
  }

  method ArgSort(x: Values) returns (order: seq<int>)
    ensures IsArgSort(x, order)
  {
    var positions: seq<int> := [];
    for i := 0 to |x|
      invariant positions == Indices(i)
    {
      positions := positions + [i];
    }
    order := Sorting.Sort(positions, ByValue(x));
    StableSortRanks(x, |x|);
  }

  // Ranks by counting.

  ghost function Before(x: Values, i: int): set<int> {
    set j: int | 0 <= j < |x| && Precedes(x, j, i)
  }

  /** How many positions are ranked before i. */
  ghost function RankOf(x: Values, i: int): nat {
    |Before(x, i)|
  }

  ghost function Elements(order: seq<int>): set<int> {
    set j | j in order
  }

  lemma {:induction false} ElementCount(order: seq<int>)
    requires Unrepeated(order)
    ensures |Elements(order)| == |order|
  {
    if order == [] {
      assert Elements(order) == {};
    } else {
      var init, last := order[..|order| - 1], order[|order| - 1];
      ElementCount(init);
      assert order == init + [last] && last !in init;
      assert Elements(order) == Elements(init) + {last};
    }
  }

  lemma {:induction false} IndicesFacts(n: nat)
    ensures Unrepeated(Indices(n)) && forall j :: j in Indices(n) <==> 0 <= j < n
  {
    if n > 0 {
      IndicesFacts(n - 1);
      var init := Indices(n - 1);
      assert forall p :: 0 <= p < n - 1 ==> init[p] in init;
    }
  }

  lemma SubsetFills(small: set<int>, large: set<int>)
    requires small <= large && |small| == |large|
    ensures small == large
  {
    assert |large - small| == |large| - |small| by {
      assert small + (large - small) == large;
    }
  }

  lemma RankedUnrepeated(x: Values, order: seq<int>)
    requires Ranked(x, order)
    ensures Unrepeated(order)
  {
    forall p, q | 0 <= p < q < |order|
      ensures order[p] != order[q]
    {
      assert PrecedesAt(x, order, p, q);
    }
  }

  /** An argsort lists every position once. */
  lemma ArgSortPermutes(x: Values, order: seq<int>)
    requires IsArgSort(x, order)
    ensures Unrepeated(order) && forall j :: j in order <==> 0 <= j < |x|
  {
    RankedUnrepeated(x, order);
    ElementCount(order);
    IndicesFacts(|x|);
    ElementCount(Indices(|x|));
    assert Elements(order) <= Elements(Indices(|x|));
    SubsetFills(Elements(order), Elements(Indices(|x|)));
    forall j
      ensures j in order <==> 0 <= j < |x|
    {
      assert j in order <==> j in Elements(order);
      assert j in Indices(|x|) <==> j in Elements(Indices(|x|));
    }
  }

  lemma OrderDecides(x: Values, order: seq<int>, p: nat, q: nat)
    requires Ranked(x, order) && p < |order| && q < |order|
    ensures Precedes(x, order[q], order[p]) <==> q < p
  {
    assert p < q ==> PrecedesAt(x, order, p, q);
    assert q < p ==> PrecedesAt(x, order, q, p);
  }

  /** The position an argsort lists p-th has exactly p positions ranked before it. */
  lemma ArgSortRanks(x: Values, order: seq<int>, p: nat)
    requires IsArgSort(x, order) && p < |order|
    ensures RankOf(x, order[p]) == p
  {
    ArgSortPermutes(x, order);
    var front := order[..p];
    forall j
      ensures j in Before(x, order[p]) <==> j in front
    {
      if j in order {
        var q :| 0 <= q < |order| && order[q] == j;
        OrderDecides(x, order, p, q);
        assert j in front ==> q < p;
      }
    }
    assert Before(x, order[p]) == Elements(front);
    assert Unrepeated(front);
    ElementCount(front);
  }

  /** Ranks are a permutation of 0..n-1 that follows the values and breaks ties by position. */
  lemma RanksPermute(x: Values, i: int, j: int)
    requires 0 <= i < |x| && 0 <= j < |x|
    ensures 0 <= RankOf(x, i) < |x|
    ensures Precedes(x, i, j) <==> RankOf(x, i) < RankOf(x, j)
    ensures RankOf(x, i) == RankOf(x, j) ==> i == j
  {
    StableSortRanks(x, |x|);
    var order := Sorting.SortedBy(Indices(|x|), ByValue(x));
    ArgSortPermutes(x, order);
    assert i in order && j in order;
    var p :| 0 <= p < |x| && order[p] == i;
    var q :| 0 <= q < |x| && order[q] == j;
    ArgSortRanks(x, order, p);
    ArgSortRanks(x, order, q);
    OrderDecides(x, order, q, p);
  }

  /** `_rank`: scatter 0, 1, 2, ... through the argsort. */
  method ScatterRanks(x: Values) returns (ranks: array<nat>)
    ensures fresh(ranks) && ranks.Length == |x|
    ensures forall i :: 0 <= i < |x| ==> ranks[i] == RankOf(x, i)
  {
    var order := ArgSort(x);
    ArgSortPermutes(x, order);
    ranks := new nat[|x|];
    for p := 0 to |x|
      invariant forall q :: 0 <= q < p ==> ranks[order[q]] == q
    {
      ranks[order[p]] := p;
    }
    forall i | 0 <= i < |x|
      ensures ranks[i] == RankOf(x, i)
    {
      assert i in order;
      var p :| 0 <= p < |x| && order[p] == i;
      ArgSortRanks(x, order, p);
    }
  }

  function AsValues(order: seq<int>): (r: Values)
    ensures |r| == |order| && forall p :: 0 <= p < |r| ==> r[p] == order[p] as real
  {
    seq(|order|, p requires 0 <= p < |order| => order[p] as real)
  }

  lemma {:induction false} Climbs(s: seq<int>, p: nat, q: nat)
    requires p <= q < |s| && forall k, l :: 0 <= k < l < |s| ==> s[k] < s[l]
    ensures s[p] + (q - p) <= s[q]
  {
    if p < q {
      Climbs(s, p, q - 1);
    }
  }

  /** Sorting the positions twice gives the rank of each position: the scatter and the double sort agree. */
  lemma DoubleArgSortRanks(x: Values, order: seq<int>, ranks: seq<int>, i: nat)
    requires IsArgSort(x, order) && IsArgSort(AsValues(order), ranks) && i < |x|
    ensures ranks[i] == RankOf(x, i)
  {
    ArgSortPermutes(x, order);
    var sorted := seq(|ranks|, p requires 0 <= p < |ranks| => order[ranks[p]]);
    forall p, q | 0 <= p < q < |sorted|
      ensures sorted[p] < sorted[q]
    {
      assert PrecedesAt(AsValues(order), ranks, p, q);
      RankedUnrepeated(AsValues(order), ranks);
      assert ranks[p] != ranks[q];
      assert order[ranks[p]] != order[ranks[q]];
    }
    Climbs(sorted, 0, i);
    Climbs(sorted, i, |sorted| - 1);
    assert order[ranks[i]] == i;
    ArgSortRanks(x, order, ranks[i]);
  }

  // Quantile groups.

  /** The rank as a share of the sample, scaled to the number of groups, rounded down and capped at the last group. */
  function Group(rank: nat, quantiles: Pos, size: Pos): int {
    var group := rank * quantiles / size;
    if group < quantiles then group else quantiles - 1
  }

  /** The least rank of a group: a rounded-up share of the ranks. */
  function FirstRank(group: nat, quantiles: Pos, size: nat): int {
    (group * size + quantiles - 1) / quantiles
  }

  lemma DivisionBounds(a: int, d: Pos, q: int)
    ensures q <= a / d <==> q * d <= a
  {
    var quotient := a / d;
    assert quotient * d <= a < (quotient + 1) * d;
    if q <= quotient {
      ProductGrows(q, quotient, d);
    } else {
      ProductGrows(quotient + 1, q, d);
    }
  }

  lemma ProductGrows(a: int, b: int, d: Pos)
    requires a <= b
    ensures a * d <= b * d
  {
  }

  lemma RoundedUp(m: int, d: Pos, r: int)
    ensures (m + d - 1) / d <= r <==> m <= r * d
  {
    DivisionBounds(m + d - 1, d, r + 1);
    assert (r + 1) * d == r * d + d;
  }

  /** A group is an interval of ranks; the cap on the last group never applies. */
  lemma GroupInterval(rank: nat, group: nat, quantiles: Pos, size: Pos)
    requires rank < size
    ensures Group(rank, quantiles, size) == rank * quantiles / size < quantiles
    ensures Group(rank, quantiles, size) == group <==>
      FirstRank(group, quantiles, size) <= rank < FirstRank(group + 1, quantiles, size)
  {
    var scaled := rank * quantiles;
    DivisionBounds(scaled, size, quantiles);
    StrictProduct(rank, size, quantiles);
    DivisionBounds(scaled, size, group);
    DivisionBounds(scaled, size, group + 1);
    RoundedUp(group * size, quantiles, rank);
    RoundedUp((group + 1) * size, quantiles, rank);
  }

  lemma StrictProduct(a: int, b: int, d: Pos)
    requires a < b
    ensures a * d < b * d == d * b
  {
    ProductGrows(a + 1, b, d);
  }

  lemma QuotientOfSum(a: nat, b: nat, d: Pos)
    ensures a / d + b / d <= (a + b) / d <= a / d + b / d + 1
  {
    var x, y := a / d, b / d;
    assert x * d <= a < x * d + d && y * d <= b < y * d + d;
    assert (x + y) * d == x * d + y * d && (x + y + 2) * d == x * d + y * d + 2 * d;
    DivisionBounds(a + b, d, x + y);
    DivisionBounds(a + b, d, x + y + 2);
  }

  lemma FirstRankSteps(group: nat, quantiles: Pos, size: nat)
    ensures size / quantiles <= FirstRank(group + 1, quantiles, size) - FirstRank(group, quantiles, size)
      <= size / quantiles + 1
    ensures 0 <= FirstRank(group, quantiles, size)
    ensures group < quantiles ==> FirstRank(group + 1, quantiles, size) <= size
  {
    var before := group * size + quantiles - 1;
    assert 0 <= group * size;
    assert (group + 1) * size + quantiles - 1 == before + size;
    QuotientOfSum(before, size, quantiles);
    DivisionBounds(before, quantiles, 0);
    if group < quantiles {
      RoundedUp((group + 1) * size, quantiles, size);
      Shares(group + 1, quantiles, size);
    }
  }

  lemma Shares(group: nat, quantiles: Pos, size: nat)
    requires group <= quantiles
    ensures group * size <= size * quantiles
  {
  }

  ghost function Members(x: Values, quantiles: Pos, group: int): set<int>
    requires x != []
  {
    set i: int | 0 <= i < |x| && Group(RankOf(x, i), quantiles, |x|) == group
  }

  /** Groups follow the factor: a strictly greater value is never in a lower group. */
  lemma GroupsFollowValues(x: Values, quantiles: Pos, i: int, j: int)
    requires 0 <= i < |x| && 0 <= j < |x| && x[i] < x[j]
    ensures 0 <= Group(RankOf(x, i), quantiles, |x|) <= Group(RankOf(x, j), quantiles, |x|) < quantiles
  {
    RanksPermute(x, i, j);
    RanksPermute(x, j, i);
    var low, high := RankOf(x, i), RankOf(x, j);
    GroupInterval(low, 0, quantiles, |x|);
    GroupInterval(high, 0, quantiles, |x|);
    ProductGrows(low, high, quantiles);
    ProductGrows(0, low, quantiles);
    DivisionBounds(low * quantiles, |x|, 0);
    DivisionBounds(low * quantiles, |x|, low * quantiles / |x|);
    DivisionBounds(high * quantiles, |x|, low * quantiles / |x|);
  }

  /** Each group holds the rounded-down share of the sample, or one more. */
  lemma GroupSizes(x: Values, quantiles: Pos, group: nat)
    requires x != [] && group < quantiles
    ensures |x| / quantiles <= |Members(x, quantiles, group)| <= |x| / quantiles + 1
  {
    StableSortRanks(x, |x|);
    var order := Sorting.SortedBy(Indices(|x|), ByValue(x));
    var low, high := FirstRank(group, quantiles, |x|), FirstRank(group + 1, quantiles, |x|);
    FirstRankSteps(group, quantiles, |x|);
    assert 0 <= |x| / quantiles by { DivisionBounds(|x|, quantiles, 0); }
    var members := order[low..high];
    ArgSortPermutes(x, order);
    assert Unrepeated(members);
    forall i
      ensures i in Members(x, quantiles, group) <==> i in Elements(members)
    {
      if i in order {
        MemberByRank(x, order, quantiles, group, i);
      } else {
        assert i !in members;
      }
    }
    assert Members(x, quantiles, group) == Elements(members);
    ElementCount(members);
  }

  lemma MemberByRank(x: Values, order: seq<int>, quantiles: Pos, group: nat, i: int)
    requires x != [] && group < quantiles && IsArgSort(x, order) && i in order
    requires 0 <= FirstRank(group, quantiles, |x|) <= FirstRank(group + 1, quantiles, |x|) <= |x|
    ensures Group(RankOf(x, i), quantiles, |x|) == group <==>
      i in order[FirstRank(group, quantiles, |x|)..FirstRank(group + 1, quantiles, |x|)]
  {
    var low, high := FirstRank(group, quantiles, |x|), FirstRank(group + 1, quantiles, |x|);
    var p :| 0 <= p < |order| && order[p] == i;
    ArgSortRanks(x, order, p);
    GroupInterval(p, group, quantiles, |x|);
    RankedUnrepeated(x, order);
    if low <= p < high {
      assert order[low..high][p - low] == i;
    }
  }

  /** The group of every position of one row. */
  method AssignGroups(x: Values, quantiles: Pos) returns (groups: array<int>)
    requires x != []
    ensures fresh(groups) && groups.Length == |x|
    ensures forall i :: 0 <= i < |x| ==> groups[i] == Group(RankOf(x, i), quantiles, |x|)
  {
    var ranks := ScatterRanks(x);
    groups := new int[|x|];
    for i := 0 to |x|
      invariant forall j :: 0 <= j < |x| ==> ranks[j] == RankOf(x, j)
      invariant forall j :: 0 <= j < i ==> groups[j] == Group(RankOf(x, j), quantiles, |x|)
    {
      groups[i] := Group(ranks[i], quantiles, |x|);
    }
  }
}
