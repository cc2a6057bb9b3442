/** The update loop of the belief engine, proved against the scores and stages it should give. */
module BeliefEngine {
  import opened Wrappers
  import opened Totals
  import opened Evidence
  import opened Beliefs
  import Calibration
  import Sorting

  datatype BeliefUpdate = BeliefUpdate(logScores: map<int, real>, evidence: seq<Observation>, stage: Stage,
    strength: real)

  ghost predicate DifferAt(order: seq<int>, i: nat, j: nat)
    requires i < |order| && j < |order|
  {
    order[i] != order[j]
  }

  /** Each cluster listed once. */
  ghost predicate Lists(order: seq<int>, clusters: set<int>) {
    && (forall i :: 0 <= i < |order| ==> order[i] in clusters)
    && (forall c :: c in clusters ==> c in order)
    && forall i, j {:trigger DifferAt(order, i, j)} :: 0 <= i < j < |order| ==> DifferAt(order, i, j)
  }

  lemma ListedPrefix(order: seq<int>, n: nat, clusters: set<int>)
    requires n < |order| && Lists(order, clusters)
    ensures order[n] !in order[..n] && order[..n + 1] == order[..n] + [order[n]] && order[n] in clusters
  {
    forall i | 0 <= i < n
      ensures order[i] != order[n]
    {
      assert DifferAt(order, i, n);
    }
  }

  lemma ListNext(order: seq<int>, clusters: set<int>, c: int)
    requires Lists(order, clusters) && c !in clusters
    ensures Lists(order + [c], clusters + {c})
  {
    forall i, j | 0 <= i < j < |order + [c]|
      ensures DifferAt(order + [c], i, j)
    {
      assert j < |order| ==> DifferAt(order, i, j);
    }
  }

  method GroupClusters(review: Review, evidence: seq<Observation>) returns (clusters: map<int, seq<Piece>>,
      order: seq<int>)
    requires review.Valid()
    ensures clusters == Clustered(review, evidence) && Lists(order, clusters.Keys)
  {
    clusters, order := map[], [];
    for i := 0 to |evidence|
      invariant clusters == Clustered(review, evidence[..i])
      invariant Lists(order, clusters.Keys)
    {
      var o := evidence[i];
      assert evidence[..i + 1][..i] == evidence[..i];
      if o.cluster !in clusters {
        ListNext(order, clusters.Keys, o.cluster);
        order := order + [o.cluster];
        clusters := clusters[o.cluster := []];
      }
      clusters := clusters[o.cluster := clusters[o.cluster] + [PieceOf(review, o)]];
    }
    assert evidence[..|evidence|] == evidence;
  }

  /** The contributions of the first n clusters. */
  ghost function Partial(ln: Ln, clusters: map<int, seq<Piece>>, order: seq<int>, n: nat, h: int): map<int, real>
    requires n <= |order|
  {
    map c | c in clusters && c in order[..n] :: Contribution(ln, clusters[c], h)
  }

  lemma PartialNext(ln: Ln, clusters: map<int, seq<Piece>>, order: seq<int>, n: nat, h: int)
    requires n < |order| && Lists(order, clusters.Keys)
    ensures order[n] in clusters
    ensures Total(Partial(ln, clusters, order, n + 1, h))
      == Total(Partial(ln, clusters, order, n, h)) + Contribution(ln, clusters[order[n]], h)
  {
    ListedPrefix(order, n, clusters.Keys);
    var before, c := Partial(ln, clusters, order, n, h), order[n];
    assert Partial(ln, clusters, order, n + 1, h) == before[c := Contribution(ln, clusters[c], h)];
    TotalUpdate(before, c, Contribution(ln, clusters[c], h));
  }

  ghost predicate ScoredUpTo(ln: Ln, hypothesis: Hypothesis, clusters: map<int, seq<Piece>>, order: seq<int>,
      n: nat, scores: map<int, real>)
    requires n <= |order|
  {
    hypothesis.id in scores
    && scores[hypothesis.id] == ln(hypothesis.prior) + Total(Partial(ln, clusters, order, n, hypothesis.id))
  }

  ghost predicate DistinctHypotheses(hypotheses: seq<Hypothesis>) {
    forall i, j :: 0 <= i < j < |hypotheses| ==> hypotheses[i].id != hypotheses[j].id
  }

  method PriorScores(ln: Ln, hypotheses: seq<Hypothesis>, clusters: map<int, seq<Piece>>, order: seq<int>)
      returns (scores: map<int, real>)
    requires DistinctHypotheses(hypotheses)
    ensures forall i :: 0 <= i < |hypotheses| ==> ScoredUpTo(ln, hypotheses[i], clusters, order, 0, scores)
  {
    scores := map[];
    for i := 0 to |hypotheses|
      invariant forall j :: 0 <= j < i ==>
        hypotheses[j].id in scores && scores[hypotheses[j].id] == ln(hypotheses[j].prior)
    {
      scores := scores[hypotheses[i].id := ln(hypotheses[i].prior)];
    }
    forall i | 0 <= i < |hypotheses|
      ensures ScoredUpTo(ln, hypotheses[i], clusters, order, 0, scores)
    {
      assert Partial(ln, clusters, order, 0, hypotheses[i].id) == map[];
    }
  }

  lemma ScoreStep(ln: Ln, hypothesis: Hypothesis, clusters: map<int, seq<Piece>>, order: seq<int>, n: nat,
      scores: map<int, real>)
    requires n < |order| && Lists(order, clusters.Keys) && ScoredUpTo(ln, hypothesis, clusters, order, n, scores)
    ensures order[n] in clusters
    ensures var h := hypothesis.id;
      ScoredUpTo(ln, hypothesis, clusters, order, n + 1,
        scores[h := scores[h] + Contribution(ln, clusters[order[n]], h)])
  {
    PartialNext(ln, clusters, order, n, hypothesis.id);
  }

  /** Scores of other hypotheses are unaffected. */
  lemma ScoreKept(ln: Ln, hypothesis: Hypothesis, clusters: map<int, seq<Piece>>, order: seq<int>, n: nat,
      scores: map<int, real>, other: int, value: real)
    requires n <= |order| && ScoredUpTo(ln, hypothesis, clusters, order, n, scores) && other != hypothesis.id
    ensures ScoredUpTo(ln, hypothesis, clusters, order, n, scores[other := value])
  {
  }

  ghost predicate Scored(ln: Ln, hypotheses: seq<Hypothesis>, clusters: map<int, seq<Piece>>, order: seq<int>,
      n: nat, done: nat, scores: map<int, real>)
    requires n < |order|
  {
    && (forall j {:trigger hypotheses[j]} :: 0 <= j < |hypotheses| && j < done ==>
          ScoredUpTo(ln, hypotheses[j], clusters, order, n + 1, scores))
    && (forall j {:trigger hypotheses[j]} :: 0 <= j < |hypotheses| && done <= j ==>
          ScoredUpTo(ln, hypotheses[j], clusters, order, n, scores))
  }

  lemma ScoredNext(ln: Ln, hypotheses: seq<Hypothesis>, clusters: map<int, seq<Piece>>, order: seq<int>, n: nat,
      i: nat, scores: map<int, real>, contribution: real)
    requires n < |order| && Lists(order, clusters.Keys) && DistinctHypotheses(hypotheses) && i < |hypotheses|
    requires Scored(ln, hypotheses, clusters, order, n, i, scores)
    requires order[n] in clusters && contribution == Contribution(ln, clusters[order[n]], hypotheses[i].id)
    ensures hypotheses[i].id in scores
    ensures Scored(ln, hypotheses, clusters, order, n, i + 1,
      scores[hypotheses[i].id := scores[hypotheses[i].id] + contribution])
  {
    var h := hypotheses[i].id;
    ScoreStep(ln, hypotheses[i], clusters, order, n, scores);
    var value := scores[h] + contribution;
    forall j | 0 <= j < |hypotheses| && j != i
      ensures ScoredUpTo(ln, hypotheses[j], clusters, order, if j < i then n + 1 else n, scores[h := value])
    {
      ScoreKept(ln, hypotheses[j], clusters, order, if j < i then n + 1 else n, scores, h, value);
    }
  }

  /** The inner loop: one cluster updates every hypothesis. */
  method AddCluster(ln: Ln, hypotheses: seq<Hypothesis>, clusters: map<int, seq<Piece>>, order: seq<int>,
      n: nat, before: map<int, real>)
    returns (scores: map<int, real>)
    requires n < |order| && Lists(order, clusters.Keys) && DistinctHypotheses(hypotheses)
    requires Scored(ln, hypotheses, clusters, order, n, 0, before)
    ensures Scored(ln, hypotheses, clusters, order, n, |hypotheses|, scores)
  {
    scores := before;
    var pieces := clusters[order[n]];
    var weight, confidence := Weight(pieces), Strongest(pieces);
    for i := 0 to |hypotheses|
      invariant Scored(ln, hypotheses, clusters, order, n, i, scores)
    {
      var h := hypotheses[i].id;
      var contribution := Contributes(ln, pieces, weight, confidence, h);
      ScoredNext(ln, hypotheses, clusters, order, n, i, scores, contribution);
      scores := scores[h := scores[h] + contribution];
    }
  }

  /** The weighted mean log likelihood of one hypothesis, scaled by the cluster's confidence. */
  method Contributes(ln: Ln, pieces: seq<Piece>, weight: real, confidence: real, h: int) returns (contribution: real)
    requires weight == Weight(pieces) && confidence == Strongest(pieces)
    ensures contribution == Contribution(ln, pieces, h)
  {
    var weighted := 0.0;
    for i := 0 to |pieces|
      invariant weighted == SumOver(Weighed(ln, h), pieces[..i])
    {
      assert pieces[..i + 1][..i] == pieces[..i];
      weighted := weighted + Weighed(ln, h)(pieces[i]);
    }
    assert pieces[..|pieces|] == pieces;
    return ScaledMean(weighted, weight, confidence);
  }

  lemma PartialAll(ln: Ln, clusters: map<int, seq<Piece>>, order: seq<int>, h: int)
    requires Lists(order, clusters.Keys)
    ensures Partial(ln, clusters, order, |order|, h) == Contributions(ln, clusters, h)
  {
    assert order[..|order|] == order;
    forall c | c in clusters
      ensures c in order
    {
      assert c in clusters.Keys;
    }
  }

  method ScoreHypotheses(ln: Ln, hypotheses: seq<Hypothesis>, clusters: map<int, seq<Piece>>,
      order: seq<int>) returns (scores: map<int, real>)
    requires Lists(order, clusters.Keys) && DistinctHypotheses(hypotheses)
    ensures forall i :: 0 <= i < |hypotheses| ==>
      (hypotheses[i].id in scores
        && scores[hypotheses[i].id] == LogScore(ln, hypotheses[i].prior, clusters, hypotheses[i].id))
  {
    scores := PriorScores(ln, hypotheses, clusters, order);
    for n := 0 to |order|
      invariant forall i :: 0 <= i < |hypotheses| ==> ScoredUpTo(ln, hypotheses[i], clusters, order, n, scores)
    {
      scores := AddCluster(ln, hypotheses, clusters, order, n, scores);
    }
    forall i | 0 <= i < |hypotheses|
      ensures hypotheses[i].id in scores
        && scores[hypotheses[i].id] == LogScore(ln, hypotheses[i].prior, clusters, hypotheses[i].id)
    {
      var h := hypotheses[i].id;
      assert ScoredUpTo(ln, hypotheses[i], clusters, order, |order|, scores);
      PartialAll(ln, clusters, order, h);
    }
  }

  ghost function Measured(strengths: map<int, real>, order: seq<int>, n: nat): map<int, real>
    requires n <= |order|
  {
    map c | c in strengths && c in order[..n] :: strengths[c]
  }

  lemma MeasuredNext(strengths: map<int, real>, order: seq<int>, n: nat, clusters: set<int>)
    requires n < |order| && Lists(order, clusters)
    ensures Total(Measured(strengths, order, n + 1))
      == Total(Measured(strengths, order, n)) + if order[n] in strengths then strengths[order[n]] else 0.0
  {
    ListedPrefix(order, n, clusters);
    var before, c := Measured(strengths, order, n), order[n];
    if c in strengths {
      assert Measured(strengths, order, n + 1) == before[c := strengths[c]];
      TotalUpdate(before, c, strengths[c]);
    } else {
      assert Measured(strengths, order, n + 1) == before;
    }
  }

  lemma MeasuredAll(strengths: map<int, real>, order: seq<int>, clusters: set<int>)
    requires Lists(order, clusters) && strengths.Keys <= clusters
    ensures Measured(strengths, order, |order|) == strengths
  {
    assert order[..|order|] == order;
    forall c | c in strengths
      ensures c in order
    {
      assert c in clusters;
    }
  }

  method SumStrengths(review: Review, evidence: seq<Observation>, clusters: map<int, seq<Piece>>,
      order: seq<int>) returns (sum: real)
    requires review.Valid() && clusters == Clustered(review, evidence) && Lists(order, clusters.Keys)
    ensures sum == Total(ClusterStrengths(review, evidence))
  {
    var nonPrice := NonPriceClusters(evidence);
    ghost var strengths := ClusterStrengths(review, evidence);
    sum := 0.0;
    for i := 0 to |order|
      invariant sum == Total(Measured(strengths, order, i))
    {
      MeasuredNext(strengths, order, i, clusters.Keys);
      if order[i] in nonPrice {
        sum := sum + Strongest(clusters[order[i]]);
      }
    }
    ClustersCover(review, evidence);
    MeasuredAll(strengths, order, clusters.Keys);
  }

  /** The mean strength of the non-price clusters, discounted for lack of breadth. */
  method MeasureStrength(review: Review, evidence: seq<Observation>, clusters: map<int, seq<Piece>>,
      order: seq<int>) returns (strength: real)
    requires review.Valid() && clusters == Clustered(review, evidence) && Lists(order, clusters.Keys)
    ensures strength == StrengthOf(review, evidence)
  {
    var n := |NonPriceClusters(evidence)|;
    if n == 0 {
      return 0.0;
    }
    var sum := SumStrengths(review, evidence, clusters, order);
    return Discounted(sum, n);
  }

  lemma {:induction false} ClustersCover(review: Review, evidence: seq<Observation>)
    requires review.Valid()
    ensures forall o :: o in evidence ==> o.cluster in Clustered(review, evidence)
  {
    if evidence != [] {
      ClustersCover(review, evidence[..|evidence| - 1]);
      assert evidence == evidence[..|evidence| - 1] + [evidence[|evidence| - 1]];
    }
  }

  /** The checks made before anything is computed, in order. */
  method Validate(research: ResearchCase, review: Review) returns (refusal: Option<BeliefError>)
    ensures refusal == Refusal(research, review)
  {
    if review.asof < research.createdAt {
      return Some(PredatesCase);
    }
    var ids: set<int> := {};
    for i := 0 to |review.observations|
      invariant forall id :: id in ids <==> exists j :: 0 <= j < i && review.observations[j].id == id
      invariant DistinctIds(review.observations[..i])
    {
      if review.observations[i].id in ids {
        return Some(DuplicateEvidence);
      }
      ids := ids + {review.observations[i].id};
    }
    assert review.observations[..|review.observations|] == review.observations;
    return FirstError(research, review.observations);
  }

  /** One update: it refuses exactly when a check fails, and otherwise gives the scores and the stage
      of the evidence that counts. */
  method Update(ln: Ln, research: ResearchCase, review: Review, minimumClusters: nat)
      returns (r: Result<BeliefUpdate, BeliefError>)
    requires research.Valid() && review.Valid() && 2 <= minimumClusters
    ensures r.Err? <==> Refusal(research, review).Some?
    ensures r.Err? ==> Refusal(research, review) == Some(r.error)
    ensures r.Ok? ==>
      && r.value.evidence == review.Visible()
      && r.value.stage == Assess(review, minimumClusters).stage
        && r.value.strength == Assess(review, minimumClusters).strength
      && forall i :: 0 <= i < 3 ==>
           (research.hypotheses[i].id in r.value.logScores
            && r.value.logScores[research.hypotheses[i].id]
               == LogScore(ln, research.hypotheses[i].prior, Clustered(review, review.Effective()),
                 research.hypotheses[i].id))
  {
    var refusal := Validate(research, review);
    if refusal.Some? {
      return Err(refusal.value);
    }
    var visible := Sorting.Sort(AvailableBy(review.observations, review.asof), Earlier);
    var effective := Counting(review, visible);
    var clusters, order := GroupClusters(review, effective);
    var scores := ScoreHypotheses(ln, research.hypotheses, clusters, order);
    var strength := MeasureStrength(review, effective, clusters, order);
    return Ok(BeliefUpdate(scores, visible, StageOf(effective, minimumClusters), strength));
  }

  lemma {:induction false} PiecesFraction(review: Review, evidence: seq<Observation>)
    requires review.Valid()
    ensures forall c :: c in Clustered(review, evidence) ==> 0.0 <= Strongest(Clustered(review, evidence)[c]) <= 1.0
  {
    if evidence != [] {
      PiecesFraction(review, evidence[..|evidence| - 1]);
      var last := evidence[|evidence| - 1];
      var before := Clustered(review, evidence[..|evidence| - 1]);
      var members := if last.cluster in before then before[last.cluster] else [];
      assert (members + [PieceOf(review, last)])[..|members|] == members;
    }
  }

  /** Evidence strength is a probability. */
  lemma StrengthIsProbability(review: Review, evidence: seq<Observation>)
    requires review.Valid()
    ensures 0.0 <= StrengthOf(review, evidence) <= 1.0
  {
    var strengths, n := ClusterStrengths(review, evidence), |NonPriceClusters(evidence)|;
    PiecesFraction(review, evidence);
    TotalOfFractions(strengths);
    assert strengths.Keys == NonPriceClusters(evidence);
    assert |strengths| == |strengths.Keys|;
    if n != 0 {
      DiscountedFraction(Total(strengths), n);
    }
  }

  lemma DiscountedFraction(sum: real, n: nat)
    requires 0 < n && 0.0 <= sum <= n as real
    ensures 0.0 <= Discounted(sum, n) <= 1.0
  {
    Calibration.UnitRatio(sum, n as real);
    ProductBounds(sum / n as real, if n < 4 then n as real / 4.0 else 1.0);
  }
}
