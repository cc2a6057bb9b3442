/** What a belief update computes, in terms of the observations it is given. */
module BeliefLaws {
  import opened Wrappers
  import opened Totals
  import Market
  import opened Evidence
  import opened Beliefs
  import opened Sequences
  import Calibration
  import Sorting

  // Validation.

  ghost predicate BelongsTo(research: ResearchCase, o: Observation) {
    && o.caseId == research.id && o.variableId in research.variables
    && forall h :: h in o.likelihoods <==> exists i :: 0 <= i < |research.hypotheses| && research.hypotheses[i].id == h
  }

  lemma IdsListed(research: ResearchCase, h: int)
    ensures h in HypothesisIds(research) <==>
      exists i :: 0 <= i < |research.hypotheses| && research.hypotheses[i].id == h
  {
    if h in HypothesisIds(research) {
      var hypothesis :| hypothesis in research.hypotheses && hypothesis.id == h;
      var i :| 0 <= i < |research.hypotheses| && research.hypotheses[i] == hypothesis;
      assert research.hypotheses[i].id == h;
    }
    if i :| 0 <= i < |research.hypotheses| && research.hypotheses[i].id == h {
      assert research.hypotheses[i] in research.hypotheses;
    }
  }

  lemma ObservationFits(research: ResearchCase, o: Observation)
    ensures ObservationError(research, o).None? <==> BelongsTo(research, o)
    ensures ObservationError(research, o) == Some(WrongCase) <==> o.caseId != research.id
    ensures ObservationError(research, o) == Some(UndefinedVariable) <==>
      o.caseId == research.id && o.variableId !in research.variables
  {
    forall h
      ensures h in HypothesisIds(research) <==>
        exists i :: 0 <= i < |research.hypotheses| && research.hypotheses[i].id == h
    {
      IdsListed(research, h);
    }
    if forall h :: h in o.likelihoods <==> h in HypothesisIds(research) {
      assert o.likelihoods.Keys == HypothesisIds(research);
    }
  }

  /** The first observation that does not belong to the case decides the error. */
  ghost predicate FirstOffender(research: ResearchCase, observations: seq<Observation>, error: BeliefError, i: nat)
    requires i < |observations|
  {
    && ObservationError(research, observations[i]) == Some(error)
    && forall j :: 0 <= j < i ==> BelongsTo(research, observations[j])
  }

  lemma {:induction false} FirstErrorExact(research: ResearchCase, observations: seq<Observation>)
    ensures FirstError(research, observations).None? ==> forall o :: o in observations ==> BelongsTo(research, o)
    ensures FirstError(research, observations).Some? ==>
      exists i :: 0 <= i < |observations| &&
                  FirstOffender(research, observations, FirstError(research, observations).value, i)
  {
    if observations != [] {
      var init, last := observations[..|observations| - 1], observations[|observations| - 1];
      assert observations == init + [last];
      FirstErrorExact(research, init);
      ObservationFits(research, last);
      if FirstError(research, init).Some? {
        var i :| 0 <= i < |init| && FirstOffender(research, init, FirstError(research, init).value, i);
        forall j | 0 <= j < i
          ensures BelongsTo(research, observations[j])
        {
          assert BelongsTo(research, init[j]);
        }
        assert FirstOffender(research, observations, FirstError(research, observations).value, i);
      } else {
        forall j | 0 <= j < |init|
          ensures BelongsTo(research, observations[j])
        {
          assert init[j] in init;
        }
        if FirstError(research, observations).Some? {
          assert FirstOffender(research, observations, FirstError(research, observations).value, |init|);
        }
      }
    }
  }

  /** A review is accepted exactly when it does not predate the case, names no observation twice, and every
      observation is of the case, about one of its variables, and scores exactly its hypotheses. */
  lemma AcceptedExactly(research: ResearchCase, review: Review)
    ensures Refusal(research, review).None? <==>
      && research.createdAt <= review.asof
      && (forall i, j :: 0 <= i < j < |review.observations| ==> review.observations[i].id != review.observations[j].id)
      && (forall o :: o in review.observations ==> BelongsTo(research, o))
  {
    FirstErrorExact(research, review.observations);
    var error := FirstError(research, review.observations);
    if error.Some? {
      var i :| 0 <= i < |review.observations| && FirstOffender(research, review.observations, error.value, i);
      ObservationFits(research, review.observations[i]);
      assert review.observations[i] in review.observations;
    }
  }

  // What an observation weighs.

  /** Without a ledger an observation weighs the product of its five qualities; with one, calibrated reliability
      takes the place of the stated one. */
  lemma QualityIsProduct(review: Review, o: Observation)
    requires review.Valid()
    ensures IsProductOf(review.EffectiveQuality(o), o.quality,
      match review.ledger
      case None => o.quality.reliability
      case Some(ledger) => ledger.Reliability(o.sourceId, o.methodVersion, review.asof, o.quality.reliability))
  {
    match review.ledger
    case None => CombinedIs(o.quality, o.quality.reliability);
    case Some(ledger) =>
      CombinedIs(o.quality, ledger.Reliability(o.sourceId, o.methodVersion, review.asof, o.quality.reliability));
  }

  lemma CombinedIs(q: Quality, reliability: Probability)
    ensures IsProductOf(q.Combined(reliability), q, reliability)
  {
  }

  predicate IsProductOf(weight: real, q: Quality, reliability: real) {
    weight == q.causalProximity * q.independence * q.timeliness * q.expectationGap * reliability
  }

  /** Visible evidence is ordered by availability, and by id when available at the same time. */
  lemma VisibleOrdered(review: Review, i: nat, j: nat)
    requires i < j < |review.Visible()|
    ensures var a, b := review.Visible()[i], review.Visible()[j];
      a.availableAt <= b.availableAt && (a.availableAt == b.availableAt ==> a.id <= b.id)
  {
    EarlierIsOrder();
    Sorting.SortedByFacts(AvailableBy(review.observations, review.asof), Earlier);
  }

  // The stage ladder.

  ghost predicate Validates(evidence: seq<Observation>, domain: Domain) {
    exists o :: o in evidence && domain in o.domains
  }

  /** Each rung of the stage ladder, for evidence without a falsifier: some evidence; some that is not about
      price; enough independent clusters of it; then a confirmed operating or financial result; and at the top a
      financial result with all four core domains validated. A falsifier invalidates. */
  lemma LadderRungs(evidence: seq<Observation>, minimumClusters: nat)
    requires 0 < minimumClusters
    ensures var stage := StageOf(evidence, minimumClusters);
      var clusters := set o | o in evidence && o.family != Price :: o.cluster;
      && (stage == Invalidated <==> exists o :: o in evidence && o.falsifiesFundamental)
      && (stage != Invalidated ==>
           && (1 <= StageRank(stage) <==> evidence != [])
           && (2 <= StageRank(stage) <==> exists o :: o in evidence && o.family != Price)
           && (3 <= StageRank(stage) <==> minimumClusters <= |clusters|)
           && (4 <= StageRank(stage) <==>
                minimumClusters <= |clusters| && exists o :: o in evidence && o.maturity != Leading)
           && (5 <= StageRank(stage) <==>
                && minimumClusters <= |clusters| && (exists o :: o in evidence && o.maturity == FinancialConfirmed)
                && Validates(evidence, Demand) && Validates(evidence, MarketShare)
                && Validates(evidence, Profitability) && Validates(evidence, CashFlow)))
  {
    var clusters := NonPriceClusters(evidence);
    assert clusters == set o | o in evidence && o.family != Price :: o.cluster;
    assert clusters == {} <==> !exists o :: o in evidence && o.family != Price by {
      if o :| o in evidence && o.family != Price {
        assert o.cluster in clusters;
      }
    }
    CoreDomains(evidence);
    if evidence == [] {
      assert forall o :: o !in evidence;
    } else {
      assert evidence[0] in evidence;
    }
  }

  lemma CoreDomains(evidence: seq<Observation>)
    ensures CORE_DOMAINS <= Domains(evidence) <==>
      && Validates(evidence, Demand) && Validates(evidence, MarketShare)
      && Validates(evidence, Profitability) && Validates(evidence, CashFlow)
  {
    forall d
      ensures d in Domains(evidence) <==> Validates(evidence, d)
    {
    }
    assert Demand in CORE_DOMAINS && MarketShare in CORE_DOMAINS && Profitability in CORE_DOMAINS
      && CashFlow in CORE_DOMAINS;
  }

  /** The other fields of an assessment say what the evidence that counts contains. */
  lemma AssessedFields(review: Review, minimumClusters: nat)
    requires review.Valid()
    ensures var a, evidence := Assess(review, minimumClusters), review.Effective();
      && (a.falsifierSeen <==> a.stage == Invalidated)
      && (forall c :: c in a.clusters <==> exists o :: o in evidence && o.cluster == c)
      && (forall c :: c in a.nonPriceClusters <==> exists o :: o in evidence && o.family != Price && o.cluster == c)
      && (forall d :: d in a.domains <==> Validates(evidence, d))
  {
  }

  // Strength.

  /** The greatest effective quality among the observations of a cluster. */
  ghost predicate IsGreatest(review: Review, evidence: seq<Observation>, c: int, s: real)
    requires review.Valid()
  {
    && (forall o :: o in evidence && o.cluster == c ==> review.EffectiveQuality(o) <= s)
    && (exists o :: o in evidence && o.cluster == c && review.EffectiveQuality(o) == s)
  }

  lemma GreatestNext(review: Review, init: seq<Observation>, last: Observation, c: int, s: real)
    requires review.Valid() && IsGreatest(review, init, c, s)
    ensures last.cluster != c ==> IsGreatest(review, init + [last], c, s)
    ensures last.cluster == c && review.EffectiveQuality(last) <= s ==> IsGreatest(review, init + [last], c, s)
    ensures last.cluster == c && s < review.EffectiveQuality(last) ==>
      IsGreatest(review, init + [last], c, review.EffectiveQuality(last))
  {
    var o :| o in init && o.cluster == c && review.EffectiveQuality(o) == s;
    assert o in init + [last] && last in init + [last];
  }

  lemma GreatestFirst(review: Review, init: seq<Observation>, last: Observation)
    requires review.Valid() && forall o :: o in init ==> o.cluster != last.cluster
    ensures IsGreatest(review, init + [last], last.cluster, review.EffectiveQuality(last))
  {
    assert last in init + [last];
  }

  lemma StrongestNext(pieces: seq<Piece>, p: Piece)
    ensures Strongest(pieces + [p]) == if Strongest(pieces) < p.quality then p.quality else Strongest(pieces)
  {
    assert (pieces + [p])[..|pieces|] == pieces;
  }

  /** A non-price cluster is as strong as its strongest observation. */
  lemma {:induction false} ClusterStrength(review: Review, evidence: seq<Observation>, c: int)
    requires review.Valid() && c in Clustered(review, evidence)
    ensures IsGreatest(review, evidence, c, Strongest(Clustered(review, evidence)[c]))
  {
    var init, last := evidence[..|evidence| - 1], evidence[|evidence| - 1];
    var before := Clustered(review, init);
    assert evidence == init + [last];
    if c in before {
      ClusterStrength(review, init, c);
      GreatestNext(review, init, last, c, Strongest(before[c]));
      StrongestNext(before[c], PieceOf(review, last));
    } else {
      NotClustered(review, init, c);
      GreatestFirst(review, init, last);
      StrongestNext([], PieceOf(review, last));
    }
  }

  lemma {:induction false} NotClustered(review: Review, evidence: seq<Observation>, c: int)
    requires review.Valid() && c !in Clustered(review, evidence)
    ensures forall o :: o in evidence ==> o.cluster != c
  {
    if evidence != [] {
      NotClustered(review, evidence[..|evidence| - 1], c);
      assert evidence == evidence[..|evidence| - 1] + [evidence[|evidence| - 1]];
    }
  }

  lemma {:induction false} AllClustered(review: Review, evidence: seq<Observation>, o: Observation)
    requires review.Valid() && o in evidence
    ensures o.cluster in Clustered(review, evidence)
  {
    if o.cluster !in Clustered(review, evidence) {
      NotClustered(review, evidence, o.cluster);
    }
  }

  /** The strength of each non-price cluster is the greatest effective quality among its observations. */
  lemma StrengthsAreMaxima(review: Review, evidence: seq<Observation>, c: int)
    requires review.Valid()
    ensures c in ClusterStrengths(review, evidence) <==>
      exists o :: o in evidence && o.family != Price && o.cluster == c
    ensures c in ClusterStrengths(review, evidence) ==>
      && (forall o :: o in evidence && o.cluster == c ==>
           review.EffectiveQuality(o) <= ClusterStrengths(review, evidence)[c])
      && (exists o :: o in evidence && o.cluster == c
           && review.EffectiveQuality(o) == ClusterStrengths(review, evidence)[c])
  {
    if c in ClusterStrengths(review, evidence) {
      var o :| o in evidence && o.family != Price && o.cluster == c;
      AllClustered(review, evidence, o);
      ClusterStrength(review, evidence, c);
    }
  }

  predicate IsShare(strength: real, n: nat, total: real) {
    strength * n as real == total
  }

  lemma DiscountedShare(total: real, n: nat)
    requires 0 < n
    ensures IsShare(Discounted(total, n), if n <= 4 then 4 else n, total)
  {
    var mean := total / n as real;
    assert mean * n as real == total;
    if n < 4 {
      assert mean * (n as real / 4.0) * 4.0 == mean * n as real;
    }
  }

  /** Strength is the sum of the cluster strengths over the number of clusters, but over four while there are
      fewer. */
  lemma StrengthIsShare(review: Review, evidence: seq<Observation>)
    requires review.Valid()
    ensures var n := |NonPriceClusters(evidence)|;
      IsShare(StrengthOf(review, evidence), if n <= 4 then 4 else n, Total(ClusterStrengths(review, evidence)))
  {
    var n := |NonPriceClusters(evidence)|;
    if n == 0 {
      assert ClusterStrengths(review, evidence) == map[];
    } else {
      DiscountedShare(Total(ClusterStrengths(review, evidence)), n);
    }
  }

  // Scores.

  /** What one piece of evidence moves a score by. */
  function Gain(logRatio: real, quality: real): real {
    logRatio * quality
  }

  lemma SumOfOne(f: Piece -> real, p: Piece)
    ensures SumOver(f, [p]) == f(p)
  {
    assert [p][..0] == [];
    assert SumOver(f, [p][..0]) == 0.0;
  }

  lemma StrongestOfOne(p: Piece)
    requires 0.0 < p.quality
    ensures Strongest([p]) == p.quality
  {
    assert [p][..0] == [];
    assert Strongest([p][..0]) == 0.0;
  }

  lemma SingleContribution(ln: Ln, p: Piece, h: int)
    requires 0.0 < p.quality && h in p.likelihoods
    ensures Contribution(ln, [p], h) == Gain(ln(p.likelihoods[h]), p.quality)
  {
    SumOfOne(Weighed(ln, h), p);
    SumOfOne(QualityOf(), p);
    StrongestOfOne(p);
    RatioTimes(ln(p.likelihoods[h]), p.quality);
  }

  lemma RatioTimes(x: real, q: real)
    requires 0.0 < q
    ensures ScaledMean(x * q, q, q) == Gain(x, q)
  {
    assert x * q / q == x;
  }

  /** Two dependent pieces add their mean gain, weighted by quality, times the better quality. */
  lemma PairContribution(ln: Ln, p: Piece, q: Piece, h: int)
    requires 0.0 < p.quality <= q.quality && h in p.likelihoods && h in q.likelihoods
    ensures IsPairMean(Contribution(ln, [p, q], h), Contribution(ln, [q, p], h), p.quality, q.quality,
                       Gain(ln(p.likelihoods[h]), p.quality), Gain(ln(q.likelihoods[h]), q.quality))
  {
    SumOfTwo(Weighed(ln, h), p, q);
    SumOfTwo(Weighed(ln, h), q, p);
    SumOfTwo(QualityOf(), p, q);
    SumOfTwo(QualityOf(), q, p);
    StrongestOfTwo(p, q);
    PairScaled(Gain(ln(p.likelihoods[h]), p.quality), Gain(ln(q.likelihoods[h]), q.quality), p.quality, q.quality);
  }

  predicate IsPairMean(one: real, other: real, low: real, high: real, gain: real, more: real) {
    one == other && one * (low + high) == (gain + more) * high
  }

  lemma PairScaled(gain: real, more: real, low: real, high: real)
    requires 0.0 < low <= high
    ensures ScaledMean(gain + more, low + high, high) == ScaledMean(more + gain, high + low, high)
    ensures IsPairMean(ScaledMean(gain + more, low + high, high), ScaledMean(gain + more, low + high, high),
                       low, high, gain, more)
  {
    var mean := (gain + more) / (low + high);
    assert mean * (low + high) == gain + more;
    assert mean * high * (low + high) == (mean * (low + high)) * high;
  }

  lemma SumOfTwo(f: Piece -> real, p: Piece, q: Piece)
    ensures SumOver(f, [p, q]) == f(p) + f(q)
  {
    SumOfOne(f, p);
    assert [p, q][..1] == [p];
  }

  lemma StrongestOfTwo(p: Piece, q: Piece)
    requires 0.0 < p.quality <= q.quality
    ensures Strongest([p, q]) == q.quality && Strongest([q, p]) == q.quality
  {
    StrongestOfOne(p);
    StrongestOfOne(q);
    assert [p, q][..1] == [p] && [q, p][..1] == [q];
  }

  /** Without evidence a hypothesis scores the logarithm of its prior. */
  lemma PriorScore(ln: Ln, prior: real, review: Review, h: int)
    requires review.Valid()
    ensures LogScore(ln, prior, Clustered(review, []), h) == ln(prior)
  {
    assert Contributions(ln, Clustered(review, []), h) == map[];
  }

  /** An observation in a cluster of its own adds its effective quality times the logarithm of its likelihood
      ratio. */
  lemma IndependentEvidenceAdds(ln: Ln, prior: real, review: Review, evidence: seq<Observation>, o: Observation, h: int)
    requires review.Valid() && 0.0 < review.EffectiveQuality(o) && h in o.likelihoods
    requires forall other :: other in evidence ==> other.cluster != o.cluster
    ensures LogScore(ln, prior, Clustered(review, evidence + [o]), h)
         == LogScore(ln, prior, Clustered(review, evidence), h) + Gain(ln(o.likelihoods[h]), review.EffectiveQuality(o))
  {
    var before := Clustered(review, evidence);
    OnlyClusters(review, evidence, o.cluster);
    ClusteredNext(review, evidence, o);
    SingleContribution(ln, PieceOf(review, o), h);
    ContributionAdds(ln, before, o.cluster, [PieceOf(review, o)], h);
  }

  lemma ClusteredNext(review: Review, evidence: seq<Observation>, o: Observation)
    requires review.Valid() && o.cluster !in Clustered(review, evidence)
    ensures Clustered(review, evidence + [o]) == Clustered(review, evidence)[o.cluster := [PieceOf(review, o)]]
  {
    assert (evidence + [o])[..|evidence|] == evidence;
    assert [] + [PieceOf(review, o)] == [PieceOf(review, o)];
  }

  lemma ContributionAdds(ln: Ln, clusters: map<int, seq<Piece>>, c: int, pieces: seq<Piece>, h: int)
    requires c !in clusters
    ensures Total(Contributions(ln, clusters[c := pieces], h))
         == Total(Contributions(ln, clusters, h)) + Contribution(ln, pieces, h)
  {
    var before := Contributions(ln, clusters, h);
    assert Contributions(ln, clusters[c := pieces], h) == before[c := Contribution(ln, pieces, h)];
    TotalUpdate(before, c, Contribution(ln, pieces, h));
  }

  lemma {:induction false} OnlyClusters(review: Review, evidence: seq<Observation>, c: int)
    requires review.Valid() && forall o :: o in evidence ==> o.cluster != c
    ensures c !in Clustered(review, evidence)
  {
    if evidence != [] {
      var init, last := evidence[..|evidence| - 1], evidence[|evidence| - 1];
      assert evidence == init + [last] && last in evidence;
      OnlyClusters(review, init, c);
    }
  }
}
