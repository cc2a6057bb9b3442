/** What a proposed weight is, in terms of the belief, the payoff and the policy. */
module SizingLaws {
  import opened Wrappers
  import opened Evidence
  import opened Positioning

  /** The cap the policy sets for a stage. */
  ghost predicate IsCap(policy: Policy, stage: Stage, cap: real) {
    && (stage == ObservationStage ==> cap == policy.observationCap)
    && (stage == EvidenceStage ==> cap == policy.evidenceCap)
    && (stage == Core ==> cap == policy.coreCap)
    && (stage != ObservationStage && stage != EvidenceStage && stage != Core ==> cap == 0.0)
  }

  /** What the payoff is expected to return. */
  ghost predicate IsExpected(i: Inputs, expected: real) {
    expected == i.belief.posterior * i.payoff.upsideReturn - (1.0 - i.belief.posterior) * i.payoff.failureLoss
  }

  /** The greater of the payoff's correlation and the policy's floor. */
  ghost predicate IsGreater(c: real, a: real, b: real) {
    (c == a || c == b) && a <= c && b <= c
  }

  /** The weight that strength and expected return earn per unit of correlated loss. */
  ghost predicate IsEarned(policy: Policy, i: Inputs, w: real, expected: real, correlation: real) {
    w * (i.payoff.failureLoss * correlation) == policy.sizingMultiplier * i.belief.strength * expected
  }

  /** What the engine demands before it proposes any weight at all. */
  ghost predicate Favoured(policy: Policy, i: Inputs, expected: real) {
    && (i.belief.stage == ObservationStage || i.belief.stage == EvidenceStage || i.belief.stage == Core)
    && policy.minimumProbabilityEdge <= i.belief.posterior - i.expectation.impliedProbability
    && 0.0 < expected
  }

  lemma EarnedIsRaw(policy: Policy, i: Inputs, w: real, expected: real, correlation: real)
    requires IsExpected(i, expected) && IsGreater(correlation, i.payoff.variableCorrelation, policy.correlationFloor)
    requires 0.0 < correlation && IsEarned(policy, i, w, expected, correlation)
    ensures Denominator(policy, i.payoff) != 0.0 && RawWeight(policy, i) == w
  {
    var d := i.payoff.failureLoss * correlation;
    PositiveProduct(i.payoff.failureLoss, correlation);
    assert Denominator(policy, i.payoff) == d;
    assert i.ExpectedReturn() == expected;
    QuotientIs(policy.sizingMultiplier * i.belief.strength * expected, d, w);
  }

  lemma PositiveProduct(a: real, b: real)
    requires 0.0 < a && 0.0 < b
    ensures 0.0 < a * b
  {
  }

  lemma QuotientIs(a: real, d: real, w: real)
    requires d != 0.0 && w * d == a
    ensures a / d == w
  {
    assert (a / d - w) * d == 0.0;
  }

  /** No add is held back: nothing is held yet, the weight is no add, or the evidence was upgraded. */
  ghost predicate Unblocked(policy: Policy, i: Inputs, w: real) {
    i.prior.None? || w <= i.prior.value.currentWeight || EvidenceUpgraded(policy, i.prior.value, i.belief)
  }

  /** In favour, an unblocked proposal is the earned weight or the stage's cap, whichever is less, rounded down by
      less than 0.0001. */
  lemma FavouredWeight(policy: Policy, i: Inputs, w: real, expected: real, correlation: real, cap: real)
    requires ProposalFor(policy, i).Ok? && IsExpected(i, expected) && Favoured(policy, i, expected)
    requires IsGreater(correlation, i.payoff.variableCorrelation, policy.correlationFloor) && 0.0 < correlation
    requires IsEarned(policy, i, w, expected, correlation) && IsCap(policy, i.belief.stage, cap)
    requires Unblocked(policy, i, if w < cap then w else cap)
    ensures var target, least := ProposalFor(policy, i).value.targetWeight, if w < cap then w else cap;
      target <= least < target + 0.0001 && OnGrid(target)
  {
    EarnedIsRaw(policy, i, w, expected, correlation);
    assert i.ExpectedReturn() == expected;
    RawWeightNonNegative(policy, i);
    QuantizedBelow(if w < cap then w else cap);
  }

  /** Out of favour, whatever is held, the proposed weight is zero. */
  lemma UnfavouredWeight(policy: Policy, i: Inputs, expected: real)
    requires ProposalFor(policy, i).Ok? && IsExpected(i, expected) && !Favoured(policy, i, expected)
    ensures ProposalFor(policy, i).value.targetWeight == 0.0
  {
    assert i.ExpectedReturn() == expected;
    QuantizedBelow(0.0);
  }

  /** Evidence of no strength earns no weight. */
  lemma NoStrengthNoWeight(policy: Policy, i: Inputs)
    requires ProposalFor(policy, i).Ok? && i.belief.strength == 0.0
    ensures ProposalFor(policy, i).value.targetWeight == 0.0
  {
    QuantizedBelow(0.0);
    if Denominator(policy, i.payoff) != 0.0 {
      assert RawWeight(policy, i) == 0.0;
    }
  }

  // Comparing proposals.

  /** j offers no less than i in every respect, at the same stage and the same implied probability. */
  ghost predicate NoWorse(i: Inputs, j: Inputs) {
    && i.prior.None? && j.prior.None? && i.belief.stage == j.belief.stage
    && i.expectation.impliedProbability == j.expectation.impliedProbability
    && i.belief.strength <= j.belief.strength && i.belief.posterior <= j.belief.posterior
    && i.payoff.upsideReturn <= j.payoff.upsideReturn
    && j.payoff.failureLoss <= i.payoff.failureLoss
    && j.payoff.variableCorrelation <= i.payoff.variableCorrelation
  }

  lemma ProductsGrow(a: real, b: real, x: real, y: real)
    requires 0.0 <= a <= b && 0.0 <= x <= y
    ensures 0.0 <= a * x <= b * y
  {
    assert a * x <= b * x <= b * y;
  }

  lemma QuotientsGrow(a: real, b: real, d: real, e: real)
    requires 0.0 <= a <= b && 0.0 < e <= d
    ensures a / d <= b / e
  {
    var x, y := a / d, b / e;
    assert x * d == a && y * e == b;
    NonNegativeRatio(b, e);
    if y < x {
      StrictlyLess(y, x, e, d, a, b);
    }
  }

  lemma EarnedGrows(m: real, s: real, t: real, x: real, y: real, d: real, e: real)
    requires 0.0 <= m && 0.0 <= s <= t && 0.0 <= x <= y && 0.0 < e <= d
    ensures m * s * x / d <= m * t * y / e
  {
    ProductsGrow(m, m, s, t);
    ProductsGrow(m * s, m * t, x, y);
    QuotientsGrow(m * s * x, m * t * y, d, e);
  }

  lemma StrictlyLess(y: real, x: real, e: real, d: real, a: real, b: real)
    requires 0.0 <= y < x && 0.0 < e <= d && x * d == a && y * e == b
    ensures b < a
  {
    assert y * e < x * e <= x * d;
  }

  lemma ExpectedGrows(i: Inputs, j: Inputs)
    requires NoWorse(i, j)
    ensures i.ExpectedReturn() <= j.ExpectedReturn()
  {
    ProductsGrow(i.belief.posterior, j.belief.posterior, i.payoff.upsideReturn, j.payoff.upsideReturn);
    ProductsGrow(1.0 - j.belief.posterior, 1.0 - i.belief.posterior, j.payoff.failureLoss, i.payoff.failureLoss);
  }

  lemma DenominatorShrinks(policy: Policy, i: Inputs, j: Inputs)
    requires NoWorse(i, j)
    ensures Denominator(policy, j.payoff) <= Denominator(policy, i.payoff)
  {
    ProductsGrow(j.payoff.failureLoss, i.payoff.failureLoss,
      Larger(j.payoff.variableCorrelation, policy.correlationFloor),
      Larger(i.payoff.variableCorrelation, policy.correlationFloor));
  }

  lemma RawGrows(policy: Policy, i: Inputs, j: Inputs)
    requires NoWorse(i, j) && 0.0 <= i.ExpectedReturn()
    requires Denominator(policy, i.payoff) != 0.0 && Denominator(policy, j.payoff) != 0.0
    ensures RawWeight(policy, i) <= RawWeight(policy, j)
  {
    ExpectedGrows(i, j);
    DenominatorShrinks(policy, i, j);
    NonNegativeProduct(j.payoff.failureLoss, Larger(j.payoff.variableCorrelation, policy.correlationFloor));
    EarnedGrows(policy.sizingMultiplier, i.belief.strength, j.belief.strength, i.ExpectedReturn(), j.ExpectedReturn(),
      Denominator(policy, i.payoff), Denominator(policy, j.payoff));
  }

  lemma QuantizedGrows(v: real, w: real)
    requires v <= w
    ensures Quantized(v) <= Quantized(w)
  {
    var m, n := (v * 10000.0).Floor, (w * 10000.0).Floor;
    FloorGrows(v * 10000.0, w * 10000.0);
    StepGrows(m, n);
  }

  lemma FloorGrows(v: real, w: real)
    requires v <= w
    ensures v.Floor <= w.Floor
  {
  }

  lemma StepGrows(m: int, n: int)
    requires m <= n
    ensures m as real / 10000.0 <= n as real / 10000.0
  {
  }

  /** With nothing held, the proposed weight never falls as strength, posterior or upside grows, and never rises as
      loss or correlation does. */
  lemma WeightMonotone(policy: Policy, i: Inputs, j: Inputs)
    requires NoWorse(i, j) && ProposalFor(policy, i).Ok? && ProposalFor(policy, j).Ok?
    ensures ProposalFor(policy, i).value.targetWeight <= ProposalFor(policy, j).value.targetWeight
  {
    var a, b := Justified(policy, i).value.0, Justified(policy, j).value.0;
    ExpectedGrows(i, j);
    JustifiedWithinCap(policy, j);
    if 0.0 < a && a != 0.0 {
      RawGrows(policy, i, j);
    }
    QuantizedGrows(a, b);
  }

  // What a proposal says.

  /** A proposal is made exactly when the estimate is a real-time one, belief and expectation are of the case and
      agree on evidence and hypothesis, the expectation was available, and a weight to be earned has a divisor. */
  lemma ProposedExactly(policy: Policy, i: Inputs, expected: real, cap: real)
    requires IsExpected(i, expected) && IsCap(policy, i.belief.stage, cap)
    ensures ProposalFor(policy, i).Ok? <==>
      && i.belief.vintage == RealTime
      && i.belief.snapshotCase == i.caseId && i.belief.assessmentCase == i.caseId
      && i.belief.snapshotHash == i.belief.assessmentHash
      && i.expectation.caseId == i.caseId && i.expectation.hypothesis == i.fundamental
      && i.expectation.availableAt <= i.belief.asof
      && (cap != 0.0 && Favoured(policy, i, expected) ==>
           0.0 < i.payoff.variableCorrelation || 0.0 < policy.correlationFloor)
  {
    assert i.ExpectedReturn() == expected;
    DenominatorPositive(policy, i.payoff);
  }

  ghost predicate IsTier(stage: Stage, tier: Tier) {
    match tier
    case ObservationTier => stage == ObservationStage
    case EvidenceTier => stage == EvidenceStage
    case CoreTier => stage == Core
    case NoTier => stage != ObservationStage && stage != EvidenceStage && stage != Core
  }

  /** A proposal names its case, time, tier, expected return and evidence. Its reasons start with the stage, end
      with the pending approval, and tell whether a weight was earned and whether an add was held back. */
  lemma ProposalStates(policy: Policy, i: Inputs, cap: real)
    requires ProposalFor(policy, i).Ok? && IsCap(policy, i.belief.stage, cap)
    ensures var p := ProposalFor(policy, i).value;
      && p.caseId == i.caseId && p.asof == i.belief.asof && p.evidenceHash == i.belief.assessmentHash
      && IsTier(i.belief.stage, p.tier) && IsExpected(i, p.expectedReturn)
      && p.reasons[0] == ResearchStage(i.belief.stage) && p.reasons[|p.reasons| - 1] == PendingApproval
      && (HypothesisInvalidated in p.reasons <==> i.belief.stage == Invalidated)
      && (PositiveAsymmetry in p.reasons <==> cap != 0.0 && Favoured(policy, i, p.expectedReturn))
      && (AddBlocked in p.reasons ==>
           && i.prior.Some? && !EvidenceUpgraded(policy, i.prior.value, i.belief)
           && p.targetWeight <= p.currentWeight)
  {
    ProposalWithinCap(policy, i);
    if Blocked(policy, i, Justified(policy, i).value.0) {
      QuantizedBelow(i.CurrentWeight());
    }
  }

  // Actions.

  /** An action is named for how the proposed weight compares with the held one: out of nothing only OPEN or
      WATCH, to nothing only EXIT or WATCH, and ADD, HOLD and REDUCE between positive weights. */
  lemma ActionNames(policy: Policy, i: Inputs)
    requires ProposalFor(policy, i).Ok?
    ensures var p := ProposalFor(policy, i).value;
      && p.currentWeight == (if i.prior.Some? then i.prior.value.currentWeight else 0.0)
      && (p.action == Watch <==> p.currentWeight == 0.0 && p.targetWeight == 0.0)
      && (p.action == Open <==> p.currentWeight == 0.0 && 0.0 < p.targetWeight)
      && (p.action == Exit <==> 0.0 < p.currentWeight && p.targetWeight == 0.0)
      && (p.action == Hold <==> 0.0 < p.currentWeight && p.targetWeight == p.currentWeight)
      && (p.action == Add <==> 0.0 < p.currentWeight < p.targetWeight)
      && (p.action == Reduce <==> 0.0 < p.targetWeight < p.currentWeight)
  {
    ProposalWithinCap(policy, i);
  }

  // Upgrades.

  /** New evidence upgrades a holding at a higher stage whatever else changed, at a lower stage never, and at the
      same stage by enough strength or by a validated domain more with none lost. */
  lemma UpgradeByStage(policy: Policy, held: PriorState, belief: Belief)
    ensures StageRank(belief.stage) < StageRank(held.stage) ==> !EvidenceUpgraded(policy, held, belief)
    ensures belief.assessmentHash == held.evidenceHash ==> !EvidenceUpgraded(policy, held, belief)
    ensures belief.assessmentHash != held.evidenceHash && StageRank(held.stage) < StageRank(belief.stage) ==>
      EvidenceUpgraded(policy, held, belief)
    ensures belief.assessmentHash != held.evidenceHash && StageRank(held.stage) == StageRank(belief.stage) ==>
      (EvidenceUpgraded(policy, held, belief) <==>
        || policy.minimumEvidenceUpgrade <= belief.strength - held.strength
        || ((forall d :: d in held.domains ==> d in belief.domains) &&
            exists d :: d in belief.domains && d !in held.domains))
  {
    if held.domains < belief.domains {
      assert !(belief.domains <= held.domains);
    }
  }
}
