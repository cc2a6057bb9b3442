/** Position sizing: capped proposals, human approvals, and no adding without an evidence upgrade. */
module Positioning {
  import opened Wrappers
  import Market
  import opened Evidence
  import Beliefs

  datatype PolicyFields = Policy(
    observationCap: real, evidenceCap: real, coreCap: real, minimumProbabilityEdge: Probability,
    minimumEvidenceUpgrade: Probability, correlationFloor: Probability, sizingMultiplier: real)

  /** Positive caps in order, and a positive multiplier. */
  type Policy = p: PolicyFields |
    0.0 < p.observationCap <= p.evidenceCap <= p.coreCap <= 1.0 && 0.0 < p.sizingMultiplier
    witness Policy(0.005, 0.02, 0.05, 0.05, 0.05, 0.25, 0.05)

  datatype PayoffFields = Payoff(upsideReturn: real, failureLoss: real, variableCorrelation: Probability)

  type Payoff = p: PayoffFields | 0.0 < p.upsideReturn && 0.0 < p.failureLoss witness Payoff(1.0, 1.0, 0.0)

  datatype Vintage = RealTime | Retrospective

  datatype Tier = NoTier | ObservationTier | EvidenceTier | CoreTier

  datatype Action = Watch | Open | Add | Hold | Reduce | Exit

  datatype Reason =
    | ResearchStage(stage: Stage) | HypothesisInvalidated | NotPositionEligible | InsufficientGap
    | NonPositiveReturn | PositiveAsymmetry | AddBlocked | PendingApproval

  datatype ProposalError =
    | RetrospectiveEstimate | OtherCase | LineageMismatch | ExpectationOfOtherCase | WrongHypothesis
    | FutureExpectation | ZeroDenominator

  /** The belief snapshot and the evidence assessment made with it. */
  datatype Belief = Belief(
    snapshotCase: int, assessmentCase: int, vintage: Vintage, asof: Market.Time, posterior: Probability,
    snapshotHash: int, assessmentHash: int, stage: Stage, strength: Probability, domains: set<Domain>)

  datatype Expectation = Expectation(caseId: int, hypothesis: int, impliedProbability: Probability,
    availableAt: Market.Time)

  datatype PriorState = PriorState(
    currentWeight: Probability, stage: Stage, strength: Probability, evidenceHash: int, domains: set<Domain>)

  datatype Proposal = Proposal(
    caseId: int, asof: Market.Time, action: Action, tier: Tier, targetWeight: real, currentWeight: Probability,
    expectedReturn: real, evidenceHash: int, reasons: seq<Reason>)

  datatype Inputs = Inputs(
    caseId: int, fundamental: int, belief: Belief, expectation: Expectation, payoff: Payoff, prior: Option<PriorState>)
  {
    function CurrentWeight(): Probability {
      if prior.Some? then prior.value.currentWeight else 0.0
    }

    function ExpectedReturn(): real {
      belief.posterior * payoff.upsideReturn - (1.0 - belief.posterior) * payoff.failureLoss
    }

    /** The first check that fails, in the order they are made. */
    function Refusal(): Option<ProposalError> {
      if belief.vintage != RealTime then Some(RetrospectiveEstimate)
      else if belief.snapshotCase != caseId || belief.assessmentCase != caseId then Some(OtherCase)
      else if belief.snapshotHash != belief.assessmentHash then Some(LineageMismatch)
      else if expectation.caseId != caseId then Some(ExpectationOfOtherCase)
      else if expectation.hypothesis != fundamental then Some(WrongHypothesis)
      else if expectation.availableAt > belief.asof then Some(FutureExpectation)
      else None
    }
  }

  function CapForStage(policy: Policy, stage: Stage): (Probability, Tier) {
    match stage
    case ObservationStage => (policy.observationCap, ObservationTier)
    case EvidenceStage => (policy.evidenceCap, EvidenceTier)
    case Core => (policy.coreCap, CoreTier)
    case _ => (0.0, NoTier)
  }

  /** New evidence, no lower stage, and a better stage, a clearly higher strength or more validated domains. */
  predicate EvidenceUpgraded(policy: Policy, prior: PriorState, belief: Belief) {
    && belief.assessmentHash != prior.evidenceHash
    && StageRank(prior.stage) <= StageRank(belief.stage)
    && (StageRank(prior.stage) < StageRank(belief.stage)
        || prior.strength + policy.minimumEvidenceUpgrade <= belief.strength
        || prior.domains < belief.domains)
  }

  function ActionFor(current: real, target: real): Action {
    if current == target then (if current > 0.0 then Hold else Watch)
    else if current == 0.0 then Open
    else if target == 0.0 then Exit
    else if target > current then Add
    else Reduce
  }

  /** A weight that is not negative, rounded down to the 0.0001 grid. */
  function Quantized(w: real): real {
    (w * 10000.0).Floor as real / 10000.0
  }

  function Step(n: int): real {
    n as real / 10000.0
  }

  ghost predicate OnGrid(w: real) {
    exists n: int :: w == Step(n)
  }

  function Larger(a: real, b: real): real {
    if a < b then b else a
  }

  function Denominator(policy: Policy, payoff: Payoff): real {
    payoff.failureLoss * Larger(payoff.variableCorrelation, policy.correlationFloor)
  }

  function RawWeight(policy: Policy, i: Inputs): real
    requires Denominator(policy, i.payoff) != 0.0
  {
    policy.sizingMultiplier * i.belief.strength * i.ExpectedReturn() / Denominator(policy, i.payoff)
  }

  /** The weight the evidence and the payoff justify, before the add guard, and why. */
  function Justified(policy: Policy, i: Inputs): Result<(real, Reason), ProposalError> {
    var cap := CapForStage(policy, i.belief.stage).0;
    if i.belief.stage == Invalidated then Ok((0.0, HypothesisInvalidated))
    else if cap == 0.0 then Ok((0.0, NotPositionEligible))
    else if i.belief.posterior - i.expectation.impliedProbability < policy.minimumProbabilityEdge
      then Ok((0.0, InsufficientGap))
    else if i.ExpectedReturn() <= 0.0 then Ok((0.0, NonPositiveReturn))
    else if Denominator(policy, i.payoff) == 0.0 then Err(ZeroDenominator)
    else
      var raw := RawWeight(policy, i);
      Ok((if raw < cap then raw else cap, PositiveAsymmetry))
  }

  /** An add without an evidence upgrade is held at the current weight. */
  predicate Blocked(policy: Policy, i: Inputs, justified: real) {
    i.prior.Some? && i.CurrentWeight() < justified && !EvidenceUpgraded(policy, i.prior.value, i.belief)
  }

  function Target(policy: Policy, i: Inputs, justified: real): real {
    Quantized(if Blocked(policy, i, justified) then i.CurrentWeight() else justified)
  }

  function ProposalFor(policy: Policy, i: Inputs): Result<Proposal, ProposalError> {
    if i.Refusal().Some? then Err(i.Refusal().value)
    else
      var justified :- Justified(policy, i);
      var target := Target(policy, i, justified.0);
      Ok(Proposal(i.caseId, i.belief.asof, ActionFor(i.CurrentWeight(), target),
        CapForStage(policy, i.belief.stage).1, target,
                  i.CurrentWeight(), i.ExpectedReturn(), i.belief.snapshotHash,
                  [ResearchStage(i.belief.stage), justified.1]
                  + (if Blocked(policy, i, justified.0) then [AddBlocked] else []) + [PendingApproval]))
  }

  method Propose(policy: Policy, i: Inputs) returns (r: Result<Proposal, ProposalError>)
    ensures r == ProposalFor(policy, i)
  {
    var refusal := i.Refusal();
    if refusal.Some? {
      return Err(refusal.value);
    }
    var current, expectedReturn := i.CurrentWeight(), i.ExpectedReturn();
    var (cap, tier) := CapForStage(policy, i.belief.stage);
    var reasons := [ResearchStage(i.belief.stage)];
    var targetWeight := 0.0;
    if i.belief.stage == Invalidated {
      reasons := reasons + [HypothesisInvalidated];
    } else if cap == 0.0 {
      reasons := reasons + [NotPositionEligible];
    } else if i.belief.posterior - i.expectation.impliedProbability < policy.minimumProbabilityEdge {
      reasons := reasons + [InsufficientGap];
    } else if expectedReturn <= 0.0 {
      reasons := reasons + [NonPositiveReturn];
    } else {
      if Denominator(policy, i.payoff) == 0.0 {
        return Err(ZeroDenominator);
      }
      var rawWeight := RawWeight(policy, i);
      targetWeight := if rawWeight < cap then rawWeight else cap;
      reasons := reasons + [PositiveAsymmetry];
    }
    if i.prior.Some? && targetWeight > current && !EvidenceUpgraded(policy, i.prior.value, i.belief) {
      targetWeight := current;
      reasons := reasons + [AddBlocked];
    }
    targetWeight := Quantized(targetWeight);
    reasons := reasons + [PendingApproval];
    ghost var justified := Justified(policy, i).value;
    assert reasons == [ResearchStage(i.belief.stage), justified.1]
      + (if Blocked(policy, i, justified.0) then [AddBlocked] else []) + [PendingApproval];
    return Ok(Proposal(i.caseId, i.belief.asof, ActionFor(current, targetWeight), tier, targetWeight, current,
      expectedReturn,
                       i.belief.snapshotHash, reasons));
  }

  // Caps, grid and zero.

  lemma QuantizedBelow(w: real)
    requires 0.0 <= w
    ensures 0.0 <= Quantized(w) <= w && OnGrid(Quantized(w))
    ensures Quantized(w) == w <==> OnGrid(w)
    ensures w < Quantized(w) + 0.0001
  {
    var n := (w * 10000.0).Floor;
    assert Quantized(w) == Step(n);
    if OnGrid(w) {
      var m: int :| w == Step(m);
      assert w * 10000.0 == m as real;
      assert n == m;
    }
  }

  lemma RawWeightNonNegative(policy: Policy, i: Inputs)
    requires Denominator(policy, i.payoff) != 0.0 && 0.0 <= i.ExpectedReturn()
    ensures 0.0 <= RawWeight(policy, i)
  {
    NonNegativeProduct(i.payoff.failureLoss, Larger(i.payoff.variableCorrelation, policy.correlationFloor));
    NonNegativeProduct(policy.sizingMultiplier, i.belief.strength);
    NonNegativeProduct(policy.sizingMultiplier * i.belief.strength, i.ExpectedReturn());
    NonNegativeRatio(policy.sizingMultiplier * i.belief.strength * i.ExpectedReturn(), Denominator(policy, i.payoff));
  }

  lemma NonNegativeProduct(a: real, b: real)
    requires 0.0 <= a && 0.0 <= b
    ensures 0.0 <= a * b
  {
  }

  lemma NonNegativeRatio(a: real, d: real)
    requires 0.0 <= a && 0.0 < d
    ensures 0.0 <= a / d
  {
  }

  lemma JustifiedWithinCap(policy: Policy, i: Inputs)
    ensures Justified(policy, i).Ok? ==> 0.0 <= Justified(policy, i).value.0 <= CapForStage(policy, i.belief.stage).0
  {
    if Denominator(policy, i.payoff) != 0.0 && 0.0 < i.ExpectedReturn() {
      RawWeightNonNegative(policy, i);
    }
  }

  /** Every proposed weight is a multiple of 0.0001 between zero and its stage's cap; it is zero at a
      stage without a cap, whatever the prices say. */
  lemma ProposalWithinCap(policy: Policy, i: Inputs)
    requires Justified(policy, i).Ok?
    ensures var target := Target(policy, i, Justified(policy, i).value.0);
      0.0 <= target <= CapForStage(policy, i.belief.stage).0 && OnGrid(target)
  {
    JustifiedWithinCap(policy, i);
    QuantizedBelow(if Blocked(policy, i, Justified(policy, i).value.0) then i.CurrentWeight()
      else Justified(policy, i).value.0);
  }

  /** Price moves alone never earn a weight. */
  lemma PriceAloneGetsNoWeight(policy: Policy, i: Inputs, review: Beliefs.Review, minimumClusters: nat)
    requires review.Valid() && forall o :: o in review.observations ==> o.family == Price
    requires i.belief.stage == Beliefs.Assess(review, minimumClusters).stage
    ensures Justified(policy, i).Ok? && Target(policy, i, Justified(policy, i).value.0) == 0.0
  {
    Beliefs.PriceAloneEarnsNothing(review, minimumClusters);
    ProposalWithinCap(policy, i);
  }

  /** A zero denominator needs both a zero correlation and a zero floor. */
  lemma DenominatorPositive(policy: Policy, payoff: Payoff)
    ensures Denominator(policy, payoff) == 0.0 <==> policy.correlationFloor == 0.0 && payoff.variableCorrelation == 0.0
  {
    var larger := Larger(payoff.variableCorrelation, policy.correlationFloor);
    if 0.0 < larger {
      assert 0.0 < payoff.failureLoss * larger;
    }
  }

  /** The proposed weight exceeds the held weight only when the evidence was upgraded. */
  lemma RiseNeedsUpgrade(policy: Policy, i: Inputs)
    requires i.prior.Some? && Justified(policy, i).Ok?
    requires i.CurrentWeight() < Target(policy, i, Justified(policy, i).value.0)
    ensures EvidenceUpgraded(policy, i.prior.value, i.belief)
  {
    JustifiedWithinCap(policy, i);
    QuantizedBelow(Justified(policy, i).value.0);
    QuantizedBelow(i.CurrentWeight());
  }

  /** A blocked add keeps the holding exactly when it is on the grid; otherwise it shaves it. */
  lemma BlockedAddHoldsExactlyOnGrid(policy: Policy, i: Inputs)
    requires Justified(policy, i).Ok? && Blocked(policy, i, Justified(policy, i).value.0) && 0.0 < i.CurrentWeight()
    ensures var action := ActionFor(i.CurrentWeight(), Target(policy, i, Justified(policy, i).value.0));
      (action == Hold <==> OnGrid(i.CurrentWeight())) && action in {Hold, Reduce, Exit}
  {
    QuantizedBelow(i.CurrentWeight());
  }

  // Approvals and histories.

  datatype ApprovalError = PredatesProposal | ExceedsProposal | NotConfirmed | NotAProbability

  datatype Approval = Approval(proposal: Proposal, weight: Probability, approvedAt: Market.Time)

  /** An approval may lower the proposed weight but never raise it. */
  function Approve(p: Proposal, weight: Option<real>, approvedAt: Market.Time,
      confirmed: bool): (r: Result<Approval, ApprovalError>)
    ensures r.Ok? ==> r.value.weight <= p.targetWeight && p.asof <= r.value.approvedAt
  {
    var resolved := weight.GetOr(p.targetWeight);
    if !(0.0 <= resolved <= 1.0) then Err(NotAProbability)
    else if approvedAt < p.asof then Err(PredatesProposal)
    else if resolved > p.targetWeight then Err(ExceedsProposal)
    else if !confirmed then Err(NotConfirmed)
    else Ok(Approval(p, resolved, approvedAt))
  }

  /** One review of a holding: what was believed, expected and offered, and what the reviewer approved. */
  datatype Review = Review(
    belief: Belief, expectation: Expectation, payoff: Payoff,
    approved: Option<real>, approvedAt: Market.Time, confirmed: bool)

  function ReviewInputs(caseId: int, fundamental: int, held: PriorState, review: Review): Inputs {
    Inputs(caseId, fundamental, review.belief, review.expectation, review.payoff, Some(held))
  }

  /** What is held after a review: an approved proposal is recorded with the evidence it rests on;
      a refused proposal or approval changes nothing. */
  function AfterReview(policy: Policy, caseId: int, fundamental: int, held: PriorState, review: Review): PriorState {
    var proposal := ProposalFor(policy, ReviewInputs(caseId, fundamental, held, review));
    if proposal.Err? then held
    else
      var approval := Approve(proposal.value, review.approved, review.approvedAt, review.confirmed);
      if approval.Err? then held
      else PriorState(approval.value.weight, review.belief.stage, review.belief.strength,
                      review.belief.assessmentHash, review.belief.domains)
  }

  ghost function HeldAfter(policy: Policy, caseId: int, fundamental: int, held: PriorState, reviews: seq<Review>,
      n: nat): PriorState
    requires n <= |reviews|
  {
    if n == 0 then held
    else AfterReview(policy, caseId, fundamental, HeldAfter(policy, caseId, fundamental, held, reviews, n - 1),
      reviews[n - 1])
  }

  /** The review sees the same stage, strength and domains as the holding was recorded with. */
  predicate SameEvidence(held: PriorState, review: Review) {
    review.belief.stage == held.stage && review.belief.strength == held.strength
      && review.belief.domains == held.domains
  }

  /** Unchanged evidence counts as an upgrade only if the policy asks for no improvement at all. */
  lemma UnchangedIsNoUpgrade(policy: Policy, held: PriorState, review: Review)
    requires SameEvidence(held, review)
    ensures EvidenceUpgraded(policy, held, review.belief)
      <==> policy.minimumEvidenceUpgrade == 0.0 && review.belief.assessmentHash != held.evidenceHash
  {
  }

  lemma ReviewNeverRaises(policy: Policy, caseId: int, fundamental: int, held: PriorState, review: Review)
    requires !EvidenceUpgraded(policy, held, review.belief)
    ensures AfterReview(policy, caseId, fundamental, held, review).currentWeight <= held.currentWeight
  {
    var i := ReviewInputs(caseId, fundamental, held, review);
    if ProposalFor(policy, i).Ok? && held.currentWeight < ProposalFor(policy, i).value.targetWeight {
      RiseNeedsUpgrade(policy, i);
    }
  }

  /** No adding without evidence: while stage, strength and validated domains stay the same, no history
      of prices, payoffs, hashes and approvals raises the held weight. */
  lemma {:induction false} NoAddWithoutEvidence(policy: Policy, caseId: int, fundamental: int,
      held: PriorState, reviews: seq<Review>, m: nat, n: nat)
    requires 0.0 < policy.minimumEvidenceUpgrade && m <= n <= |reviews|
    requires forall i :: 0 <= i < |reviews| ==> SameEvidence(held, reviews[i])
    ensures var before := HeldAfter(policy, caseId, fundamental, held, reviews, m);
      var after := HeldAfter(policy, caseId, fundamental, held, reviews, n);
      && after.currentWeight <= before.currentWeight
      && after.stage == held.stage && after.strength == held.strength && after.domains == held.domains
    decreases n
  {
    if m < n {
      NoAddWithoutEvidence(policy, caseId, fundamental, held, reviews, m, n - 1);
      var last := HeldAfter(policy, caseId, fundamental, held, reviews, n - 1);
      UnchangedIsNoUpgrade(policy, last, reviews[n - 1]);
      ReviewNeverRaises(policy, caseId, fundamental, last, reviews[n - 1]);
    } else if n > 0 {
      NoAddWithoutEvidence(policy, caseId, fundamental, held, reviews, n - 1, n - 1);
    }
  }

  // What strength may do between reviews.

  /** The review sees the same stage and domains as the holding was recorded with. */
  predicate SameStanding(held: PriorState, review: Review) {
    review.belief.stage == held.stage && review.belief.domains == held.domains
  }

  /** At an unchanged stage with unchanged domains, an upgrade is new evidence stronger than what was last
      recorded by at least the minimum. */
  lemma UpgradeOfStrength(policy: Policy, held: PriorState, review: Review)
    requires SameStanding(held, review)
    ensures EvidenceUpgraded(policy, held, review.belief)
      <==> review.belief.assessmentHash != held.evidenceHash
           && held.strength + policy.minimumEvidenceUpgrade <= review.belief.strength
  {
  }

  /** The review's strength is short of an upgrade over what was last recorded before it. */
  ghost predicate ShortOfUpgrade(policy: Policy, caseId: int, fundamental: int, held: PriorState,
      reviews: seq<Review>, i: nat)
    requires i < |reviews|
  {
    reviews[i].belief.strength
      < HeldAfter(policy, caseId, fundamental, held, reviews, i).strength + policy.minimumEvidenceUpgrade
  }

  /** However strength moves, the held weight never rises while each review, at an unchanged stage with
      unchanged domains, stays short of an upgrade over the strength recorded last. */
  lemma {:induction false} NoAddShortOfUpgrade(policy: Policy, caseId: int, fundamental: int,
      held: PriorState, reviews: seq<Review>, m: nat, n: nat)
    requires m <= n <= |reviews|
    requires forall i :: 0 <= i < |reviews| ==> SameStanding(held, reviews[i])
    requires forall i :: 0 <= i < |reviews| ==> ShortOfUpgrade(policy, caseId, fundamental, held, reviews, i)
    ensures var before := HeldAfter(policy, caseId, fundamental, held, reviews, m);
      var after := HeldAfter(policy, caseId, fundamental, held, reviews, n);
      after.currentWeight <= before.currentWeight && after.stage == held.stage && after.domains == held.domains
    decreases n
  {
    if m < n {
      NoAddShortOfUpgrade(policy, caseId, fundamental, held, reviews, m, n - 1);
      var last := HeldAfter(policy, caseId, fundamental, held, reviews, n - 1);
      assert ShortOfUpgrade(policy, caseId, fundamental, held, reviews, n - 1);
      UpgradeOfStrength(policy, last, reviews[n - 1]);
      ReviewNeverRaises(policy, caseId, fundamental, last, reviews[n - 1]);
    } else if n > 0 {
      NoAddShortOfUpgrade(policy, caseId, fundamental, held, reviews, n - 1, n - 1);
    }
  }

  lemma {:induction false} RecordedAtLeast(policy: Policy, caseId: int, fundamental: int,
      held: PriorState, reviews: seq<Review>, low: real, n: nat)
    requires n <= |reviews| && low <= held.strength
    requires forall i :: 0 <= i < |reviews| ==> low <= reviews[i].belief.strength
    ensures low <= HeldAfter(policy, caseId, fundamental, held, reviews, n).strength
  {
    if n > 0 {
      RecordedAtLeast(policy, caseId, fundamental, held, reviews, low, n - 1);
    }
  }

  /** So strength may dip and recover within a band narrower than the minimum upgrade. */
  lemma NoAddWithinBand(policy: Policy, caseId: int, fundamental: int,
      held: PriorState, reviews: seq<Review>, low: real, m: nat, n: nat)
    requires m <= n <= |reviews| && low <= held.strength
    requires forall i :: 0 <= i < |reviews| ==> SameStanding(held, reviews[i])
    requires forall i :: 0 <= i < |reviews| ==>
      low <= reviews[i].belief.strength < low + policy.minimumEvidenceUpgrade
    ensures HeldAfter(policy, caseId, fundamental, held, reviews, n).currentWeight
         <= HeldAfter(policy, caseId, fundamental, held, reviews, m).currentWeight
  {
    forall i | 0 <= i < |reviews|
      ensures ShortOfUpgrade(policy, caseId, fundamental, held, reviews, i)
    {
      RecordedAtLeast(policy, caseId, fundamental, held, reviews, low, i);
    }
    NoAddShortOfUpgrade(policy, caseId, fundamental, held, reviews, m, n);
  }

  const DIP_POLICY: Policy := Policy(0.005, 0.02, 0.05, 0.05, 0.05, 0.25, 0.05)
  const VALIDATED: set<Domain> := {Demand, CashFlow}
  const BEFORE_DIP := PriorState(0.01, Core, 0.5, 0, VALIDATED)

  /** A review of a favourable payoff at the core stage, approved as proposed. */
  function DipReview(strength: Probability, hash: int): Review {
    Review(Belief(1, 1, RealTime, 0, 0.9, hash, hash, Core, strength, VALIDATED), Expectation(1, 1, 0.5, 0),
      Payoff(1.0, 1.0, 0.25),
           None, 0, true)
  }

  lemma ScaledQuotient(multiplier: real, strength: real, expected: real, denominator: real)
    requires multiplier == 0.05 && expected == 0.8 && denominator == 0.25
    ensures multiplier * strength * expected / denominator == 0.16 * strength
  {
  }

  /** The figures of the reviews below. */
  predicate Favourable(policy: Policy, i: Inputs) {
    && policy.sizingMultiplier == 0.05 && policy.coreCap == 0.05
    && i.ExpectedReturn() == 0.8 && Denominator(policy, i.payoff) == 0.25
    && i.belief.stage == Core && 0.4 <= i.belief.strength
    && policy.minimumProbabilityEdge <= i.belief.posterior - i.expectation.impliedProbability
  }

  lemma DipFavourable(held: PriorState, strength: Probability, hash: int)
    requires 0.4 <= strength
    ensures Favourable(DIP_POLICY, ReviewInputs(1, 1, held, DipReview(strength, hash)))
  {
  }

  /** They justify the full cap. */
  lemma FullCap(policy: Policy, i: Inputs)
    requires Favourable(policy, i)
    ensures Justified(policy, i) == Ok((0.05, PositiveAsymmetry))
  {
    ScaledQuotient(policy.sizingMultiplier, i.belief.strength, i.ExpectedReturn(), Denominator(policy, i.payoff));
  }

  lemma DipJustifies(held: PriorState, strength: Probability, hash: int)
    requires 0.4 <= strength
    ensures Justified(DIP_POLICY, ReviewInputs(1, 1, held, DipReview(strength, hash))) == Ok((0.05, PositiveAsymmetry))
  {
    DipFavourable(held, strength, hash);
    FullCap(DIP_POLICY, ReviewInputs(1, 1, held, DipReview(strength, hash)));
  }

  lemma DipTarget(held: PriorState, strength: Probability, hash: int)
    requires held.stage == Core && held.domains == VALIDATED && 0.4 <= strength && held.currentWeight == 0.01
    ensures var upgraded := hash != held.evidenceHash && held.strength + 0.05 <= strength;
      Target(DIP_POLICY, ReviewInputs(1, 1, held, DipReview(strength, hash)), 0.05) == if upgraded then 0.05 else 0.01
  {
    UpgradeOfStrength(DIP_POLICY, held, DipReview(strength, hash));
    assert DIP_POLICY.minimumEvidenceUpgrade == 0.05;
    assert Quantized(0.01) == 0.01 && Quantized(0.05) == 0.05;
  }

  lemma DipRecorded(held: PriorState, strength: Probability, hash: int)
    requires held.stage == Core && held.domains == VALIDATED && 0.4 <= strength && held.currentWeight == 0.01
    ensures var upgraded := hash != held.evidenceHash && held.strength + 0.05 <= strength;
      AfterReview(DIP_POLICY, 1, 1, held, DipReview(strength, hash))
      == PriorState(if upgraded then 0.05 else 0.01, Core, strength, hash, VALIDATED)
  {
    DipJustifies(held, strength, hash);
    DipTarget(held, strength, hash);
  }

  /** A dip unlocks the add it was refused: at the recorded strength the add is blocked; a weaker review is
      recorded; and back at the old strength the same add passes as an upgrade. */
  lemma DipUnlocksAdd()
    ensures var reviews := [DipReview(0.5, 1), DipReview(0.4, 2), DipReview(0.5, 3)];
      && (forall i :: 0 <= i < 3 ==>
           SameStanding(BEFORE_DIP, reviews[i]) && reviews[i].belief.strength <= BEFORE_DIP.strength)
      && HeldAfter(DIP_POLICY, 1, 1, BEFORE_DIP, reviews, 2).currentWeight == BEFORE_DIP.currentWeight == 0.01
      && HeldAfter(DIP_POLICY, 1, 1, BEFORE_DIP, reviews, 3).currentWeight == 0.05
  {
    var reviews := [DipReview(0.5, 1), DipReview(0.4, 2), DipReview(0.5, 3)];
    var refused, dipped := PriorState(0.01, Core, 0.5, 1, VALIDATED), PriorState(0.01, Core, 0.4, 2, VALIDATED);
    DipRecorded(BEFORE_DIP, 0.5, 1);
    DipRecorded(refused, 0.4, 2);
    DipRecorded(dipped, 0.5, 3);
    assert HeldAfter(DIP_POLICY, 1, 1, BEFORE_DIP, reviews, 0) == BEFORE_DIP;
    assert HeldAfter(DIP_POLICY, 1, 1, BEFORE_DIP, reviews, 1) == refused;
    assert HeldAfter(DIP_POLICY, 1, 1, BEFORE_DIP, reviews, 2) == dipped;
  }
}
