/** The belief engine: which evidence counts, what it adds to the log scores, and the stage it earns. */
module Beliefs {
  import opened Wrappers
  import opened Totals
  import Market
  import opened Evidence
  import Calibration
  import opened Sequences
  import Sorting

  type Ln = real -> real

  datatype BeliefError = PredatesCase | DuplicateEvidence | WrongCase | UndefinedVariable | HypothesesMismatch

  /** The inputs of one update. */
  datatype Review = Review(observations: seq<Observation>, ledger: Option<Calibration.Ledger>, asof: Market.Time) {
    predicate Valid() {
      ledger.Some? ==> 0.0 < ledger.value.priorWeight
    }

    /** Calibrated reliability replaces the stated one when a ledger is given. */
    function EffectiveQuality(o: Observation): (r: real)
      requires Valid()
      ensures 0.0 <= r <= 1.0
    {
      if ledger.None? then o.quality.Combined(o.quality.reliability)
      else o.quality.Combined(ledger.value.Reliability(o.sourceId, o.methodVersion, asof, o.quality.reliability))
    }

    function Visible(): seq<Observation> {
      Sorting.SortedBy(AvailableBy(observations, asof), Earlier)
    }

    function Effective(): seq<Observation>
      requires Valid()
    {
      Counting(this, Visible())
    }
  }

  predicate Earlier(a: Observation, b: Observation) {
    a.availableAt < b.availableAt || (a.availableAt == b.availableAt && a.id <= b.id)
  }

  function AvailableAt(t: Market.Time): Observation -> bool {
    (o: Observation) => o.availableAt <= t
  }

  function AvailableBy(observations: seq<Observation>, t: Market.Time): seq<Observation> {
    Kept(AvailableAt(t), observations)
  }

  function Weighty(review: Review): Observation -> bool
    requires review.Valid()
  {
    (o: Observation) => review.Valid() && review.EffectiveQuality(o) > 0.0
  }

  /** The observations of positive effective quality. */
  function Counting(review: Review, observations: seq<Observation>): seq<Observation>
    requires review.Valid()
  {
    Kept(Weighty(review), observations)
  }

  // Validation.

  ghost predicate DistinctIds(observations: seq<Observation>) {
    forall i, j :: 0 <= i < j < |observations| ==> observations[i].id != observations[j].id
  }

  function HypothesisIds(research: ResearchCase): set<int> {
    set h | h in research.hypotheses :: h.id
  }

  function ObservationError(research: ResearchCase, o: Observation): Option<BeliefError> {
    if o.caseId != research.id then Some(WrongCase)
    else if o.variableId !in research.variables then Some(UndefinedVariable)
    else if o.likelihoods.Keys != HypothesisIds(research) then Some(HypothesesMismatch)
    else None
  }

  /** The first observation that does not belong to the case. */
  function FirstError(research: ResearchCase, observations: seq<Observation>): Option<BeliefError> {
    if observations == [] then None
    else
      var earlier := FirstError(research, observations[..|observations| - 1]);
      if earlier.Some? then earlier else ObservationError(research, observations[|observations| - 1])
  }

  ghost function Refusal(research: ResearchCase, review: Review): Option<BeliefError> {
    if review.asof < research.createdAt then Some(PredatesCase)
    else if !DistinctIds(review.observations) then Some(DuplicateEvidence)
    else FirstError(research, review.observations)
  }

  // Log scores.

  /** What an observation says, without its identity. */
  datatype Piece = Piece(likelihoods: map<int, LikelihoodRatio>, quality: real)

  function LogLikelihood(ln: Ln, p: Piece, h: int): real {
    if h in p.likelihoods then ln(p.likelihoods[h]) else 0.0
  }

  function Weighed(ln: Ln, h: int): Piece -> real {
    (p: Piece) => LogLikelihood(ln, p, h) * p.quality
  }

  function QualityOf(): Piece -> real {
    (p: Piece) => p.quality
  }

  function SumOver(f: Piece -> real, pieces: seq<Piece>): real {
    if pieces == [] then 0.0 else SumOver(f, pieces[..|pieces| - 1]) + f(pieces[|pieces| - 1])
  }

  function Weight(pieces: seq<Piece>): real {
    SumOver(QualityOf(), pieces)
  }

  function Strongest(pieces: seq<Piece>): real {
    if pieces == [] then 0.0
    else
      var before, last := Strongest(pieces[..|pieces| - 1]), pieces[|pieces| - 1].quality;
      if before < last then last else before
  }

  function ScaledMean(sum: real, weight: real, scale: real): real {
    if weight == 0.0 then 0.0 else sum / weight * scale
  }

  /** A cluster adds the quality-weighted mean of its log likelihoods, scaled by its best quality. */
  function Contribution(ln: Ln, pieces: seq<Piece>, h: int): real {
    ScaledMean(SumOver(Weighed(ln, h), pieces), Weight(pieces), Strongest(pieces))
  }

  function PieceOf(review: Review, o: Observation): Piece
    requires review.Valid()
  {
    Piece(o.likelihoods, review.EffectiveQuality(o))
  }

  function Clustered(review: Review, observations: seq<Observation>): map<int, seq<Piece>>
    requires review.Valid()
  {
    if observations == [] then map[]
    else
      var before, last := Clustered(review, observations[..|observations| - 1]), observations[|observations| - 1];
      before[last.cluster := (if last.cluster in before then before[last.cluster] else []) + [PieceOf(review, last)]]
  }

  ghost function Contributions(ln: Ln, clusters: map<int, seq<Piece>>, h: int): map<int, real> {
    map c | c in clusters :: Contribution(ln, clusters[c], h)
  }

  /** The log score of a hypothesis: its prior and one contribution per cluster, in any order. */
  ghost function LogScore(ln: Ln, prior: real, clusters: map<int, seq<Piece>>, h: int): real {
    ln(prior) + Total(Contributions(ln, clusters, h))
  }

  // Assessment.

  datatype Assessment = Assessment(
    stage: Stage, strength: real, clusters: set<int>, nonPriceClusters: set<int>, domains: set<Domain>,
    falsifierSeen: bool)

  function NonPriceClusters(evidence: seq<Observation>): set<int> {
    set o | o in evidence && o.family != Price :: o.cluster
  }

  function Domains(evidence: seq<Observation>): set<Domain> {
    set o, d | o in evidence && d in o.domains :: d
  }

  function StageOf(evidence: seq<Observation>, minimumClusters: nat): Stage {
    if exists o :: o in evidence && o.falsifiesFundamental then Invalidated
    else if evidence == [] then Radar
    else if NonPriceClusters(evidence) == {} then HypothesisStage
    else if |NonPriceClusters(evidence)| < minimumClusters then Watchlist
    else if CORE_DOMAINS <= Domains(evidence) && exists o :: o in evidence && o.maturity == FinancialConfirmed then Core
    else if exists o :: o in evidence && o.maturity in {OperatingConfirmed, FinancialConfirmed} then EvidenceStage
    else ObservationStage
  }

  ghost function ClusterStrengths(review: Review, evidence: seq<Observation>): map<int, real>
    requires review.Valid()
  {
    var clusters := Clustered(review, evidence);
    map c | c in NonPriceClusters(evidence) :: if c in clusters then Strongest(clusters[c]) else 0.0
  }

  function Discounted(sum: real, n: nat): real
    requires 0 < n
  {
    sum / n as real * if n < 4 then n as real / 4.0 else 1.0
  }

  /** The mean of the non-price clusters' strengths, discounted below four clusters. */
  ghost function StrengthOf(review: Review, evidence: seq<Observation>): real
    requires review.Valid()
  {
    var n := |NonPriceClusters(evidence)|;
    if n == 0 then 0.0
    else Discounted(Total(ClusterStrengths(review, evidence)), n)
  }

  ghost function Assess(review: Review, minimumClusters: nat): Assessment
    requires review.Valid()
  {
    var evidence := review.Effective();
    Assessment(StageOf(evidence, minimumClusters), StrengthOf(review, evidence), (set o | o in evidence :: o.cluster),
               NonPriceClusters(evidence), Domains(evidence), exists o :: o in evidence && o.falsifiesFundamental)
  }

  // Which evidence counts over time.

  lemma EarlierIsOrder()
    ensures Sorting.TotalPreorder(Earlier)
  {
  }

  lemma VisibleElements(review: Review)
    ensures forall o :: o in review.Visible() <==> o in review.observations && o.availableAt <= review.asof
  {
    var available := AvailableBy(review.observations, review.asof);
    KeptElements(AvailableAt(review.asof), review.observations);
    EarlierIsOrder();
    Sorting.SortedByFacts(available, Earlier);
    forall o
      ensures o in review.Visible() <==> o in available
    {
      assert o in review.Visible() <==> o in multiset(review.Visible());
      assert o in available <==> o in multiset(available);
    }
  }

  /** Exactly the observations available by the review that have positive effective quality. */
  lemma EffectiveElements(review: Review)
    requires review.Valid()
    ensures forall o :: o in review.Effective() <==>
      (o in review.observations && o.availableAt <= review.asof && 0.0 < review.EffectiveQuality(o))
  {
    VisibleElements(review);
    KeptElements(Weighty(review), review.Visible());
  }

  /** Evidence that is not available yet cannot enter a review. */
  lemma FutureEvidenceIgnored(review: Review, o: Observation)
    requires review.Valid() && review.asof < o.availableAt
    ensures review.(observations := review.observations + [o]).Effective() == review.Effective()
  {
    var all := review.observations + [o];
    assert all[..|review.observations|] == review.observations;
    assert AvailableBy(all, review.asof) == AvailableBy(review.observations, review.asof);
    SameCounting(review, review.(observations := all), review.Visible());
  }

  lemma {:induction false} SameCounting(a: Review, b: Review, observations: seq<Observation>)
    requires a.Valid() && b == a.(observations := b.observations)
    ensures Counting(a, observations) == Counting(b, observations)
  {
    if observations != [] {
      SameCounting(a, b, observations[..|observations| - 1]);
    }
  }

  /** A later review of the same case: nothing is withdrawn from the evidence or the ledger. */
  ghost predicate Extends(earlier: Review, later: Review) {
    && earlier.asof <= later.asof
    && (forall o :: o in earlier.observations ==> o in later.observations)
    && (earlier.ledger.None? <==> later.ledger.None?)
    && (earlier.ledger.Some? ==> Calibration.Appended(earlier.ledger.value, later.ledger.value))
  }

  /** Evidence that counts keeps counting. */
  lemma EffectiveGrows(earlier: Review, later: Review)
    requires earlier.Valid() && later.Valid() && Extends(earlier, later)
    ensures forall o :: o in earlier.Effective() ==> o in later.Effective()
  {
    EffectiveElements(earlier);
    EffectiveElements(later);
    forall o | o in earlier.Effective()
      ensures 0.0 < later.EffectiveQuality(o)
    {
      if earlier.ledger.Some? {
        Calibration.PositiveReliabilityKept(earlier.ledger.value, later.ledger.value, o.sourceId, o.methodVersion,
          earlier.asof, later.asof, o.quality.reliability);
      }
    }
  }

  lemma StageGrows(evidence: seq<Observation>, more: seq<Observation>, minimumClusters: nat)
    requires forall o :: o in evidence ==> o in more
    ensures StageOf(evidence, minimumClusters) == Invalidated ==> StageOf(more, minimumClusters) == Invalidated
    ensures StageOf(more, minimumClusters) != Invalidated ==>
      StageRank(StageOf(evidence, minimumClusters)) <= StageRank(StageOf(more, minimumClusters))
  {
    assert NonPriceClusters(evidence) <= NonPriceClusters(more);
    SubsetSize(NonPriceClusters(evidence), NonPriceClusters(more));
    assert Domains(evidence) <= Domains(more);
    if evidence != [] {
      assert evidence[0] in evidence;
    }
  }

  lemma SubsetSize(small: set<int>, large: set<int>)
    requires small <= large
    ensures |small| <= |large|
  {
    assert large == small + (large - small);
  }

  ghost predicate AppendOnly(history: seq<Review>) {
    && (forall i :: 0 <= i < |history| ==> history[i].Valid())
    && (forall i {:trigger ExtendsNext(history, i)} :: 0 <= i < |history| - 1 ==> ExtendsNext(history, i))
  }

  ghost predicate ExtendsNext(history: seq<Review>, i: nat)
    requires i + 1 < |history|
  {
    Extends(history[i], history[i + 1])
  }

  lemma {:induction false} ExtendsAlong(history: seq<Review>, i: nat, j: nat)
    requires AppendOnly(history) && i <= j < |history|
    ensures Extends(history[i], history[j])
    decreases j
  {
    if i < j {
      ExtendsAlong(history, i, j - 1);
      assert ExtendsNext(history, j - 1);
    }
  }

  /** Over an append-only history the stage never falls unless a falsifier is seen, and once the case
      is invalidated it stays so. */
  lemma StageNeverFalls(history: seq<Review>, i: nat, j: nat, minimumClusters: nat)
    requires AppendOnly(history) && i <= j < |history|
    ensures var before, after := Assess(history[i], minimumClusters), Assess(history[j], minimumClusters);
      && (before.stage == Invalidated ==> after.stage == Invalidated)
      && (!after.falsifierSeen ==> StageRank(before.stage) <= StageRank(after.stage))
  {
    ExtendsAlong(history, i, j);
    EffectiveGrows(history[i], history[j]);
    StageGrows(history[i].Effective(), history[j].Effective(), minimumClusters);
  }

  /** When all evidence is about price, no position is earned and the strength is zero. */
  lemma PriceAloneEarnsNothing(review: Review, minimumClusters: nat)
    requires review.Valid() && forall o :: o in review.observations ==> o.family == Price
    ensures Assess(review, minimumClusters).stage in {Radar, HypothesisStage, Invalidated}
    ensures Assess(review, minimumClusters).strength == 0.0
  {
    EffectiveElements(review);
    assert NonPriceClusters(review.Effective()) == {};
  }
}
