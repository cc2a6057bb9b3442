/** Evidence observations and research cases. Ids are integers; only equality and order matter. */
module Evidence {
  import Market

  type Probability = p: real | 0.0 <= p <= 1.0
  type LikelihoodRatio = r: real | 0.05 <= r <= 20.0 witness 1.0

  datatype Family =
    | Price | Customer | Supplier | CompanyAction | Channel | Competitor | OfficialDisclosure | FinancialResult

  datatype Maturity = Leading | OperatingConfirmed | FinancialConfirmed

  datatype Domain = Demand | MarketShare | Profitability | CashFlow | OtherDomain

  const CORE_DOMAINS: set<Domain> := {Demand, MarketShare, Profitability, CashFlow}

  datatype Stage = Radar | HypothesisStage | Watchlist | ObservationStage | EvidenceStage | Core | Invalidated

  function StageRank(stage: Stage): int {
    match stage
    case Radar => 0
    case HypothesisStage => 1
    case Watchlist => 2
    case ObservationStage => 3
    case EvidenceStage => 4
    case Core => 5
    case Invalidated => -1
  }

  datatype Quality = Quality(
    causalProximity: Probability, reliability: Probability, independence: Probability,
    timeliness: Probability, expectationGap: Probability)
  {
    /** The factors other than reliability. */
    function Rest(): (r: real)
      ensures 0.0 <= r <= 1.0
    {
      Product(Product(Product(causalProximity, independence), timeliness), expectationGap)
    }

    /** The product of all factors, with the reliability given instead of the stored one. */
    function Combined(reliability: Probability): (r: real)
      ensures 0.0 <= r <= 1.0
      ensures 0.0 < r <==> 0.0 < reliability && 0.0 < Rest()
    {
      Product(Rest(), reliability)
    }
  }

  function Product(a: Probability, b: Probability): (r: Probability)
    ensures 0.0 < r <==> 0.0 < a && 0.0 < b
    ensures r <= a && r <= b
  {
    ProductBounds(a, b);
    a * b
  }

  lemma ProductBounds(a: real, b: real)
    requires 0.0 <= a <= 1.0 && 0.0 <= b <= 1.0
    ensures 0.0 <= a * b <= a && a * b <= b
    ensures 0.0 < a * b <==> 0.0 < a && 0.0 < b
  {
    assert a * b <= a * 1.0;
    assert a * b <= 1.0 * b;
  }

  datatype Observation = Observation(
    id: int, caseId: int, variableId: int, sourceId: int, methodVersion: int, family: Family, cluster: int,
    availableAt: Market.Time, maturity: Maturity, domains: set<Domain>, quality: Quality,
    likelihoods: map<int, LikelihoodRatio>, falsifiesFundamental: bool)

  datatype Hypothesis = Hypothesis(id: int, prior: real)

  /** Three competing hypotheses with distinct ids and positive priors that sum to 1. */
  datatype ResearchCase = ResearchCase(
    id: int, createdAt: Market.Time, variables: set<int>, hypotheses: seq<Hypothesis>, fundamental: int)
  {
    ghost predicate Valid() {
      && |hypotheses| == 3
      && (forall i, j :: 0 <= i < j < 3 ==> hypotheses[i].id != hypotheses[j].id)
      && (forall i :: 0 <= i < 3 ==> 0.0 < hypotheses[i].prior <= 1.0)
      && hypotheses[0].prior + hypotheses[1].prior + hypotheses[2].prior == 1.0
      && exists i :: 0 <= i < 3 && hypotheses[i].id == fundamental
    }
  }
}
