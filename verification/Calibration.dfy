/** The calibration ledger: append-only outcomes and the reliability they give a source. */
module Calibration {
  import opened Wrappers
  import Market
  import opened Evidence
  import opened Sequences
  import Sorting

  datatype Layer = Measurement | Transmission | Investment

  datatype OutcomeFields = Outcome(
    id: int, evidenceId: int, sourceId: int, methodVersion: int, layer: Layer,
    predicted: Probability, realized: Probability, predictionAvailableAt: Market.Time, availableAt: Market.Time)

  /** An outcome becomes available after its prediction. */
  type Outcome = o: OutcomeFields | o.predictionAvailableAt < o.availableAt
    witness Outcome(0, 0, 0, 0, Measurement, 0.0, 0.0, 0, 1)

  datatype Summary = Summary(sampleSize: nat, meanError: real, brierScore: real, directionalAccuracy: real,
    reliability: real)

  datatype CalibrationError = OutcomeExists

  function Error(o: Outcome): real {
    o.predicted - o.realized
  }

  function SquaredError(o: Outcome): (r: real)
    ensures 0.0 <= r <= 1.0
  {
    SquareBounds(Error(o));
    Error(o) * Error(o)
  }

  lemma SquareBounds(e: real)
    requires -1.0 <= e <= 1.0
    ensures 0.0 <= e * e <= 1.0
  {
    var a := if e < 0.0 then -e else e;
    assert e * e == a * a;
    ProductBounds(a, a);
  }

  /** A 0.5 forecast of a binary outcome has no skill. */
  function Skill(o: Outcome): (r: real)
    ensures 0.0 <= r <= 1.0
  {
    var skill := 1.0 - SquaredError(o) / 0.25;
    if skill < 0.0 then 0.0 else skill
  }

  /** 1 when prediction and outcome fall on the same side of one half. */
  function Hit(o: Outcome): real {
    if (o.predicted >= 0.5) == (o.realized >= 0.5) then 1.0 else 0.0
  }

  function Sum(f: Outcome -> real, outcomes: seq<Outcome>): real {
    if outcomes == [] then 0.0 else Sum(f, outcomes[..|outcomes| - 1]) + f(outcomes[|outcomes| - 1])
  }

  predicate Earlier(a: Outcome, b: Outcome) {
    a.availableAt < b.availableAt || (a.availableAt == b.availableAt && a.id <= b.id)
  }

  datatype Query = Query(sourceId: int, methodVersion: int, layer: Layer)

  predicate Matches(o: Outcome, q: Query) {
    o.sourceId == q.sourceId && o.methodVersion == q.methodVersion && o.layer == q.layer
  }

  function AvailableBy(t: Market.Time): Outcome -> bool {
    (o: Outcome) => o.availableAt <= t
  }

  function Answers(q: Query): Outcome -> bool {
    (o: Outcome) => Matches(o, q)
  }

  function Clip(x: real): real {
    if x < 0.0 then 0.0 else if 1.0 < x then 1.0 else x
  }

  function Weighted(w: real, default: real): real {
    w * default
  }

  /** The mean of n skills that add up to `sum` and of a default worth `weighted` held with weight w. */
  function Mixture(w: real, weighted: real, sum: real, n: real): real
    requires 0.0 < w && 0.0 <= n
  {
    (weighted + sum) / (w + n)
  }

  /** The reliability before it is clipped to [0, 1]. */
  function Shrunk(priorWeight: real, sample: seq<Outcome>, default: Probability): real
    requires 0.0 < priorWeight
  {
    Mixture(priorWeight, Weighted(priorWeight, default), Sum(Skill, sample), |sample| as real)
  }

  function SummaryOf(priorWeight: real, sample: seq<Outcome>, default: Probability): Summary
    requires 0.0 < priorWeight
  {
    if sample == [] then Summary(0, 0.0, 0.0, 0.0, default)
    else
      var n := |sample| as real;
      Summary(|sample|, Sum(Error, sample) / n, Sum(SquaredError, sample) / n, Sum(Hit, sample) / n,
              Clip(Shrunk(priorWeight, sample, default)))
  }

  /** The ledger's outcomes, in the order they were added. */
  datatype Ledger = Ledger(priorWeight: real, outcomes: seq<Outcome>) {
    ghost predicate Valid() {
      0.0 < priorWeight && forall i, j :: 0 <= i < j < |outcomes| ==> outcomes[i].id != outcomes[j].id
    }

    function OutcomesAsOf(t: Market.Time): seq<Outcome> {
      Sorting.SortedBy(Kept(AvailableBy(t), outcomes), Earlier)
    }

    function Sample(q: Query, t: Market.Time): seq<Outcome> {
      Kept(Answers(q), OutcomesAsOf(t))
    }

    function Summarise(q: Query, t: Market.Time, default: Probability): Summary
      requires 0.0 < priorWeight
    {
      SummaryOf(priorWeight, Sample(q, t), default)
    }

    /** Only measurement outcomes calibrate a source. */
    function Reliability(sourceId: int, methodVersion: int, t: Market.Time, default: Probability): (r: Probability)
      requires 0.0 < priorWeight
    {
      Summarise(Query(sourceId, methodVersion, Measurement), t, default).reliability
    }
  }

  lemma {:induction false} SumBounds(f: Outcome -> real, outcomes: seq<Outcome>, low: real, high: real)
    requires forall o :: low <= f(o) <= high
    ensures low * |outcomes| as real <= Sum(f, outcomes) <= high * |outcomes| as real
  {
    if outcomes != [] {
      SumBounds(f, outcomes[..|outcomes| - 1], low, high);
      Stretch(low, |outcomes| as real);
      Stretch(high, |outcomes| as real);
    }
  }

  lemma Stretch(x: real, n: real)
    ensures x * (n - 1.0) + x == x * n
  {
  }

  lemma StrictScale(a: real, b: real, n: real)
    requires a < b && 0.0 < n
    ensures a * n < b * n
  {
  }

  lemma RatioBounds(low: real, high: real, sum: real, n: real)
    requires 0.0 < n && low * n <= sum <= high * n
    ensures low <= sum / n <= high
  {
    var ratio := sum / n;
    assert ratio * n == sum;
    if ratio < low {
      StrictScale(ratio, low, n);
    }
    if high < ratio {
      StrictScale(high, ratio, n);
    }
  }

  lemma UnitRatio(sum: real, n: real)
    requires 0.0 < n && 0.0 <= sum <= n
    ensures 0.0 <= sum / n <= 1.0
  {
    RatioBounds(0.0, 1.0, sum, n);
  }

  lemma SkillsWithin(sample: seq<Outcome>)
    ensures 0.0 <= Sum(Skill, sample) <= |sample| as real
  {
    SumBounds(Skill, sample, 0.0, 1.0);
  }

  lemma MixtureWithin(w: real, weighted: real, sum: real, n: real)
    requires 0.0 < w && 0.0 <= weighted <= w && 0.0 <= sum <= n
    ensures 0.0 <= Mixture(w, weighted, sum, n) <= 1.0
    ensures 0.0 < Mixture(w, weighted, sum, n) <==> 0.0 < weighted || 0.0 < sum
  {
    UnitRatio(weighted + sum, w + n);
    PositiveQuotient(weighted + sum, w + n);
  }

  /** Shrinking towards a probability by skills between 0 and 1 stays between 0 and 1: the clip never acts. */
  lemma ShrunkIsProbability(priorWeight: real, sample: seq<Outcome>, default: Probability)
    requires 0.0 < priorWeight
    ensures 0.0 <= Shrunk(priorWeight, sample, default) <= 1.0
    ensures Clip(Shrunk(priorWeight, sample, default)) == Shrunk(priorWeight, sample, default)
  {
    SkillsWithin(sample);
    WeightedDefault(priorWeight, default);
    MixtureWithin(priorWeight, Weighted(priorWeight, default), Sum(Skill, sample), |sample| as real);
  }

  lemma WeightedDefault(w: real, default: Probability)
    requires 0.0 < w
    ensures 0.0 <= Weighted(w, default) <= w
    ensures 0.0 < Weighted(w, default) <==> 0.0 < default
  {
    assert w * default <= w * 1.0;
  }

  /** Every figure of a summary is within its range. */
  lemma SummaryInRange(ledger: Ledger, q: Query, t: Market.Time, default: Probability)
    requires 0.0 < ledger.priorWeight
    ensures var s := ledger.Summarise(q, t, default);
      -1.0 <= s.meanError <= 1.0 && 0.0 <= s.brierScore <= 1.0 && 0.0 <= s.directionalAccuracy <= 1.0
      && 0.0 <= s.reliability <= 1.0
  {
    var sample := ledger.Sample(q, t);
    if sample != [] {
      var n := |sample| as real;
      SumBounds(Error, sample, -1.0, 1.0);
      SumBounds(SquaredError, sample, 0.0, 1.0);
      SumBounds(Hit, sample, 0.0, 1.0);
      RatioBounds(-1.0, 1.0, Sum(Error, sample), n);
      RatioBounds(0.0, 1.0, Sum(SquaredError, sample), n);
      RatioBounds(0.0, 1.0, Sum(Hit, sample), n);
    }
  }

  lemma PositiveQuotient(sum: real, n: real)
    requires 0.0 < n
    ensures 0.0 < sum / n <==> 0.0 < sum
  {
    var ratio := sum / n;
    assert ratio * n == sum;
  }

  /** A sample has skill when some outcome in it does. */
  ghost predicate Skilled(sample: seq<Outcome>) {
    exists o :: o in sample && 0.0 < Skill(o)
  }

  lemma {:induction false} SkilledSum(sample: seq<Outcome>)
    ensures 0.0 <= Sum(Skill, sample)
    ensures 0.0 < Sum(Skill, sample) <==> Skilled(sample)
  {
    if sample != [] {
      var init, last := sample[..|sample| - 1], sample[|sample| - 1];
      SkilledSum(init);
      assert sample == init + [last];
      assert last in sample;
    }
  }

  /** A source keeps a positive weight exactly when its default is positive or some outcome shows skill. */
  lemma PositiveReliability(ledger: Ledger, sourceId: int, methodVersion: int, t: Market.Time, default: Probability)
    requires 0.0 < ledger.priorWeight
    ensures 0.0 < ledger.Reliability(sourceId, methodVersion, t, default)
      <==> 0.0 < default || Skilled(ledger.Sample(Query(sourceId, methodVersion, Measurement), t))
  {
    var sample := ledger.Sample(Query(sourceId, methodVersion, Measurement), t);
    if sample != [] {
      ShrunkIsProbability(ledger.priorWeight, sample, default);
      SkillsWithin(sample);
      SkilledSum(sample);
      WeightedDefault(ledger.priorWeight, default);
      MixtureWithin(ledger.priorWeight, Weighted(ledger.priorWeight, default), Sum(Skill, sample), |sample| as real);
    }
  }

  lemma EarlierIsOrder()
    ensures Sorting.TotalPreorder(Earlier)
  {
  }

  /** A sample holds exactly the matching outcomes available by t. */
  lemma SampleElements(ledger: Ledger, q: Query, t: Market.Time)
    ensures forall o :: o in ledger.Sample(q, t) <==>
      && o in ledger.outcomes && o.availableAt <= t
      && o.sourceId == q.sourceId && o.methodVersion == q.methodVersion && o.layer == q.layer
  {
    var available, ordered := Kept(AvailableBy(t), ledger.outcomes), ledger.OutcomesAsOf(t);
    KeptElements(AvailableBy(t), ledger.outcomes);
    EarlierIsOrder();
    Sorting.SortedByFacts(available, Earlier);
    KeptElements(Answers(q), ordered);
    forall o
      ensures o in ordered <==> o in available
    {
      assert o in ordered <==> o in multiset(ordered);
      assert o in available <==> o in multiset(available);
    }
  }

  /** `later` is the ledger after more outcomes have been added. */
  ghost predicate Appended(ledger: Ledger, later: Ledger) {
    ledger.priorWeight == later.priorWeight && ledger.outcomes <= later.outcomes
  }

  /** Once a source's reliability is positive it stays positive, as time passes and outcomes accumulate. */
  lemma PositiveReliabilityKept(ledger: Ledger, later: Ledger, sourceId: int, methodVersion: int,
                                t: Market.Time, after: Market.Time, default: Probability)
    requires 0.0 < ledger.priorWeight && Appended(ledger, later) && t <= after
    requires 0.0 < ledger.Reliability(sourceId, methodVersion, t, default)
    ensures 0.0 < later.Reliability(sourceId, methodVersion, after, default)
  {
    var q := Query(sourceId, methodVersion, Measurement);
    PositiveReliability(ledger, sourceId, methodVersion, t, default);
    PositiveReliability(later, sourceId, methodVersion, after, default);
    SampleElements(ledger, q, t);
    SampleElements(later, q, after);
    if Skilled(ledger.Sample(q, t)) {
      var o :| o in ledger.Sample(q, t) && 0.0 < Skill(o);
      assert o in later.Sample(q, after);
    }
  }

  /** An outcome that is not available yet changes nothing. */
  lemma FutureOutcomeIgnored(ledger: Ledger, o: Outcome, q: Query, t: Market.Time, default: Probability)
    requires 0.0 < ledger.priorWeight && t < o.availableAt
    ensures ledger.(outcomes := ledger.outcomes + [o]).Summarise(q, t, default) == ledger.Summarise(q, t, default)
  {
    assert (ledger.outcomes + [o])[..|ledger.outcomes|] == ledger.outcomes;
    assert Kept(AvailableBy(t), ledger.outcomes) + [] == Kept(AvailableBy(t), ledger.outcomes);
  }

  // What the figures are.

  /** A forecast shows full skill when it is exact and none from an error of one half; in between it loses the
      squared error's share of a quarter, the squared error of a forecast of one half. */
  lemma SkillOfError(o: Outcome, error: real)
    requires o.predicted == o.realized + error
    ensures Skill(o) == 1.0 <==> o.predicted == o.realized
    ensures 0.0 < Skill(o) <==> -0.5 < error < 0.5
    ensures 0.0 < Skill(o) ==> (1.0 - Skill(o)) * 0.25 == error * error
  {
    var squared := HalfSquared(error);
    SkillOfSquare(o, squared);
  }

  lemma SkillOfSquare(o: Outcome, squared: real)
    requires squared == Error(o) * Error(o)
    ensures (Skill(o) == 1.0 <==> squared <= 0.0) && (0.0 < Skill(o) <==> squared < 0.25)
    ensures 0.0 < Skill(o) ==> (1.0 - Skill(o)) * 0.25 == squared
  {
  }

  lemma SquareSmall(a: real) returns (squared: real)
    requires 0.0 <= a
    ensures squared == a * a
    ensures squared < 0.25 <==> a < 0.5
    ensures if a == 0.0 then squared == 0.0 else 0.0 < squared
  {
    squared := a * a;
    ProductPositive(a, a, squared);
    if a < 0.5 {
      assert a * a <= a * 0.5;
    } else {
      assert 0.25 <= 0.5 * a <= a * a;
    }
  }

  lemma ProductPositive(a: real, b: real, product: real)
    requires 0.0 <= a && 0.0 <= b && product == a * b
    ensures 0.0 < product <==> 0.0 < a && 0.0 < b
  {
  }

  lemma HalfSquared(e: real) returns (squared: real)
    ensures squared == e * e
    ensures squared < 0.25 <==> -0.5 < e < 0.5
    ensures if e == 0.0 then squared == 0.0 else 0.0 < squared
  {
    squared := SquareSmall(if e < 0.0 then -e else e);
  }

  function Predicted(o: Outcome): real {
    o.predicted
  }

  function Realized(o: Outcome): real {
    o.realized
  }

  /** The outcomes on the same side of one half as their forecasts. */
  ghost function SameSide(sample: seq<Outcome>): set<int> {
    set i | 0 <= i < |sample| && OneSide(sample[i])
  }

  predicate OneSide(o: Outcome) {
    (o.predicted < 0.5 && o.realized < 0.5) || (0.5 <= o.predicted && 0.5 <= o.realized)
  }

  lemma {:induction false} HitsCount(sample: seq<Outcome>)
    ensures Sum(Hit, sample) == |SameSide(sample)| as real
  {
    if sample != [] {
      var init, n := sample[..|sample| - 1], |sample| - 1;
      HitsCount(init);
      assert SameSide(sample) == SameSide(init) + if OneSide(sample[n]) then {n} else {};
    }
  }

  lemma {:induction false} ErrorsAdd(sample: seq<Outcome>)
    ensures Sum(Error, sample) == Sum(Predicted, sample) - Sum(Realized, sample)
  {
    if sample != [] {
      ErrorsAdd(sample[..|sample| - 1]);
    }
  }

  predicate IsMean(mean: real, n: nat, sum: real) {
    mean * n as real == sum
  }

  lemma QuotientIsMean(sum: real, n: nat)
    requires 0 < n
    ensures IsMean(sum / n as real, n, sum)
  {
  }

  /** The sample size times each figure is what it averages: forecasts less outcomes, squared errors, and the
      outcomes on the forecast's side of one half. */
  lemma SummaryFigures(ledger: Ledger, q: Query, t: Market.Time, default: Probability)
    requires 0.0 < ledger.priorWeight
    ensures var s, sample := ledger.Summarise(q, t, default), ledger.Sample(q, t);
      && s.sampleSize == |sample|
      && IsMean(s.meanError, |sample|, Sum(Predicted, sample) - Sum(Realized, sample))
      && IsMean(s.brierScore, |sample|, Sum(SquaredError, sample))
      && IsMean(s.directionalAccuracy, |sample|, |SameSide(sample)| as real)
  {
    var sample := ledger.Sample(q, t);
    HitsCount(sample);
    ErrorsAdd(sample);
    if sample != [] {
      QuotientIsMean(Sum(Error, sample), |sample|);
      QuotientIsMean(Sum(SquaredError, sample), |sample|);
      QuotientIsMean(Sum(Hit, sample), |sample|);
    }
  }

  /** `r` balances a default of the prior weight against the sample. */
  predicate Balances(r: real, weight: real, default: real, sum: real, n: nat) {
    r * (weight + n as real) == weight * default + sum
  }

  lemma MixtureBalances(w: real, default: real, sum: real, n: nat)
    requires 0.0 < w
    ensures Balances(Mixture(w, Weighted(w, default), sum, n as real), w, default, sum, n)
  {
  }

  /** Reliability is the mean of the skills shown and a default that counts as the prior weight; only
      measurement outcomes of the source and method enter. */
  lemma ReliabilityBalances(ledger: Ledger, sourceId: int, methodVersion: int, t: Market.Time, default: Probability)
    requires 0.0 < ledger.priorWeight
    ensures var sample := ledger.Sample(Query(sourceId, methodVersion, Measurement), t);
      Balances(ledger.Reliability(sourceId, methodVersion, t, default), ledger.priorWeight, default,
               Sum(Skill, sample), |sample|)
  {
    var sample := ledger.Sample(Query(sourceId, methodVersion, Measurement), t);
    if sample != [] {
      ShrunkIsProbability(ledger.priorWeight, sample, default);
    }
    MixtureBalances(ledger.priorWeight, default, Sum(Skill, sample), |sample|);
  }

  /** Outcomes are taken in the order they became available, and by id when at the same time. */
  lemma OutcomesOrdered(ledger: Ledger, t: Market.Time, i: nat, j: nat)
    requires i < j < |ledger.OutcomesAsOf(t)|
    ensures var a, b := ledger.OutcomesAsOf(t)[i], ledger.OutcomesAsOf(t)[j];
      a.availableAt <= b.availableAt && (a.availableAt == b.availableAt ==> a.id <= b.id)
  {
    EarlierIsOrder();
    Sorting.SortedByFacts(Kept(AvailableBy(t), ledger.outcomes), Earlier);
  }

  class CalibrationLedger {
    const priorWeight: real
    var outcomes: seq<Outcome>

    function State(): Ledger
      reads this
    {
      Ledger(priorWeight, outcomes)
    }

    constructor (priorWeight: real)
      requires 0.0 < priorWeight
      ensures State() == Ledger(priorWeight, []) && State().Valid()
    {
      this.priorWeight, outcomes := priorWeight, [];
    }

    /** Append-only: an id can be recorded once. */
    method Add(o: Outcome) returns (r: Result<(), CalibrationError>)
      requires State().Valid()
      modifies this
      ensures State().Valid()
      ensures r.Ok? <==> forall other :: other in old(outcomes) ==> other.id != o.id
      ensures r.Ok? ==> outcomes == old(outcomes) + [o]
      ensures r.Err? ==> outcomes == old(outcomes)
    {
      if exists other :: other in outcomes && other.id == o.id {
        return Err(OutcomeExists);
      }
      outcomes := outcomes + [o];
      return Ok(());
    }
  }
}
