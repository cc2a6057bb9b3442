/** Market data and identifiers shared by the backtest and the execution side.
    Symbols, dates and timestamps are integers; only equality and order matter. */
module Market {

  type Symbol = int
  type Time = int
  type Date = int

  type Pos = n: int | 0 < n witness 1
  type Price = r: real | 0.0 < r witness 1.0
  type NonNeg = r: real | 0.0 <= r

  function Worth(price: real, quantity: int): real {
    price * quantity as real
  }

  lemma WorthPositive(price: real, quantity: int)
    requires 0.0 < price && 0 < quantity
    ensures 0.0 < Worth(price, quantity)
  {
  }

  datatype Side = Buy | Sell

  datatype LimitStatus = NoLimit | LimitUp | LimitDown | UnknownLimit

  datatype IdKind = OrderId | FillId

  /** Name-based identifiers: the hash of (kind, sequence) inside one run. */
  datatype Uuid = Uuid(kind: IdKind, sequence: nat)

  /** Every exception the backtest can raise. */
  datatype BacktestError =
    | NonPositiveNotional
    | DuplicateOrder | DuplicateFill | UnknownOrder | TerminalOrder
    | IdentityMismatch | Overfill | NotAfterSubmission
    | NegativeCash | FillOutOfOrder | InsufficientCash | InsufficientPosition
    | MissingMark | NonPositiveMark
    | SymbolMismatch | NegativeMaximum | NonPositivePrice
    | NoSessions | SessionsNotChronological
    | ScheduledInThePast | QueueEmpty | ClockMovedBackwards

  datatype DailyBar = DailyBar(symbol: Symbol, open: Price, close: Price, volume: NonNeg)

  datatype SecurityStatus = SecurityStatus(symbol: Symbol, suspended: bool, limit: LimitStatus)

  datatype MarketSession = MarketSession(
    tradeDate: Date, openAt: Time, closeAt: Time,
    bars: seq<DailyBar>, statuses: seq<SecurityStatus>)
  {
    /** What the constructor accepts: the session opens before it closes, has bars, and repeats no symbol. */
    ghost predicate Valid() {
      && openAt < closeAt && bars != []
      && (forall i, j :: 0 <= i < j < |bars| ==> bars[i].symbol != bars[j].symbol)
      && (forall i, j :: 0 <= i < j < |statuses| ==> statuses[i].symbol != statuses[j].symbol)
    }
  }

  /** The bars by symbol; a later bar replaces an earlier one of the same symbol. */
  function BarBySymbol(bars: seq<DailyBar>): (m: map<Symbol, DailyBar>)
    ensures forall s :: s in m ==> m[s] in bars && m[s].symbol == s
  {
    if bars == [] then map[]
    else
      var last := bars[|bars| - 1];
      BarBySymbol(bars[..|bars| - 1])[last.symbol := last]
  }

  function StatusBySymbol(statuses: seq<SecurityStatus>): (m: map<Symbol, SecurityStatus>)
    ensures forall s :: s in m ==> m[s] in statuses && m[s].symbol == s
  {
    if statuses == [] then map[]
    else
      var last := statuses[|statuses| - 1];
      StatusBySymbol(statuses[..|statuses| - 1])[last.symbol := last]
  }
}
