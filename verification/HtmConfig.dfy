/** The configuration space of the transactional-memory extension and the
    position-in-chain numbers its transactions carry. */
module HtmConfig {

  /** A transaction's position in its forwarding chain. NC is "not in a chain"; the
      simulator stores it as the smallest int, so it lies below every number. */
  datatype Prio = NC | Num(n: int)

  predicate Below(a: Prio, b: Prio) {
    b.Num? && (a.NC? || a.n < b.n)
  }

  predicate AtMost(a: Prio, b: Prio) {
    a == b || Below(a, b)
  }

  function Lower(a: Prio, b: Prio): (r: Prio)
    ensures AtMost(r, a) && AtMost(r, b) && (r == a || r == b)
  {
    if Below(b, a) then b else a
  }

  /** How a conflict between two transactions is resolved. The stalling policy is
      the conflict-detection-aware one, not the position-based one. */
  datatype Policy = RequesterWins | RequesterLoses | RequesterStalls

  datatype Mechanism = NoFwd | Naive | Simple | W1D1 | WND1 | W1DN | WNDM | WXDX

  datatype CycleStrategy = NoStrategy | AbortOnCycle | RetryOnCycle

  datatype AllowedData = AllData | OnlyWritten | NoWriteInFlight

  datatype Config = Config(
    policy: Policy,
    power: bool,              // the policy knows power transactions
    fwd: Mechanism,
    numeric: bool,            // hardware priorities are numbers (otherwise absent)
    cycle: CycleStrategy,
    allowed: AllowedData,
    ncNotProducer: bool,
    noProduceOnRetry: bool,
    maxConsumers: nat,
    maxPrioDiff: nat,
    maxConsumedBlocks: nat)

  /** The combinations the simulator accepts: the stalling policies have no power
      form, and the simple mechanism asserts that priorities are off. */
  predicate ValidConfig(cfg: Config) {
    && (cfg.power ==> !cfg.policy.RequesterStalls?)
    && (cfg.fwd.Simple? ==> !cfg.numeric)
  }

  /** Mechanisms in which a consumer never produces and a producer never consumes. */
  predicate DepthOne(cfg: Config) {
    || cfg.fwd.Simple?
    || cfg.fwd.W1D1?
    || cfg.fwd.WND1?
    || (cfg.fwd.WXDX? && cfg.maxPrioDiff == 1)
  }

  /** Positions are numbers and a reply that does not outrank its receiver is refused. */
  predicate Ranked(cfg: Config) {
    cfg.numeric && !cfg.cycle.NoStrategy?
  }

  /** No transaction forwards data unless it runs in power mode. */
  predicate OnlyPowerForwards(cfg: Config) {
    || (cfg.policy.RequesterWins? && (!cfg.power || !cfg.numeric))
    || (cfg.fwd.WXDX? && cfg.maxConsumers == 0)
  }

  /** The configurations whose forwarding chains stay free of cycles. */
  predicate SafeConfig(cfg: Config) {
    cfg.fwd.NoFwd? || DepthOne(cfg) || Ranked(cfg) || OnlyPowerForwards(cfg)
  }

  /** A transaction outside power mode may forward to a second core. */
  predicate TwoConsumers(cfg: Config) {
    match cfg.fwd
    case NoFwd => false
    case W1D1 => false
    case W1DN => false
    case WXDX => cfg.maxConsumers >= 2
    case _ => true
  }
}
