/** The circuit breaker of crates/resilient-client: its five atomic cells and the
    effect of each call when no other caller runs in between. The clock readings are
    parameters. */
module Breaker {

  datatype CbState = Closed | Open | HalfOpen

  const U32_LIMIT: nat := 0x1_0000_0000

  type u32 = n: nat | n < U32_LIMIT

  /** `threshold` is the failure ratio, kept as an exact real. */
  datatype Config = Config(threshold: real, minRequests: u32, windowMs: nat, halfOpenMs: nat)

  /** The five atomics. */
  datatype Cells = Cells(
    state: CbState,
    requests: u32,
    failures: u32,
    windowStart: nat,
    openedAt: nat)

  /** A call with the clock readings it makes. A failure may read the clock twice: `now`
      to see whether the window is over, and `stamp` when it opens the breaker. */
  datatype Call = Allow(now: nat) | Success(now: nat) | Failure(now: nat, stamp: nat)

  function SaturatingSub(a: nat, b: nat): nat {
    if a < b then 0 else a - b
  }

  /** `fetch_add(1)` on an `AtomicU32` wraps around. */
  function Bump(n: u32): u32 {
    if n + 1 == U32_LIMIT then 0 else n + 1
  }

  function Ratio(failures: nat, requests: nat): real
    requires requests > 0
  {
    failures as real / requests as real
  }

  /** The trip test of a failure recorder on the counts it obtained. A zero
      request count is possible only after a wrap-around; the quotient is then
      infinite, or undefined (and the test false) when the failures are zero too. */
  predicate Trips(cfg: Config, requests: nat, failures: nat) {
    requests >= cfg.minRequests &&
    if requests == 0 then failures > 0
    else Ratio(failures, requests) >= cfg.threshold
  }

  function Fresh(now: nat): Cells {
    Cells(Closed, 0, 0, now, 0)
  }

  function OpenCircuit(b: Cells, now: nat): Cells {
    b.(state := Open, openedAt := now)
  }

  function ResetWindow(b: Cells, now: nat): Cells {
    b.(windowStart := now, requests := 0, failures := 0)
  }

  predicate RotationDue(cfg: Config, windowStart: nat, now: nat) {
    SaturatingSub(now, windowStart) >= cfg.windowMs
  }

  function RotateWindow(cfg: Config, b: Cells, now: nat): Cells {
    if RotationDue(cfg, b.windowStart, now) then ResetWindow(b, now) else b
  }

  function CountSuccess(w: Cells): Cells {
    w.(requests := Bump(w.requests))
  }

  function CountFailure(cfg: Config, w: Cells, stamp: nat): Cells {
    var c := w.(requests := Bump(w.requests), failures := Bump(w.failures));
    if Trips(cfg, c.requests, c.failures) then OpenCircuit(c, stamp) else c
  }

  predicate CooledDown(cfg: Config, openedAt: nat, now: nat) {
    openedAt > 0 && SaturatingSub(now, openedAt) >= cfg.halfOpenMs
  }

  predicate Admits(cfg: Config, b: Cells, now: nat) {
    b.state.Open? ==> CooledDown(cfg, b.openedAt, now)
  }

  function AfterAllow(cfg: Config, b: Cells, now: nat): Cells {
    if b.state.Open? && CooledDown(cfg, b.openedAt, now) then b.(state := HalfOpen) else b
  }

  function AfterSuccess(cfg: Config, b: Cells, now: nat): Cells {
    match b.state
    case HalfOpen => ResetWindow(b.(state := Closed), now)
    case Closed => CountSuccess(RotateWindow(cfg, b, now))
    case Open => b
  }

  function AfterFailure(cfg: Config, b: Cells, now: nat, stamp: nat): Cells {
    match b.state
    case HalfOpen => OpenCircuit(b, stamp)
    case Closed => CountFailure(cfg, RotateWindow(cfg, b, now), stamp)
    case Open => b
  }

  function After(cfg: Config, b: Cells, call: Call): Cells {
    match call
    case Allow(now) => AfterAllow(cfg, b, now)
    case Success(now) => AfterSuccess(cfg, b, now)
    case Failure(now, stamp) => AfterFailure(cfg, b, now, stamp)
  }
}
