/** The breaker object: five cells changed in place, together with the log of the
    calls made on it. Every method runs without interference from other callers;
    module BreakerRace has the interleaved version. */
module BreakerObject {
  import opened Breaker
  import opened BreakerLog

  class CircuitBreaker {
    const cfg: Config
    var state: CbState
    var windowRequests: u32
    var windowFailures: u32
    var windowStartMs: nat
    var openedAtMs: nat

    /** Construction time and every call made since, in order. */
    ghost const born: nat
    ghost var log: seq<Call>

    ghost predicate Valid()
      reads this
    {
      View() == Replay(cfg, born, log)
    }

    ghost function View(): Cells
      reads this
    {
      Cells(state, windowRequests, windowFailures, windowStartMs, openedAtMs)
    }

    constructor (cfg: Config, now: nat)
      ensures Valid() && this.cfg == cfg && born == now && log == [] && View() == Fresh(now)
    {
      this.cfg := cfg;
      state := Closed;
      windowRequests, windowFailures := 0, 0;
      windowStartMs := now;
      openedAtMs := 0;
      born, log := now, [];
    }

    method AllowRequest(now: nat) returns (admitted: bool)
      requires Valid()
      modifies this`state, this`log
      ensures Valid() && log == old(log) + [Allow(now)]
      ensures admitted == Admits(cfg, old(View()), now)
      ensures View() == After(cfg, old(View()), Allow(now))
    {
      log := log + [Allow(now)];
      match state
      case Closed => admitted := true;
      case HalfOpen => admitted := true;
      case Open =>
        if openedAtMs > 0 && SaturatingSub(now, openedAtMs) >= cfg.halfOpenMs {
          state := HalfOpen;
          admitted := true;
        } else {
          admitted := false;
        }
    }

    method RecordSuccess(now: nat)
      requires Valid()
      modifies this
      ensures Valid() && log == old(log) + [Success(now)]
      ensures View() == After(cfg, old(View()), Success(now))
    {
      log := log + [Success(now)];
      match state
      case HalfOpen =>
        state := Closed;
        DoResetWindow(now);
      case Closed =>
        MaybeRotateWindow(now);
        windowRequests := Bump(windowRequests);
      case Open =>
    }

    /** `now` is read to see whether the window is over, `stamp` when the circuit opens. */
    method RecordFailure(now: nat, stamp: nat)
      requires Valid()
      modifies this
      ensures Valid() && log == old(log) + [Failure(now, stamp)]
      ensures View() == After(cfg, old(View()), Failure(now, stamp))
    {
      log := log + [Failure(now, stamp)];
      match state
      case HalfOpen => DoOpenCircuit(stamp);
      case Closed =>
        MaybeRotateWindow(now);
        windowRequests := Bump(windowRequests);
        windowFailures := Bump(windowFailures);
        if Trips(cfg, windowRequests, windowFailures) {
          DoOpenCircuit(stamp);
        }
      case Open =>
    }

    method DoOpenCircuit(now: nat)
      modifies this`state, this`openedAtMs
      ensures View() == OpenCircuit(old(View()), now)
    {
      state := Open;
      openedAtMs := now;
    }

    method DoResetWindow(now: nat)
      modifies this`windowStartMs, this`windowRequests, this`windowFailures
      ensures View() == ResetWindow(old(View()), now)
    {
      windowStartMs := now;
      windowRequests := 0;
      windowFailures := 0;
    }

    method MaybeRotateWindow(now: nat)
      modifies this`windowStartMs, this`windowRequests, this`windowFailures
      ensures View() == RotateWindow(cfg, old(View()), now)
    {
      if SaturatingSub(now, windowStartMs) >= cfg.windowMs {
        windowStartMs := now;
        windowRequests := 0;
        windowFailures := 0;
      }
    }
  }
}
