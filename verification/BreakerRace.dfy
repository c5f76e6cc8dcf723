/** The circuit breaker under contention. Any number of threads call
    `allow_request`, `record_success` and `record_failure`; every load, store,
    fetch-add, compare-exchange and clock reading is one atomic step, and the steps of
    different threads interleave freely in a single total order. A run is the fold of a
    schedule, so a statement about all schedules is a statement about all runs. */
module BreakerRace {
  import opened Breaker
  import opened Tally

  datatype Kind = AllowCall | SuccessCall | FailureCall

  /** Where a thread stands, named after the step it takes next, with the values it has
      already read. `fail` tells a failure recorder from a success recorder. */
  datatype Pc =
    | Idle
    | Returned(admitted: bool)
    // allow_request
    | AllowLoad
    | AllowStamp
    | AllowTest(stamp: nat)
    | AllowSwap
    // record_success, record_failure
    | RecordLoad(fail: bool)
    | CloseStore
    | CountRequest(fail: bool)
    | CountFailure(requests: u32)
    | Judge(requests: u32, failures: u32)
    // open_circuit
    | OpenStore
    | OpenClock
    | OpenStamp(stamp: nat)
    // reset_window
    | ResetClock
    | ResetStart(stamp: nat)
    | ResetRequests
    | ResetFailures
    // maybe_rotate_window
    | RotateLoad(fail: bool)
    | RotateClock(fail: bool, start: nat)
    | RotateSwap(fail: bool, start: nat, stamp: nat)
    | RotateRequests(fail: bool)
    | RotateFailures(fail: bool)

  /** What happened so far, for the statements only: no step reads it.
      `base` is the latest stamp stored by `reset_window` (or the construction time) and
      `rotations` the rotations since. `stale` is the number of failure recorders that
      stood between their two increments when zero was last stored to the request
      counter, `failsSince` the failure increments since that store, and `cleared` tells
      whether the failure counter was zeroed since. `wrapped` records a u32 wrap-around. */
  datatype History = History(
    base: nat, rotations: nat,
    failsSince: nat, stale: nat, cleared: bool, wrapped: bool)

  datatype Race = Race(cells: Cells, now: nat, threads: map<nat, Pc>, hist: History)

  datatype Event = Start(t: nat, kind: Kind) | Step(t: nat) | Tick(ms: nat)

  function Init(now: nat): Race {
    Race(Fresh(now), now, map[], History(now, 0, 0, 0, true, false))
  }

  predicate Resting(s: Race, t: nat) {
    t !in s.threads || s.threads[t].Idle? || s.threads[t].Returned?
  }

  predicate At(s: Race, t: nat, pc: Pc) {
    t in s.threads && s.threads[t] == pc
  }

  function Entry(kind: Kind): Pc {
    match kind
    case AllowCall => AllowLoad
    case SuccessCall => RecordLoad(false)
    case FailureCall => RecordLoad(true)
  }

  /** The uninterrupted call with the clock readings made on the way. */
  function CallOf(kind: Kind, now: nat, stamp: nat): Call {
    match kind
    case AllowCall => Allow(now)
    case SuccessCall => Success(now)
    case FailureCall => Failure(now, stamp)
  }

  function Go(s: Race, t: nat, pc: Pc): Race {
    s.(threads := s.threads[t := pc])
  }

  /** A failure recorder between its two increments. */
  function Between(pc: Pc): nat {
    if pc.CountFailure? then 1 else 0
  }

  ghost function ZeroRequests(s: Race): Race {
    s.(cells := s.cells.(requests := 0),
       hist := s.hist.(stale := Total(s.threads, Between), failsSince := 0, cleared := false))
  }

  function ZeroFailures(s: Race): Race {
    s.(cells := s.cells.(failures := 0), hist := s.hist.(cleared := true))
  }

  function BumpRequests(s: Race): Race {
    s.(cells := s.cells.(requests := Bump(s.cells.requests)),
       hist := s.hist.(wrapped := s.hist.wrapped || s.cells.requests + 1 == U32_LIMIT))
  }

  function BumpFailures(s: Race): Race {
    s.(cells := s.cells.(failures := Bump(s.cells.failures)),
       hist := s.hist.(failsSince := s.hist.failsSince + 1,
                       wrapped := s.hist.wrapped || s.cells.failures + 1 == U32_LIMIT))
  }

  /** Where a thread that stands at `pc` goes with its next step. */
  function NextPc(cfg: Config, b: Cells, now: nat, pc: Pc): Pc {
    match pc
    case Idle => Idle
    case Returned(_) => pc
    case AllowLoad => if b.state.Open? then AllowStamp else Returned(true)
    case AllowStamp => AllowTest(b.openedAt)
    case AllowTest(stamp) => if CooledDown(cfg, stamp, now) then AllowSwap else Returned(false)
    case AllowSwap => Returned(b.state.Open?)
    case RecordLoad(fail) =>
      (match b.state
       case HalfOpen => if fail then OpenStore else CloseStore
       case Closed => RotateLoad(fail)
       case Open => Idle)
    case CloseStore => ResetClock
    case CountRequest(fail) => if fail then CountFailure(Bump(b.requests)) else Idle
    case CountFailure(requests) => Judge(requests, Bump(b.failures))
    case Judge(requests, failures) => if Trips(cfg, requests, failures) then OpenStore else Idle
    case OpenStore => OpenClock
    case OpenClock => OpenStamp(now)
    case OpenStamp(_) => Idle
    case ResetClock => ResetStart(now)
    case ResetStart(_) => ResetRequests
    case ResetRequests => ResetFailures
    case ResetFailures => Idle
    case RotateLoad(fail) => RotateClock(fail, b.windowStart)
    case RotateClock(fail, start) =>
      if RotationDue(cfg, start, now) then RotateSwap(fail, start, now) else CountRequest(fail)
    case RotateSwap(fail, start, _) =>
      if b.windowStart == start then RotateRequests(fail) else CountRequest(fail)
    case RotateRequests(fail) => RotateFailures(fail)
    case RotateFailures(fail) => CountRequest(fail)
  }

  /** What that step does to the cells. */
  ghost function Effect(s: Race, pc: Pc): Race {
    var b := s.cells;
    match pc
    case AllowSwap => if b.state.Open? then s.(cells := b.(state := HalfOpen)) else s
    case CloseStore => s.(cells := b.(state := Closed))
    case CountRequest(_) => BumpRequests(s)
    case CountFailure(_) => BumpFailures(s)
    case OpenStore => s.(cells := b.(state := Open))
    case OpenStamp(stamp) => s.(cells := b.(openedAt := stamp))
    case ResetStart(stamp) =>
      s.(cells := b.(windowStart := stamp), hist := s.hist.(base := stamp, rotations := 0))
    case ResetRequests => ZeroRequests(s)
    case ResetFailures => ZeroFailures(s)
    case RotateSwap(_, start, stamp) =>
      if b.windowStart == start
      then s.(cells := b.(windowStart := stamp), hist := s.hist.(rotations := s.hist.rotations + 1))
      else s
    case RotateRequests(_) => ZeroRequests(s)
    case RotateFailures(_) => ZeroFailures(s)
    case _ => s
  }

  /** The next step of thread `t`, which stands at `pc`. */
  ghost function StepAt(cfg: Config, s: Race, t: nat, pc: Pc): Race {
    Go(Effect(s, pc), t, NextPc(cfg, s.cells, s.now, pc))
  }

  /** One event. A thread may begin a call whenever it is not inside one. */
  ghost function Apply(cfg: Config, s: Race, e: Event): Race {
    match e
    case Tick(ms) => s.(now := s.now + ms)
    case Start(t, kind) => if Resting(s, t) then Go(s, t, Entry(kind)) else s
    case Step(t) => if t in s.threads then StepAt(cfg, s, t, s.threads[t]) else s
  }

  ghost function Run(cfg: Config, s: Race, sched: seq<Event>): Race
    decreases |sched|
  {
    if sched == [] then s else Run(cfg, Apply(cfg, s, sched[0]), sched[1..])
  }

  lemma {:induction false} RunAppend(cfg: Config, s: Race, a: seq<Event>, b: seq<Event>)
    ensures Run(cfg, s, a + b) == Run(cfg, Run(cfg, s, a), b)
    decreases |a|
  {
    if a == [] {
      assert a + b == b;
    } else {
      assert (a + b)[1..] == a[1..] + b;
      RunAppend(cfg, Apply(cfg, s, a[0]), a[1..], b);
    }
  }

  lemma RunSnoc(cfg: Config, s: Race, sched: seq<Event>, e: Event)
    ensures Run(cfg, s, sched + [e]) == Apply(cfg, Run(cfg, s, sched), e)
  {
    RunAppend(cfg, s, sched, [e]);
    assert [e][1..] == [];
    assert Run(cfg, Apply(cfg, Run(cfg, s, sched), e), []) == Apply(cfg, Run(cfg, s, sched), e);
  }

  lemma RunCons(cfg: Config, s: Race, e: Event, rest: seq<Event>)
    ensures Run(cfg, s, [e] + rest) == Run(cfg, Apply(cfg, s, e), rest)
  {
    assert ([e] + rest)[1..] == rest;
  }

  // ---- a call ends after a bounded number of its own steps ----

  /** The steps a call may still take. */
  function CallSteps(pc: Pc): nat {
    match pc
    case Idle => 0
    case Returned(_) => 0
    case AllowLoad => 4
    case AllowStamp => 3
    case AllowTest(_) => 2
    case AllowSwap => 1
    case RecordLoad(_) => 12
    case RotateLoad(_) => 11
    case RotateClock(_, _) => 10
    case RotateSwap(_, _, _) => 9
    case RotateRequests(_) => 8
    case RotateFailures(_) => 7
    case CountRequest(_) => 6
    case CountFailure(_) => 5
    case Judge(_, _) => 4
    case OpenStore => 3
    case OpenClock => 2
    case OpenStamp(_) => 1
    case CloseStore => 5
    case ResetClock => 4
    case ResetStart(_) => 3
    case ResetRequests => 2
    case ResetFailures => 1
  }

  lemma StepsShrink(cfg: Config, b: Cells, now: nat, pc: Pc)
    ensures CallSteps(pc) > 0 ==> CallSteps(NextPc(cfg, b, now, pc)) < CallSteps(pc)
  {
  }

  /** The steps of thread `t` in a schedule. */
  function StepsOf(sched: seq<Event>, t: nat): nat {
    if sched == [] then 0 else (if sched[0] == Step(t) then 1 else 0) + StepsOf(sched[1..], t)
  }

  /** Every call is wait-free: whatever the other threads do, a thread that has taken as
      many steps as its call can have (four for an admission, twelve for an outcome) is
      at rest. */
  lemma {:induction false} WaitFree(cfg: Config, s: Race, t: nat, sched: seq<Event>)
    requires t in s.threads && StepsOf(sched, t) >= CallSteps(s.threads[t])
    ensures exists n :: 0 <= n <= |sched| && Resting(Run(cfg, s, sched[..n]), t)
    decreases |sched|
  {
    if Resting(s, t) {
      assert Run(cfg, s, sched[..0]) == s;
    } else {
      assert CallSteps(s.threads[t]) > 0;
      var e, rest := sched[0], sched[1..];
      var s' := Apply(cfg, s, e);
      StepsShrink(cfg, s.cells, s.now, s.threads[t]);
      WaitFree(cfg, s', t, rest);
      var n :| 0 <= n <= |rest| && Resting(Run(cfg, s', rest[..n]), t);
      assert sched[..n + 1] == [e] + rest[..n];
      RunCons(cfg, s, e, rest[..n]);
      assert Resting(Run(cfg, s, sched[..n + 1]), t);
    }
  }

  // ---- unique half-open winner ----

  /** The event is a successful Open -> HalfOpen exchange. */
  predicate WinsAt(s: Race, e: Event) {
    e.Step? && At(s, e.t, AllowSwap) && s.cells.state.Open?
  }

  /** The event stores Open. */
  predicate OpensAt(s: Race, e: Event) {
    e.Step? && At(s, e.t, OpenStore)
  }

  ghost function Wins(cfg: Config, s: Race, sched: seq<Event>): nat
    decreases |sched|
  {
    if sched == [] then 0
    else (if WinsAt(s, sched[0]) then 1 else 0) + Wins(cfg, Apply(cfg, s, sched[0]), sched[1..])
  }

  ghost function Opens(cfg: Config, s: Race, sched: seq<Event>): nat
    decreases |sched|
  {
    if sched == [] then 0
    else (if OpensAt(s, sched[0]) then 1 else 0) + Opens(cfg, Apply(cfg, s, sched[0]), sched[1..])
  }

  function IsOpen(s: Race): nat {
    if s.cells.state.Open? then 1 else 0
  }

  /** Over every stretch of every run, the successful exchanges plus one if the breaker
      ends Open are at most the stores of Open plus one if it began Open: each store of
      Open lets at most one caller through the exchange. */
  lemma {:induction false} UniqueWinner(cfg: Config, s: Race, sched: seq<Event>)
    ensures Wins(cfg, s, sched) + IsOpen(Run(cfg, s, sched)) <= Opens(cfg, s, sched) + IsOpen(s)
    decreases |sched|
  {
    if sched != [] {
      UniqueWinner(cfg, Apply(cfg, s, sched[0]), sched[1..]);
    }
  }
}
