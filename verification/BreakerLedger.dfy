/** The books of the contended breaker. Whatever the interleaving, every obligation that a
    step of a call takes on (to count an outcome, to judge a failure, to clear the window
    after a won exchange, to open, to stamp, to close, to reset) is met exactly once by a
    later step of the same call, and no step meets one that was not taken on. */
module BreakerLedger {
  import opened Breaker
  import opened Tally
  import opened BreakerRace
  import opened BreakerEdges
  import opened BreakerWindow

  function Bit(b: bool): nat {
    if b then 1 else 0
  }

  /** What holds of a step: the cells and the clock it meets, and the position it is taken
      from. */
  type StepTest = (Cells, nat, Pc) -> bool

  /** How often the test holds of the steps of thread `t`, ... */
  ghost function StepsOfThread(cfg: Config, s: Race, sched: seq<Event>, t: nat, test: StepTest): nat
    decreases |sched|
  {
    if sched == [] then 0
    else
      Bit(sched[0] == Step(t) && t in s.threads && test(s.cells, s.now, s.threads[t]))
      + StepsOfThread(cfg, Apply(cfg, s, sched[0]), sched[1..], t, test)
  }

  /** ... and of those of all threads. */
  ghost function StepsOfAll(cfg: Config, s: Race, sched: seq<Event>, test: StepTest): nat
    decreases |sched|
  {
    if sched == [] then 0
    else
      var e := sched[0];
      Bit(e.Step? && e.t in s.threads && test(s.cells, s.now, s.threads[e.t]))
      + StepsOfAll(cfg, Apply(cfg, s, e), sched[1..], test)
  }

  /** A book balances: `owes` holds of the positions with the obligation open, `takes` of the
      steps that take it on and `meets` of those that meet it. */
  ghost predicate Balanced(cfg: Config, owes: Pc -> bool, takes: StepTest, meets: StepTest) {
    && (forall b, now, pc :: CallSteps(pc) > 0 ==>
          Bit(owes(pc)) + Bit(takes(b, now, pc)) == Bit(meets(b, now, pc)) + Bit(owes(NextPc(cfg, b, now, pc))))
    && (forall pc :: CallSteps(pc) == 0 ==>
          !owes(pc) && forall b, now :: !takes(b, now, pc) && !meets(b, now, pc))
    && (forall kind :: !owes(Entry(kind)))
  }

  predicate Owing(s: Race, t: nat, owes: Pc -> bool) {
    t in s.threads && owes(s.threads[t])
  }

  /** One event, for one thread. */
  lemma BookStep(cfg: Config, s: Race, e: Event, t: nat, owes: Pc -> bool, takes: StepTest, meets: StepTest)
    requires Balanced(cfg, owes, takes, meets)
    ensures var own := e == Step(t) && t in s.threads;
            Bit(Owing(s, t, owes)) + Bit(own && takes(s.cells, s.now, s.threads[t]))
            == Bit(own && meets(s.cells, s.now, s.threads[t])) + Bit(Owing(Apply(cfg, s, e), t, owes))
  {
    if e == Step(t) && t in s.threads {
      var pc := s.threads[t];
      assert Apply(cfg, s, e).threads[t] == NextPc(cfg, s.cells, s.now, pc);
      if CallSteps(pc) == 0 {
        assert NextPc(cfg, s.cells, s.now, pc) == pc;
      }
    } else if e.Start? && e.t == t && Resting(s, t) {
      assert t in s.threads ==> CallSteps(s.threads[t]) == 0;
    } else {
      assert Owing(Apply(cfg, s, e), t, owes) <==> Owing(s, t, owes);
    }
  }

  lemma {:induction false} ThreadBook(cfg: Config, s: Race, sched: seq<Event>, t: nat,
                                      owes: Pc -> bool, takes: StepTest, meets: StepTest)
    requires Balanced(cfg, owes, takes, meets)
    ensures Bit(Owing(s, t, owes)) + StepsOfThread(cfg, s, sched, t, takes)
            == StepsOfThread(cfg, s, sched, t, meets) + Bit(Owing(Run(cfg, s, sched), t, owes))
    decreases |sched|
  {
    if sched != [] {
      BookStep(cfg, s, sched[0], t, owes, takes, meets);
      ThreadBook(cfg, Apply(cfg, s, sched[0]), sched[1..], t, owes, takes, meets);
    }
  }

  function Weight(owes: Pc -> bool): Pc -> nat {
    pc => Bit(owes(pc))
  }

  /** The threads with the obligation open. */
  ghost function OwingIn(s: Race, owes: Pc -> bool): nat {
    Total(s.threads, Weight(owes))
  }

  lemma TotalStep(cfg: Config, s: Race, e: Event, owes: Pc -> bool, takes: StepTest, meets: StepTest)
    requires Balanced(cfg, owes, takes, meets)
    ensures var own := e.Step? && e.t in s.threads;
            OwingIn(s, owes) + Bit(own && takes(s.cells, s.now, s.threads[e.t]))
            == Bit(own && meets(s.cells, s.now, s.threads[e.t])) + OwingIn(Apply(cfg, s, e), owes)
  {
    var s' := Apply(cfg, s, e);
    if !e.Tick? && s'.threads != s.threads {
      BookStep(cfg, s, e, e.t, owes, takes, meets);
      assert s'.threads == s.threads[e.t := s'.threads[e.t]];
      TotalUpdate(s.threads, Weight(owes), e.t, s'.threads[e.t]);
    } else if e.Step? && e.t in s.threads {
      BookStep(cfg, s, e, e.t, owes, takes, meets);
    }
  }

  lemma {:induction false} TotalBook(cfg: Config, s: Race, sched: seq<Event>,
                                     owes: Pc -> bool, takes: StepTest, meets: StepTest)
    requires Balanced(cfg, owes, takes, meets)
    ensures OwingIn(s, owes) + StepsOfAll(cfg, s, sched, takes)
            == StepsOfAll(cfg, s, sched, meets) + OwingIn(Run(cfg, s, sched), owes)
    decreases |sched|
  {
    if sched != [] {
      TotalStep(cfg, s, sched[0], owes, takes, meets);
      TotalBook(cfg, Apply(cfg, s, sched[0]), sched[1..], owes, takes, meets);
    }
  }

  // ---- the steps ----

  const FindsClosed: StepTest := (b: Cells, now: nat, pc: Pc) => pc.RecordLoad? && b.state.Closed?
  const FailureFindsClosed: StepTest := (b: Cells, now: nat, pc: Pc) => pc == RecordLoad(true) && b.state.Closed?
  const CountsRequest: StepTest := (b: Cells, now: nat, pc: Pc) => pc.CountRequest?
  const CountsFailure: StepTest := (b: Cells, now: nat, pc: Pc) => pc.CountFailure?
  const Judges: StepTest := (b: Cells, now: nat, pc: Pc) => pc.Judge?
  const ReadsWindow: StepTest := (b: Cells, now: nat, pc: Pc) => pc.RotateClock?
  const TriesExchange: StepTest := (b: Cells, now: nat, pc: Pc) => pc.RotateSwap?
  const MovesWindow: StepTest := (b: Cells, now: nat, pc: Pc) =>
    pc.ResetStart? || (pc.RotateSwap? && b.windowStart == pc.start)
  const ZeroesRequests: StepTest := (b: Cells, now: nat, pc: Pc) => pc.ResetRequests? || pc.RotateRequests?
  const ZeroesFailures: StepTest := (b: Cells, now: nat, pc: Pc) => pc.ResetFailures? || pc.RotateFailures?
  const StoresOpen: StepTest := (b: Cells, now: nat, pc: Pc) => pc.OpenStore?
  const StoresStamp: StepTest := (b: Cells, now: nat, pc: Pc) => pc.OpenStamp?
  const StoresClosed: StepTest := (b: Cells, now: nat, pc: Pc) => pc.CloseStore?
  const StoresWindow: StepTest := (b: Cells, now: nat, pc: Pc) => pc.ResetStart?
  const SuccessFindsHalfOpen: StepTest := (b: Cells, now: nat, pc: Pc) => pc == RecordLoad(false) && b.state.HalfOpen?

  function FindsDue(cfg: Config): StepTest {
    (b: Cells, now: nat, pc: Pc) => pc.RotateClock? && RotationDue(cfg, pc.start, now)
  }

  /** A failure that is to open the breaker: its trip test holds, or it found it half-open. */
  function DecidesToOpen(cfg: Config): StepTest {
    (b: Cells, now: nat, pc: Pc) =>
      (pc.Judge? && Trips(cfg, pc.requests, pc.failures)) || (pc == RecordLoad(true) && b.state.HalfOpen?)
  }

  // ---- the positions with an obligation open ----

  predicate InRotation(pc: Pc) {
    pc.RotateLoad? || pc.RotateClock? || pc.RotateSwap? || pc.RotateRequests? || pc.RotateFailures?
  }

  const OwesRequest: Pc -> bool := (pc: Pc) => InRotation(pc) || pc.CountRequest?
  const OwesFailure: Pc -> bool := (pc: Pc) =>
    ((InRotation(pc) || pc.CountRequest?) && pc.fail) || pc.CountFailure?
  const OwesJudgment: Pc -> bool := (pc: Pc) => pc.Judge?
  const OwesWindowCheck: Pc -> bool := (pc: Pc) => pc.RotateLoad? || pc.RotateClock?
  const OwesExchange: Pc -> bool := (pc: Pc) => pc.RotateSwap?
  const OwesRequestClear: Pc -> bool := (pc: Pc) => pc.ResetRequests? || pc.RotateRequests?
  const OwesFailureClear: Pc -> bool := (pc: Pc) => pc.ResetFailures? || pc.RotateFailures?
  const OwesOpen: Pc -> bool := (pc: Pc) => pc.OpenStore?
  const OwesStamp: Pc -> bool := (pc: Pc) => pc.OpenClock? || pc.OpenStamp?
  const OwesClose: Pc -> bool := (pc: Pc) => pc.CloseStore?
  const OwesReset: Pc -> bool := (pc: Pc) => pc.ResetClock? || pc.ResetStart?

  // ---- the books ----

  lemma OutcomesBalance(cfg: Config)
    ensures Balanced(cfg, OwesRequest, FindsClosed, CountsRequest)
  {
  }

  lemma FailuresBalance(cfg: Config)
    ensures Balanced(cfg, OwesFailure, FailureFindsClosed, CountsFailure)
  {
  }

  lemma JudgmentsBalance(cfg: Config)
    ensures Balanced(cfg, OwesJudgment, CountsFailure, Judges)
  {
  }

  lemma ChecksBalance(cfg: Config)
    ensures Balanced(cfg, OwesWindowCheck, FindsClosed, ReadsWindow)
  {
  }

  lemma ExchangesBalance(cfg: Config)
    ensures Balanced(cfg, OwesExchange, FindsDue(cfg), TriesExchange)
  {
  }

  lemma ClearsBalance(cfg: Config)
    ensures Balanced(cfg, OwesRequestClear, MovesWindow, ZeroesRequests)
  {
  }

  lemma FailureClearsBalance(cfg: Config)
    ensures Balanced(cfg, OwesFailureClear, ZeroesRequests, ZeroesFailures)
  {
  }

  lemma OpeningsBalance(cfg: Config)
    ensures Balanced(cfg, OwesOpen, DecidesToOpen(cfg), StoresOpen)
  {
  }

  lemma StampsBalance(cfg: Config)
    ensures Balanced(cfg, OwesStamp, StoresOpen, StoresStamp)
  {
  }

  lemma ClosingsBalance(cfg: Config)
    ensures Balanced(cfg, OwesClose, SuccessFindsHalfOpen, StoresClosed)
  {
  }

  lemma ResetsBalance(cfg: Config)
    ensures Balanced(cfg, OwesReset, StoresClosed, StoresWindow)
  {
  }

  /** Every outcome that found the breaker Closed is counted exactly once, whether it won,
      lost or did not try the window exchange, and so is every failure among them, which is
      then judged exactly once: over every stretch of every run and for every thread. In
      particular a call that began and ended in the stretch owes nothing. */
  lemma EveryOutcomeIsCounted(cfg: Config, s: Race, sched: seq<Event>, t: nat)
    ensures var s' := Run(cfg, s, sched);
            && Bit(Owing(s, t, OwesRequest)) + StepsOfThread(cfg, s, sched, t, FindsClosed)
               == StepsOfThread(cfg, s, sched, t, CountsRequest) + Bit(Owing(s', t, OwesRequest))
            && Bit(Owing(s, t, OwesFailure)) + StepsOfThread(cfg, s, sched, t, FailureFindsClosed)
               == StepsOfThread(cfg, s, sched, t, CountsFailure) + Bit(Owing(s', t, OwesFailure))
            && Bit(Owing(s, t, OwesJudgment)) + StepsOfThread(cfg, s, sched, t, CountsFailure)
               == StepsOfThread(cfg, s, sched, t, Judges) + Bit(Owing(s', t, OwesJudgment))
  {
    OutcomesBalance(cfg);
    ThreadBook(cfg, s, sched, t, OwesRequest, FindsClosed, CountsRequest);
    FailuresBalance(cfg);
    ThreadBook(cfg, s, sched, t, OwesFailure, FailureFindsClosed, CountsFailure);
    JudgmentsBalance(cfg);
    ThreadBook(cfg, s, sched, t, OwesJudgment, CountsFailure, Judges);
  }

  /** Every outcome that found the breaker Closed looks at the window once, and tries the
      exchange exactly if it found the window over. */
  lemma EveryWindowIsChecked(cfg: Config, s: Race, sched: seq<Event>, t: nat)
    ensures var s' := Run(cfg, s, sched);
            && Bit(Owing(s, t, OwesWindowCheck)) + StepsOfThread(cfg, s, sched, t, FindsClosed)
               == StepsOfThread(cfg, s, sched, t, ReadsWindow) + Bit(Owing(s', t, OwesWindowCheck))
            && Bit(Owing(s, t, OwesExchange)) + StepsOfThread(cfg, s, sched, t, FindsDue(cfg))
               == StepsOfThread(cfg, s, sched, t, TriesExchange) + Bit(Owing(s', t, OwesExchange))
  {
    ChecksBalance(cfg);
    ThreadBook(cfg, s, sched, t, OwesWindowCheck, FindsClosed, ReadsWindow);
    ExchangesBalance(cfg);
    ThreadBook(cfg, s, sched, t, OwesExchange, FindsDue(cfg), TriesExchange);
  }

  /** The counters are cleared by the winners alone: over every stretch of every run, the
      stores of zero to the request counter, and the threads standing before one at its end,
      are the won window exchanges and the reset stores, and the threads that stood there at
      its beginning; and each is followed by a store of zero to the failure counter. */
  lemma OnlyWinnersClear(cfg: Config, s: Race, sched: seq<Event>)
    ensures var s' := Run(cfg, s, sched);
            && StepsOfAll(cfg, s, sched, ZeroesRequests) + OwingIn(s', OwesRequestClear)
               == StepsOfAll(cfg, s, sched, MovesWindow) + OwingIn(s, OwesRequestClear)
            && StepsOfAll(cfg, s, sched, ZeroesFailures) + OwingIn(s', OwesFailureClear)
               == StepsOfAll(cfg, s, sched, ZeroesRequests) + OwingIn(s, OwesFailureClear)
  {
    ClearsBalance(cfg);
    TotalBook(cfg, s, sched, OwesRequestClear, MovesWindow, ZeroesRequests);
    FailureClearsBalance(cfg);
    TotalBook(cfg, s, sched, OwesFailureClear, ZeroesRequests, ZeroesFailures);
  }

  /** Every failure whose trip test held or that found the breaker half-open stores Open
      exactly once, and then a stamp; no other step does. Every success that found it
      half-open stores Closed exactly once, and then resets the window. */
  lemma EveryDecisionIsStored(cfg: Config, s: Race, sched: seq<Event>, t: nat)
    ensures var s' := Run(cfg, s, sched);
            && Bit(Owing(s, t, OwesOpen)) + StepsOfThread(cfg, s, sched, t, DecidesToOpen(cfg))
               == StepsOfThread(cfg, s, sched, t, StoresOpen) + Bit(Owing(s', t, OwesOpen))
            && Bit(Owing(s, t, OwesStamp)) + StepsOfThread(cfg, s, sched, t, StoresOpen)
               == StepsOfThread(cfg, s, sched, t, StoresStamp) + Bit(Owing(s', t, OwesStamp))
            && Bit(Owing(s, t, OwesClose)) + StepsOfThread(cfg, s, sched, t, SuccessFindsHalfOpen)
               == StepsOfThread(cfg, s, sched, t, StoresClosed) + Bit(Owing(s', t, OwesClose))
            && Bit(Owing(s, t, OwesReset)) + StepsOfThread(cfg, s, sched, t, StoresClosed)
               == StepsOfThread(cfg, s, sched, t, StoresWindow) + Bit(Owing(s', t, OwesReset))
  {
    OpeningsBalance(cfg);
    ThreadBook(cfg, s, sched, t, OwesOpen, DecidesToOpen(cfg), StoresOpen);
    StampsBalance(cfg);
    ThreadBook(cfg, s, sched, t, OwesStamp, StoresOpen, StoresStamp);
    ClosingsBalance(cfg);
    ThreadBook(cfg, s, sched, t, OwesClose, SuccessFindsHalfOpen, StoresClosed);
    ResetsBalance(cfg);
    ThreadBook(cfg, s, sched, t, OwesReset, StoresClosed, StoresWindow);
  }

  // ---- the values ----

  /** What the values held at a position are: those that the thread's latest step, taken in
      state `r`, read or was returned. */
  predicate Read(cfg: Config, r: Race, t: nat, pc: Pc) {
    match pc
    case AllowTest(stamp) => At(r, t, AllowStamp) && stamp == r.cells.openedAt
    case AllowSwap => t in r.threads && r.threads[t].AllowTest? && CooledDown(cfg, r.threads[t].stamp, r.now)
    case RotateClock(fail, start) => At(r, t, RotateLoad(fail)) && start == r.cells.windowStart
    case RotateSwap(fail, start, stamp) =>
      At(r, t, RotateClock(fail, start)) && stamp == r.now && RotationDue(cfg, start, stamp)
    case CountFailure(requests) => At(r, t, CountRequest(true)) && requests == Bump(r.cells.requests)
    case Judge(requests, failures) => At(r, t, CountFailure(requests)) && failures == Bump(r.cells.failures)
    case OpenStamp(stamp) => At(r, t, OpenClock) && stamp == r.now
    case ResetStart(stamp) => At(r, t, ResetClock) && stamp == r.now
    case _ => true
  }

  ghost predicate ReadSince(cfg: Config, s: Race, sched: seq<Event>, t: nat) {
    t in Run(cfg, s, sched).threads &&
    exists n: nat :: LastStep(sched, t, n)
      && Read(cfg, Run(cfg, s, sched[..n]), t, Run(cfg, s, sched).threads[t])
  }

  /** In every run, the values a call holds are the ones its own latest step obtained, not
      what the cells have become since: a failure is judged on the counts that its own two
      increments returned, an exchange is tried on the start it loaded and found over. */
  lemma {:induction false} ValuesAreRead(cfg: Config, born: nat, sched: seq<Event>, t: nat)
    requires t in Run(cfg, Init(born), sched).threads
    ensures var pc := Run(cfg, Init(born), sched).threads[t];
            ReadSince(cfg, Init(born), sched, t) || exists kind :: pc == Entry(kind)
    decreases |sched|
  {
    var s := Init(born);
    assert sched != [];
    var p, e := sched[..|sched| - 1], sched[|sched| - 1];
    assert sched == p + [e];
    RunSnoc(cfg, s, p, e);
    var r := Run(cfg, s, p);
    if e == Step(t) {
      assert LastStep(sched, t, |p|) && sched[..|p|] == p;
      StepReads(cfg, r, t);
    } else if e.Start? && e.t == t && Resting(r, t) {
      assert Run(cfg, s, sched).threads[t] == Entry(e.kind);
    } else {
      ValuesAreRead(cfg, born, p, t);
      if n: nat :| LastStep(p, t, n) && Read(cfg, Run(cfg, s, p[..n]), t, r.threads[t]) {
        assert sched[..n] == p[..n] && LastStep(sched, t, n);
      }
    }
  }

  lemma StepReads(cfg: Config, r: Race, t: nat)
    requires t in r.threads
    ensures Read(cfg, r, t, Apply(cfg, r, Step(t)).threads[t])
  {
  }

  // ---- the cells ----

  /** Which steps write which cell. */
  lemma CellsWritten(cfg: Config, s: Race, t: nat)
    requires t in s.threads
    ensures var b, b', pc := s.cells, Apply(cfg, s, Step(t)).cells, s.threads[t];
            && b'.state == (if pc.OpenStore? then Open else if pc.CloseStore? then Closed
                            else if WinsAt(s, Step(t)) then HalfOpen else b.state)
            && b'.requests == (if ZeroesRequests(b, s.now, pc) then 0
                               else if pc.CountRequest? then Bump(b.requests) else b.requests)
            && b'.failures == (if ZeroesFailures(b, s.now, pc) then 0
                               else if pc.CountFailure? then Bump(b.failures) else b.failures)
            && b'.windowStart == (if MovesWindow(b, s.now, pc) then pc.stamp else b.windowStart)
            && b'.openedAt == (if pc.OpenStamp? then pc.stamp else b.openedAt)
  {
  }

  const WinsExchange: StepTest := (b: Cells, now: nat, pc: Pc) => pc.RotateSwap? && b.windowStart == pc.start

  /** What the history records: the stamp of the latest reset store and the exchanges won
      since; and, from the latest store of zero to the request counter on, the recorders
      that stood between their increments then, the failure increments since and whether the
      failure counter was cleared too. */
  lemma HistoryRecords(cfg: Config, s: Race, t: nat)
    requires t in s.threads
    ensures var h, h', pc := s.hist, Apply(cfg, s, Step(t)).hist, s.threads[t];
            var zeroes := ZeroesRequests(s.cells, s.now, pc);
            && h'.base == (if pc.ResetStart? then pc.stamp else h.base)
            && h'.rotations == (if pc.ResetStart? then 0
                                else h.rotations + Bit(WinsExchange(s.cells, s.now, pc)))
            && h'.stale == (if zeroes then Total(s.threads, Between) else h.stale)
            && h'.failsSince == (if zeroes then 0 else h.failsSince + Bit(pc.CountFailure?))
            && (h'.cleared <==> !zeroes && (h.cleared || ZeroesFailures(s.cells, s.now, pc)))
            && (h'.wrapped <==> h.wrapped || (pc.CountRequest? && s.cells.requests == U32_LIMIT - 1)
                                || (pc.CountFailure? && s.cells.failures == U32_LIMIT - 1))
  {
  }

  /** Rotation rate, by counting: over every stretch of every run after a reset store (or
      the construction) and without another one, the exchanges won are at most one per
      window length, from the stamp of that reset to the window's start. */
  lemma RotationsAreCounted(cfg: Config, born: nat, past: seq<Event>, sched: seq<Event>)
    requires var s := Run(cfg, Init(born), past); s.hist.rotations == 0 && StepsOfAll(cfg, s, sched, StoresWindow) == 0
    ensures var s := Run(cfg, Init(born), past);
            var s' := Run(cfg, s, sched);
            && s'.hist.base == s.hist.base
            && StepsOfAll(cfg, s, sched, WinsExchange) * cfg.windowMs <= s'.cells.windowStart - s.hist.base
            && s'.cells.windowStart <= s'.now
  {
    var s := Run(cfg, Init(born), past);
    RotationsGrow(cfg, s, sched);
    RunAppend(cfg, Init(born), past, sched);
    RotationsAreSpaced(cfg, born, past + sched);
  }

  lemma {:induction false} RotationsGrow(cfg: Config, s: Race, sched: seq<Event>)
    requires StepsOfAll(cfg, s, sched, StoresWindow) == 0
    ensures var s' := Run(cfg, s, sched);
            && s'.hist.base == s.hist.base
            && s'.hist.rotations == s.hist.rotations + StepsOfAll(cfg, s, sched, WinsExchange)
    decreases |sched|
  {
    if sched != [] {
      var e := sched[0];
      RotationsGrow(cfg, Apply(cfg, s, e), sched[1..]);
      if e.Step? && e.t in s.threads {
        HistoryRecords(cfg, s, e.t);
      }
    }
  }

  /** Over every stretch without a clear and without a wrap-around, the request counter grows
      by exactly one for every outcome that found the breaker Closed, up to those that have
      not counted yet at either end. */
  lemma {:induction false} RequestsAddUp(cfg: Config, s: Race, sched: seq<Event>)
    requires StepsOfAll(cfg, s, sched, ZeroesRequests) == 0 && !Run(cfg, s, sched).hist.wrapped
    ensures var s' := Run(cfg, s, sched);
            s'.cells.requests + OwingIn(s', OwesRequest)
            == s.cells.requests + OwingIn(s, OwesRequest) + StepsOfAll(cfg, s, sched, FindsClosed)
  {
    OutcomesBalance(cfg);
    TotalBook(cfg, s, sched, OwesRequest, FindsClosed, CountsRequest);
    RequestsGrow(cfg, s, sched);
  }

  lemma {:induction false} RequestsGrow(cfg: Config, s: Race, sched: seq<Event>)
    requires StepsOfAll(cfg, s, sched, ZeroesRequests) == 0 && !Run(cfg, s, sched).hist.wrapped
    ensures !s.hist.wrapped
    ensures Run(cfg, s, sched).cells.requests == s.cells.requests + StepsOfAll(cfg, s, sched, CountsRequest)
    decreases |sched|
  {
    if sched != [] {
      var e := sched[0];
      RequestsGrow(cfg, Apply(cfg, s, e), sched[1..]);
      if e.Step? && e.t in s.threads {
        CellsWritten(cfg, s, e.t);
      }
    }
  }

  /** And over every stretch without a clear of the failure counter, that counter grows by
      exactly one for every failure that found the breaker Closed, up to those yet to count. */
  lemma {:induction false} FailuresAddUp(cfg: Config, s: Race, sched: seq<Event>)
    requires StepsOfAll(cfg, s, sched, ZeroesFailures) == 0 && !Run(cfg, s, sched).hist.wrapped
    ensures var s' := Run(cfg, s, sched);
            s'.cells.failures + OwingIn(s', OwesFailure)
            == s.cells.failures + OwingIn(s, OwesFailure) + StepsOfAll(cfg, s, sched, FailureFindsClosed)
  {
    FailuresBalance(cfg);
    TotalBook(cfg, s, sched, OwesFailure, FailureFindsClosed, CountsFailure);
    FailuresGrow(cfg, s, sched);
  }

  lemma {:induction false} FailuresGrow(cfg: Config, s: Race, sched: seq<Event>)
    requires StepsOfAll(cfg, s, sched, ZeroesFailures) == 0 && !Run(cfg, s, sched).hist.wrapped
    ensures !s.hist.wrapped
    ensures Run(cfg, s, sched).cells.failures == s.cells.failures + StepsOfAll(cfg, s, sched, CountsFailure)
    decreases |sched|
  {
    if sched != [] {
      var e := sched[0];
      FailuresGrow(cfg, Apply(cfg, s, e), sched[1..]);
      if e.Step? && e.t in s.threads {
        CellsWritten(cfg, s, e.t);
      }
    }
  }
}
