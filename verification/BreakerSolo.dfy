/** The interleaved breaker and the uninterrupted one are the same breaker: a thread
    that runs a call without interference leaves the cells that the atomic call leaves.
    With that, a concrete run in which a re-opened breaker is probed too early. */
module BreakerSolo {
  import opened Breaker
  import opened BreakerRace
  import opened BreakerCooldown

  /** Thread `t` takes `n` steps and nothing else happens. */
  ghost function Spin(cfg: Config, s: Race, t: nat, n: nat): Race
    decreases n
  {
    if n == 0 then s else Spin(cfg, Apply(cfg, s, Step(t)), t, n - 1)
  }

  /** The other threads do not move. */
  predicate SameOthers(s: Race, s': Race, t: nat) {
    s'.threads - {t} == s.threads - {t}
  }

  lemma {:induction false} SpinOthers(cfg: Config, s: Race, t: nat, n: nat)
    ensures SameOthers(s, Spin(cfg, s, t, n), t)
    decreases n
  {
    if n > 0 {
      var s1 := Apply(cfg, s, Step(t));
      assert SameOthers(s, s1, t);
      SpinOthers(cfg, s1, t, n - 1);
    }
  }

  lemma OthersRest(s: Race, s': Race, t: nat, u: nat)
    requires SameOthers(s, s', t) && u != t
    ensures u in s.threads <==> u in s'.threads
    ensures u in s.threads ==> s'.threads[u] == s.threads[u]
    ensures Resting(s', u) <==> Resting(s, u)
  {
    assert u in s.threads <==> u in s.threads - {t};
    assert u in s'.threads <==> u in s'.threads - {t};
    if u in s.threads {
      assert (s'.threads - {t})[u] == (s.threads - {t})[u];
    }
  }

  /** What the rest of a run sees of the thread's steps. */
  predicate Leaves(s: Race, t: nat, cells: Cells, now: nat, pc: Pc) {
    s.cells == cells && s.now == now && At(s, t, pc)
  }

  lemma SoloReset(cfg: Config, s: Race, t: nat)
    requires At(s, t, ResetClock)
    ensures Leaves(Spin(cfg, s, t, 4), t, ResetWindow(s.cells, s.now), s.now, Idle)
  {
    var s3 := Spin(cfg, s, t, 3);
    assert Leaves(s3, t, s.cells.(windowStart := s.now, requests := 0), s.now, ResetFailures);
  }

  // ---- a call on its way ----

  datatype CallBy = CallBy(t: nat, call: Call)

  /** The finished calls in order, and of the call under way its kind and the clock
      readings it has made so far. */
  datatype Tape = Tape(log: seq<CallBy>, kind: Kind, now: nat, stamp: nat)

  /** A step of the call under way that stands at `pc`. */
  function Note(cfg: Config, s: Race, tape: Tape, t: nat, pc: Pc): Tape {
    var read :=
      if pc.AllowTest? || pc.RotateClock? || pc.ResetClock? then tape.(now := s.now)
      else if pc.OpenClock? then tape.(stamp := s.now)
      else tape;
    if CallSteps(NextPc(cfg, s.cells, s.now, pc)) == 0
    then read.(log := read.log + [CallBy(t, CallOf(read.kind, read.now, read.stamp))])
    else read
  }

  function Observe(cfg: Config, s: Race, tape: Tape, e: Event): Tape {
    match e
    case Tick(_) => tape
    case Start(t, kind) => if Resting(s, t) then Tape(tape.log, kind, s.now, s.now) else tape
    case Step(t) => if Resting(s, t) then tape else Note(cfg, s, tape, t, s.threads[t])
  }

  function Counted(w: Cells): Cells {
    w.(requests := Bump(w.requests), failures := Bump(w.failures))
  }

  /** The cells of a failure recorder that is about to open the breaker `b`. */
  function ToOpen(cfg: Config, b: Cells, now: nat): Cells {
    if b.state.HalfOpen? then b else Counted(RotateWindow(cfg, b, now))
  }

  predicate Tripping(cfg: Config, b: Cells, now: nat) {
    b.state.HalfOpen? ||
    (b.state.Closed? && var c := Counted(RotateWindow(cfg, b, now)); Trips(cfg, c.requests, c.failures))
  }

  predicate Records(tape: Tape, fail: bool) {
    tape.kind == if fail then FailureCall else SuccessCall
  }

  /** The call under way found the cells `b`; the cells are `c` when it stands at `pc`. */
  predicate Midway(cfg: Config, b: Cells, tape: Tape, c: Cells, pc: Pc) {
    match pc
    case Idle => true
    case Returned(_) => true
    case AllowLoad => tape.kind.AllowCall? && c == b
    case AllowStamp => tape.kind.AllowCall? && c == b && b.state.Open?
    case AllowTest(stamp) => tape.kind.AllowCall? && c == b && b.state.Open? && stamp == b.openedAt
    case AllowSwap =>
      tape.kind.AllowCall? && c == b && b.state.Open? && CooledDown(cfg, b.openedAt, tape.now)
    case RecordLoad(fail) => Records(tape, fail) && c == b
    case CloseStore => Records(tape, false) && c == b && b.state.HalfOpen?
    case ResetClock => Records(tape, false) && c == b.(state := Closed) && b.state.HalfOpen?
    case ResetStart(stamp) =>
      Records(tape, false) && c == b.(state := Closed) && b.state.HalfOpen? && stamp == tape.now
    case ResetRequests =>
      Records(tape, false) && c == b.(state := Closed, windowStart := tape.now) && b.state.HalfOpen?
    case ResetFailures =>
      && Records(tape, false) && b.state.HalfOpen?
      && c == b.(state := Closed, windowStart := tape.now, requests := 0)
    case RotateLoad(fail) => Records(tape, fail) && c == b && b.state.Closed?
    case RotateClock(fail, start) =>
      Records(tape, fail) && c == b && b.state.Closed? && start == b.windowStart
    case RotateSwap(fail, start, stamp) =>
      && Records(tape, fail) && c == b && b.state.Closed? && start == b.windowStart
      && stamp == tape.now && RotationDue(cfg, start, stamp)
    case RotateRequests(fail) =>
      && Records(tape, fail) && b.state.Closed? && RotationDue(cfg, b.windowStart, tape.now)
      && c == b.(windowStart := tape.now)
    case RotateFailures(fail) =>
      && Records(tape, fail) && b.state.Closed? && RotationDue(cfg, b.windowStart, tape.now)
      && c == b.(windowStart := tape.now, requests := 0)
    case CountRequest(fail) =>
      Records(tape, fail) && b.state.Closed? && c == RotateWindow(cfg, b, tape.now)
    case CountFailure(requests) =>
      && Records(tape, true) && b.state.Closed? && requests == c.requests
      && c == CountSuccess(RotateWindow(cfg, b, tape.now))
    case Judge(requests, failures) =>
      && Records(tape, true) && b.state.Closed? && requests == c.requests && failures == c.failures
      && c == Counted(RotateWindow(cfg, b, tape.now))
    case OpenStore => Records(tape, true) && Tripping(cfg, b, tape.now) && c == ToOpen(cfg, b, tape.now)
    case OpenClock =>
      && Records(tape, true) && Tripping(cfg, b, tape.now)
      && c == ToOpen(cfg, b, tape.now).(state := Open)
    case OpenStamp(stamp) =>
      && Records(tape, true) && Tripping(cfg, b, tape.now) && stamp == tape.stamp
      && c == ToOpen(cfg, b, tape.now).(state := Open)
  }

  /** With its next step the call under way is still on its way, or it has ended, with the
      effect and the answer of the uninterrupted call. */
  ghost predicate Continues(cfg: Config, b: Cells, s: Race, tape: Tape, t: nat) {
    var s', tape' := Apply(cfg, s, Step(t)), Observe(cfg, s, tape, Step(t));
    && tape'.kind == tape.kind
    && (tape'.now == tape.now || tape'.now == s.now) && (tape'.stamp == tape.stamp || tape'.stamp == s.now)
    && t in s'.threads
    && if !Resting(s', t) then tape'.log == tape.log && Midway(cfg, b, tape', s'.cells, s'.threads[t])
       else
         var call := CallOf(tape'.kind, tape'.now, tape'.stamp);
         && tape'.log == tape.log + [CallBy(t, call)]
         && s'.cells == After(cfg, b, call)
         && (s'.threads[t].Returned? <==> call.Allow?)
         && (call.Allow? ==> s'.threads[t].admitted == Admits(cfg, b, call.now))
  }

  /** The stretches of a call: admission, ... */
  predicate Admitting(pc: Pc) {
    pc.AllowLoad? || pc.AllowStamp? || pc.AllowTest? || pc.AllowSwap?
  }

  /** ... loading the state and looking at the window, ... */
  predicate Loading(pc: Pc) {
    pc.RecordLoad? || pc.RotateLoad? || pc.RotateClock?
  }

  /** ... rotating it, ... */
  predicate Rotating(pc: Pc) {
    pc.RotateSwap? || pc.RotateRequests? || pc.RotateFailures?
  }

  /** ... counting, ... */
  predicate Counting(pc: Pc) {
    pc.CountRequest? || pc.CountFailure? || pc.Judge?
  }

  /** ... and opening, or closing and resetting. */
  predicate Storing(pc: Pc) {
    CallSteps(pc) > 0 && !Admitting(pc) && !Loading(pc) && !Rotating(pc) && !Counting(pc)
  }

  lemma AdmittingStep(cfg: Config, b: Cells, s: Race, tape: Tape, t: nat)
    requires t in s.threads && Admitting(s.threads[t]) && Midway(cfg, b, tape, s.cells, s.threads[t])
    ensures Continues(cfg, b, s, tape, t)
  {
  }

  lemma LoadingStep(cfg: Config, b: Cells, s: Race, tape: Tape, t: nat)
    requires t in s.threads && Loading(s.threads[t]) && Midway(cfg, b, tape, s.cells, s.threads[t])
    ensures Continues(cfg, b, s, tape, t)
  {
  }

  lemma RotatingStep(cfg: Config, b: Cells, s: Race, tape: Tape, t: nat)
    requires t in s.threads && Rotating(s.threads[t]) && Midway(cfg, b, tape, s.cells, s.threads[t])
    ensures Continues(cfg, b, s, tape, t)
  {
  }

  lemma CountingStep(cfg: Config, b: Cells, s: Race, tape: Tape, t: nat)
    requires t in s.threads && Counting(s.threads[t]) && Midway(cfg, b, tape, s.cells, s.threads[t])
    ensures Continues(cfg, b, s, tape, t)
  {
  }

  lemma StoringStep(cfg: Config, b: Cells, s: Race, tape: Tape, t: nat)
    requires t in s.threads && Storing(s.threads[t]) && Midway(cfg, b, tape, s.cells, s.threads[t])
    ensures Continues(cfg, b, s, tape, t)
  {
  }

  lemma MidwayStep(cfg: Config, b: Cells, s: Race, tape: Tape, t: nat)
    requires !Resting(s, t) && Midway(cfg, b, tape, s.cells, s.threads[t])
    ensures Continues(cfg, b, s, tape, t)
  {
    if Admitting(s.threads[t]) {
      AdmittingStep(cfg, b, s, tape, t);
    } else if Loading(s.threads[t]) {
      LoadingStep(cfg, b, s, tape, t);
    } else if Rotating(s.threads[t]) {
      RotatingStep(cfg, b, s, tape, t);
    } else if Counting(s.threads[t]) {
      CountingStep(cfg, b, s, tape, t);
    } else {
      StoringStep(cfg, b, s, tape, t);
    }
  }

  /** The rest of a call, run alone while the clock stands still. */
  lemma {:induction false} RunsOut(cfg: Config, b: Cells, s: Race, tape: Tape, t: nat) returns (n: nat)
    requires !Resting(s, t) && Midway(cfg, b, tape, s.cells, s.threads[t])
    requires tape.now == tape.stamp == s.now
    ensures Leaves(Spin(cfg, s, t, n), t, After(cfg, b, CallOf(tape.kind, s.now, s.now)), s.now,
                   if tape.kind.AllowCall? then Returned(Admits(cfg, b, s.now)) else Idle)
    decreases CallSteps(s.threads[t])
  {
    MidwayStep(cfg, b, s, tape, t);
    StepsShrink(cfg, s.cells, s.now, s.threads[t]);
    var s', tape' := Apply(cfg, s, Step(t)), Observe(cfg, s, tape, Step(t));
    if Resting(s', t) {
      n := 1;
      assert Spin(cfg, s, t, 1) == Spin(cfg, s', t, 0) == s';
    } else {
      var k := RunsOut(cfg, b, s', tape', t);
      n := k + 1;
    }
  }

  /** A call that runs without interference has the effect of the atomic call, answers
      as it does, and comes to rest. */
  lemma SoloRefines(cfg: Config, s: Race, t: nat, kind: Kind) returns (n: nat)
    requires Resting(s, t)
    ensures var s' := Spin(cfg, Apply(cfg, s, Start(t, kind)), t, n);
            Leaves(s', t, After(cfg, s.cells, CallOf(kind, s.now, s.now)), s.now,
                   if kind.AllowCall? then Returned(Admits(cfg, s.cells, s.now)) else Idle)
  {
    n := RunsOut(cfg, s.cells, Apply(cfg, s, Start(t, kind)), Tape([], kind, s.now, s.now), t);
  }

  // ---- a re-opening that is probed too early ----

  ghost predicate Reachable(cfg: Config, born: nat, s: Race) {
    exists sched :: Run(cfg, Init(born), sched) == s
  }

  lemma ReachInit(cfg: Config, born: nat)
    ensures Reachable(cfg, born, Init(born))
  {
    assert Run(cfg, Init(born), []) == Init(born);
  }

  lemma ReachStep(cfg: Config, born: nat, s: Race, e: Event)
    requires Reachable(cfg, born, s)
    ensures Reachable(cfg, born, Apply(cfg, s, e))
  {
    var sched :| Run(cfg, Init(born), sched) == s;
    RunSnoc(cfg, Init(born), sched, e);
  }

  lemma {:induction false} ReachSpin(cfg: Config, born: nat, s: Race, t: nat, n: nat)
    requires Reachable(cfg, born, s)
    ensures Reachable(cfg, born, Spin(cfg, s, t, n))
    decreases n
  {
    if n > 0 {
      ReachStep(cfg, born, s, Step(t));
      ReachSpin(cfg, born, Apply(cfg, s, Step(t)), t, n - 1);
    }
  }

  lemma ReachCall(cfg: Config, born: nat, s: Race, t: nat, kind: Kind) returns (s': Race)
    requires Reachable(cfg, born, s) && Resting(s, t)
    ensures Reachable(cfg, born, s')
    ensures s'.cells == After(cfg, s.cells, CallOf(kind, s.now, s.now)) && s'.now == s.now && Resting(s', t)
    ensures SameOthers(s, s', t)
  {
    var n := SoloRefines(cfg, s, t, kind);
    SpinOthers(cfg, Apply(cfg, s, Start(t, kind)), t, n);
    ReachStep(cfg, born, s, Start(t, kind));
    ReachSpin(cfg, born, Apply(cfg, s, Start(t, kind)), t, n);
    s' := Spin(cfg, Apply(cfg, s, Start(t, kind)), t, n);
  }

  /** The cooldown after a re-opening is not guaranteed. A breaker that trips on the
      first failure, fails at time 1, is probed at time 6 and fails the probe: its second
      store of Open leaves the stamp 1 behind, and another probe can win at once. */
  lemma ReopeningSkipsCooldown() returns (cfg: Config, s: Race, t: nat)
    ensures cfg == Config(0.0, 0, 10, 5)
    ensures Reachable(cfg, 1, s) && At(s, t, OpenStore) && s.now == 6
    ensures !CooldownKept(cfg, Apply(cfg, s, Step(t)), s.now)
  {
    cfg, t := Config(0.0, 0, 10, 5), 0;
    ReachInit(cfg, 1);
    var s1 := ReachCall(cfg, 1, Init(1), t, FailureCall);
    ReachStep(cfg, 1, s1, Tick(5));
    var s2 := Apply(cfg, s1, Tick(5));
    var s3 := ReachCall(cfg, 1, s2, t, AllowCall);
    ReachStep(cfg, 1, s3, Start(t, FailureCall));
    var s4 := Apply(cfg, s3, Start(t, FailureCall));
    ReachStep(cfg, 1, s4, Step(t));
    s := Apply(cfg, s4, Step(t));
    assert s1.cells.state == Open && s1.cells.openedAt == 1;
    CooldownExact(cfg, s, t);
  }
}
