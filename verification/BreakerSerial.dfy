/** Contended runs in which no two calls overlap. Such a run is a run of uninterrupted
    calls: whatever the clock does in between, the cells are those the finished calls make,
    with the clock readings they made, and the answers are the ones those cells give. A
    run with an overlap can reach cells that no sequence of calls makes. */
module BreakerSerial {
  import opened Breaker
  import opened BreakerLog
  import opened BreakerRace
  import opened BreakerSolo
  import opened BreakerEdges

  /** A call begins while another one is under way. */
  ghost predicate Overlaps(s: Race, e: Event) {
    e.Start? && Resting(s, e.t) && exists u :: !Resting(s, u)
  }

  ghost predicate Serial(cfg: Config, born: nat, sched: seq<Event>) {
    forall n :: 0 <= n < |sched| ==> !Overlaps(Run(cfg, Init(born), sched[..n]), sched[n])
  }

  ghost predicate AtRest(s: Race) {
    forall t :: Resting(s, t)
  }

  // ---- the log of a run ----

  function Calls(log: seq<CallBy>): seq<Call> {
    seq(|log|, i requires 0 <= i < |log| => log[i].call)
  }

  ghost function TapeOf(cfg: Config, born: nat, sched: seq<Event>): Tape {
    if sched == [] then Tape([], AllowCall, born, born)
    else
      var past := sched[..|sched| - 1];
      Observe(cfg, Run(cfg, Init(born), past), TapeOf(cfg, born, past), sched[|sched| - 1])
  }

  /** The finished calls of a run, and the cells they make one after the other. */
  ghost function LogOf(cfg: Config, born: nat, sched: seq<Event>): seq<CallBy> {
    TapeOf(cfg, born, sched).log
  }

  ghost function Made(cfg: Config, born: nat, sched: seq<Event>): Cells {
    Replay(cfg, born, Calls(LogOf(cfg, born, sched)))
  }

  ghost predicate OneAtATime(s: Race) {
    forall t, u :: !Resting(s, t) && !Resting(s, u) ==> t == u
  }

  /** The finished calls make the cells, up to the call under way. */
  ghost predicate SerialInv(cfg: Config, b: Cells, s: Race, tape: Tape) {
    && OneAtATime(s)
    && (AtRest(s) ==> s.cells == b)
    && (forall t :: !Resting(s, t) ==> Midway(cfg, b, tape, s.cells, s.threads[t]))
  }

  lemma CallsSnoc(log: seq<CallBy>, c: CallBy)
    ensures Calls(log + [c]) == Calls(log) + [c.call]
  {
  }

  lemma SerialStep(cfg: Config, born: nat, s: Race, tape: Tape, e: Event)
    requires SerialInv(cfg, Replay(cfg, born, Calls(tape.log)), s, tape) && !Overlaps(s, e)
    ensures var tape' := Observe(cfg, s, tape, e);
            SerialInv(cfg, Replay(cfg, born, Calls(tape'.log)), Apply(cfg, s, e), tape')
  {
    var b := Replay(cfg, born, Calls(tape.log));
    var s', tape' := Apply(cfg, s, e), Observe(cfg, s, tape, e);
    match e
    case Tick(_) =>
      assert forall u :: Resting(s', u) <==> Resting(s, u);
    case Start(t, kind) =>
      if Resting(s, t) {
        assert AtRest(s);
        assert forall u :: u != t ==> (Resting(s', u) <==> Resting(s, u));
      }
    case Step(t) =>
      if !Resting(s, t) {
        MidwayStep(cfg, b, s, tape, t);
        assert forall u :: u != t ==> Resting(s, u) && Resting(s', u);
        if Resting(s', t) {
          var call := CallOf(tape'.kind, tape'.now, tape'.stamp);
          CallsSnoc(tape.log, CallBy(t, call));
          ReplayMore(cfg, born, Calls(tape.log), call);
        }
      } else {
        assert forall u :: Resting(s', u) <==> Resting(s, u);
      }
  }

  lemma {:induction false} SerialRun(cfg: Config, born: nat, sched: seq<Event>)
    requires Serial(cfg, born, sched)
    ensures SerialInv(cfg, Made(cfg, born, sched), Run(cfg, Init(born), sched), TapeOf(cfg, born, sched))
    decreases |sched|
  {
    if sched != [] {
      var n := |sched| - 1;
      var past, e := sched[..n], sched[n];
      assert forall k :: 0 <= k < n ==> past[..k] == sched[..k];
      SerialRun(cfg, born, past);
      SerialStep(cfg, born, Run(cfg, Init(born), past), TapeOf(cfg, born, past), e);
      assert sched == past + [e];
      RunSnoc(cfg, Init(born), past, e);
    }
  }

  /** In every run without overlapping calls, whenever no call is under way, the cells are
      the replay of the finished calls in the order in which they ended, and so agree with
      the reference breaker of that log. */
  lemma SerialRefines(cfg: Config, born: nat, sched: seq<Event>)
    requires Serial(cfg, born, sched) && AtRest(Run(cfg, Init(born), sched))
    ensures var s, h := Run(cfg, Init(born), sched), Calls(LogOf(cfg, born, sched));
            && s.cells == Replay(cfg, born, h)
            && (NoWrap(cfg, born, h) ==> Agree(s.cells, Reference(cfg, born, h)))
  {
    SerialRun(cfg, born, sched);
    var h := Calls(LogOf(cfg, born, sched));
    if NoWrap(cfg, born, h) {
      RefinesLog(cfg, born, h);
    }
  }

  // ---- answers ----

  /** The next step of thread `t` answers its caller, and on what ground: an admitted
      caller loads a state other than Open or wins the exchange, a refused one finds the
      stamp too young or loses the exchange. */
  predicate Answers(cfg: Config, s: Race, t: nat, admitted: bool) {
    t in s.threads &&
    match s.threads[t]
    case AllowLoad => admitted && !s.cells.state.Open?
    case AllowTest(stamp) => !admitted && !CooledDown(cfg, stamp, s.now)
    case AllowSwap => admitted == s.cells.state.Open?
    case _ => false
  }

  /** Event `n` of the run is the step with which thread `t` learns its answer. */
  ghost predicate AnsweredAt(cfg: Config, born: nat, sched: seq<Event>, n: nat, t: nat, admitted: bool) {
    n < |sched| && sched[n] == Step(t) && Answers(cfg, Run(cfg, Init(born), sched[..n]), t, admitted)
  }

  /** In a run without overlapping calls, the answer is the one that the calls finished
      before give: those calls are a prefix of the log, and the admission comes next. */
  lemma SerialAnswer(cfg: Config, born: nat, sched: seq<Event>, n: nat, t: nat, admitted: bool)
    returns (now: nat)
    requires Serial(cfg, born, sched) && AnsweredAt(cfg, born, sched, n, t, admitted)
    ensures LogOf(cfg, born, sched[..n + 1]) == LogOf(cfg, born, sched[..n]) + [CallBy(t, Allow(now))]
    ensures admitted == Admits(cfg, Made(cfg, born, sched[..n]), now)
  {
    var past := sched[..n];
    assert forall k :: 0 <= k < n ==> past[..k] == sched[..k];
    SerialRun(cfg, born, past);
    var s, tape := Run(cfg, Init(born), past), TapeOf(cfg, born, past);
    MidwayStep(cfg, Made(cfg, born, past), s, tape, t);
    assert sched[..n + 1][..n] == past && sched[..n + 1][n] == Step(t);
    now := Observe(cfg, s, tape, Step(t)).now;
  }

  /** A log only grows. */
  lemma {:induction false} LogGrows(cfg: Config, born: nat, sched: seq<Event>, n: nat)
    requires n <= |sched|
    ensures LogOf(cfg, born, sched[..n]) <= LogOf(cfg, born, sched)
    decreases |sched|
  {
    if n == |sched| {
      assert sched[..n] == sched;
    } else {
      var past := sched[..|sched| - 1];
      assert past[..n] == sched[..n];
      LogGrows(cfg, born, past, n);
    }
  }

  // ---- a run with an overlap ----

  predicate Until(h: seq<Call>, now: nat) {
    forall i :: 0 <= i < |h| ==> h[i].now <= now && (h[i].Failure? ==> h[i].stamp <= now)
  }

  /** Uninterrupted calls leave Open only after the cooldown. */
  lemma {:induction false} CooledBefore(cfg: Config, born: nat, h: seq<Call>, now: nat)
    requires Until(h, now)
    ensures var b := Replay(cfg, born, h);
            && b.openedAt <= now
            && (!b.state.Open? && b.openedAt > 0 ==> b.openedAt + cfg.halfOpenMs <= now)
  {
    if h != [] {
      CooledBefore(cfg, born, h[..|h| - 1], now);
    }
  }

  /** Overlap matters: a late success closes a breaker that a failure has just opened
      again, and when both calls have ended the cells are such as no calls made by then
      leave, whatever their number, order and clock readings. */
  lemma RaceBeyondAnyLog() returns (cfg: Config, s: Race)
    ensures cfg == Config(0.0, 0, 10, 5)
    ensures Reachable(cfg, 1, s) && AtRest(s) && s.now == 6
    ensures forall h :: Until(h, s.now) ==> Replay(cfg, 1, h) != s.cells
  {
    var s1, t;
    cfg, s1, t := StaleSuccessClosesOpen();
    s := Spin(cfg, s1, t, 5);
    ReachSpin(cfg, 1, s1, t, 5);
    SpinOthers(cfg, s1, t, 5);
    var s2 := Apply(cfg, s1, Step(t));
    SoloReset(cfg, s2, t);
    assert s == Spin(cfg, s2, t, 4);
    forall u
      ensures Resting(s, u)
    {
      if u != t {
        OthersRest(s1, s, t, u);
      }
    }
    forall h | Until(h, s.now)
      ensures Replay(cfg, 1, h) != s.cells
    {
      CooledBefore(cfg, 1, h, s.now);
    }
  }
}
