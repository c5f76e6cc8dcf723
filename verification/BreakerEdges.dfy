/** Which state changes a race allows beyond the drawn ones, and how many requests a
    half-open breaker lets through. */
module BreakerEdges {
  import opened Breaker
  import opened BreakerRace
  import opened BreakerSolo

  // ---- what takes the breaker out of a state ----

  ghost predicate StaysIn(cfg: Config, s: Race, state: CbState, sched: seq<Event>) {
    forall n :: 0 <= n <= |sched| ==> Run(cfg, s, sched[..n]).cells.state == state
  }

  ghost predicate LeavesAt(cfg: Config, s: Race, e: Event) {
    Apply(cfg, s, e).cells.state != s.cells.state
  }

  /** The next step of thread `t` is a trip test that holds on the counts it obtained. */
  predicate TripsNow(cfg: Config, s: Race, t: nat) {
    t in s.threads && s.threads[t].Judge? && Trips(cfg, s.threads[t].requests, s.threads[t].failures)
  }

  /** The next step of thread `t` is an outcome's load of the state, which is half-open. */
  predicate FindsHalfOpen(s: Race, t: nat) {
    t in s.threads && s.threads[t].RecordLoad? && s.cells.state.HalfOpen?
  }

  /** Thread `t` took event `n` of the schedule and none since. */
  predicate LastStep(sched: seq<Event>, t: nat, n: nat) {
    n < |sched| && sched[n] == Step(t) && forall k :: n < k < |sched| ==> sched[k] != Step(t)
  }

  /** The latest step of thread `t` in this schedule was a trip test that held, ... */
  ghost predicate TrippedSince(cfg: Config, s: Race, sched: seq<Event>, t: nat) {
    exists n: nat :: LastStep(sched, t, n) && TripsNow(cfg, Run(cfg, s, sched[..n]), t)
  }

  /** ... or a load that found the breaker half-open. */
  ghost predicate FoundSince(cfg: Config, s: Race, sched: seq<Event>, t: nat) {
    exists n: nat :: LastStep(sched, t, n) && FindsHalfOpen(Run(cfg, s, sched[..n]), t)
  }

  lemma DecidedLonger(cfg: Config, s: Race, sched: seq<Event>, e: Event, t: nat)
    requires e != Step(t)
    ensures TrippedSince(cfg, s, sched, t) ==> TrippedSince(cfg, s, sched + [e], t)
    ensures FoundSince(cfg, s, sched, t) ==> FoundSince(cfg, s, sched + [e], t)
  {
    if n: nat :| LastStep(sched, t, n) && TripsNow(cfg, Run(cfg, s, sched[..n]), t) {
      assert (sched + [e])[..n] == sched[..n] && LastStep(sched + [e], t, n);
    }
    if n: nat :| LastStep(sched, t, n) && FindsHalfOpen(Run(cfg, s, sched[..n]), t) {
      assert (sched + [e])[..n] == sched[..n] && LastStep(sched + [e], t, n);
    }
  }

  /** The step that brings a thread to a store of the state. */
  lemma DecidesNow(cfg: Config, s: Race, e: Event, t: nat, pc: Pc)
    requires pc.OpenStore? || pc.CloseStore?
    requires !At(s, t, pc) && At(Apply(cfg, s, e), t, pc)
    ensures e == Step(t) && (FindsHalfOpen(s, t) || (pc.OpenStore? && TripsNow(cfg, s, t)))
  {
  }

  /** A thread that has come to a store of the state decided on it on the way: a store of
      Open by its trip test or by finding the breaker half-open, a store of Closed by
      finding it half-open. */
  lemma {:induction false} Decided(cfg: Config, s: Race, sched: seq<Event>, t: nat, pc: Pc)
    requires pc.OpenStore? || pc.CloseStore?
    requires !At(s, t, pc) && At(Run(cfg, s, sched), t, pc)
    ensures FoundSince(cfg, s, sched, t) || (pc.OpenStore? && TrippedSince(cfg, s, sched, t))
    decreases |sched|
  {
    assert sched != [];
    var p, e := sched[..|sched| - 1], sched[|sched| - 1];
    assert sched == p + [e];
    RunSnoc(cfg, s, p, e);
    if At(Run(cfg, s, p), t, pc) {
      Decided(cfg, s, p, t, pc);
      DecidedLonger(cfg, s, p, e, t);
    } else {
      DecidesNow(cfg, Run(cfg, s, p), e, t, pc);
      assert LastStep(sched, t, |p|) && sched[..|p|] == p;
    }
  }

  /** The state at the moment of a decision is one of those the run has gone through. */
  lemma FoundMeans(cfg: Config, s: Race, state: CbState, sched: seq<Event>, t: nat)
    requires StaysIn(cfg, s, state, sched) && FoundSince(cfg, s, sched, t)
    ensures state.HalfOpen?
  {
    var n: nat :| LastStep(sched, t, n) && FindsHalfOpen(Run(cfg, s, sched[..n]), t);
  }

  ghost predicate SomeAt(s: Race, pc: Pc) {
    exists t :: At(s, t, pc)
  }

  /** In every continuation, the breaker first leaves Open by a winning exchange, the
      drawn edge. */
  ghost predicate LeavesOpenAsDrawn(cfg: Config, s: Race) {
    forall sched, e :: StaysIn(cfg, s, Open, sched) && LeavesAt(cfg, Run(cfg, s, sched), e)
                       ==> WinsAt(Run(cfg, s, sched), e)
  }

  /** Exact: from an Open state, the breaker leaves Open as drawn in every continuation if
      and only if no thread is about to store Closed. */
  lemma LeavesOpenExactly(cfg: Config, s: Race)
    requires s.cells.state.Open?
    ensures LeavesOpenAsDrawn(cfg, s) <==> !SomeAt(s, CloseStore)
  {
    assert Run(cfg, s, []) == s && StaysIn(cfg, s, Open, []);
    if t :| At(s, t, CloseStore) {
      assert LeavesAt(cfg, Run(cfg, s, []), Step(t)) && !WinsAt(s, Step(t));
    } else {
      forall sched, e | StaysIn(cfg, s, Open, sched) && LeavesAt(cfg, Run(cfg, s, sched), e)
        ensures WinsAt(Run(cfg, s, sched), e)
      {
        var r := Run(cfg, s, sched);
        assert sched[..|sched|] == sched;
        if At(r, e.t, CloseStore) {
          Decided(cfg, s, sched, e.t, CloseStore);
          FoundMeans(cfg, s, Open, sched, e.t);
        }
      }
    }
  }

  /** In every continuation, the breaker first leaves Closed by the store of a thread whose
      trip test held during that continuation, the drawn edge. */
  ghost predicate LeavesClosedAsDrawn(cfg: Config, s: Race) {
    forall sched, e :: StaysIn(cfg, s, Closed, sched) && LeavesAt(cfg, Run(cfg, s, sched), e)
                       ==> TripStore(cfg, s, sched, e)
  }

  ghost predicate TripStore(cfg: Config, s: Race, sched: seq<Event>, e: Event) {
    OpensAt(Run(cfg, s, sched), e) && TrippedSince(cfg, s, sched, e.t)
  }

  /** Exact: from a Closed state, the breaker leaves Closed as drawn in every continuation
      if and only if no thread is about to store Open. */
  lemma LeavesClosedExactly(cfg: Config, s: Race)
    requires s.cells.state.Closed?
    ensures LeavesClosedAsDrawn(cfg, s) <==> !SomeAt(s, OpenStore)
  {
    assert Run(cfg, s, []) == s && StaysIn(cfg, s, Closed, []);
    if t :| At(s, t, OpenStore) {
      assert LeavesAt(cfg, Run(cfg, s, []), Step(t)) && !TrippedSince(cfg, s, [], t);
    } else {
      forall sched, e | StaysIn(cfg, s, Closed, sched) && LeavesAt(cfg, Run(cfg, s, sched), e)
        ensures TripStore(cfg, s, sched, e)
      {
        assert sched[..|sched|] == sched;
        Decided(cfg, s, sched, e.t, OpenStore);
        if FoundSince(cfg, s, sched, e.t) {
          FoundMeans(cfg, s, Closed, sched, e.t);
        }
      }
    }
  }

  /** In every continuation, the breaker first leaves HalfOpen by a store that was decided
      on during that continuation. */
  ghost predicate LeavesHalfOpenAfresh(cfg: Config, s: Race) {
    forall sched, e :: StaysIn(cfg, s, HalfOpen, sched) && LeavesAt(cfg, Run(cfg, s, sched), e)
                       ==> e.Step? && (FoundSince(cfg, s, sched, e.t) || TrippedSince(cfg, s, sched, e.t))
  }

  /** Exact: from a HalfOpen state, the breaker leaves it afresh in every continuation if
      and only if no thread is about to store Open or Closed. */
  lemma LeavesHalfOpenExactly(cfg: Config, s: Race)
    requires s.cells.state.HalfOpen?
    ensures LeavesHalfOpenAfresh(cfg, s) <==> !SomeAt(s, OpenStore) && !SomeAt(s, CloseStore)
  {
    assert Run(cfg, s, []) == s && StaysIn(cfg, s, HalfOpen, []);
    if t :| At(s, t, OpenStore) || At(s, t, CloseStore) {
      assert LeavesAt(cfg, Run(cfg, s, []), Step(t));
      assert !FoundSince(cfg, s, [], t) && !TrippedSince(cfg, s, [], t);
    } else {
      forall sched, e | StaysIn(cfg, s, HalfOpen, sched) && LeavesAt(cfg, Run(cfg, s, sched), e)
        ensures e.Step? && (FoundSince(cfg, s, sched, e.t) || TrippedSince(cfg, s, sched, e.t))
      {
        assert sched[..|sched|] == sched;
        var r := Run(cfg, s, sched);
        Decided(cfg, s, sched, e.t, r.threads[e.t]);
      }
    }
  }

  /** In every continuation, the breaker first leaves HalfOpen by the store of a thread that
      found it half-open during that continuation, as drawn. */
  ghost predicate LeavesHalfOpenAsDrawn(cfg: Config, s: Race) {
    forall sched, e :: StaysIn(cfg, s, HalfOpen, sched) && LeavesAt(cfg, Run(cfg, s, sched), e)
                       ==> e.Step? && FoundSince(cfg, s, sched, e.t)
  }

  /** A failure recorder that found the breaker Closed and has its trip test still ahead. */
  predicate LateFailure(pc: Pc) {
    || ((pc.RotateLoad? || pc.RotateClock? || pc.RotateSwap? || pc.RotateRequests? || pc.RotateFailures?
         || pc.CountRequest?) && pc.fail)
    || pc.CountFailure? || pc.Judge?
  }

  ghost predicate SomeLateFailure(s: Race) {
    exists t :: t in s.threads && LateFailure(s.threads[t])
  }

  lemma LateStep(cfg: Config, s: Race, e: Event, t: nat)
    requires s.cells.state.HalfOpen? && t in Apply(cfg, s, e).threads
    requires t in s.threads ==> !LateFailure(s.threads[t])
    ensures !LateFailure(Apply(cfg, s, e).threads[t])
  {
  }

  lemma {:induction false} NoNewLateFailure(cfg: Config, s: Race, sched: seq<Event>)
    requires StaysIn(cfg, s, HalfOpen, sched) && !SomeLateFailure(s)
    ensures !SomeLateFailure(Run(cfg, s, sched))
    decreases |sched|
  {
    if sched != [] {
      var p, e := sched[..|sched| - 1], sched[|sched| - 1];
      assert sched == p + [e];
      assert forall n :: 0 <= n <= |p| ==> p[..n] == sched[..n];
      NoNewLateFailure(cfg, s, p);
      RunSnoc(cfg, s, p, e);
      var r := Run(cfg, s, p);
      assert r.cells.state.HalfOpen? by { assert p[..|p|] == p; }
      forall t | t in Apply(cfg, r, e).threads
        ensures !LateFailure(Apply(cfg, r, e).threads[t])
      {
        LateStep(cfg, r, e, t);
      }
    }
  }

  /** Leaving HalfOpen as drawn: certain if no store is pending and no failure recorder is
      late; and impossible to promise if a store is pending or a late recorder's trip test
      holds. */
  lemma LeavesHalfOpenByProbes(cfg: Config, s: Race)
    requires s.cells.state.HalfOpen?
    ensures !SomeAt(s, OpenStore) && !SomeAt(s, CloseStore) && !SomeLateFailure(s) ==> LeavesHalfOpenAsDrawn(cfg, s)
    ensures LeavesHalfOpenAsDrawn(cfg, s) ==>
              !SomeAt(s, OpenStore) && !SomeAt(s, CloseStore) && forall t :: !TripsNow(cfg, s, t)
  {
    LeavesHalfOpenExactly(cfg, s);
    if !SomeAt(s, OpenStore) && !SomeAt(s, CloseStore) && !SomeLateFailure(s) {
      forall sched, e | StaysIn(cfg, s, HalfOpen, sched) && LeavesAt(cfg, Run(cfg, s, sched), e)
        ensures e.Step? && FoundSince(cfg, s, sched, e.t)
      {
        if n: nat :| LastStep(sched, e.t, n) && TripsNow(cfg, Run(cfg, s, sched[..n]), e.t) {
          assert forall k :: 0 <= k <= n ==> sched[..n][..k] == sched[..k];
          NoNewLateFailure(cfg, s, sched[..n]);
        }
      }
    }
    if t :| TripsNow(cfg, s, t) {
      LateTrip(cfg, s, t);
    }
  }

  /** A late recorder whose trip test holds opens the half-open breaker. */
  lemma LateTrip(cfg: Config, s: Race, t: nat)
    requires s.cells.state.HalfOpen? && TripsNow(cfg, s, t)
    ensures !LeavesHalfOpenAsDrawn(cfg, s)
  {
    var sched, s' := [Step(t)], Apply(cfg, s, Step(t));
    assert sched[..0] == [] && sched[..1] == sched && sched[1..] == [];
    assert Run(cfg, s, []) == s && Run(cfg, s, sched) == s';
    assert s'.cells == s.cells && At(s', t, OpenStore);
    assert StaysIn(cfg, s, HalfOpen, sched) && LeavesAt(cfg, s', Step(t));
    assert !FoundSince(cfg, s, sched, t);
  }

  // ---- runs that leave a state otherwise ----

  /** A success that saw the breaker half-open closes it after another caller's failure has
      opened it again. */
  lemma StaleSuccessClosesOpen() returns (cfg: Config, s: Race, t: nat)
    ensures cfg == Config(0.0, 0, 10, 5)
    ensures Reachable(cfg, 1, s) && At(s, t, CloseStore) && s.cells.state.Open?
    ensures s.now == s.cells.openedAt == 6 && forall u :: u != t ==> Resting(s, u)
    ensures Apply(cfg, s, Step(t)).cells.state.Closed?
  {
    cfg, t := Config(0.0, 0, 10, 5), 0;
    ReachInit(cfg, 1);
    var s1 := ReachCall(cfg, 1, Init(1), 1, FailureCall);
    assert s1.cells.state == Open && s1.cells.openedAt == 1;
    forall u | u != 1
      ensures Resting(s1, u)
    {
      OthersRest(Init(1), s1, 1, u);
    }
    ReachStep(cfg, 1, s1, Tick(5));
    s := Apply(cfg, s1, Tick(5));
    assert forall u :: Resting(s, u) <==> Resting(s1, u);
    s := StaleSuccess(cfg, s);
  }

  /** Thread 0 loads a half-open state, then thread 1 reports a failure. */
  lemma StaleSuccess(cfg: Config, s: Race) returns (s': Race)
    requires Reachable(cfg, 1, s) && s.cells.state.Open? && CooledDown(cfg, s.cells.openedAt, s.now)
    requires forall u :: Resting(s, u)
    ensures Reachable(cfg, 1, s') && At(s', 0, CloseStore) && s'.cells.state.Open?
    ensures s'.now == s'.cells.openedAt == s.now && forall u :: u != 0 ==> Resting(s', u)
  {
    var s1 := ReachCall(cfg, 1, s, 1, AllowCall);
    OthersRest(s, s1, 1, 0);
    ReachStep(cfg, 1, s1, Start(0, SuccessCall));
    var s2 := Apply(cfg, s1, Start(0, SuccessCall));
    ReachStep(cfg, 1, s2, Step(0));
    var s3 := Apply(cfg, s2, Step(0));
    assert At(s3, 0, CloseStore) && s3.cells.state.HalfOpen? && Resting(s3, 1);
    s' := ReachCall(cfg, 1, s3, 1, FailureCall);
    OthersRest(s3, s', 1, 0);
    forall u | u != 0
      ensures Resting(s', u)
    {
      if u != 1 {
        OthersRest(s, s1, 1, u);
        assert Resting(s3, u);
        OthersRest(s3, s', 1, u);
      }
    }
  }

  /** A failure that saw the breaker half-open opens it after another caller's success has
      closed it, without a trip test: both counters are zero. */
  lemma StaleFailureOpensClosed() returns (cfg: Config, s: Race, t: nat)
    ensures cfg == Config(1.0, 1, 10, 5)
    ensures Reachable(cfg, 1, s) && At(s, t, OpenStore) && !SomeAt(s, CloseStore)
    ensures s.cells.state.Closed? && s.cells.requests == s.cells.failures == 0
    ensures Apply(cfg, s, Step(t)).cells.state.Open?
  {
    cfg, t := Config(1.0, 1, 10, 5), 0;
    ReachInit(cfg, 1);
    var s1 := ReachCall(cfg, 1, Init(1), 1, FailureCall);
    assert s1.cells.state == Open && s1.cells.openedAt == 1;
    ReachStep(cfg, 1, s1, Tick(5));
    var s2 := Apply(cfg, s1, Tick(5));
    OthersRest(Init(1), s1, 1, 0);
    var s3 := ReachCall(cfg, 1, s2, 1, AllowCall);
    OthersRest(s2, s3, 1, 0);
    ReachStep(cfg, 1, s3, Start(0, FailureCall));
    var s4 := Apply(cfg, s3, Start(0, FailureCall));
    ReachStep(cfg, 1, s4, Step(0));
    var s5 := Apply(cfg, s4, Step(0));
    assert At(s5, 0, OpenStore) && s5.cells.state.HalfOpen? && Resting(s5, 1);
    s := ReachCall(cfg, 1, s5, 1, SuccessCall);
    OthersRest(s5, s, 1, 0);
    forall u
      ensures !At(s, u, CloseStore)
    {
      if u != 0 && u != 1 {
        OthersRest(Init(1), s1, 1, u);
        OthersRest(s2, s3, 1, u);
        OthersRest(s5, s, 1, u);
      }
    }
  }

  // ---- requests admitted while half-open ----

  /** The event tells a caller that its request may go out. */
  predicate AdmitsAt(cfg: Config, s: Race, e: Event) {
    e.Step? && !Resting(s, e.t) && NextPc(cfg, s.cells, s.now, s.threads[e.t]) == Returned(true)
  }

  /** The event is a caller's load of the state. */
  predicate LoadsAt(s: Race, e: Event) {
    e.Step? && At(s, e.t, AllowLoad)
  }

  ghost function Admissions(cfg: Config, s: Race, sched: seq<Event>): nat
    decreases |sched|
  {
    if sched == [] then 0
    else (if AdmitsAt(cfg, s, sched[0]) then 1 else 0) + Admissions(cfg, Apply(cfg, s, sched[0]), sched[1..])
  }

  ghost function Loads(cfg: Config, s: Race, sched: seq<Event>): nat
    decreases |sched|
  {
    if sched == [] then 0
    else (if LoadsAt(s, sched[0]) then 1 else 0) + Loads(cfg, Apply(cfg, s, sched[0]), sched[1..])
  }

  /** Every event happens in the half-open state; the last one may end it. */
  ghost predicate HalfOpenThrough(cfg: Config, s: Race, sched: seq<Event>)
    decreases |sched|
  {
    sched != [] ==> s.cells.state.HalfOpen? && HalfOpenThrough(cfg, Apply(cfg, s, sched[0]), sched[1..])
  }

  lemma {:induction false} HalfOpenAdmitsAll(cfg: Config, s: Race, sched: seq<Event>)
    requires HalfOpenThrough(cfg, s, sched)
    ensures Admissions(cfg, s, sched) == Loads(cfg, s, sched)
    decreases |sched|
  {
    if sched != [] {
      assert AdmitsAt(cfg, s, sched[0]) <==> LoadsAt(s, sched[0]);
      HalfOpenAdmitsAll(cfg, Apply(cfg, s, sched[0]), sched[1..]);
    }
  }

  /** Exact: over a half-open period, from the winning exchange on, the requests admitted
      are the winner's and one for each caller that loads the state; so the winner's is
      the only probe if and only if no caller loads the state before the period ends. */
  lemma OneProbeExactly(cfg: Config, s: Race, e: Event, period: seq<Event>)
    requires WinsAt(s, e) && HalfOpenThrough(cfg, Apply(cfg, s, e), period)
    ensures Admissions(cfg, s, [e] + period) == 1 + Loads(cfg, Apply(cfg, s, e), period)
    ensures Admissions(cfg, s, [e] + period) == 1 <==> Loads(cfg, Apply(cfg, s, e), period) == 0
  {
    assert ([e] + period)[1..] == period;
    HalfOpenAdmitsAll(cfg, Apply(cfg, s, e), period);
  }

  /** Two probes do go out: after the first failure and the timeout, one caller wins the
      exchange and another one finds the breaker half-open. */
  lemma TwoProbes() returns (cfg: Config, s: Race, e: Event, period: seq<Event>)
    ensures cfg == Config(0.0, 0, 10, 5)
    ensures Reachable(cfg, 1, s) && WinsAt(s, e) && HalfOpenThrough(cfg, Apply(cfg, s, e), period)
    ensures Admissions(cfg, s, [e] + period) == 2
  {
    cfg := Config(0.0, 0, 10, 5);
    ReachInit(cfg, 1);
    var s1 := ReachCall(cfg, 1, Init(1), 0, FailureCall);
    assert s1.cells.state == Open && s1.cells.openedAt == 1;
    OthersRest(Init(1), s1, 0, 1);
    ReachStep(cfg, 1, s1, Tick(5));
    s, e, period := ProbeAndCaller(cfg, Apply(cfg, s1, Tick(5)));
    OneProbeExactly(cfg, s, e, period);
  }

  /** Thread 0 wins the exchange while thread 1 is about to load the state. */
  lemma ProbeAndCaller(cfg: Config, s: Race) returns (s': Race, e: Event, period: seq<Event>)
    requires Reachable(cfg, 1, s) && s.cells.state.Open? && CooledDown(cfg, s.cells.openedAt, s.now)
    requires Resting(s, 0) && Resting(s, 1)
    ensures Reachable(cfg, 1, s') && WinsAt(s', e) && HalfOpenThrough(cfg, Apply(cfg, s', e), period)
    ensures Loads(cfg, Apply(cfg, s', e), period) == 1
  {
    ReachStep(cfg, 1, s, Start(0, AllowCall));
    var s1 := Apply(cfg, s, Start(0, AllowCall));
    ReachSpin(cfg, 1, s1, 0, 3);
    SpinOthers(cfg, s1, 0, 3);
    var s2 := Spin(cfg, s1, 0, 3);
    OthersRest(s1, s2, 0, 1);
    assert At(s2, 0, AllowSwap) && s2.cells == s.cells && Resting(s2, 1);
    ReachStep(cfg, 1, s2, Start(1, AllowCall));
    s', e, period := Apply(cfg, s2, Start(1, AllowCall)), Step(0), [Step(1)];
    var s4 := Apply(cfg, s', e);
    assert s4.cells.state.HalfOpen? && LoadsAt(s4, Step(1));
    assert period[1..] == [];
    assert Loads(cfg, Apply(cfg, s4, Step(1)), []) == 0;
  }
}
