/** The breakers inside the client. Each policy's breaker is a contended breaker whose
    threads are that policy's sends, so everything proved about contended breakers holds of
    it; each executed send gives it exactly one outcome; and when no two calls on it
    overlap, it is the breaker its own call log makes. */
module ClientBreakers {
  import opened Breaker
  import opened BreakerLog
  import opened BreakerSerial
  import BreakerCooldown
  import BreakerWindow
  import opened Outcome
  import opened Tally
  import opened Client
  import opened ClientAccounting
  import opened ClientIsolation

  // ---- each breaker is a contended breaker ----

  /** The breaker is the run of its journal from its construction, and reads the client's
      clock. */
  ghost predicate GuardInv(targets: Targets, b: Table, pid: PolicyId, since: nat) {
    since <= b.now &&
    (pid in b.breakers ==>
       var g := b.breakers[pid];
       && since <= g.born && g.race.now == b.now
       && g.race == Race.Run(ConfigOf(targets, pid), Race.Init(g.born), g.journal))
  }

  lemma GuardTouched(cfg: Config, g: Guard, e: Race.Event)
    requires g.race == Race.Run(cfg, Race.Init(g.born), g.journal)
    ensures var g' := Touch(cfg, g, e);
            && g'.born == g.born && g'.race.now == g.race.now + (if e.Tick? then e.ms else 0)
            && g'.race == Race.Run(cfg, Race.Init(g'.born), g'.journal)
  {
    Race.RunSnoc(cfg, Race.Init(g.born), g.journal, e);
  }

  lemma GuardSend(targets: Targets, b: Table, t: nat, m: Send, pid: PolicyId, since: nat)
    requires GuardInv(targets, b, pid, since)
    ensures GuardInv(targets, NextTable(targets, b, t, m), pid, since)
  {
    if pid in b.breakers && Touches(t, m) != [] {
      var e := Touches(t, m)[0];
      assert !e.Tick?;
      GuardTouched(ConfigOf(targets, pid), b.breakers[pid], e);
    }
  }

  lemma GuardStep(targets: Targets, s: State, e: Event, pid: PolicyId, since: nat)
    requires GuardInv(targets, s.table, pid, since)
    ensures GuardInv(targets, Apply(targets, s, e).table, pid, since)
  {
    if e.Tick? {
      if pid in s.table.breakers {
        GuardTouched(ConfigOf(targets, pid), s.table.breakers[pid], Race.Tick(e.ms));
      }
    } else if e.Step? && e.t in s.sends {
      GuardSend(targets, s.table, e.t, s.sends[e.t], pid, since);
    }
  }

  /** The send is inside a call on the breaker of `pid`. */
  predicate InsideCall(s: State, pid: PolicyId, t: nat) {
    t in s.sends && Calling(s.sends[t].pc) && s.sends[t].pid == pid
  }

  /** Send and breaker agree on where the send's call stands. */
  predicate Linked(s: State, pid: PolicyId, t: nat) {
    pid in s.table.breakers ==>
      var r := s.table.breakers[pid].race;
      if InsideCall(s, pid, t) then Race.At(r, t, s.sends[t].pc.at) && Race.CallSteps(s.sends[t].pc.at) > 0
      else Race.Resting(r, t)
  }

  /** An event on a breaker moves no thread but the one it names. */
  lemma OthersKeep(cfg: Config, r: Race.Race, e: Race.Event, t: nat)
    requires e.Tick? || e.t != t
    ensures var r' := Race.Apply(cfg, r, e);
            (t in r'.threads <==> t in r.threads) && (t in r.threads ==> r'.threads[t] == r.threads[t])
  {
  }

  /** The table after a step of send `u`: what becomes of the breaker of `pid`. */
  lemma TableAfter(targets: Targets, s: State, u: nat, m: Send, pid: PolicyId)
    requires PolicyInv(s) && InsertsOnce(s) && u in s.sends && s.sends[u] == m
    ensures var b, b' := s.table, NextTable(targets, s.table, u, m);
            && (pid in b.breakers ==>
                  && pid in b'.breakers
                  && b'.breakers[pid] == if pid == m.pid && Touches(u, m) != []
                                         then Touch(ConfigOf(targets, pid), b.breakers[pid], Touches(u, m)[0])
                                         else b.breakers[pid])
            && (pid !in b.breakers && pid in b'.breakers ==>
                  b'.breakers[pid] == NewGuard(b.now) && Inserting(m.pc) && pid == Fallback(u))
  {
    assert Inserting(m.pc) && m.key !in s.table.policies ==> Fallback(u) !in s.table.breakers;
  }

  /** A position inside `allow_request`. */
  predicate OfAllow(pc: Race.Pc) {
    pc.AllowLoad? || pc.AllowStamp? || pc.AllowTest? || pc.AllowSwap? || pc.Returned?
  }

  predicate RightCall(m: Send) {
    m.pc.Recording? <==> Calling(m.pc) && !OfAllow(m.pc.at)
  }

  /** The step of a send inside its call, or at the start of one, on its own breaker. */
  lemma OwnLink(cfg: Config, s: State, r: Race.Race, t: nat, m: Send)
    requires Touches(t, m) != []
    requires if Calling(m.pc) then Race.At(r, t, m.pc.at) && Race.CallSteps(m.pc.at) > 0 else Race.Resting(r, t)
    requires RightCall(m)
    ensures var r' := Race.Apply(cfg, r, Touches(t, m)[0]);
            var at := if Calling(m.pc) then Race.NextPc(cfg, r.cells, r.now, m.pc.at) else Race.Idle;
            var m' := NextSend(s, t, m, at);
            && (if Calling(m'.pc) then Race.At(r', t, m'.pc.at) && Race.CallSteps(m'.pc.at) > 0 else Race.Resting(r', t))
            && RightCall(m')
  {
  }

  ghost predicate LinkInv(targets: Targets, s: State, since: nat) {
    && PolicyInv(s) && InsertsOnce(s)
    && (forall t :: t in s.sends ==> RightCall(s.sends[t]))
    && (forall pid :: GuardInv(targets, s.table, pid, since))
    && (forall pid, t :: Linked(s, pid, t))
  }

  /** A step of send `u`, for the breaker it touches, ... */
  lemma LinkOwn(targets: Targets, s: State, u: nat, pid: PolicyId, t: nat)
    requires PolicyInv(s) && InsertsOnce(s) && u in s.sends && RightCall(s.sends[u])
    requires Linked(s, pid, t) && pid in s.table.breakers
    requires Touches(u, s.sends[u]) != [] && pid == s.sends[u].pid
    ensures Linked(StepSend(targets, s, u, s.sends[u]), pid, t)
  {
    var m := s.sends[u];
    TableAfter(targets, s, u, m, pid);
    if t == u {
      OwnLink(ConfigOf(targets, pid), s, s.table.breakers[pid].race, u, m);
    } else {
      OthersKeep(ConfigOf(targets, pid), s.table.breakers[pid].race, Touches(u, m)[0], t);
    }
  }

  /** ... and for any other. */
  lemma LinkSame(targets: Targets, s: State, u: nat, pid: PolicyId, t: nat)
    requires PolicyInv(s) && InsertsOnce(s) && u in s.sends && Linked(s, pid, t)
    requires Touches(u, s.sends[u]) == [] || pid != s.sends[u].pid
    ensures Linked(StepSend(targets, s, u, s.sends[u]), pid, t)
  {
    var m := s.sends[u];
    TableAfter(targets, s, u, m, pid);
  }

  lemma LinkStep(targets: Targets, s: State, e: Event, since: nat)
    requires LinkInv(targets, s, since)
    ensures LinkInv(targets, Apply(targets, s, e), since)
  {
    var s' := Apply(targets, s, e);
    PolicyStep(targets, s, e);
    InsertsOnceStep(targets, s, e);
    forall pid
      ensures GuardInv(targets, s'.table, pid, since)
    {
      GuardStep(targets, s, e, pid, since);
    }
    forall pid, t
      ensures Linked(s', pid, t)
    {
      assert Linked(s, pid, t);
      if !(e.Step? && e.t in s.sends) {
      } else if Touches(e.t, s.sends[e.t]) == [] || pid != s.sends[e.t].pid {
        LinkSame(targets, s, e.t, pid, t);
      } else {
        LinkOwn(targets, s, e.t, pid, t);
      }
    }
    RightStep(targets, s, e);
  }

  lemma RightStep(targets: Targets, s: State, e: Event)
    requires PolicyInv(s) && (forall t :: t in s.sends ==> RightCall(s.sends[t]))
    requires forall pid, t :: Linked(s, pid, t)
    ensures forall t :: t in Apply(targets, s, e).sends ==> RightCall(Apply(targets, s, e).sends[t])
  {
    if e.Step? && e.t in s.sends {
      var m := s.sends[e.t];
      assert Linked(s, m.pid, e.t);
      if Touches(e.t, m) != [] {
        OwnLink(ConfigOf(targets, m.pid), s, s.table.breakers[m.pid].race, e.t, m);
      }
    }
  }

  lemma {:induction false} LinkRun(targets: Targets, s: State, sched: seq<Event>, since: nat)
    requires LinkInv(targets, s, since)
    ensures LinkInv(targets, Run(targets, s, sched), since)
    decreases |sched|
  {
    if sched != [] {
      LinkStep(targets, s, sched[0], since);
      LinkRun(targets, Apply(targets, s, sched[0]), sched[1..], since);
    }
  }

  /** In every run of the client, each policy's breaker is a run of the contended breaker
      of its settings, on the client's clock, and its threads are that policy's sends: a
      thread is inside a call exactly when that send is, at the same position. */
  lemma BreakersRace(targets: Targets, now: nat, sched: seq<Event>, pid: PolicyId)
    requires pid in Run(targets, Init(targets, now), sched).table.breakers
    ensures var s := Run(targets, Init(targets, now), sched);
            var g := s.table.breakers[pid];
            && now <= g.born && g.race.now == s.table.now
            && g.race == Race.Run(ConfigOf(targets, pid), Race.Init(g.born), g.journal)
            && forall t :: Linked(s, pid, t)
  {
    LinkRun(targets, Init(targets, now), sched, now);
    var s := Run(targets, Init(targets, now), sched);
    assert GuardInv(targets, s.table, pid, now);
  }

  /** What is proved of contended breakers holds of every breaker of the client in every
      run: it is never wedged open, its window rotates at most once per window length, and
      its failure counter runs ahead of its request counter at most by the skew bound. */
  lemma BreakersKeepTheirBounds(targets: Targets, now: nat, sched: seq<Event>, pid: PolicyId)
    requires now > 0 && pid in Run(targets, Init(targets, now), sched).table.breakers
    ensures var r := Run(targets, Init(targets, now), sched).table.breakers[pid].race;
            && BreakerCooldown.NotWedged(r)
            && BreakerWindow.RotationRate(ConfigOf(targets, pid), r)
            && (!BreakerWindow.ClearInProgress(r) && !r.hist.wrapped ==>
                  r.cells.failures + Total(r.threads, Race.Between) <= r.cells.requests + r.hist.stale)
  {
    BreakersRace(targets, now, sched, pid);
    var cfg, g := ConfigOf(targets, pid), Run(targets, Init(targets, now), sched).table.breakers[pid];
    BreakerCooldown.NeverWedged(cfg, Race.Init(g.born), g.journal);
    BreakerWindow.RotationsAreSpaced(cfg, g.born, g.journal);
    BreakerWindow.SkewBound(cfg, g.born, g.journal);
  }

  // ---- calls that do not overlap ----

  /** If no two calls on a policy's breaker overlap, then whenever no send is inside one,
      the breaker is the replay of the calls made on that policy, whatever happened on
      other policies in between, and agrees with the reference breaker of that log. */
  lemma BreakerIsItsOwnLog(targets: Targets, now: nat, sched: seq<Event>, pid: PolicyId)
    requires var s := Run(targets, Init(targets, now), sched);
             && pid in s.table.breakers
             && Serial(ConfigOf(targets, pid), s.table.breakers[pid].born, s.table.breakers[pid].journal)
             && forall t :: !InsideCall(s, pid, t)
    ensures var cfg, g := ConfigOf(targets, pid), Run(targets, Init(targets, now), sched).table.breakers[pid];
            var h := Calls(LogOf(cfg, g.born, g.journal));
            && g.race.cells == Replay(cfg, g.born, h)
            && (NoWrap(cfg, g.born, h) ==> Agree(g.race.cells, Reference(cfg, g.born, h)))
  {
    BreakersRace(targets, now, sched, pid);
    var cfg, g := ConfigOf(targets, pid), Run(targets, Init(targets, now), sched).table.breakers[pid];
    forall t
      ensures Race.Resting(g.race, t)
    {
      assert Linked(Run(targets, Init(targets, now), sched), pid, t);
    }
    SerialRefines(cfg, g.born, g.journal);
  }

  // ---- the settings of a fallback policy ----

  /** What the default settings mean for a name without configuration: its breaker trips from
      ten outcomes on when at least half of them failed, so ten failures in a row open it and
      nine do not; a window is over after ten seconds; and an opened breaker may be probed
      thirty seconds after its stamp. */
  lemma FallbackBreaker(born: nat, calls: seq<Call>, requests: nat, failures: nat, stamp: nat, now: nat)
    requires FailuresInWindow(DEFAULTS, Fresh(born), calls) && |calls| < U32_LIMIT
    ensures Trips(DEFAULTS, requests, failures) <==> requests >= 10 && 2 * failures >= requests
    ensures AfterAll(DEFAULTS, Fresh(born), calls).state.Open? <==> |calls| >= 10
    ensures RotationDue(DEFAULTS, stamp, now) <==> now >= stamp + 10_000
    ensures CooledDown(DEFAULTS, stamp, now) <==> stamp > 0 && now >= stamp + 30_000
  {
    if requests > 0 {
      RatioTest(requests, failures, 0.5);
    }
    if calls != [] {
      TripTest(DEFAULTS, 0, 0, |calls|);
      RatioTest(|calls|, |calls|, 0.5);
    }
    OpensExactlyAt(DEFAULTS, Fresh(born), calls);
  }

  // ---- one outcome per executed send ----

  /** The outcome calls that thread `t` began, and the failures among them. */
  function Given(journal: seq<Race.Event>, t: nat): nat {
    if journal == [] then 0
    else
      var e := journal[|journal| - 1];
      Given(journal[..|journal| - 1], t) + if e.Start? && e.t == t && !e.kind.AllowCall? then 1 else 0
  }

  function FailuresGiven(journal: seq<Race.Event>, t: nat): nat {
    if journal == [] then 0
    else
      var e := journal[|journal| - 1];
      FailuresGiven(journal[..|journal| - 1], t) + if e == Race.Start(t, Race.FailureCall) then 1 else 0
  }

  lemma {:induction false} GivenMore(journal: seq<Race.Event>, e: Race.Event, t: nat)
    ensures Given(journal + [e], t) == Given(journal, t) + if e.Start? && e.t == t && !e.kind.AllowCall? then 1 else 0
    ensures FailuresGiven(journal + [e], t) == FailuresGiven(journal, t) + if e == Race.Start(t, Race.FailureCall) then 1 else 0
  {
    assert (journal + [e])[..|journal|] == journal;
  }

  /** The send has begun to tell its breaker the outcome. */
  predicate Told(pc: Pc) {
    pc.Recording? || pc.Count? || pc.Leave? || Left(pc)
  }

  /** Send `t` has given the breaker of `pid` its outcome, exactly if it should have. */
  predicate GaveOne(s: State, pid: PolicyId, t: nat) {
    pid in s.table.breakers ==>
      var journal := s.table.breakers[pid].journal;
      if t in s.sends && s.sends[t].pid == pid && Told(s.sends[t].pc)
      then && Given(journal, t) == 1
           && FailuresGiven(journal, t) == if Classify(s.sends[t].outcome).failure then 1 else 0
      else Given(journal, t) == 0 && FailuresGiven(journal, t) == 0
  }

  lemma ToldMove(s: State, t: nat, m: Send, at: Race.Pc)
    ensures var m' := NextSend(s, t, m, at);
            && (Told(m'.pc) <==> Told(m.pc) || m.pc.Record?)
            && (Told(m'.pc) ==> m'.pid == m.pid && m'.outcome == m.outcome && PolicyHeld(m.pc))
            && !(Told(m.pc) && m.pc.Record?)
  {
  }

  /** A step of send `u`, for the breaker of a policy it does not touch, ... */
  lemma GaveSame(targets: Targets, s: State, u: nat, pid: PolicyId, t: nat)
    requires PolicyInv(s) && InsertsOnce(s) && u in s.sends && GaveOne(s, pid, t)
    requires Touches(u, s.sends[u]) == [] || pid != s.sends[u].pid
    ensures GaveOne(StepSend(targets, s, u, s.sends[u]), pid, t)
  {
    var m := s.sends[u];
    TableAfter(targets, s, u, m, pid);
    ToldMove(s, u, m, Onward(targets, s.table, m));
  }

  /** ... and for the one it touches. */
  lemma GaveOwn(targets: Targets, s: State, u: nat, pid: PolicyId, t: nat)
    requires PolicyInv(s) && InsertsOnce(s) && u in s.sends && GaveOne(s, pid, t)
    requires Touches(u, s.sends[u]) != [] && pid == s.sends[u].pid && pid in s.table.breakers
    ensures GaveOne(StepSend(targets, s, u, s.sends[u]), pid, t)
  {
    var m := s.sends[u];
    TableAfter(targets, s, u, m, pid);
    ToldMove(s, u, m, Onward(targets, s.table, m));
    GivenMore(s.table.breakers[pid].journal, Touches(u, m)[0], t);
  }

  lemma GaveOther(targets: Targets, s: State, e: Event, pid: PolicyId, t: nat)
    requires GaveOne(s, pid, t) && !(e.Step? && e.t in s.sends)
    ensures GaveOne(Apply(targets, s, e), pid, t)
  {
    if e.Tick? && pid in s.table.breakers {
      GivenMore(s.table.breakers[pid].journal, Race.Tick(e.ms), t);
    }
  }

  lemma GaveStep(targets: Targets, s: State, e: Event, pid: PolicyId, t: nat)
    requires PolicyInv(s) && InsertsOnce(s) && GaveOne(s, pid, t)
    ensures GaveOne(Apply(targets, s, e), pid, t)
  {
    if !(e.Step? && e.t in s.sends) {
      GaveOther(targets, s, e, pid, t);
    } else if Touches(e.t, s.sends[e.t]) == [] || pid != s.sends[e.t].pid {
      GaveSame(targets, s, e.t, pid, t);
    } else {
      GaveOwn(targets, s, e.t, pid, t);
    }
  }

  lemma {:induction false} GaveRun(targets: Targets, s: State, sched: seq<Event>)
    requires PolicyInv(s) && InsertsOnce(s) && forall pid, t :: GaveOne(s, pid, t)
    ensures forall pid, t :: GaveOne(Run(targets, s, sched), pid, t)
    decreases |sched|
  {
    if sched != [] {
      var e := sched[0];
      PolicyStep(targets, s, e);
      InsertsOnceStep(targets, s, e);
      forall pid, t
        ensures GaveOne(Apply(targets, s, e), pid, t)
      {
        assert GaveOne(s, pid, t);
        GaveStep(targets, s, e, pid, t);
      }
      GaveRun(targets, Apply(targets, s, e), sched[1..]);
    }
  }

  /** In every run, a finished send made exactly one outcome call on its own policy's
      breaker and ran it to its end, a failure exactly when the caller was handed a
      transient error, and none on any other; a send that was rejected, refused or dropped
      made none at all. */
  lemma OneOutcomePerSend(targets: Targets, now: nat, sched: seq<Event>, t: nat)
    requires t in Run(targets, Init(targets, now), sched).sends
    ensures var s := Run(targets, Init(targets, now), sched);
            var m, b := s.sends[t], s.table.breakers;
            && (m.pc.Finished? ==>
                  && m.pid in b && Race.Resting(b[m.pid].race, t)
                  && Given(b[m.pid].journal, t) == 1
                  && (FailuresGiven(b[m.pid].journal, t) == 1 <==> Result(m) == Transient)
                  && forall pid :: pid in b && pid != m.pid ==> Given(b[pid].journal, t) == 0)
            && (m.pc.Rejected? || m.pc.Refused? || m.pc.Dropped? ==>
                  Result(m) == Transient && forall pid :: pid in b ==> Given(b[pid].journal, t) == 0)
  {
    var s := Run(targets, Init(targets, now), sched);
    GaveRun(targets, Init(targets, now), sched);
    LinkRun(targets, Init(targets, now), sched, now);
    OutcomesGiven(s, t);
    if s.sends[t].pc.Finished? {
      assert Linked(s, s.sends[t].pid, t);
    }
  }

  lemma OutcomesGiven(s: State, t: nat)
    requires t in s.sends && forall pid :: GaveOne(s, pid, t)
    ensures var m, b := s.sends[t], s.table.breakers;
            && (Told(m.pc) && m.pid in b ==>
                  && Given(b[m.pid].journal, t) == 1
                  && FailuresGiven(b[m.pid].journal, t) == if Classify(m.outcome).failure then 1 else 0)
            && forall pid :: pid in b && (pid != m.pid || !Told(m.pc)) ==> Given(b[pid].journal, t) == 0
  {
    assert GaveOne(s, s.sends[t].pid, t);
    forall pid | pid in s.table.breakers && (pid != s.sends[t].pid || !Told(s.sends[t].pc))
      ensures Given(s.table.breakers[pid].journal, t) == 0
    {
      assert GaveOne(s, pid, t);
    }
  }
}
