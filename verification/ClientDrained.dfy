/** When an Ok from `shutdown` means that nothing is in flight and nothing will be. A send
    that passed the flag load before the flag was raised may enter after the Ok, so it
    takes more than the meaning of Ok for the sends counted by then. */
module ClientDrained {
  import opened Outcome
  import opened Client
  import opened ClientAccounting
  import opened ClientSolo
  import opened ClientShutdown

  /** Past the flag load and not yet counted. */
  predicate Coming(pc: Pc) {
    pc.Lookup? || pc.Insert? || pc.Admit? || pc.Asking? || pc.Limit? || pc.Enter?
  }

  /** Past the breaker, with at most the limiter still in the way. */
  predicate Imminent(pc: Pc) {
    pc.Limit? || pc.Enter?
  }

  ghost predicate NoneComing(s: State) {
    forall t :: t in s.sends ==> !Coming(s.sends[t].pc)
  }

  ghost predicate NoneImminent(s: State) {
    forall t :: t in s.sends ==> !Imminent(s.sends[t].pc)
  }

  /** Nothing is in flight, now and in every continuation. */
  ghost predicate IdleForGood(targets: Targets, s: State) {
    forall sched :: Run(targets, s, sched).inFlight == 0
  }

  // ---- after the flag ----

  /** Once the flag is up, nobody new is coming; with nobody coming, the counter does not
      rise again. */
  lemma ComingStep(targets: Targets, s: State, e: Event)
    requires CountersInv(s) && s.flag && NoneComing(s)
    ensures var s' := Apply(targets, s, e);
            && CountersInv(s') && s'.flag && NoneComing(s')
            && s'.inFlight <= s.inFlight && s'.inFlight >= 0
  {
    CountersStep(targets, s, e);
    if e.Step? && e.t in s.sends {
      MoveOn(s, e.t, s.sends[e.t], Onward(targets, s.table, s.sends[e.t]));
    }
  }

  lemma MoveOn(s: State, t: nat, m: Send, at: Race.Pc)
    requires s.flag && !Coming(m.pc)
    ensures !Coming(NextSend(s, t, m, at).pc) && NextInFlight(s.inFlight, m) <= s.inFlight
  {
  }

  lemma {:induction false} IdleRun(targets: Targets, s: State, sched: seq<Event>)
    requires CountersInv(s) && s.flag && NoneComing(s) && s.inFlight == 0
    ensures Run(targets, s, sched).inFlight == 0
    decreases |sched|
  {
    if sched != [] {
      ComingStep(targets, s, sched[0]);
      IdleRun(targets, Apply(targets, s, sched[0]), sched[1..]);
    }
  }

  /** A send at the limiter or about to enter does enter in some continuation. */
  lemma Enters(targets: Targets, s: State, t: nat) returns (sched: seq<Event>)
    requires CountersInv(s) && t in s.sends && Imminent(s.sends[t].pc)
    ensures Run(targets, s, sched).inFlight > 0
  {
    var s1 := if s.sends[t].pc.Limit? then Apply(targets, s, Answer(t, true)) else s;
    assert s1.sends[t].pc.Enter? && s1.inFlight == s.inFlight;
    RunCons(targets, s1, Step(t), []);
    sched := [Step(t)] + [];
    if s.sends[t].pc.Limit? {
      RunCons(targets, s, Answer(t, true), sched);
      sched := [Answer(t, true)] + sched;
    }
  }

  /** In every reachable state with the flag up, in particular when a shutdown call has
      returned Ok: nothing is in flight and nothing will be if the counter is zero and no
      send is coming; and only if the counter is zero and no send is at the limiter or
      about to enter. A send that still has to ask its breaker may be refused by it. */
  lemma IdleExactly(targets: Targets, now: nat, sched: seq<Event>)
    requires Run(targets, Init(targets, now), sched).flag
    ensures var s := Run(targets, Init(targets, now), sched);
            && (s.inFlight == 0 && NoneComing(s) ==> IdleForGood(targets, s))
            && (IdleForGood(targets, s) ==> s.inFlight == 0 && NoneImminent(s))
  {
    var s := Run(targets, Init(targets, now), sched);
    CountersRun(targets, Init(targets, now), sched);
    if s.inFlight == 0 && NoneComing(s) {
      forall more
        ensures Run(targets, s, more).inFlight == 0
      {
        IdleRun(targets, s, more);
      }
    }
    assert Run(targets, s, []) == s;
    if t :| t in s.sends && Imminent(s.sends[t].pc) {
      var more := Enters(targets, s, t);
    }
  }

  // ---- from the flag store ----

  /** The call has returned Ok, or will. */
  predicate Released(pc: ShutPc) {
    match pc
    case Recheck(wakers) => wakers != {}
    case Waiting(wakers) => wakers != {}
    case Drained(_) => true
    case _ => false
  }

  /** Whatever lets `w` return Ok finds nothing in flight. */
  ghost predicate IdleInv(s: State, w: nat) {
    && CountersInv(s) && s.flag && NoneComing(s)
    && (Finishers(s) != {} ==> s.inFlight == 0)
    && w in s.shuts && (Released(s.shuts[w]) ==> s.inFlight == 0)
  }

  /** A shutdown call is released by a finisher or by a counter at zero. */
  lemma ReleaseStep(targets: Targets, s: State, e: Event, w: nat)
    requires w in s.shuts
    ensures var s' := Apply(targets, s, e);
            && w in s'.shuts
            && (Released(s'.shuts[w]) ==>
                  Released(s.shuts[w]) || s.inFlight == 0 || (e.Step? && e.t in Finishers(s)))
  {
  }

  lemma IdleStep(targets: Targets, s: State, e: Event, w: nat)
    requires IdleInv(s, w)
    ensures IdleInv(Apply(targets, s, e), w)
  {
    ComingStep(targets, s, e);
    ReleaseStep(targets, s, e, w);
    if Apply(targets, s, e).inFlight != 0 {
      FinishersStay(targets, s, e);
    }
  }

  lemma {:induction false} IdleInvRun(targets: Targets, s: State, w: nat, sched: seq<Event>)
    requires IdleInv(s, w)
    ensures IdleInv(Run(targets, s, sched), w)
    decreases |sched|
  {
    if sched != [] {
      IdleStep(targets, s, sched[0], w);
      IdleInvRun(targets, Apply(targets, s, sched[0]), w, sched[1..]);
    }
  }

  /** From any reachable flag store at which no old notification is pending and no send is
      coming, an Ok means in every continuation that nothing is in flight, dropped sends
      included, and that nothing will be. */
  lemma OkMeansIdle(targets: Targets, now: nat, past: seq<Event>, w: nat, sched: seq<Event>)
    requires var s := Run(targets, Init(targets, now), past);
             && w in s.shuts && s.shuts[w].StoreFlag?
             && !PendingStaleNotify(s) && NoneComing(s)
    ensures var s := Run(targets, Init(targets, now), past);
            var r := Run(targets, Apply(targets, s, ShutStep(w)), sched);
            && w in r.shuts
            && (r.shuts[w].Drained? ==> r.inFlight == 0 && IdleForGood(targets, r))
  {
    var s := Run(targets, Init(targets, now), past);
    CountersRun(targets, Init(targets, now), past);
    var s' := Apply(targets, s, ShutStep(w));
    if t :| t in Finishers(s) {
      assert SomeFinisher(s);
    }
    assert Finishers(s') == Finishers(s);
    IdleInvRun(targets, s', w, sched);
    var r := Run(targets, s', sched);
    if r.shuts[w].Drained? {
      forall more
        ensures Run(targets, r, more).inFlight == 0
      {
        IdleRun(targets, r, more);
      }
    }
  }

  // ---- a request that goes out after the Ok ----

  /** From any flag store with nothing in flight and a send at the limiter or about to
      enter, some continuation returns Ok and then has a request in flight. */
  lemma EntersLater(targets: Targets, s: State, w: nat, t: nat) returns (sched: seq<Event>)
    requires CountersInv(s) && w in s.shuts && s.shuts[w].StoreFlag? && s.inFlight == 0
    requires t in s.sends && Imminent(s.sends[t].pc)
    ensures var r := Run(targets, Apply(targets, s, ShutStep(w)), sched);
            w in r.shuts && r.shuts[w] == Drained(SawZero) && r.inFlight > 0
  {
    var s1 := Apply(targets, s, ShutStep(w));
    var s2 := Apply(targets, s1, ShutStep(w));
    assert s2.shuts[w] == Drained(SawZero) && s2.sends == s.sends;
    var rest := Enters(targets, s2, t);
    StaysDrained(targets, s2, w, rest);
    RunCons(targets, s1, ShutStep(w), rest);
    sched := [ShutStep(w)] + rest;
  }

  lemma {:induction false} StaysDrained(targets: Targets, s: State, w: nat, sched: seq<Event>)
    requires w in s.shuts && s.shuts[w].Drained?
    ensures var r := Run(targets, s, sched); w in r.shuts && r.shuts[w] == s.shuts[w]
    decreases |sched|
  {
    if sched != [] {
      StaysDrained(targets, Apply(targets, s, sched[0]), w, sched[1..]);
    }
  }

  /** Such a flag store is reachable, with no old notification pending: a send has passed
      the flag load, its breaker and its limiter when a shutdown call is made. */
  lemma EntersAfterOk() returns (targets: Targets, s: State, sched: seq<Event>)
    ensures Reaches(targets, Init(targets, 1), s) && 0 in s.shuts && s.shuts[0].StoreFlag?
    ensures !PendingStaleNotify(s) && 0 in s.sends && s.sends[0].pc.Enter?
    ensures var r := Run(targets, Apply(targets, s, ShutStep(0)), sched);
            0 in r.shuts && r.shuts[0] == Drained(SawZero) && r.inFlight > 0
  {
    var key := "upstream";
    targets := map[key := DEFAULTS];
    s := ReachEnter(targets, key);
    var past :| Run(targets, Init(targets, 1), past) == s;
    CountersRun(targets, Init(targets, 1), past);
    sched := EntersLater(targets, s, 0, 0);
  }

  lemma ReachEnter(targets: Targets, key: string) returns (s: State)
    requires key in targets
    ensures Reaches(targets, Init(targets, 1), s) && 0 in s.shuts && s.shuts[0].StoreFlag?
    ensures s.inFlight == 0 && 0 in s.sends && s.sends[0].pc.Enter?
  {
    var s0 := Init(targets, 1);
    assert Configured(key) in ConfiguredIds(targets);
    assert BreakerFor(s0.table, key) == Race.Init(1);
    var m := Send(key, Limit, PolicyOf(s0, 0, key), OtherFailed);
    var s1 := ReachLimit(targets, s0, 0, key);
    var s2 := SoloHear(targets, s0, s1, 0, Answer(0, true), m, BreakerFor(s0.table, key).cells, 1, 0, 0);
    ReachMore(targets, s0, s2, Shutdown(0));
    s := Apply(targets, s2, Shutdown(0));
    assert s.sends == s2.sends && s.inFlight == s2.inFlight;
  }
}
