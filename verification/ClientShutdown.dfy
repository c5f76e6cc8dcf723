/** The drain-on-shutdown protocol in every interleaving of sends and shutdown calls: no
    wakeup is lost, the drain is finite, and exactly when an Ok from `shutdown` means that
    the sends in flight at its flag store are gone. */
module ClientShutdown {
  import opened Breaker
  import opened Outcome
  import opened Tally
  import opened Client
  import opened ClientAccounting
  import opened BreakerSolo
  import opened ClientSolo

  // ---- no lost wakeup ----

  /** A send that brought the counter to zero and has its flag load or its notification
      still to perform. */
  predicate Finisher(pc: Pc) {
    pc.CheckFlag? || pc.Wake?
  }

  ghost predicate SomeFinisher(s: State) {
    exists t :: t in s.sends && Finisher(s.sends[t].pc)
  }

  /** Past its flag store. */
  predicate Raised(pc: ShutPc) {
    !pc.StoreFlag?
  }

  ghost predicate NoLostWakeup(s: State) {
    && (forall w :: w in s.shuts && Raised(s.shuts[w]) ==> s.flag)
    && (forall w :: w in s.shuts && s.shuts[w] == Waiting({}) ==> s.inFlight > 0 || SomeFinisher(s))
  }

  /** While the flag is up, a finisher stays one until it has notified. */
  lemma FinisherStays(targets: Targets, s: State, e: Event)
    requires s.flag && SomeFinisher(s)
    ensures SomeFinisher(Apply(targets, s, e)) ||
            (e.Step? && e.t in s.sends && s.sends[e.t].pc.Wake?)
  {
    var t :| t in s.sends && Finisher(s.sends[t].pc);
    var s' := Apply(targets, s, e);
    if !(e.Step? && e.t in s.sends && s.sends[e.t].pc.Wake?) {
      assert t in s'.sends && Finisher(s'.sends[t].pc);
    }
  }

  /** The counter reaches zero only with a new finisher. */
  lemma ZeroHasFinisher(targets: Targets, s: State, e: Event)
    requires CountersInv(s) && s.inFlight > 0
    ensures var s' := Apply(targets, s, e); s'.inFlight > 0 || SomeFinisher(s')
  {
    CountersStep(targets, s, e);
    var s' := Apply(targets, s, e);
    if s'.inFlight <= 0 {
      assert e.Step? && s.sends[e.t].pc.Leave?;
      assert Finisher(s'.sends[e.t].pc);
    }
  }

  lemma WakeupStep(targets: Targets, s: State, e: Event)
    requires CountersInv(s) && NoLostWakeup(s)
    ensures NoLostWakeup(Apply(targets, s, e))
  {
    var s' := Apply(targets, s, e);
    forall w | w in s'.shuts && s'.shuts[w] == Waiting({})
      ensures s'.inFlight > 0 || SomeFinisher(s')
    {
      if s.inFlight > 0 {
        ZeroHasFinisher(targets, s, e);
      } else {
        FinisherStays(targets, s, e);
      }
    }
  }

  lemma {:induction false} WakeupRun(targets: Targets, s: State, sched: seq<Event>)
    requires CountersInv(s) && NoLostWakeup(s)
    ensures CountersInv(Run(targets, s, sched)) && NoLostWakeup(Run(targets, s, sched))
    decreases |sched|
  {
    if sched != [] {
      WakeupStep(targets, s, sched[0]);
      CountersStep(targets, s, sched[0]);
      WakeupRun(targets, Apply(targets, s, sched[0]), sched[1..]);
    }
  }

  /** In every run, a shutdown call that has passed its re-check and is still unwoken has
      a send to wake it: the counter is positive, or some send has already brought it to
      zero and has not notified yet. */
  lemma NeverLosesWakeup(targets: Targets, now: nat, sched: seq<Event>)
    ensures NoLostWakeup(Run(targets, Init(targets, now), sched))
  {
    WakeupRun(targets, Init(targets, now), sched);
  }

  // ---- finite drain ----

  /** The steps a send may still take once it has passed the flag load, those inside its
      two breaker calls included. */
  function StepsLeft(m: Send): nat {
    match m.pc
    case Lookup => 29
    case Insert => 28
    case Admit => 27
    case Asking(at) => 22 + Race.CallSteps(at)
    case Limit => 21
    case Enter => 20
    case Await => 19
    case Record => 18
    case Recording(at) => 5 + Race.CallSteps(at)
    case Count => 4
    case Leave => 3
    case CheckFlag => 2
    case Wake => 1
    case CountRefusal => 1
    case _ => 0
  }

  /** The event moves a send that has passed the flag load. */
  ghost predicate Moves(targets: Targets, s: State, e: Event) {
    (e.Step? || e.Answer? || e.Complete? || e.Drop?) && e.t in s.sends
    && StepsLeft(s.sends[e.t]) > 0 && Apply(targets, s, e).sends[e.t] != s.sends[e.t]
  }

  ghost function MovesIn(targets: Targets, s: State, sched: seq<Event>): nat
    decreases |sched|
  {
    if sched == [] then 0
    else (if Moves(targets, s, sched[0]) then 1 else 0)
         + MovesIn(targets, Apply(targets, s, sched[0]), sched[1..])
  }

  /** A breaker call stays where it is or comes closer to its end. */
  lemma OnwardShrinks(targets: Targets, b: Table, m: Send)
    requires Calling(m.pc)
    ensures var at := Onward(targets, b, m); at == m.pc.at || Race.CallSteps(at) < Race.CallSteps(m.pc.at)
  {
    if m.pid in b.breakers {
      var r := b.breakers[m.pid].race;
      Race.StepsShrink(ConfigOf(targets, m.pid), r.cells, r.now, m.pc.at);
    }
  }

  /** A step shrinks what is left: inside a breaker call, ... */
  lemma CallShrinks(s: State, t: nat, m: Send, at: Race.Pc)
    requires Calling(m.pc) && (at == m.pc.at || Race.CallSteps(at) < Race.CallSteps(m.pc.at))
    ensures var m' := NextSend(s, t, m, at); m' == m || StepsLeft(m') < StepsLeft(m)
  {
  }

  /** ... and outside. */
  lemma StepsShrink(s: State, t: nat, m: Send)
    requires s.flag && !Calling(m.pc)
    ensures var m' := NextSend(s, t, m, Race.Idle);
            StepsLeft(m') <= StepsLeft(m) && (StepsLeft(m) > 0 && m' != m ==> StepsLeft(m') < StepsLeft(m))
  {
    assert Race.CallSteps(Race.Entry(Race.AllowCall)) == 4;
    assert Race.CallSteps(Race.Entry(Verdicted(m.outcome))) == 12;
  }

  lemma DrainSend(targets: Targets, s: State, t: nat, m: Send)
    requires s.flag && t in s.sends && s.sends[t] == m
    ensures var m' := NextSend(s, t, m, Onward(targets, s.table, m));
            Total(s.sends[t := m'], StepsLeft) + (if StepsLeft(m) > 0 && m' != m then 1 else 0)
            <= Total(s.sends, StepsLeft)
  {
    var at := Onward(targets, s.table, m);
    if Calling(m.pc) {
      OnwardShrinks(targets, s.table, m);
      CallShrinks(s, t, m, at);
    } else {
      StepsShrink(s, t, m);
    }
    TotalUpdate(s.sends, StepsLeft, t, NextSend(s, t, m, at));
  }

  lemma DrainStep(targets: Targets, s: State, e: Event)
    requires s.flag
    ensures var s' := Apply(targets, s, e);
            && s'.flag
            && Total(s'.sends, StepsLeft) + (if Moves(targets, s, e) then 1 else 0) <= Total(s.sends, StepsLeft)
  {
    match e
    case Tick(_) =>
    case Shutdown(_) =>
    case ShutStep(_) =>
    case Expire(_) =>
    case Begin(t, key, retrying) => TotalUpdate(s.sends, StepsLeft, t, NewSend(t, key, retrying));
    case Step(t) =>
      if t in s.sends {
        DrainSend(targets, s, t, s.sends[t]);
      }
    case _ =>
      if e.t in s.sends {
        TotalUpdate(s.sends, StepsLeft, e.t, Heard(s.sends[e.t], e));
      }
  }

  /** Finite drain: after the flag is up, the number of steps still taken by sends that
      passed the flag load is bounded by what they had left, in every continuation. */
  lemma {:induction false} DrainIsFinite(targets: Targets, s: State, sched: seq<Event>)
    requires s.flag
    ensures Run(targets, s, sched).flag
    ensures MovesIn(targets, s, sched) + Total(Run(targets, s, sched).sends, StepsLeft)
            <= Total(s.sends, StepsLeft)
    decreases |sched|
  {
    if sched != [] {
      DrainStep(targets, s, sched[0]);
      DrainIsFinite(targets, Apply(targets, s, sched[0]), sched[1..]);
    }
  }

  predicate TurnedAway(s: State, t: nat) {
    t !in s.sends || s.sends[t].pc.Peek? || s.sends[t].pc.PeekInsert? || s.sends[t].pc.LoadFlag? || s.sends[t].pc.Rejected?
  }

  /** Once the flag is up, a send that has not passed the flag load is turned away: it
      never enters the in-flight count, nor the request metric. */
  lemma {:induction false} LateSendsRejected(targets: Targets, s: State, t: nat, sched: seq<Event>)
    requires s.flag && TurnedAway(s, t)
    ensures TurnedAway(Run(targets, s, sched), t)
    decreases |sched|
  {
    if sched != [] {
      assert TurnedAway(Apply(targets, s, sched[0]), t);
      LateSendsRejected(targets, Apply(targets, s, sched[0]), t, sched[1..]);
    }
  }

  lemma NothingLeft(s: State)
    requires CountersInv(s) && NoLostWakeup(s) && Total(s.sends, StepsLeft) == 0
    requires forall t :: t in s.sends ==> !s.sends[t].pc.Dropped?
    ensures s.inFlight == 0
    ensures forall w :: w in s.shuts ==> s.shuts[w] != Waiting({})
  {
    TotalZero(s.sends, StepsLeft);
    forall t | t in s.sends
      ensures InFlightShare(s.sends[t]) == 0 && !Finisher(s.sends[t].pc)
    {
      assert StepsLeft(s.sends[t]) == 0;
    }
    TotalZero(s.sends, InFlightShare);
  }

  /** When the sends that had passed the flag load have used up their steps and none was
      dropped, the client is drained and every waiter was woken. */
  lemma DrainWakesWaiters(targets: Targets, now: nat, sched: seq<Event>)
    requires var s := Run(targets, Init(targets, now), sched);
             && Total(s.sends, StepsLeft) == 0
             && forall t :: t in s.sends ==> !s.sends[t].pc.Dropped?
    ensures var s := Run(targets, Init(targets, now), sched);
            && s.inFlight == 0
            && forall w :: w in s.shuts ==> s.shuts[w] != Waiting({})
  {
    WakeupRun(targets, Init(targets, now), sched);
    NothingLeft(Run(targets, Init(targets, now), sched));
  }

  // ---- what an Ok means ----

  /** Counted in at some time. */
  predicate Counted(pc: Pc) {
    Inside(pc) || pc.Dropped? || Left(pc)
  }

  function CountedIn(s: State): set<nat> {
    set t | t in s.sends && Counted(s.sends[t].pc)
  }

  /** Every one of these sends has been uncounted, none was dropped. */
  predicate AllLeft(s: State, sends: set<nat>) {
    forall t :: t in sends ==> t in s.sends && Left(s.sends[t].pc)
  }

  predicate AllCounted(s: State, sends: set<nat>) {
    forall t :: t in sends ==> t in s.sends && Counted(s.sends[t].pc)
  }

  /** In every continuation, an Ok of shutdown call `w` finds all of `sends` uncounted. */
  ghost predicate OkMeansDrained(targets: Targets, s: State, w: nat, sends: set<nat>) {
    forall sched :: var s' := Run(targets, s, sched);
      w in s'.shuts && s'.shuts[w].Drained? ==> AllLeft(s', sends)
  }

  /** Some send is in flight (or was dropped there) while another one, which found the
      counter at zero before, has its notification still ahead of it. */
  ghost predicate PendingStaleNotify(s: State) {
    s.inFlight > 0 && SomeFinisher(s)
  }

  /** The sends that were finishers already. */
  function Finishers(s: State): set<nat> {
    set t | t in s.sends && Finisher(s.sends[t].pc)
  }

  /** The call has cause to return Ok, other than notifications by the sends in `stale`. */
  predicate HasCause(pc: ShutPc, stale: set<nat>) {
    match pc
    case Recheck(wakers) => !(wakers <= stale)
    case Waiting(wakers) => !(wakers <= stale)
    case Drained(why) => why.SawZero? || !(why.wakers <= stale)
    case _ => false
  }

  /** Whatever other than an old notification lets `w` return Ok finds all of `sends`
      uncounted. */
  ghost predicate CauseInv(s: State, w: nat, sends: set<nat>, stale: set<nat>) {
    && CountersInv(s)
    && AllCounted(s, sends)
    && (Finishers(s) <= stale || AllLeft(s, sends))
    && w in s.shuts
    && (HasCause(s.shuts[w], stale) ==> AllLeft(s, sends))
    && (s.shuts[w].Drained? && s.shuts[w].why.Notified? ==> s.shuts[w].why.wakers != {})
  }

  lemma ZeroMeansLeft(s: State, sends: set<nat>)
    requires CountersInv(s) && s.inFlight == 0 && AllCounted(s, sends)
    ensures AllLeft(s, sends)
  {
    TotalZero(s.sends, InFlightShare);
    forall t | t in sends
      ensures t in s.sends && Left(s.sends[t].pc)
    {
      assert InFlightShare(s.sends[t]) == 0;
    }
  }

  lemma CountedStays(targets: Targets, s: State, e: Event, t: nat)
    requires t in s.sends
    ensures var s' := Apply(targets, s, e);
            && t in s'.sends
            && (Counted(s.sends[t].pc) ==> Counted(s'.sends[t].pc))
            && (Left(s.sends[t].pc) ==> Left(s'.sends[t].pc))
            && (Finisher(s'.sends[t].pc) ==> Finisher(s.sends[t].pc) || s'.inFlight == 0)
  {
  }

  lemma CauseSends(targets: Targets, s: State, e: Event, w: nat, sends: set<nat>, stale: set<nat>)
    requires CauseInv(s, w, sends, stale)
    ensures var s' := Apply(targets, s, e);
            && CountersInv(s') && AllCounted(s', sends)
            && (AllLeft(s, sends) ==> AllLeft(s', sends))
            && (Finishers(s') <= stale || AllLeft(s', sends))
  {
    var s' := Apply(targets, s, e);
    CountersStep(targets, s, e);
    forall t | t in sends
      ensures t in s'.sends && Counted(s'.sends[t].pc) && (Left(s.sends[t].pc) ==> Left(s'.sends[t].pc))
    {
      CountedStays(targets, s, e, t);
    }
    if s'.inFlight == 0 {
      ZeroMeansLeft(s', sends);
    } else {
      FinishersStay(targets, s, e);
    }
  }

  /** Only a send that brings the counter to zero becomes a finisher. */
  lemma FinishersStay(targets: Targets, s: State, e: Event)
    requires Apply(targets, s, e).inFlight != 0
    ensures Finishers(Apply(targets, s, e)) <= Finishers(s)
  {
    var s' := Apply(targets, s, e);
    forall t | t in Finishers(s')
      ensures t in Finishers(s)
    {
      if t in s.sends {
        CountedStays(targets, s, e, t);
      }
    }
  }

  lemma CauseStep(targets: Targets, s: State, e: Event, w: nat, sends: set<nat>, stale: set<nat>)
    requires CauseInv(s, w, sends, stale)
    ensures CauseInv(Apply(targets, s, e), w, sends, stale)
  {
    CauseSends(targets, s, e, w, sends, stale);
    if s.inFlight == 0 {
      ZeroMeansLeft(s, sends);
    }
  }

  lemma {:induction false} CauseRun(targets: Targets, s: State, w: nat, sends: set<nat>, stale: set<nat>, sched: seq<Event>)
    requires CauseInv(s, w, sends, stale)
    ensures CauseInv(Run(targets, s, sched), w, sends, stale)
    decreases |sched|
  {
    if sched != [] {
      CauseStep(targets, s, sched[0], w, sends, stale);
      CauseRun(targets, Apply(targets, s, sched[0]), w, sends, stale, sched[1..]);
    }
  }

  /** Meaning of Ok by its cause. From any reachable flag store of shutdown call `w` and in
      every continuation: if `w` returned Ok on a counter it saw at zero, at either load,
      or was notified by at least one send that had not yet found the counter at zero when
      the flag was stored, then all sends counted in before the flag store have been
      uncounted, and none was dropped in flight. */
  lemma OkByCause(targets: Targets, now: nat, past: seq<Event>, w: nat, sched: seq<Event>)
    requires var s := Run(targets, Init(targets, now), past); w in s.shuts && s.shuts[w].StoreFlag?
    ensures var s := Run(targets, Init(targets, now), past);
            var r := Run(targets, Apply(targets, s, ShutStep(w)), sched);
            && w in r.shuts
            && (r.shuts[w].Drained? && (r.shuts[w].why.SawZero? || !(r.shuts[w].why.wakers <= Finishers(s)))
                ==> AllLeft(r, CountedIn(s)))
  {
    var s := Run(targets, Init(targets, now), past);
    CountersRun(targets, Init(targets, now), past);
    var s' := Apply(targets, s, ShutStep(w));
    assert CauseInv(s', w, CountedIn(s), Finishers(s));
    CauseRun(targets, s', w, CountedIn(s), Finishers(s), sched);
  }

  /** The waiter registers, and the pending finisher wakes it while a send is in flight. */
  lemma StaleNotifyReleases(targets: Targets, s: State, w: nat, f: nat, x: nat) returns (sched: seq<Event>)
    requires w in s.shuts && s.shuts[w].FirstLoad? && s.flag && s.inFlight > 0
    requires f in s.sends && Finisher(s.sends[f].pc)
    requires x in s.sends && InFlightShare(s.sends[x]) > 0
    ensures var s' := Run(targets, s, sched);
            && w in s'.shuts && s'.shuts[w] == Drained(Notified({f}))
            && x in s'.sends && s'.sends[x] == s.sends[x]
  {
    var go, fin := ShutStep(w), Step(f);
    var s1 := Apply(targets, s, go);
    var s2 := Apply(targets, s1, go);
    var s3 := Apply(targets, s2, go);
    assert s3.shuts[w] == Waiting({}) && s3.sends == s.sends;
    var s4 := Apply(targets, s3, fin);
    var s5 := if s.sends[f].pc.CheckFlag? then Apply(targets, s4, fin) else s4;
    assert s5.shuts[w] == Waiting({f}) && s5.sends[x] == s.sends[x];
    RunCons(targets, s5, go, []);
    sched := [fin] + ([go] + []);
    if s.sends[f].pc.CheckFlag? {
      RunCons(targets, s4, fin, [go] + []);
      sched := [fin] + sched;
      RunCons(targets, s3, fin, [fin] + ([go] + []));
    } else {
      RunCons(targets, s3, fin, [go] + []);
    }
    RunCons(targets, s2, go, sched);
    RunCons(targets, s1, go, [go] + sched);
    RunCons(targets, s, go, [go] + ([go] + sched));
    sched := [go] + ([go] + ([go] + sched));
  }

  /** The other causes promise nothing: whenever a finisher from before the flag store is
      still to notify while a send is in flight, some continuation returns Ok on such
      notifications alone, with a send counted before the flag store still in flight. */
  lemma OldNotifyIsTooEarly(targets: Targets, s: State, w: nat) returns (sched: seq<Event>)
    requires CountersInv(s) && w in s.shuts && s.shuts[w].StoreFlag? && PendingStaleNotify(s)
    ensures var r := Run(targets, Apply(targets, s, ShutStep(w)), sched);
            && w in r.shuts && r.shuts[w].Drained? && r.shuts[w].why.Notified?
            && r.shuts[w].why.wakers <= Finishers(s)
            && !AllLeft(r, CountedIn(s))
  {
    var s' := Apply(targets, s, ShutStep(w));
    var f :| f in s.sends && Finisher(s.sends[f].pc);
    var x := TotalSome(s.sends, InFlightShare);
    sched := StaleNotifyReleases(targets, s', w, f, x);
    assert x in CountedIn(s);
  }

  /** Exact meaning of Ok. From any reachable state, after shutdown call `w` raises the
      flag, an Ok of `w` means in every continuation that all sends counted in before the
      flag store have been uncounted, and none was dropped in flight, if and only if at
      the flag store no send was in flight while a finisher still had its notification
      ahead of it. */
  lemma ShutdownExact(targets: Targets, now: nat, past: seq<Event>, w: nat)
    requires var s := Run(targets, Init(targets, now), past); w in s.shuts && s.shuts[w].StoreFlag?
    ensures var s := Run(targets, Init(targets, now), past);
            OkMeansDrained(targets, Apply(targets, s, ShutStep(w)), w, CountedIn(s))
            <==> !PendingStaleNotify(s)
  {
    var s := Run(targets, Init(targets, now), past);
    CountersRun(targets, Init(targets, now), past);
    var s' := Apply(targets, s, ShutStep(w));
    var sends := CountedIn(s);
    if PendingStaleNotify(s) {
      var sched := OldNotifyIsTooEarly(targets, s, w);
    } else {
      if s.inFlight == 0 {
        ZeroMeansLeft(s', sends);
      } else {
        assert Finishers(s') <= {};
      }
      assert CauseInv(s', w, sends, {});
      forall sched
        ensures var r := Run(targets, s', sched); w in r.shuts && r.shuts[w].Drained? ==> AllLeft(r, sends)
      {
        CauseRun(targets, s', w, sends, {}, sched);
      }
    }
  }

  // ---- a run in which Ok is returned too early ----

  /** A new send on a name whose breaker is Closed is admitted, ... */
  lemma ReachLimit(targets: Targets, s: State, t: nat, key: string) returns (s': State)
    requires Ready(s, t, key) && BreakerFor(s.table, key).cells.state.Closed?
    ensures Reaches(targets, s, s')
    ensures Along(s, s', t, Send(key, Limit, PolicyOf(s, t, key), OtherFailed),
                  BreakerFor(s.table, key).cells, s.table.now, 0, 0)
  {
    s' := SoloAsk(targets, s, t, key);
  }

  /** ... gets through to its request, ... */
  lemma ReachAwait(targets: Targets, s: State, t: nat, key: string) returns (s': State)
    requires Ready(s, t, key) && BreakerFor(s.table, key).cells.state.Closed?
    ensures Reaches(targets, s, s')
    ensures Along(s, s', t, Send(key, Await, PolicyOf(s, t, key), OtherFailed),
                  BreakerFor(s.table, key).cells, s.table.now, 1, 0)
  {
    var c, now := BreakerFor(s.table, key).cells, s.table.now;
    var m := Send(key, Limit, PolicyOf(s, t, key), OtherFailed);
    var s1 := ReachLimit(targets, s, t, key);
    var s2 := SoloHear(targets, s, s1, t, Answer(t, true), m, c, now, 0, 0);
    s' := SoloMove(targets, s, s2, t, m.(pc := Enter), c, now, 0, 0);
  }

  /** ... and, when the request succeeds, leaves the breaker Closed. */
  lemma ReachCount(targets: Targets, s: State, t: nat, key: string) returns (s': State, c: Cells)
    requires Ready(s, t, key) && BreakerFor(s.table, key).cells.state.Closed?
    ensures Reaches(targets, s, s') && c.state.Closed?
    ensures Along(s, s', t, Send(key, Count, PolicyOf(s, t, key), Response(200)), c, s.table.now, 1, 0)
  {
    var now := s.table.now;
    var m := Send(key, Limit, PolicyOf(s, t, key), OtherFailed);
    var s1 := ReachLimit(targets, s, t, key);
    var s2 := SoloRequest(targets, s, s1, t, Response(200), 0, m, BreakerFor(s.table, key).cells, now);
    m := m.(pc := Record, outcome := Response(200));
    s' := SoloRecorded(targets, s, s2, t, m, BreakerFor(s.table, key).cells, now);
    c := After(ConfigOf(targets, m.pid), BreakerFor(s.table, key).cells, Success(now));
  }

  /** The only send in flight finds the counter at zero. */
  lemma ReachZero(targets: Targets, s: State, t: nat, key: string) returns (s': State, m: Send, c: Cells)
    requires Ready(s, t, key) && BreakerFor(s.table, key).cells.state.Closed? && s.inFlight == 0
    ensures Reaches(targets, s, s') && m.pc.CheckFlag? && m.key == key && m.pid == PolicyOf(s, t, key)
    ensures Along(s, s', t, m, c, s.table.now, 0, 1) && c.state.Closed?
  {
    var now, s1 := s.table.now, s;
    s1, c := ReachCount(targets, s, t, key);
    m := Send(key, Count, PolicyOf(s, t, key), Response(200));
    var s2 := SoloMove(targets, s, s1, t, m, c, now, 1, 0);
    s' := SoloMove(targets, s, s2, t, m.(pc := Leave), c, now, 1, 1);
    m := m.(pc := CheckFlag);
  }

  /** The condition of `ShutdownExact` does fail: one send finishes and finds the counter
      at zero, a second one enters, and a shutdown call is about to raise the flag. */
  lemma StaleNotifyHappens() returns (targets: Targets, past: seq<Event>)
    ensures var s := Run(targets, Init(targets, 1), past);
            && 0 in s.shuts && s.shuts[0].StoreFlag?
            && PendingStaleNotify(s)
            && !OkMeansDrained(targets, Apply(targets, s, ShutStep(0)), 0, CountedIn(s))
  {
    var key := "upstream";
    targets := map[key := DEFAULTS];
    var s := ReachStaleNotify(targets, key);
    past :| Run(targets, Init(targets, 1), past) == s;
    ShutdownExact(targets, 1, past, 0);
  }

  lemma ReachStaleNotify(targets: Targets, key: string) returns (s: State)
    requires key in targets
    ensures Reaches(targets, Init(targets, 1), s)
    ensures 0 in s.shuts && s.shuts[0].StoreFlag? && PendingStaleNotify(s)
  {
    var s0 := Init(targets, 1);
    assert Configured(key) in ConfiguredIds(targets);
    assert BreakerFor(s0.table, key) == Race.Init(1);
    var s1, m, c := ReachZero(targets, s0, 0, key);
    OthersRest(Race.Init(1), BreakerFor(s1.table, key), 0, 1);
    assert Ready(s1, 1, key);
    var s2 := ReachAwait(targets, s1, 1, key);
    ReachTrans(targets, s0, s1, s2);
    assert Finisher(s2.sends[0].pc) && s2.inFlight == 1;
    ReachMore(targets, s0, s2, Shutdown(0));
    s := Apply(targets, s2, Shutdown(0));
    assert s.sends == s2.sends && s.inFlight == s2.inFlight;
  }
}
