/** What happens in the end: no send is ever stuck, so a client that has been shut down can
    always drain; a notified shutdown call returns Ok; and a send whose future was dropped
    in flight stays counted for good. */
module ClientProgress {
  import opened Outcome
  import opened Tally
  import opened Client
  import opened ClientAccounting
  import opened ClientIsolation
  import opened ClientBreakers
  import opened ClientShutdown

  // ---- no send is stuck ----

  /** The event that moves a send on: its own next step, or the answer it waits for. */
  function MovedBy(t: nat, m: Send): Event {
    if m.pc.Limit? then Answer(t, true)
    else if m.pc.Await? then Complete(t, Response(200))
    else Step(t)
  }

  /** Inside a breaker call, the next step comes closer to the call's end. */
  lemma CallMoves(targets: Targets, s: State, t: nat, since: nat)
    requires LinkInv(targets, s, since) && t in s.sends && Calling(s.sends[t].pc)
    ensures Race.CallSteps(Onward(targets, s.table, s.sends[t])) < Race.CallSteps(s.sends[t].pc.at)
  {
    var m := s.sends[t];
    assert m.key in s.table.policies && m.pid in s.table.breakers;
    assert Linked(s, m.pid, t);
    var r := s.table.breakers[m.pid].race;
    Race.StepsShrink(ConfigOf(targets, m.pid), r.cells, r.now, m.pc.at);
  }

  /** With the flag up, every send that has passed the flag load and is not through yet has
      an event that brings it closer to its end, and moves no other send. */
  lemma NoSendIsStuck(targets: Targets, s: State, t: nat, since: nat)
    requires LinkInv(targets, s, since) && s.flag && t in s.sends && StepsLeft(s.sends[t]) > 0
    ensures var m, s' := s.sends[t], Apply(targets, s, MovedBy(t, s.sends[t]));
            && t in s'.sends && s'.sends == s.sends[t := s'.sends[t]]
            && StepsLeft(s'.sends[t]) < StepsLeft(m) && !s'.sends[t].pc.Dropped? && s'.flag
  {
    var m := s.sends[t];
    if Calling(m.pc) {
      CallMoves(targets, s, t, since);
      CallShrinks(s, t, m, Onward(targets, s.table, m));
    } else {
      PlainMoves(s, t, m);
    }
  }

  lemma PlainMoves(s: State, t: nat, m: Send)
    requires s.flag && !Calling(m.pc) && StepsLeft(m) > 0
    ensures m.pc.Limit? || m.pc.Await? || StepsLeft(NextSend(s, t, m, Race.Idle)) < StepsLeft(m)
    ensures !m.pc.Dropped? && !NextSend(s, t, m, Race.Idle).pc.Dropped?
    ensures m.pc.Limit? || m.pc.Await? ==> StepsLeft(Heard(m, MovedBy(t, m))) < StepsLeft(m)
  {
    StepsShrink(s, t, m);
  }

  ghost predicate NoneDropped(s: State) {
    forall t :: t in s.sends ==> !s.sends[t].pc.Dropped?
  }

  lemma {:induction false} MovesToEnd(targets: Targets, s: State, since: nat) returns (sched: seq<Event>)
    requires LinkInv(targets, s, since) && s.flag && NoneDropped(s)
    ensures var r := Run(targets, s, sched); Total(r.sends, StepsLeft) == 0 && NoneDropped(r) && r.flag
    decreases Total(s.sends, StepsLeft)
  {
    if Total(s.sends, StepsLeft) == 0 {
      sched := [];
    } else {
      var t := TotalSome(s.sends, StepsLeft);
      var e := MovedBy(t, s.sends[t]);
      NoSendIsStuck(targets, s, t, since);
      LinkStep(targets, s, e, since);
      var s' := Apply(targets, s, e);
      TotalUpdate(s.sends, StepsLeft, t, s'.sends[t]);
      var rest := MovesToEnd(targets, s', since);
      RunCons(targets, s, e, rest);
      sched := [e] + rest;
    }
  }

  /** From every reachable state with the flag up and no send dropped in flight, some
      continuation drains the client: nothing is in flight and no waiter is left unwoken. */
  lemma CanAlwaysDrain(targets: Targets, now: nat, past: seq<Event>) returns (more: seq<Event>)
    requires var s := Run(targets, Init(targets, now), past); s.flag && NoneDropped(s)
    ensures var r := Run(targets, Init(targets, now), past + more);
            && r.inFlight == 0
            && forall w :: w in r.shuts ==> r.shuts[w] != Waiting({})
  {
    LinkRun(targets, Init(targets, now), past, now);
    more := MovesToEnd(targets, Run(targets, Init(targets, now), past), now);
    RunAppend(targets, Init(targets, now), past, more);
    DrainWakesWaiters(targets, now, past + more);
  }

  // ---- a notified call returns ----

  predicate Informed(pc: ShutPc, t: nat) {
    match pc
    case Recheck(wakers) => t in wakers
    case Waiting(wakers) => t in wakers
    case Drained(_) => true
    case _ => false
  }

  /** The own steps until the call returns. */
  function Rank(pc: ShutPc): nat {
    if pc.Recheck? then 2 else if pc.Waiting? then 1 else 0
  }

  function OwnSteps(sched: seq<Event>, w: nat): nat {
    if sched == [] then 0 else (if sched[0] == ShutStep(w) then 1 else 0) + OwnSteps(sched[1..], w)
  }

  lemma InformedStep(targets: Targets, s: State, e: Event, w: nat, t: nat)
    requires w in s.shuts && Informed(s.shuts[w], t)
    ensures var s' := Apply(targets, s, e);
            && w in s'.shuts && Informed(s'.shuts[w], t)
            && (Rank(s'.shuts[w]) == 0 || Rank(s'.shuts[w]) + (if e == ShutStep(w) then 1 else 0) <= Rank(s.shuts[w]))
  {
  }

  lemma {:induction false} InformedRun(targets: Targets, s: State, w: nat, t: nat, sched: seq<Event>)
    requires w in s.shuts && Informed(s.shuts[w], t)
    ensures var r := Run(targets, s, sched);
            && w in r.shuts && Informed(r.shuts[w], t)
            && (Rank(r.shuts[w]) == 0 || Rank(r.shuts[w]) + OwnSteps(sched, w) <= Rank(s.shuts[w]))
    decreases |sched|
  {
    if sched != [] {
      InformedStep(targets, s, sched[0], w, t);
      InformedRun(targets, Apply(targets, s, sched[0]), w, t, sched[1..]);
    }
  }

  /** A notification reaches every call that has registered, re-checking or waiting, and
      leaves it where it stands. Whatever happens afterwards, the call does not time out, and
      it has returned Ok after two steps of its own. */
  lemma NotifiedReturns(targets: Targets, s: State, w: nat, t: nat, sched: seq<Event>)
    requires w in s.shuts && (s.shuts[w].Recheck? || s.shuts[w].Waiting?)
    requires t in s.sends && s.sends[t].pc.Wake?
    ensures var s' := Apply(targets, s, Step(t));
            && w in s'.shuts && (s'.shuts[w].Recheck? <==> s.shuts[w].Recheck?)
            && var r := Run(targets, s', sched);
               && w in r.shuts && Informed(r.shuts[w], t)
               && (OwnSteps(sched, w) >= 2 ==> r.shuts[w].Drained?)
  {
    InformedRun(targets, Apply(targets, s, Step(t)), w, t, sched);
  }

  // ---- a dropped send ----

  lemma DroppedStep(targets: Targets, s: State, t: nat, e: Event)
    requires t in s.sends && s.sends[t].pc.Dropped?
    ensures var s' := Apply(targets, s, e); t in s'.sends && s'.sends[t].pc.Dropped?
  {
  }

  lemma {:induction false} StaysDropped(targets: Targets, s: State, t: nat, sched: seq<Event>)
    requires CountersInv(s) && t in s.sends && s.sends[t].pc.Dropped?
    ensures var r := Run(targets, s, sched);
            t in r.sends && r.sends[t].pc.Dropped? && r.inFlight >= 1
    decreases |sched|
  {
    TotalWithout(s.sends, InFlightShare, t);
    if sched != [] {
      CountersStep(targets, s, sched[0]);
      DroppedStep(targets, s, t, sched[0]);
      StaysDropped(targets, Apply(targets, s, sched[0]), t, sched[1..]);
    }
  }

  /** A send whose future is dropped while it awaits its request stays counted: from then
      on, in every continuation, the in-flight counter is positive, so that no shutdown
      call sees it at zero. */
  lemma DroppedStaysCounted(targets: Targets, now: nat, past: seq<Event>, t: nat, sched: seq<Event>)
    requires var s := Run(targets, Init(targets, now), past); t in s.sends && s.sends[t].pc.Await?
    ensures var s := Run(targets, Init(targets, now), past);
            var r := Run(targets, Apply(targets, s, Drop(t)), sched);
            t in r.sends && r.sends[t].pc.Dropped? && r.inFlight >= 1
  {
    CountersRun(targets, Init(targets, now), past);
    var s := Run(targets, Init(targets, now), past);
    CountersStep(targets, s, Drop(t));
    StaysDropped(targets, Apply(targets, s, Drop(t)), t, sched);
  }
}
