/** What the client's counters mean in every interleaving: the in-flight counter counts
    the sends inside plus the ones dropped there, and `requests_total` the sends whose
    counting step has run. */
module ClientAccounting {
  import opened Tally
  import opened Client

  /** Between its increment and its decrement of the in-flight counter. */
  predicate Inside(pc: Pc) {
    pc.Await? || pc.Record? || pc.Recording? || pc.Count? || pc.Leave?
  }

  /** The part a send has in the in-flight counter: a dropped one is never taken off. */
  function InFlightShare(m: Send): nat {
    if Inside(m.pc) || m.pc.Dropped? then 1 else 0
  }

  /** The part a send has in `requests_total`. */
  function ReportedShare(m: Send): nat {
    if m.pc.Refused? || m.pc.Leave? || Left(m.pc) then 1 else 0
  }

  /** Past its decrement. */
  predicate Left(pc: Pc) {
    pc.CheckFlag? || pc.Wake? || pc.Finished?
  }

  ghost predicate CountersInv(s: State) {
    && s.inFlight == Total(s.sends, InFlightShare)
    && s.requestsTotal == Total(s.sends, ReportedShare)
  }

  /** One step of a send moves each counter by that send's share in it. */
  lemma SharesMove(s: State, t: nat, m: Send, at: Race.Pc)
    ensures var m' := NextSend(s, t, m, at);
            && NextInFlight(s.inFlight, m) - s.inFlight == InFlightShare(m') - InFlightShare(m)
            && NextTotal(s.requestsTotal, m) - s.requestsTotal == ReportedShare(m') - ReportedShare(m)
  {
  }

  lemma CountersSend(targets: Targets, s: State, t: nat)
    requires CountersInv(s) && t in s.sends
    ensures CountersInv(StepSend(targets, s, t, s.sends[t]))
  {
    var at := Onward(targets, s.table, s.sends[t]);
    SharesMove(s, t, s.sends[t], at);
    SharesUpdate(s, t, NextSend(s, t, s.sends[t], at));
  }

  /** A send that starts, or hears from outside, keeps its share. */
  lemma CountersKept(s: State, t: nat, m: Send)
    requires CountersInv(s)
    requires InFlightShare(m) == if t in s.sends then InFlightShare(s.sends[t]) else 0
    requires ReportedShare(m) == if t in s.sends then ReportedShare(s.sends[t]) else 0
    ensures CountersInv(s.(sends := s.sends[t := m]))
  {
    SharesUpdate(s, t, m);
  }

  lemma CountersStep(targets: Targets, s: State, e: Event)
    requires CountersInv(s)
    ensures CountersInv(Apply(targets, s, e))
  {
    match e
    case Begin(t, key, retrying) =>
      if t !in s.sends {
        CountersKept(s, t, NewSend(t, key, retrying));
      }
    case Step(t) =>
      if t in s.sends {
        CountersSend(targets, s, t);
      }
    case Tick(_) =>
    case Shutdown(_) =>
    case ShutStep(_) =>
    case Expire(_) =>
    case _ =>
      if e.t in s.sends {
        CountersKept(s, e.t, Heard(s.sends[e.t], e));
      }
  }

  lemma SharesUpdate(s: State, t: nat, m: Send)
    ensures var sends := s.sends[t := m];
            && Total(sends, InFlightShare) == Total(s.sends, InFlightShare)
                 - (if t in s.sends then InFlightShare(s.sends[t]) else 0) + InFlightShare(m)
            && Total(sends, ReportedShare) == Total(s.sends, ReportedShare)
                 - (if t in s.sends then ReportedShare(s.sends[t]) else 0) + ReportedShare(m)
  {
    TotalUpdate(s.sends, InFlightShare, t, m);
    TotalUpdate(s.sends, ReportedShare, t, m);
  }

  lemma {:induction false} CountersRun(targets: Targets, s: State, sched: seq<Event>)
    requires CountersInv(s)
    ensures CountersInv(Run(targets, s, sched))
    decreases |sched|
  {
    if sched != [] {
      CountersStep(targets, s, sched[0]);
      CountersRun(targets, Apply(targets, s, sched[0]), sched[1..]);
    }
  }

  /** In every run, the in-flight counter is the number of sends inside or dropped
      there, so it never underflows: a send about to decrement finds it positive.
      `requests_total` is the number of sends whose counting step has run. */
  lemma CountersConserved(targets: Targets, now: nat, sched: seq<Event>)
    ensures var s := Run(targets, Init(targets, now), sched);
            && CountersInv(s)
            && s.inFlight >= 0
            && forall t :: t in s.sends && s.sends[t].pc.Leave? ==> s.inFlight >= 1
  {
    CountersRun(targets, Init(targets, now), sched);
    var s := Run(targets, Init(targets, now), sched);
    forall t | t in s.sends && s.sends[t].pc.Leave?
      ensures s.inFlight >= 1
    {
      TotalWithout(s.sends, InFlightShare, t);
    }
  }
}
