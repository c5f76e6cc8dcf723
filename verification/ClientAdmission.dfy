/** The policy stack holds in every interleaving: a request goes out only if its target's
    breaker admitted it and its limiter granted it, and a refusal has one of the two as its
    cause. When no two calls on the breaker overlap, its answers are those that the calls
    made before give. */
module ClientAdmission {
  import opened Breaker
  import opened BreakerLog
  import opened BreakerSolo
  import opened BreakerSerial
  import opened Client
  import opened ClientAccounting
  import opened ClientIsolation
  import opened ClientBreakers

  /** The breaker let the send through. */
  predicate PastBreaker(pc: Pc) {
    pc.Limit? || PastLimiter(pc)
  }

  /** The limiter let the send through: it is on its way out, or has been. */
  predicate PastLimiter(pc: Pc) {
    pc.Enter? || Inside(pc) || pc.Dropped? || Left(pc)
  }

  predicate TurnedDown(pc: Pc) {
    pc.CountRefusal? || pc.Refused?
  }

  // ---- answers on record ----

  /** At some step of its own on the breaker of `pid`, send `t` was answered. */
  ghost predicate Answered(targets: Targets, b: Table, t: nat, pid: PolicyId, admitted: bool) {
    && pid in b.breakers
    && exists n: nat ::
         AnsweredAt(ConfigOf(targets, pid), b.breakers[pid].born, b.breakers[pid].journal, n, t, admitted)
  }

  /** A breaker stays in the table, and its journal only grows. */
  predicate Extends(b: Table, b': Table, pid: PolicyId) {
    pid in b.breakers ==>
      && pid in b'.breakers && b'.breakers[pid].born == b.breakers[pid].born
      && b.breakers[pid].journal <= b'.breakers[pid].journal
  }

  lemma JournalGrows(targets: Targets, s: State, e: Event, pid: PolicyId)
    requires PolicyInv(s) && InsertsOnce(s)
    ensures Extends(s.table, Apply(targets, s, e).table, pid)
  {
    if e.Step? && e.t in s.sends {
      TableAfter(targets, s, e.t, s.sends[e.t], pid);
    }
  }

  lemma AnsweredLater(targets: Targets, b: Table, b': Table, t: nat, pid: PolicyId, admitted: bool)
    requires Answered(targets, b, t, pid, admitted) && Extends(b, b', pid)
    ensures Answered(targets, b', t, pid, admitted)
  {
    var cfg, g, g' := ConfigOf(targets, pid), b.breakers[pid], b'.breakers[pid];
    var n: nat :| AnsweredAt(cfg, g.born, g.journal, n, t, admitted);
    assert g'.journal[..n] == g.journal[..n];
    assert AnsweredAt(cfg, g'.born, g'.journal, n, t, admitted);
  }

  /** The step that answers. */
  lemma AnsweredNow(targets: Targets, s: State, t: nat, since: nat, admitted: bool)
    requires LinkInv(targets, s, since) && t in s.sends && s.sends[t].pc.Asking?
    requires Onward(targets, s.table, s.sends[t]) == Race.Returned(admitted)
    ensures Answered(targets, NextTable(targets, s.table, t, s.sends[t]), t, s.sends[t].pid, admitted)
  {
    var m := s.sends[t];
    assert Linked(s, m.pid, t) && GuardInv(targets, s.table, m.pid, since);
    TableAfter(targets, s, t, m, m.pid);
    AnswerOnRecord(ConfigOf(targets, m.pid), s.table.breakers[m.pid], t, admitted);
  }

  lemma AnswerOnRecord(cfg: Config, g: Guard, t: nat, admitted: bool)
    requires g.race == Race.Run(cfg, Race.Init(g.born), g.journal) && !Race.Resting(g.race, t)
    requires Race.NextPc(cfg, g.race.cells, g.race.now, g.race.threads[t]) == Race.Returned(admitted)
    ensures AnsweredAt(cfg, g.born, g.journal + [Race.Step(t)], |g.journal|, t, admitted)
  {
    assert (g.journal + [Race.Step(t)])[..|g.journal|] == g.journal;
  }

  // ---- every send's path through the stack ----

  /** A send past the breaker was admitted by it; one that was turned down was refused by
      it, or by the limiter. `no` tells whether the limiter has refused it. */
  ghost predicate Justified(targets: Targets, s: State, t: nat, no: bool) {
    t in s.sends ==>
      var m := s.sends[t];
      && (PastBreaker(m.pc) ==> Answered(targets, s.table, t, m.pid, true))
      && (TurnedDown(m.pc) ==> no || Answered(targets, s.table, t, m.pid, false))
  }

  /** Where the next step of a send takes it, as far as admission goes. */
  lemma AdmissionMove(s: State, t: nat, m: Send, at: Race.Pc)
    ensures var m' := NextSend(s, t, m, at);
            && (PastBreaker(m'.pc) ==>
                  m'.pid == m.pid && (PastBreaker(m.pc) || (m.pc.Asking? && at == Race.Returned(true))))
            && (TurnedDown(m'.pc) ==>
                  m'.pid == m.pid && (TurnedDown(m.pc) || (m.pc.Asking? && at == Race.Returned(false))))
            && (PastLimiter(m'.pc) ==> PastLimiter(m.pc))
  {
  }

  /** The record about a send that has not moved past an answer is still good. */
  lemma StillJustified(targets: Targets, b: Table, b': Table, t: nat, m: Send, no: bool)
    requires Extends(b, b', m.pid)
    requires PastBreaker(m.pc) ==> Answered(targets, b, t, m.pid, true)
    requires TurnedDown(m.pc) ==> no || Answered(targets, b, t, m.pid, false)
    ensures PastBreaker(m.pc) ==> Answered(targets, b', t, m.pid, true)
    ensures TurnedDown(m.pc) ==> no || Answered(targets, b', t, m.pid, false)
  {
    if PastBreaker(m.pc) {
      AnsweredLater(targets, b, b', t, m.pid, true);
    } else if TurnedDown(m.pc) && !no {
      AnsweredLater(targets, b, b', t, m.pid, false);
    }
  }

  lemma JustifiedOwn(targets: Targets, s: State, t: nat, no: bool, since: nat)
    requires LinkInv(targets, s, since) && t in s.sends && Justified(targets, s, t, no)
    requires Extends(s.table, NextTable(targets, s.table, t, s.sends[t]), s.sends[t].pid)
    ensures Justified(targets, StepSend(targets, s, t, s.sends[t]), t, no)
  {
    var m := s.sends[t];
    var at := Onward(targets, s.table, m);
    AdmissionMove(s, t, m, at);
    if m.pc.Asking? && at.Returned? {
      AnsweredNow(targets, s, t, since, at.admitted);
    }
    StillJustified(targets, s.table, NextTable(targets, s.table, t, m), t, m, no);
  }

  /** An event that is no step of `t` moves it only as the limiter or the upstream says. */
  lemma QuietSend(targets: Targets, s: State, e: Event, t: nat)
    requires e != Step(t)
    ensures var s' := Apply(targets, s, e);
            && (t in s.sends ==> t in s'.sends)
            && (t in s'.sends && t !in s.sends ==> s'.sends[t].pc.Peek? || s'.sends[t].pc.LoadFlag?)
            && (t in s.sends ==>
                  var m, m' := s.sends[t], s'.sends[t];
                  && m'.pid == m.pid
                  && (PastBreaker(m'.pc) ==> PastBreaker(m.pc))
                  && (TurnedDown(m'.pc) ==> TurnedDown(m.pc) || e == Answer(t, false))
                  && (PastLimiter(m'.pc) ==> PastLimiter(m.pc) || e == Answer(t, true)))
  {
  }

  lemma JustifiedStep(targets: Targets, s: State, e: Event, t: nat, no: bool, since: nat)
    requires LinkInv(targets, s, since) && Justified(targets, s, t, no)
    ensures Justified(targets, Apply(targets, s, e), t, no || e == Answer(t, false))
  {
    if t in s.sends {
      JournalGrows(targets, s, e, s.sends[t].pid);
    }
    if e == Step(t) {
      if t in s.sends {
        JustifiedOwn(targets, s, t, no, since);
      }
    } else {
      QuietSend(targets, s, e, t);
      if t in s.sends {
        StillJustified(targets, s.table, Apply(targets, s, e).table, t, s.sends[t], no);
      }
    }
  }

  lemma {:induction false} JustifiedRun(targets: Targets, s: State, sched: seq<Event>, t: nat, no: bool, since: nat)
    requires LinkInv(targets, s, since) && Justified(targets, s, t, no)
    ensures Justified(targets, Run(targets, s, sched), t, no || Answer(t, false) in sched)
    decreases |sched|
  {
    if sched != [] {
      LinkStep(targets, s, sched[0], since);
      JustifiedStep(targets, s, sched[0], t, no, since);
      JustifiedRun(targets, Apply(targets, s, sched[0]), sched[1..], t, no || sched[0] == Answer(t, false), since);
      assert Answer(t, false) in sched <==> sched[0] == Answer(t, false) || Answer(t, false) in sched[1..];
    }
  }

  predicate Out(s: State, t: nat) {
    t in s.sends && PastLimiter(s.sends[t].pc)
  }

  lemma OutStep(targets: Targets, s: State, e: Event, t: nat)
    requires !Out(s, t) && Out(Apply(targets, s, e), t)
    ensures e == Answer(t, true)
  {
    if e == Step(t) {
      if t in s.sends {
        AdmissionMove(s, t, s.sends[t], Onward(targets, s.table, s.sends[t]));
      }
    } else {
      QuietSend(targets, s, e, t);
    }
  }

  lemma {:induction false} GrantedRun(targets: Targets, s: State, sched: seq<Event>, t: nat)
    requires !Out(s, t)
    ensures Out(Run(targets, s, sched), t) ==> Answer(t, true) in sched
    decreases |sched|
  {
    if sched != [] {
      if Out(Apply(targets, s, sched[0]), t) {
        OutStep(targets, s, sched[0], t);
      } else {
        GrantedRun(targets, Apply(targets, s, sched[0]), sched[1..], t);
      }
    }
  }

  /** In every run, with the sends racing inside the breakers, a send whose request went
      out, even if it was dropped later, had been admitted by its own policy's breaker (it
      had loaded a state other than Open, or won the exchange) and granted by its limiter;
      a send that was refused had been refused by its own breaker (on a stamp too young, or
      on a lost exchange) or by its limiter. */
  lemma OnlyAdmittedGoOut(targets: Targets, now: nat, sched: seq<Event>, t: nat)
    requires t in Run(targets, Init(targets, now), sched).sends
    ensures var s := Run(targets, Init(targets, now), sched);
            var m := s.sends[t];
            && (PastLimiter(m.pc) ==> Answered(targets, s.table, t, m.pid, true) && Answer(t, true) in sched)
            && (m.pc.Refused? ==> Answered(targets, s.table, t, m.pid, false) || Answer(t, false) in sched)
  {
    JustifiedRun(targets, Init(targets, now), sched, t, false, now);
    GrantedRun(targets, Init(targets, now), sched, t);
  }

  // ---- calls that do not overlap ----

  /** Entry `i` of the log is the admission of `t`, and the calls before it give that
      answer. */
  ghost predicate Asked(cfg: Config, born: nat, log: seq<CallBy>, i: nat, t: nat, admitted: bool) {
    && i < |log| && log[i].t == t && log[i].call.Allow?
    && Admits(cfg, Replay(cfg, born, Calls(log[..i])), log[i].call.now) == admitted
  }

  lemma AskedInLog(cfg: Config, born: nat, journal: seq<Race.Event>, t: nat, admitted: bool) returns (i: nat)
    requires Serial(cfg, born, journal) && exists n: nat :: AnsweredAt(cfg, born, journal, n, t, admitted)
    ensures Asked(cfg, born, LogOf(cfg, born, journal), i, t, admitted)
  {
    var n: nat :| AnsweredAt(cfg, born, journal, n, t, admitted);
    var at := SerialAnswer(cfg, born, journal, n, t, admitted);
    LogGrows(cfg, born, journal, n + 1);
    i := |LogOf(cfg, born, journal[..n])|;
    assert LogOf(cfg, born, journal)[..i] == LogOf(cfg, born, journal[..n]);
  }

  /** If no two calls on its breaker overlap, a send whose request went out was admitted by
      the breaker that the calls finished before had made, and a refused one refused by it
      or by the limiter. */
  lemma AdmittedByItsLog(targets: Targets, now: nat, sched: seq<Event>, t: nat)
    requires var s := Run(targets, Init(targets, now), sched);
             && t in s.sends && s.sends[t].pid in s.table.breakers
             && var g := s.table.breakers[s.sends[t].pid];
                Serial(ConfigOf(targets, s.sends[t].pid), g.born, g.journal)
    ensures var s := Run(targets, Init(targets, now), sched);
            var m := s.sends[t];
            var cfg, g := ConfigOf(targets, m.pid), s.table.breakers[m.pid];
            var log := LogOf(cfg, g.born, g.journal);
            && (PastLimiter(m.pc) ==> exists i :: Asked(cfg, g.born, log, i, t, true))
            && (m.pc.Refused? ==> Answer(t, false) in sched || exists i :: Asked(cfg, g.born, log, i, t, false))
  {
    OnlyAdmittedGoOut(targets, now, sched, t);
    var s := Run(targets, Init(targets, now), sched);
    var m := s.sends[t];
    var cfg, g := ConfigOf(targets, m.pid), s.table.breakers[m.pid];
    if PastLimiter(m.pc) {
      var i := AskedInLog(cfg, g.born, g.journal, t, true);
    } else if m.pc.Refused? && Answer(t, false) !in sched {
      var i := AskedInLog(cfg, g.born, g.journal, t, false);
    }
  }
}
