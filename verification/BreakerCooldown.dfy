/** How long an opened breaker stays closed to probes when callers race, and that it
    can always be probed again. `open_circuit` stores the state before the stamp, so an
    older stamp may still be read: the cooldown holds after a store of Open exactly when
    no older stamp is left anywhere. */
module BreakerCooldown {
  import opened Breaker
  import opened Tally
  import opened BreakerRace

  // ---- the exact condition for the cooldown ----

  predicate Current(stamp: nat, since: nat) {
    stamp == 0 || stamp >= since
  }

  /** No stamp from before `since` is left: not in the cell, not with a caller that has
      loaded it or already passed the time test on it, not with an opener about to
      store it. */
  predicate NoStaleStamp(s: Race, since: nat) {
    && Current(s.cells.openedAt, since)
    && forall t :: t in s.threads ==>
         var pc := s.threads[t];
         && (pc.AllowTest? || pc.OpenStamp? ==> Current(pc.stamp, since))
         && !pc.AllowSwap?
  }

  /** As above, but callers may have passed the time test on a current stamp. */
  predicate Cooling(cfg: Config, s: Race, since: nat) {
    && s.now >= since
    && Current(s.cells.openedAt, since)
    && forall t :: t in s.threads ==>
         var pc := s.threads[t];
         && (pc.AllowTest? || pc.OpenStamp? ==> Current(pc.stamp, since))
         && (pc.AllowSwap? ==> s.now >= since + cfg.halfOpenMs)
  }

  lemma {:induction false} CoolingRun(cfg: Config, s: Race, since: nat, sched: seq<Event>)
    requires Cooling(cfg, s, since)
    ensures Cooling(cfg, Run(cfg, s, sched), since)
    decreases |sched|
  {
    if sched != [] {
      CoolingRun(cfg, Apply(cfg, s, sched[0]), since, sched[1..]);
    }
  }

  /** In every continuation, each winning exchange comes at least the half-open timeout
      after `since`. */
  ghost predicate CooldownKept(cfg: Config, s: Race, since: nat) {
    forall sched, e :: WinsAt(Run(cfg, s, sched), e) ==>
      Run(cfg, s, sched).now >= since + cfg.halfOpenMs
  }

  /** A fresh caller wins as soon as the stamp in the cell has aged enough. */
  lemma ProbeWins(cfg: Config, s: Race) returns (sched: seq<Event>, e: Event)
    requires s.cells.state.Open? && s.cells.openedAt > 0
    ensures WinsAt(Run(cfg, s, sched), e)
    ensures Run(cfg, s, sched).now ==
              if s.now < s.cells.openedAt + cfg.halfOpenMs
              then s.cells.openedAt + cfg.halfOpenMs else s.now
  {
    var t := FreshKey(s.threads.Keys);
    var wait := SaturatingSub(s.cells.openedAt + cfg.halfOpenMs, s.now);
    e := Step(t);
    sched := [Start(t, AllowCall)] + ([e] + ([e] + ([Tick(wait)] + ([e] + []))));
    var s1 := Apply(cfg, s, Start(t, AllowCall));
    var s2 := Apply(cfg, s1, e);
    assert At(s2, t, AllowStamp) && s2.cells == s.cells && s2.now == s.now;
    var s3 := Apply(cfg, s2, e);
    assert At(s3, t, AllowTest(s.cells.openedAt)) && s3.cells == s.cells && s3.now == s.now;
    var s4 := Apply(cfg, s3, Tick(wait));
    assert WinsAt(Apply(cfg, s4, e), e);
    RunCons(cfg, s, Start(t, AllowCall), [e] + ([e] + ([Tick(wait)] + ([e] + []))));
    RunCons(cfg, s1, e, [e] + ([Tick(wait)] + ([e] + [])));
    RunCons(cfg, s2, e, [Tick(wait)] + ([e] + []));
    RunCons(cfg, s3, Tick(wait), [e] + []);
    RunCons(cfg, s4, e, []);
  }

  /** A stale stamp lets some continuation win too early. */
  lemma StaleStampWinsEarly(cfg: Config, s: Race) returns (sched: seq<Event>, e: Event)
    requires s.cells.state.Open? && cfg.halfOpenMs > 0
    requires !NoStaleStamp(s, s.now)
    ensures WinsAt(Run(cfg, s, sched), e)
    ensures Run(cfg, s, sched).now < s.now + cfg.halfOpenMs
  {
    if !Current(s.cells.openedAt, s.now) {
      sched, e := ProbeWins(cfg, s);
    } else {
      var t :| t in s.threads &&
        (s.threads[t].AllowSwap? ||
         ((s.threads[t].AllowTest? || s.threads[t].OpenStamp?) && !Current(s.threads[t].stamp, s.now)));
      e := Step(t);
      match s.threads[t]
      case AllowSwap =>
        sched := [];
      case AllowTest(stamp) =>
        var wait := SaturatingSub(stamp + cfg.halfOpenMs, s.now);
        sched := [Tick(wait)] + ([e] + []);
        RunCons(cfg, s, Tick(wait), [e] + []);
        RunCons(cfg, Apply(cfg, s, Tick(wait)), e, []);
      case OpenStamp(stamp) =>
        var s1 := Apply(cfg, s, e);
        var rest, win := ProbeWins(cfg, s1);
        RunCons(cfg, s, e, rest);
        sched, e := [e] + rest, win;
    }
  }

  /** Exact cooldown: after thread `t` stores Open at time `s.now`, every later winning
      exchange is at least the half-open timeout away if and only if that timeout is
      zero or the store left no older stamp behind. */
  lemma CooldownExact(cfg: Config, s: Race, t: nat)
    requires At(s, t, OpenStore)
    ensures var s' := Apply(cfg, s, Step(t));
            CooldownKept(cfg, s', s.now) <==> cfg.halfOpenMs == 0 || NoStaleStamp(s', s.now)
  {
    var s' := Apply(cfg, s, Step(t));
    var since := s.now;
    if NoStaleStamp(s', since) || cfg.halfOpenMs == 0 {
      forall sched, e | WinsAt(Run(cfg, s', sched), e)
        ensures Run(cfg, s', sched).now >= since + cfg.halfOpenMs
      {
        if NoStaleStamp(s', since) {
          CoolingRun(cfg, s', since, sched);
        } else {
          ClockMonotone(cfg, s', sched);
        }
      }
    } else {
      var sched, e := StaleStampWinsEarly(cfg, s');
    }
  }

  lemma {:induction false} ClockMonotone(cfg: Config, s: Race, sched: seq<Event>)
    ensures Run(cfg, s, sched).now >= s.now
    decreases |sched|
  {
    if sched != [] {
      ClockMonotone(cfg, Apply(cfg, s, sched[0]), sched[1..]);
    }
  }

  // ---- the first opening ----

  /** Nothing has opened yet. */
  predicate Pristine(s: Race) {
    && s.cells.state.Closed? && s.cells.openedAt == 0
    && forall t :: t in s.threads ==>
         var pc := s.threads[t];
         !(pc.AllowStamp? || pc.AllowTest? || pc.AllowSwap? || pc.OpenClock? || pc.OpenStamp? || pc.CloseStore?)
  }

  lemma {:induction false} PristineRun(cfg: Config, s: Race, sched: seq<Event>)
    requires Pristine(s) && Opens(cfg, s, sched) == 0
    ensures Pristine(Run(cfg, s, sched))
    decreases |sched|
  {
    if sched != [] {
      PristineRun(cfg, Apply(cfg, s, sched[0]), sched[1..]);
    }
  }

  /** The first opening of a run always cools down: however the callers interleave, the
      first winning exchange comes at least the half-open timeout after the first store
      of Open. */
  lemma FirstCooldown(cfg: Config, born: nat, sched: seq<Event>, t: nat)
    requires Opens(cfg, Init(born), sched) == 0
    requires At(Run(cfg, Init(born), sched), t, OpenStore)
    ensures var s := Run(cfg, Init(born), sched);
            CooldownKept(cfg, Apply(cfg, s, Step(t)), s.now)
  {
    PristineRun(cfg, Init(born), sched);
    CooldownExact(cfg, Run(cfg, Init(born), sched), t);
  }

  // ---- no wedge ----

  predicate Stamping(pc: Pc) {
    pc.OpenClock? || pc.OpenStamp?
  }

  /** Open implies a positive stamp, or an opener still between its two stores. */
  ghost predicate NotWedged(s: Race) {
    && s.now > 0
    && (forall t :: t in s.threads && s.threads[t].OpenStamp? ==> s.threads[t].stamp > 0)
    && (s.cells.state.Open? ==>
          s.cells.openedAt > 0 || exists t :: t in s.threads && Stamping(s.threads[t]))
  }

  lemma NotWedgedStep(cfg: Config, s: Race, e: Event)
    requires NotWedged(s)
    ensures NotWedged(Apply(cfg, s, e))
  {
    var s' := Apply(cfg, s, e);
    if s'.cells.state.Open? && s'.cells.openedAt == 0 {
      if OpensAt(s, e) {
        assert Stamping(s'.threads[e.t]);
      } else {
        var t :| t in s.threads && Stamping(s.threads[t]);
        assert t in s'.threads && Stamping(s'.threads[t]);
      }
    }
  }

  lemma {:induction false} NeverWedged(cfg: Config, s: Race, sched: seq<Event>)
    requires NotWedged(s)
    ensures NotWedged(Run(cfg, s, sched))
    decreases |sched|
  {
    if sched != [] {
      NotWedgedStep(cfg, s, sched[0]);
      NeverWedged(cfg, Apply(cfg, s, sched[0]), sched[1..]);
    }
  }

  /** From every reachable Open state some continuation admits a probe. */
  lemma CanAlwaysProbe(cfg: Config, born: nat, sched: seq<Event>) returns (more: seq<Event>, e: Event)
    requires born > 0 && Run(cfg, Init(born), sched).cells.state.Open?
    ensures WinsAt(Run(cfg, Run(cfg, Init(born), sched), more), e)
  {
    var s := Run(cfg, Init(born), sched);
    NeverWedged(cfg, Init(born), sched);
    if s.cells.openedAt > 0 {
      more, e := ProbeWins(cfg, s);
    } else {
      var t :| t in s.threads && Stamping(s.threads[t]);
      var s1 := if s.threads[t].OpenClock? then Apply(cfg, s, Step(t)) else s;
      var s2 := Apply(cfg, s1, Step(t));
      var rest, win := ProbeWins(cfg, s2);
      RunCons(cfg, s1, Step(t), rest);
      more, e := [Step(t)] + rest, win;
      if s.threads[t].OpenClock? {
        RunCons(cfg, s, Step(t), more);
        more := [Step(t)] + more;
      }
    }
  }
}
