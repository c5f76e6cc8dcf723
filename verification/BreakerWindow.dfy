/** The measurement window under contention: how often it can rotate, and how far the
    two counters can drift apart although they are cleared and incremented one by one. */
module BreakerWindow {
  import opened Breaker
  import opened Tally
  import opened BreakerRace

  /** An event moves at most the thread it names. */
  lemma OthersStay(cfg: Config, s: Race, e: Event)
    ensures var s' := Apply(cfg, s, e);
            && (e.Tick? ==> s'.threads == s.threads)
            && (!e.Tick? && s'.threads != s.threads ==>
                  e.t in s'.threads && s'.threads == s.threads[e.t := s'.threads[e.t]])
  {
  }

  // ---- rotation rate ----

  /** With k rotations since the latest reset stamp s, at least k window lengths lie
      between s and the window's start, and the start is not ahead of the clock. */
  predicate RotationRate(cfg: Config, s: Race) {
    && s.hist.base <= s.cells.windowStart <= s.now
    && s.hist.rotations * cfg.windowMs <= s.cells.windowStart - s.hist.base
  }

  predicate StampsInv(cfg: Config, now: nat, pc: Pc) {
    match pc
    case ResetStart(stamp) => stamp <= now
    case RotateClock(_, start) => start <= now
    case RotateSwap(_, start, stamp) => start + cfg.windowMs <= stamp <= now
    case _ => true
  }

  predicate RotationInv(cfg: Config, s: Race) {
    && RotationRate(cfg, s)
    && forall t :: t in s.threads ==> StampsInv(cfg, s.now, s.threads[t])
  }

  lemma OneMoreRotation(k: nat, w: nat, span: nat)
    requires k * w <= span
    ensures (k + 1) * w <= span + w
  {
  }

  lemma RotationMove(cfg: Config, s: Race, t: nat)
    requires RotationInv(cfg, s) && t in s.threads
    ensures var s' := Apply(cfg, s, Step(t));
            RotationRate(cfg, s') && StampsInv(cfg, s'.now, s'.threads[t])
  {
    assert StampsInv(cfg, s.now, s.threads[t]);
    OneMoreRotation(s.hist.rotations, cfg.windowMs, s.cells.windowStart - s.hist.base);
  }

  lemma RotationStep(cfg: Config, s: Race, e: Event)
    requires RotationInv(cfg, s)
    ensures RotationInv(cfg, Apply(cfg, s, e))
  {
    if e.Step? && e.t in s.threads {
      RotationMove(cfg, s, e.t);
      OthersStay(cfg, s, e);
    }
  }

  lemma {:induction false} RotationRun(cfg: Config, s: Race, sched: seq<Event>)
    requires RotationInv(cfg, s)
    ensures RotationInv(cfg, Run(cfg, s, sched))
    decreases |sched|
  {
    if sched != [] {
      RotationStep(cfg, s, sched[0]);
      RotationRun(cfg, Apply(cfg, s, sched[0]), sched[1..]);
    }
  }

  /** In every reachable state, whatever the interleaving, k rotations since the latest
      reset (or construction) at s mean k * window <= windowStart - s <= now - s. */
  lemma RotationsAreSpaced(cfg: Config, born: nat, sched: seq<Event>)
    ensures RotationRate(cfg, Run(cfg, Init(born), sched))
  {
    RotationRun(cfg, Init(born), sched);
  }

  // ---- counter skew ----

  /** A clear that has zeroed the request counter but not yet the failure counter. */
  predicate Clearing(pc: Pc) {
    pc.ResetFailures? || pc.RotateFailures?
  }

  ghost predicate ClearInProgress(s: Race) {
    exists t :: t in s.threads && Clearing(s.threads[t])
  }

  /** The failure increments since the latest zeroing of the request counter, plus the
      recorders that owe one, are covered by the requests counted since and by the
      recorders that were between their increments at that zeroing. */
  ghost predicate SkewInv(s: Race) {
    && (!s.hist.wrapped ==>
          && s.hist.failsSince + Total(s.threads, Between) <= s.cells.requests + s.hist.stale
          && (s.hist.cleared ==> s.cells.failures <= s.hist.failsSince))
    && (!s.hist.cleared ==> ClearInProgress(s))
  }

  /** The shared counters and the history after one event, with the recorders between
      their increments counted. */
  lemma BetweenAfter(cfg: Config, s: Race, e: Event)
    ensures var s' := Apply(cfg, s, e);
            Total(s'.threads, Between) == Total(s.threads, Between)
              + (if e.Step? && At(s, e.t, CountRequest(true)) then 1 else 0)
              - (if e.Step? && e.t in s.threads && s.threads[e.t].CountFailure? then 1 else 0)
  {
    var s' := Apply(cfg, s, e);
    OthersStay(cfg, s, e);
    if !e.Tick? && e.t in s'.threads {
      TotalUpdate(s.threads, Between, e.t, s'.threads[e.t]);
      assert s'.threads == s.threads[e.t := s'.threads[e.t]];
    }
  }

  lemma SkewCounters(cfg: Config, s: Race, e: Event)
    requires SkewInv(s)
    ensures var s' := Apply(cfg, s, e);
            !s'.hist.wrapped ==>
              && s'.hist.failsSince + Total(s'.threads, Between) <= s'.cells.requests + s'.hist.stale
              && (s'.hist.cleared ==> s'.cells.failures <= s'.hist.failsSince)
  {
    BetweenAfter(cfg, s, e);
  }

  lemma ClearedAfter(cfg: Config, s: Race, e: Event)
    ensures var s' := Apply(cfg, s, e);
            && (s.hist.cleared && !s'.hist.cleared ==> e.Step? && e.t in s'.threads && Clearing(s'.threads[e.t]))
            && (e.Step? && e.t in s.threads && Clearing(s.threads[e.t]) ==> s'.hist.cleared)
            && (e.Start? && e.t in s.threads && Clearing(s.threads[e.t]) ==> s' == s)
  {
  }

  lemma SkewClearing(cfg: Config, s: Race, e: Event)
    requires SkewInv(s)
    ensures var s' := Apply(cfg, s, e); !s'.hist.cleared ==> ClearInProgress(s')
  {
    var s' := Apply(cfg, s, e);
    ClearedAfter(cfg, s, e);
    if !s'.hist.cleared && !s.hist.cleared {
      var t :| t in s.threads && Clearing(s.threads[t]);
      OthersStay(cfg, s, e);
      assert t in s'.threads && Clearing(s'.threads[t]);
    }
  }

  lemma {:induction false} SkewRun(cfg: Config, s: Race, sched: seq<Event>)
    requires SkewInv(s)
    ensures SkewInv(Run(cfg, s, sched))
    decreases |sched|
  {
    if sched != [] {
      SkewCounters(cfg, s, sched[0]);
      SkewClearing(cfg, s, sched[0]);
      SkewRun(cfg, Apply(cfg, s, sched[0]), sched[1..]);
    }
  }

  /** In every reachable state with no clear in progress and no u32 wrap-around, the
      failure counter exceeds the request counter by at most the number of failure
      recorders that stood between their two increments when zero was last stored to the
      request counter (less those that still owe their second increment now). */
  lemma SkewBound(cfg: Config, born: nat, sched: seq<Event>)
    ensures var s := Run(cfg, Init(born), sched);
            !ClearInProgress(s) && !s.hist.wrapped ==>
              s.cells.failures + Total(s.threads, Between) <= s.cells.requests + s.hist.stale
  {
    SkewRun(cfg, Init(born), sched);
  }
}
