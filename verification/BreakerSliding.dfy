/** The documented sliding window against the tumbling one of the code: exactly when the
    outcomes counted at an outcome are those of the last window length. */
module BreakerSliding {
  import opened Breaker
  import opened BreakerLog

  /** The clock does not go back between calls. */
  predicate InOrder(born: nat, h: seq<Call>) {
    && (forall i :: 0 <= i < |h| ==> born <= h[i].now)
    && (forall i, j :: 0 <= i < j < |h| ==> h[i].now <= h[j].now)
  }

  function OutcomesOf(h: seq<Call>): seq<Call> {
    if h == [] then []
    else
      var c := h[|h| - 1];
      OutcomesOf(h[..|h| - 1]) + if c.Allow? then [] else [c]
  }

  /** The outcomes less than a window length old at time `now`: the sliding window. */
  function Sliding(cfg: Config, h: seq<Call>, now: nat): seq<Call> {
    if h == [] then []
    else
      var c := h[|h| - 1];
      Sliding(cfg, h[..|h| - 1], now) + if !c.Allow? && now < c.now + cfg.windowMs then [c] else []
  }

  /** The last outcome of `h`, if any, is at least a window length old at time `now`. */
  predicate LastIsOld(cfg: Config, h: seq<Call>, now: nat) {
    h == [] ||
    var c := h[|h| - 1];
    if c.Allow? then LastIsOld(cfg, h[..|h| - 1], now) else c.now + cfg.windowMs <= now
  }

  lemma {:induction false} SlidingSplit(cfg: Config, a: seq<Call>, w: seq<Call>, now: nat)
    ensures Sliding(cfg, a + w, now) == Sliding(cfg, a, now) + Sliding(cfg, w, now)
    decreases |w|
  {
    if w == [] {
      assert a + w == a;
    } else {
      assert (a + w)[..|a + w| - 1] == a + w[..|w| - 1];
      SlidingSplit(cfg, a, w[..|w| - 1], now);
    }
  }

  /** Nothing before is in the sliding window exactly when the last outcome is too old. */
  lemma {:induction false} NothingBefore(cfg: Config, born: nat, h: seq<Call>, now: nat)
    requires InOrder(born, h)
    ensures Sliding(cfg, h, now) == [] <==> LastIsOld(cfg, h, now)
  {
    if h != [] {
      var p, c := h[..|h| - 1], h[|h| - 1];
      NothingBefore(cfg, born, p, now);
      if !c.Allow? && c.now + cfg.windowMs <= now {
        AllOld(cfg, born, p, c, now);
      }
    }
  }

  lemma {:induction false} AllOld(cfg: Config, born: nat, h: seq<Call>, c: Call, now: nat)
    requires InOrder(born, h) && (forall i :: 0 <= i < |h| ==> h[i].now <= c.now)
    requires c.now + cfg.windowMs <= now
    ensures Sliding(cfg, h, now) == []
  {
    if h != [] {
      AllOld(cfg, born, h[..|h| - 1], c, now);
    }
  }

  lemma {:induction false} AllRecent(cfg: Config, w: seq<Call>, now: nat)
    requires forall i :: 0 <= i < |w| && !w[i].Allow? ==> now < w[i].now + cfg.windowMs
    ensures Sliding(cfg, w, now) == OutcomesOf(w)
  {
    if w != [] {
      AllRecent(cfg, w[..|w| - 1], now);
    }
  }

  /** The window's calls come after its start, and its start after construction. */
  ghost predicate Started(m: Mode, now: nat) {
    m.start <= now && forall i :: 0 <= i < |m.window| ==> m.start <= m.window[i].now
  }

  lemma {:induction false} StartsFirst(cfg: Config, born: nat, h: seq<Call>, now: nat)
    requires InOrder(born, h) && born <= now && forall i :: 0 <= i < |h| ==> h[i].now <= now
    ensures Started(Reference(cfg, born, h), now)
  {
    if h != [] {
      var p, c := h[..|h| - 1], h[|h| - 1];
      StartsFirst(cfg, born, p, c.now);
      var m, m' := Reference(cfg, born, p), Reference(cfg, born, h);
      assert m'.window == [] || m'.window == [c] || m'.window == m.window + [c];
    }
  }

  /** Every outcome counted at an outcome is less than a window length old. */
  lemma {:induction false} CountedIsRecent(cfg: Config, born: nat, h: seq<Call>)
    requires InOrder(born, h) && h != [] && !h[|h| - 1].Allow? && cfg.windowMs > 0
    requires Reference(cfg, born, h[..|h| - 1]).state.Closed? || Reference(cfg, born, h).state.Closed?
    ensures var w, now := Reference(cfg, born, h).window, h[|h| - 1].now;
            forall i :: 0 <= i < |w| && !w[i].Allow? ==> now < w[i].now + cfg.windowMs
  {
    var p, c := h[..|h| - 1], h[|h| - 1];
    var m, m' := Reference(cfg, born, p), Reference(cfg, born, h);
    if m.state.Closed? {
      StartsFirst(cfg, born, h, c.now);
      if !RotationDue(cfg, m.start, c.now) {
        assert m'.start == m.start;
      }
    }
  }

  lemma {:induction false} Compare(cfg: Config, born: nat, before: seq<Call>, w: seq<Call>, now: nat)
    requires InOrder(born, before)
    requires forall i :: 0 <= i < |w| && !w[i].Allow? ==> now < w[i].now + cfg.windowMs
    ensures OutcomesOf(w) == Sliding(cfg, before + w, now) <==> LastIsOld(cfg, before, now)
  {
    SlidingSplit(cfg, before, w, now);
    AllRecent(cfg, w, now);
    NothingBefore(cfg, born, before, now);
    var older := Sliding(cfg, before, now);
    assert |older + OutcomesOf(w)| == |older| + |OutcomesOf(w)|;
  }

  /** Exact: when an outcome is recorded in the Closed state, or closes the breaker, the
      outcomes of the window are those of the sliding window if and only if the last
      outcome before the window is at least a window length old. */
  lemma {:induction false} SlidingExactly(cfg: Config, born: nat, h: seq<Call>)
    requires InOrder(born, h) && h != [] && !h[|h| - 1].Allow? && cfg.windowMs > 0
    requires Reference(cfg, born, h[..|h| - 1]).state.Closed? || Reference(cfg, born, h).state.Closed?
    ensures var w, now := Reference(cfg, born, h).window, h[|h| - 1].now;
            && IsSuffix(w, h)
            && (OutcomesOf(w) == Sliding(cfg, h, now) <==> LastIsOld(cfg, h[..|h| - |w|], now))
  {
    var w, now := Reference(cfg, born, h).window, h[|h| - 1].now;
    WindowIsLogSuffix(cfg, born, h);
    var before := h[..|h| - |w|];
    assert h == before + w;
    CountedIsRecent(cfg, born, h);
    Compare(cfg, born, before, w, now);
  }

  /** A rotation forgets a success one millisecond old, and the failure that comes next
      opens the breaker although only half of the outcomes of the last window length are
      failures, where the threshold is six in ten. */
  lemma RotationForgets() returns (cfg: Config, h: seq<Call>)
    ensures cfg == Config(0.6, 1, 10, 5) && h == [Success(10), Failure(11, 11)]
    ensures InOrder(1, h) && Replay(cfg, 1, h).state.Open?
    ensures Reference(cfg, 1, h).window == [h[1]] && Sliding(cfg, h, 11) == h
    ensures Below(cfg.threshold, FailuresIn(h), Outcomes(h))
  {
    cfg, h := Config(0.6, 1, 10, 5), [Success(10), Failure(11, 11)];
    var first, second := h[0], h[1];
    assert h == ([] + [first]) + [second] && [] + [first] == [first];
    ReplayMore(cfg, 1, [], first);
    ReplayMore(cfg, 1, [first], second);
    assert h[..1] == [first] && [first][..0] == [];
    assert Reference(cfg, 1, []).start == 1;
    assert Reference(cfg, 1, [first]) == Mode(Closed, [first], 1, 0);
    assert Sliding(cfg, [first], 11) == [first];
    assert Outcomes([first]) == 1 && FailuresIn([first]) == 0;
  }
}
