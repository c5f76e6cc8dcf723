/** The breaker as a function of its call log. A reference breaker keeps no
    counters: it remembers where the current window begins in the log and counts
    the outcomes recorded there. The five cells agree with it after every history. */
module BreakerLog {
  import opened Breaker

  /** The cells after a history of uninterrupted calls. */
  function Replay(cfg: Config, born: nat, h: seq<Call>): Cells {
    if h == [] then Fresh(born)
    else After(cfg, Replay(cfg, born, h[..|h| - 1]), h[|h| - 1])
  }

  lemma {:induction false} ReplayMore(cfg: Config, born: nat, h: seq<Call>, c: Call)
    ensures Replay(cfg, born, h + [c]) == After(cfg, Replay(cfg, born, h), c)
  {
    assert (h + [c])[..|h|] == h;
  }

  function Outcomes(h: seq<Call>): nat {
    if h == [] then 0
    else Outcomes(h[..|h| - 1]) + if h[|h| - 1].Allow? then 0 else 1
  }

  function FailuresIn(h: seq<Call>): (n: nat)
    ensures n <= Outcomes(h)
  {
    if h == [] then 0
    else FailuresIn(h[..|h| - 1]) + if h[|h| - 1].Failure? then 1 else 0
  }

  /** A breaker without counters: `window` is the part of the log that belongs to the
      current window, `start` the time stamped on it and `since` the time of the latest
      opening. */
  datatype Mode = Mode(state: CbState, window: seq<Call>, start: nat, since: nat)

  /** One more call `c`: a rotation begins the window with `c`, the reset that follows
      a successful probe begins it after `c`, and any other call extends it. */
  function Advance(cfg: Config, m: Mode, c: Call): Mode {
    var more := m.(window := m.window + [c]);
    match m.state
    case Open =>
      if c.Allow? && CooledDown(cfg, m.since, c.now) then more.(state := HalfOpen) else more
    case HalfOpen =>
      if c.Success? then Mode(Closed, [], c.now, m.since)
      else if c.Failure? then more.(state := Open, since := c.stamp)
      else more
    case Closed =>
      if c.Allow? then more
      else
        var w := if RotationDue(cfg, m.start, c.now) then m.(window := [c], start := c.now) else more;
        if c.Failure? && Trips(cfg, Outcomes(w.window), FailuresIn(w.window))
        then w.(state := Open, since := c.stamp) else w
  }

  /** The reference breaker, recomputed from the whole history. */
  function Reference(cfg: Config, born: nat, h: seq<Call>): Mode {
    if h == [] then Mode(Closed, [], born, 0)
    else Advance(cfg, Reference(cfg, born, h[..|h| - 1]), h[|h| - 1])
  }

  predicate IsSuffix(w: seq<Call>, h: seq<Call>) {
    |w| <= |h| && w == h[|h| - |w|..]
  }

  lemma {:induction false} SuffixAdvance(cfg: Config, m: Mode, p: seq<Call>, c: Call)
    requires IsSuffix(m.window, p)
    ensures IsSuffix(Advance(cfg, m, c).window, p + [c])
  {
    var w' := Advance(cfg, m, c).window;
    assert w' == [] || w' == [c] || w' == m.window + [c];
  }

  /** The reference window is a stretch of the log that reaches up to its end. */
  lemma {:induction false} WindowIsLogSuffix(cfg: Config, born: nat, h: seq<Call>)
    ensures IsSuffix(Reference(cfg, born, h).window, h)
  {
    if h != [] {
      var p, c := h[..|h| - 1], h[|h| - 1];
      WindowIsLogSuffix(cfg, born, p);
      SuffixAdvance(cfg, Reference(cfg, born, p), p, c);
      assert h == p + [c];
    }
  }

  /** Every window so far held fewer than 2^32 outcomes. */
  predicate NoWrap(cfg: Config, born: nat, h: seq<Call>) {
    h == [] ||
    (NoWrap(cfg, born, h[..|h| - 1]) && Outcomes(Reference(cfg, born, h).window) < U32_LIMIT)
  }

  /** Counting one more call. */
  lemma {:induction false} CountMore(w: seq<Call>, c: Call)
    ensures Outcomes(w + [c]) == Outcomes(w) + if c.Allow? then 0 else 1
    ensures FailuresIn(w + [c]) == FailuresIn(w) + if c.Failure? then 1 else 0
  {
    assert (w + [c])[..|w|] == w;
  }

  /** The cells stand for the reference: the state and both stamps agree, and while
      Closed the two counters are the outcome and failure counts of the window. */
  predicate Agree(b: Cells, m: Mode) {
    && b.state == m.state && b.windowStart == m.start && b.openedAt == m.since
    && (b.state.Closed? ==> b.requests == Outcomes(m.window) && b.failures == FailuresIn(m.window))
  }

  /** The counters after one more outcome in the window `w`. */
  lemma {:induction false} Recount(w: seq<Call>, c: Call, requests: u32, failures: u32)
    requires requests == Outcomes(w) && failures == FailuresIn(w)
    requires !c.Allow? && Outcomes(w + [c]) < U32_LIMIT
    ensures Bump(requests) == Outcomes(w + [c])
    ensures c.Failure? ==> Bump(failures) == FailuresIn(w + [c])
    ensures c.Success? ==> failures == FailuresIn(w + [c])
  {
    CountMore(w, c);
  }

  lemma {:induction false} AgreeOutcome(cfg: Config, b: Cells, m: Mode, c: Call)
    requires Agree(b, m) && b.state.Closed? && !c.Allow?
    requires Outcomes(Advance(cfg, m, c).window) < U32_LIMIT
    ensures Agree(After(cfg, b, c), Advance(cfg, m, c))
  {
    var old' := if RotationDue(cfg, m.start, c.now) then [] else m.window;
    var w := RotateWindow(cfg, b, c.now);
    assert Outcomes([]) == 0 && FailuresIn([]) == 0;
    assert [] + [c] == [c];
    assert Advance(cfg, m, c).window == old' + [c];
    Recount(old', c, w.requests, w.failures);
    if c.Success? {
      assert After(cfg, b, c) == CountSuccess(w);
    } else {
      assert After(cfg, b, c) == CountFailure(cfg, w, c.stamp);
    }
  }

  lemma {:induction false} AgreeAfter(cfg: Config, b: Cells, m: Mode, c: Call)
    requires Agree(b, m)
    requires Outcomes(Advance(cfg, m, c).window) < U32_LIMIT
    ensures Agree(After(cfg, b, c), Advance(cfg, m, c))
  {
    if b.state.Closed? && !c.Allow? {
      AgreeOutcome(cfg, b, m, c);
    } else if b.state.Closed? {
      CountMore(m.window, c);
    } else {
      assert Outcomes([]) == 0 && FailuresIn([]) == 0;
    }
  }

  /** The cells refine the reference breaker on every history. In particular, while
      Closed the counters are exactly the counts since the latest construction, rotation
      or reset. */
  lemma {:induction false} RefinesLog(cfg: Config, born: nat, h: seq<Call>)
    requires NoWrap(cfg, born, h)
    ensures Agree(Replay(cfg, born, h), Reference(cfg, born, h))
  {
    if h != [] {
      RefinesLog(cfg, born, h[..|h| - 1]);
      AgreeAfter(cfg, Replay(cfg, born, h[..|h| - 1]), Reference(cfg, born, h[..|h| - 1]), h[|h| - 1]);
    }
  }

  // ---- the window tumbles ----

  /** The outcome belongs to the window that starts at `start`: it began that window, or
      was recorded less than a window length after its start. */
  predicate Spans(cfg: Config, start: nat, c: Call) {
    c.Allow? || c.now == start || c.now < start + cfg.windowMs
  }

  ghost predicate WindowSpans(cfg: Config, m: Mode) {
    forall i :: 0 <= i < |m.window| ==> Spans(cfg, m.start, m.window[i])
  }

  /** While Closed, the window counts no outcome recorded a window length or more after
      its start: such an outcome begins a new window instead. */
  lemma {:induction false} WindowTumbles(cfg: Config, born: nat, h: seq<Call>)
    requires Reference(cfg, born, h).state.Closed?
    ensures WindowSpans(cfg, Reference(cfg, born, h))
  {
    if h != [] {
      var m := Reference(cfg, born, h[..|h| - 1]);
      if m.state.Closed? {
        WindowTumbles(cfg, born, h[..|h| - 1]);
      }
    }
  }

  // ---- the drawn edges, for uninterrupted calls ----

  /** The state changes exactly along the drawn edges, each under its own condition. */
  lemma {:induction false} DrawnEdges(cfg: Config, born: nat, h: seq<Call>, c: Call)
    requires NoWrap(cfg, born, h + [c])
    ensures var b, b' := Replay(cfg, born, h), Replay(cfg, born, h + [c]);
            var w := Reference(cfg, born, h + [c]).window;
            match b.state
            case Closed =>
              && (b'.state.Open? <==> c.Failure? && Trips(cfg, Outcomes(w), FailuresIn(w)))
              && !b'.state.HalfOpen?
            case Open =>
              && (b'.state.HalfOpen? <==> c.Allow? && CooledDown(cfg, b.openedAt, c.now))
              && !b'.state.Closed?
            case HalfOpen =>
              && (b'.state.Closed? <==> c.Success?)
              && (b'.state.Open? <==> c.Failure?)
  {
    assert (h + [c])[..|h|] == h;
    RefinesLog(cfg, born, h);
    RefinesLog(cfg, born, h + [c]);
  }

  /** Call `i` opened the breaker, and it has stayed open until `n` calls were made:
      every admission request in between was refused. */
  ghost predicate OpenFrom(cfg: Config, born: nat, h: seq<Call>, i: nat, n: nat) {
    && i < n <= |h|
    && h[i].Failure?
    && !Replay(cfg, born, h[..i]).state.Open?
    && forall j :: i < j <= n ==>
         var b := Replay(cfg, born, h[..j]);
         && b.state.Open? && b.openedAt == h[i].stamp
         && (j < n && h[j].Allow? ==> !Admits(cfg, b, h[j].now))
  }

  /** How one call leaves the breaker Open. */
  lemma OpenStep(cfg: Config, b: Cells, c: Call)
    requires After(cfg, b, c).state.Open?
    ensures var b' := After(cfg, b, c);
            if b.state.Open? then b' == b && (c.Allow? ==> !Admits(cfg, b, c.now))
            else c.Failure? && b'.openedAt == c.stamp
  {
  }

  lemma {:induction false} OpenFromLonger(cfg: Config, born: nat, h: seq<Call>, i: nat, n: nat)
    requires OpenFrom(cfg, born, h, i, n) && n < |h|
    requires var b := Replay(cfg, born, h[..n]);
             && Replay(cfg, born, h[..n + 1]) == b
             && (h[n].Allow? ==> !Admits(cfg, b, h[n].now))
    ensures OpenFrom(cfg, born, h, i, n + 1)
  {
  }

  /** Why an Open breaker is open: some failure, at the time kept in `openedAt`, opened
      it, and every admission request since then was refused. */
  lemma {:induction false} OpenSince(cfg: Config, born: nat, h: seq<Call>, n: nat) returns (i: nat)
    requires n <= |h| && Replay(cfg, born, h[..n]).state.Open?
    ensures OpenFrom(cfg, born, h, i, n)
    ensures h[i].stamp == Replay(cfg, born, h[..n]).openedAt
  {
    assert n > 0;
    ReplaySnoc(cfg, born, h, n - 1);
    OpenStep(cfg, Replay(cfg, born, h[..n - 1]), h[n - 1]);
    if Replay(cfg, born, h[..n - 1]).state.Open? {
      i := OpenSince(cfg, born, h, n - 1);
      OpenFromLonger(cfg, born, h, i, n - 1);
    } else {
      i := n - 1;
    }
  }

  lemma {:induction false} ReplaySnoc(cfg: Config, born: nat, h: seq<Call>, n: nat)
    requires n < |h|
    ensures Replay(cfg, born, h[..n + 1]) == After(cfg, Replay(cfg, born, h[..n]), h[n])
  {
    assert h[..n + 1][..n] == h[..n];
  }

  /** An Open breaker admits some later request if and only if its opening stamp is
      positive; a stamp of zero (a clock before the epoch) would wedge it for good. */
  lemma {:induction false} ReopensIffStamped(cfg: Config, b: Cells)
    requires b.state.Open?
    ensures (exists now :: Admits(cfg, b, now)) <==> b.openedAt > 0
    ensures b.openedAt == 0 ==> forall c :: After(cfg, b, c) == b
  {
    if b.openedAt > 0 {
      assert Admits(cfg, b, b.openedAt + cfg.halfOpenMs);
    }
  }

  // ---- the trip point ----

  lemma RatioTest(requests: nat, failures: nat, t: real)
    requires requests > 0
    ensures Ratio(failures, requests) >= t <==> failures as real >= t * requests as real
  {
    var r, f := requests as real, failures as real;
    var q := f / r;
    assert q * r == f;
    if q >= t {
      assert (q - t) * r >= 0.0;
    } else {
      assert (t - q) * r > 0.0;
    }
  }

  function Quota(x: real, y: real): int
    requires y > 0.0
  {
    -((-(x / y)).Floor)
  }

  function Max(a: int, b: int): int {
    if a < b then b else a
  }

  /** The least number of further failures that lifts the ratio to `t`. */
  function RatioDeficit(t: real, r: nat, f: nat): int
    requires t < 1.0
  {
    Quota(t * r as real - f as real, 1.0 - t)
  }

  /** How many more consecutive failures open a Closed breaker that has seen
      `r` requests and `f` failures in its window. */
  function TripPoint(cfg: Config, r: nat, f: nat): (k: nat)
    requires cfg.threshold < 1.0
    ensures k >= 1
  {
    Max(1, Max(cfg.minRequests - r, RatioDeficit(cfg.threshold, r, f)))
  }

  /** `Quota(x, y)` is the least whole number of steps of length `y` that reach `x`. */
  lemma QuotaIsLeast(x: real, y: real, j: int)
    requires y > 0.0
    ensures j >= Quota(x, y) <==> j as real * y >= x
  {
    var q := x / y;
    assert q * y == x;
    if j as real >= q {
      assert (j as real - q) * y >= 0.0;
    } else {
      assert (q - j as real) * y > 0.0;
    }
  }

  lemma Rearrange(t: real, r: real, f: real, j: real, x: real, y: real)
    requires x == t * r - f && y == 1.0 - t
    ensures f + j >= t * (r + j) <==> j * y >= x
  {
    assert t * (r + j) == t * r + t * j;
    assert j * y == j - j * t;
  }

  /** The ratio test after `j` further failures, against the closed form. */
  lemma RatioPoint(r: nat, f: nat, j: nat, t: real)
    requires t < 1.0 && j >= 1
    ensures (f + j) as real >= t * (r + j) as real <==> j >= RatioDeficit(t, r, f)
  {
    var x, y := t * r as real - f as real, 1.0 - t;
    assert RatioDeficit(t, r, f) == Quota(x, y);
    QuotaIsLeast(x, y, j);
    Rearrange(t, r as real, f as real, j as real, x, y);
    assert (f + j) as real == f as real + j as real;
    assert (r + j) as real == r as real + j as real;
  }

  /** The trip test after `j` further failures, against the closed form. */
  lemma TripTest(cfg: Config, r: nat, f: nat, j: nat)
    requires cfg.threshold < 1.0 && j >= 1
    ensures Trips(cfg, r + j, f + j) <==> j >= TripPoint(cfg, r, f)
  {
    RatioTest(r + j, f + j, cfg.threshold);
    RatioPoint(r, f, j, cfg.threshold);
  }

  /** The cells after further calls. */
  function AfterAll(cfg: Config, b: Cells, calls: seq<Call>): Cells {
    if calls == [] then b
    else After(cfg, AfterAll(cfg, b, calls[..|calls| - 1]), calls[|calls| - 1])
  }

  predicate FailuresInWindow(cfg: Config, b: Cells, calls: seq<Call>) {
    forall i :: 0 <= i < |calls| ==> calls[i].Failure? && !RotationDue(cfg, b.windowStart, calls[i].now)
  }

  /** Exact trip point: from any Closed state, consecutive failures inside the window
      keep the breaker Closed, counting each, up to the last but one before the trip
      point, and open it at the trip point, with the stamp that failure reads. */
  lemma {:induction false} OpensExactlyAt(cfg: Config, b: Cells, calls: seq<Call>)
    requires b.state.Closed? && cfg.threshold < 1.0
    requires FailuresInWindow(cfg, b, calls)
    requires b.requests + |calls| < U32_LIMIT && b.failures + |calls| < U32_LIMIT
    ensures var k := TripPoint(cfg, b.requests, b.failures);
            AfterAll(cfg, b, calls) ==
              if |calls| < k
              then b.(requests := b.requests + |calls|, failures := b.failures + |calls|)
              else b.(state := Open, requests := b.requests + k, failures := b.failures + k,
                      openedAt := calls[k - 1].stamp)
  {
    var k := TripPoint(cfg, b.requests, b.failures);
    if calls != [] {
      var n := |calls| - 1;
      OpensExactlyAt(cfg, b, calls[..n]);
      if n < k {
        TripTest(cfg, b.requests, b.failures, n + 1);
      }
    }
  }

  /** A part is at most the whole. */
  lemma PartOfWhole(part: real, whole: real)
    requires part <= whole && whole > 0.0
    ensures part / whole <= 1.0 && (part / whole == 1.0 <==> part == whole)
  {
    var q := part / whole;
    assert (q - 1.0) * whole == part - whole;
  }

  /** At a threshold of one only an all-failure window can trip, and above one
      nothing can. */
  lemma UnreachableThreshold(cfg: Config, r: nat, f: nat)
    requires cfg.threshold >= 1.0 && f <= r
    ensures Trips(cfg, r, f) <==> cfg.threshold == 1.0 && f == r && r >= cfg.minRequests && r > 0
  {
    if r > 0 {
      PartOfWhole(f as real, r as real);
    }
  }

  // ---- the ratio while Closed ----

  /** Some failure of the current window was judged, i.e. recorded at or past the
      minimum request count. */
  ghost predicate Judged(cfg: Config, w: seq<Call>) {
    exists i :: 0 <= i < |w| && w[i].Failure? && Outcomes(w[..i + 1]) >= cfg.minRequests
  }

  lemma {:induction false} JudgedEarlier(cfg: Config, w: seq<Call>, c: Call)
    requires Judged(cfg, w + [c])
    ensures Judged(cfg, w) || (c.Failure? && Outcomes(w + [c]) >= cfg.minRequests)
  {
    var i :| 0 <= i < |w + [c]| && (w + [c])[i].Failure? && Outcomes((w + [c])[..i + 1]) >= cfg.minRequests;
    if i < |w| {
      assert (w + [c])[..i + 1] == w[..i + 1];
    } else {
      assert (w + [c])[..i + 1] == w + [c];
    }
  }

  predicate Below(t: real, failures: nat, requests: nat) {
    failures as real < t * requests as real
  }

  predicate RatioBelow(cfg: Config, w: seq<Call>) {
    Below(cfg.threshold, FailuresIn(w), Outcomes(w))
  }

  /** One more outcome that is no failure keeps a ratio below the threshold there. */
  lemma BelowOneMore(t: real, f: nat, r: nat)
    requires Below(t, f, r)
    ensures Below(t, f, r + 1)
  {
    assert t > 0.0;
    assert t * (r + 1) as real == t * r as real + t;
  }

  lemma {:induction false} RatioKept(cfg: Config, w: seq<Call>, c: Call)
    requires RatioBelow(cfg, w) && !c.Failure?
    ensures RatioBelow(cfg, w + [c])
  {
    CountMore(w, c);
    BelowOneMore(cfg.threshold, FailuresIn(w), Outcomes(w));
  }

  /** A judged failure that does not trip leaves the ratio below the threshold. */
  lemma {:induction false} RatioJudged(cfg: Config, w: seq<Call>)
    requires Outcomes(w) > 0 && Outcomes(w) >= cfg.minRequests
    requires !Trips(cfg, Outcomes(w), FailuresIn(w))
    ensures RatioBelow(cfg, w)
  {
    RatioTest(Outcomes(w), FailuresIn(w), cfg.threshold);
  }

  /** A call that keeps the reference Closed extends the window or begins a new one, and
      did not trip. */
  lemma {:induction false} ClosedStep(cfg: Config, m: Mode, c: Call) returns (w: seq<Call>)
    requires m.state.Closed? && Advance(cfg, m, c).state.Closed?
    ensures w == m.window || w == []
    ensures Advance(cfg, m, c).window == w + [c]
    ensures c.Failure? ==> !Trips(cfg, Outcomes(w + [c]), FailuresIn(w + [c]))
  {
    if !c.Allow? && RotationDue(cfg, m.start, c.now) {
      w := [];
      assert w + [c] == [c];
    } else {
      w := m.window;
    }
    assert Advance(cfg, m, c).window == w + [c];
  }

  lemma {:induction false} RatioStep(cfg: Config, m: Mode, c: Call)
    requires m.state.Closed? && Advance(cfg, m, c).state.Closed?
    requires Judged(cfg, m.window) ==> RatioBelow(cfg, m.window)
    requires Judged(cfg, Advance(cfg, m, c).window)
    ensures RatioBelow(cfg, Advance(cfg, m, c).window)
  {
    var w := ClosedStep(cfg, m, c);
    RatioMore(cfg, w, c);
  }

  lemma {:induction false} RatioMore(cfg: Config, w: seq<Call>, c: Call)
    requires Judged(cfg, w) ==> RatioBelow(cfg, w)
    requires Judged(cfg, w + [c])
    requires c.Failure? ==> !Trips(cfg, Outcomes(w + [c]), FailuresIn(w + [c]))
    ensures RatioBelow(cfg, w + [c])
  {
    CountMore(w, c);
    JudgedEarlier(cfg, w, c);
    if !c.Failure? {
      RatioKept(cfg, w, c);
    } else {
      if Judged(cfg, w) {
        JudgedCount(cfg, w);
      }
      RatioJudged(cfg, w + [c]);
    }
  }

  lemma {:induction false} JudgedCount(cfg: Config, w: seq<Call>)
    requires Judged(cfg, w)
    ensures Outcomes(w) >= cfg.minRequests
  {
    var n := |w| - 1;
    assert w[..n] + [w[n]] == w;
    JudgedEarlier(cfg, w[..n], w[n]);
    CountMore(w[..n], w[n]);
    if Judged(cfg, w[..n]) {
      JudgedCount(cfg, w[..n]);
    }
  }

  /** While Closed, once a failure of the window was judged, the failure ratio of the
      window stays below the threshold, whatever is recorded afterwards. */
  lemma {:induction false} RatioBelowThreshold(cfg: Config, born: nat, h: seq<Call>)
    requires Reference(cfg, born, h).state.Closed?
    requires Judged(cfg, Reference(cfg, born, h).window)
    ensures RatioBelow(cfg, Reference(cfg, born, h).window)
  {
    if h != [] {
      var m := Reference(cfg, born, h[..|h| - 1]);
      if m.state.Closed? {
        if Judged(cfg, m.window) {
          RatioBelowThreshold(cfg, born, h[..|h| - 1]);
        }
        RatioStep(cfg, m, h[|h| - 1]);
      }
    }
  }
}
