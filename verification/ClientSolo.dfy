/** One send on its own: when nothing else moves, the interleaved send has the effect of
    the uninterrupted one on its breaker, the counters and its caller, and on nothing
    else. The pieces also serve to build concrete runs. */
module ClientSolo {
  import opened Breaker
  import opened BreakerSolo
  import opened Outcome
  import opened Client
  import opened ClientIsolation
  import opened ClientBreakers

  ghost predicate Reaches(targets: Targets, s: State, s': State) {
    exists sched :: Run(targets, s, sched) == s'
  }

  lemma ReachMore(targets: Targets, s: State, s': State, e: Event)
    requires Reaches(targets, s, s')
    ensures Reaches(targets, s, Apply(targets, s', e))
  {
    var sched :| Run(targets, s, sched) == s';
    RunAppend(targets, s, sched, [e]);
    RunCons(targets, s', e, []);
    assert [e] + [] == [e];
  }

  lemma ReachTrans(targets: Targets, a: State, b: State, c: State)
    requires Reaches(targets, a, b) && Reaches(targets, b, c)
    ensures Reaches(targets, a, c)
  {
    var x :| Run(targets, a, x) == b;
    var y :| Run(targets, b, y) == c;
    RunAppend(targets, a, x, y);
  }

  // ---- a breaker call ----

  ghost function GuardOf(s: State, t: nat): Guard
    requires t in s.sends && s.sends[t].pid in s.table.breakers
  {
    s.table.breakers[s.sends[t].pid]
  }

  /** Send `t` is inside a call on its breaker, at the same position in both. */
  predicate InCall(s: State, t: nat) {
    && t in s.sends && Calling(s.sends[t].pc) && s.sends[t].pid in s.table.breakers
    && Race.At(s.table.breakers[s.sends[t].pid].race, t, s.sends[t].pc.at)
    && Race.CallSteps(s.sends[t].pc.at) > 0
  }

  /** The state in which send `t` stands at `pc` and its breaker has become `g`. */
  function Moved(s: State, t: nat, pc: Pc, g: Guard): State
    requires t in s.sends
  {
    var m := s.sends[t];
    s.(table := s.table.(breakers := s.table.breakers[m.pid := g]),
       sends := s.sends[t := m.(pc := pc)])
  }

  /** Where a send goes on after its breaker call has ended at `end`. */
  function Done(pc: Pc, end: Race.Pc): Pc {
    if pc.Recording? then Count
    else if end.Returned? && end.admitted then Limit
    else CountRefusal
  }

  predicate Ends(pc: Pc, end: Race.Pc) {
    if pc.Recording? then end.Idle? else end.Returned?
  }

  /** One step of the call. */
  lemma CallStep(targets: Targets, s: State, t: nat)
    requires InCall(s, t)
    ensures var m, g := s.sends[t], GuardOf(s, t);
            var cfg := ConfigOf(targets, m.pid);
            var at := Race.NextPc(cfg, g.race.cells, g.race.now, m.pc.at);
            && Race.At(Race.Apply(cfg, g.race, Race.Step(t)), t, at)
            && Apply(targets, s, Step(t)) == Moved(s, t, NextSend(s, t, m, at).pc, Touch(cfg, g, Race.Step(t)))
  {
  }

  lemma {:induction false} SpinRest(cfg: Config, r: Race.Race, t: nat, n: nat)
    requires t in r.threads && Race.CallSteps(r.threads[t]) == 0
    ensures Spin(cfg, r, t, n) == r
    decreases n
  {
    if n > 0 {
      assert Race.Apply(cfg, r, Race.Step(t)) == r by {
        assert r.threads[t := r.threads[t]] == r.threads;
      }
      SpinRest(cfg, r, t, n - 1);
    }
  }

  /** One step of the call when it goes on, ... */
  lemma CallGoesOn(targets: Targets, s0: State, s: State, t: nat, at: Race.Pc) returns (s1: State, g1: Guard)
    requires Reaches(targets, s0, s) && InCall(s, t) && Race.CallSteps(at) > 0
    requires var g := GuardOf(s, t);
             at == Race.NextPc(ConfigOf(targets, s.sends[t].pid), g.race.cells, g.race.now, s.sends[t].pc.at)
    ensures Reaches(targets, s0, s1) && InCall(s1, t)
    ensures s1 == Moved(s, t, if s.sends[t].pc.Asking? then Asking(at) else Recording(at), g1)
    ensures g1 == Touch(ConfigOf(targets, s.sends[t].pid), GuardOf(s, t), Race.Step(t))
  {
    CallStep(targets, s, t);
    ReachMore(targets, s0, s, Step(t));
    s1 := Apply(targets, s, Step(t));
    g1 := Touch(ConfigOf(targets, s.sends[t].pid), GuardOf(s, t), Race.Step(t));
  }

  /** ... and when it ends. */
  lemma CallEnds(targets: Targets, s0: State, s: State, t: nat, end: Race.Pc) returns (s1: State, g1: Guard)
    requires Reaches(targets, s0, s) && InCall(s, t) && Ends(s.sends[t].pc, end)
    requires var g := GuardOf(s, t);
             end == Race.NextPc(ConfigOf(targets, s.sends[t].pid), g.race.cells, g.race.now, s.sends[t].pc.at)
    ensures Reaches(targets, s0, s1) && s1 == Moved(s, t, Done(s.sends[t].pc, end), g1)
    ensures g1 == Touch(ConfigOf(targets, s.sends[t].pid), GuardOf(s, t), Race.Step(t))
  {
    CallStep(targets, s, t);
    ReachMore(targets, s0, s, Step(t));
    s1 := Apply(targets, s, Step(t));
    g1 := Touch(ConfigOf(targets, s.sends[t].pid), GuardOf(s, t), Race.Step(t));
  }

  /** The first of several steps of the breaker's thread. */
  lemma SpinFirst(cfg: Config, r: Race.Race, t: nat, n: nat, end: Race.Pc)
    requires t in r.threads && Race.CallSteps(r.threads[t]) > 0 && Race.CallSteps(end) == 0
    requires Race.At(Spin(cfg, r, t, n), t, end)
    ensures n > 0
    ensures var r1, at := Race.Apply(cfg, r, Race.Step(t)), Race.NextPc(cfg, r.cells, r.now, r.threads[t]);
            && Race.At(r1, t, at) && Spin(cfg, r, t, n) == Spin(cfg, r1, t, n - 1)
            && (Race.CallSteps(at) == 0 ==> Spin(cfg, r, t, n) == r1 && at == end)
  {
    var r1 := Race.Apply(cfg, r, Race.Step(t));
    if n > 0 && Race.CallSteps(r1.threads[t]) == 0 {
      SpinRest(cfg, r1, t, n - 1);
    }
  }

  /** The rest of the call, run alone. */
  lemma {:induction false} CallRuns(targets: Targets, s0: State, s: State, t: nat, n: nat, end: Race.Pc)
    returns (s': State, g': Guard)
    requires Reaches(targets, s0, s) && InCall(s, t) && Ends(s.sends[t].pc, end)
    requires Race.At(Spin(ConfigOf(targets, s.sends[t].pid), GuardOf(s, t).race, t, n), t, end)
    ensures Reaches(targets, s0, s') && s' == Moved(s, t, Done(s.sends[t].pc, end), g')
    ensures g'.race == Spin(ConfigOf(targets, s.sends[t].pid), GuardOf(s, t).race, t, n)
    ensures g'.born == GuardOf(s, t).born
    decreases n
  {
    var m, g := s.sends[t], GuardOf(s, t);
    var cfg := ConfigOf(targets, m.pid);
    var at := Race.NextPc(cfg, g.race.cells, g.race.now, m.pc.at);
    SpinFirst(cfg, g.race, t, n, end);
    if Race.CallSteps(at) == 0 {
      s', g' := CallEnds(targets, s0, s, t, end);
    } else {
      var s1, g1 := CallGoesOn(targets, s0, s, t, at);
      s', g' := CallRuns(targets, s0, s1, t, n - 1, end);
      MovedTwice(s, t, s1.sends[t].pc, g1, s'.sends[t].pc, g');
    }
  }

  lemma MovedTwice(s: State, t: nat, pc: Pc, g: Guard, pc': Pc, g': Guard)
    requires t in s.sends
    ensures Moved(Moved(s, t, pc, g), t, pc', g') == Moved(s, t, pc', g')
  {
    var m := s.sends[t];
    assert s.table.breakers[m.pid := g][m.pid := g'] == s.table.breakers[m.pid := g'];
    assert s.sends[t := m.(pc := pc)][t := m.(pc := pc')] == s.sends[t := m.(pc := pc')];
  }

  /** What a call that a send begins now and runs alone leaves of its breaker. */
  ghost predicate After1(cfg: Config, g: Guard, g': Guard, t: nat, call: Call) {
    && g'.born == g.born && g'.race.now == g.race.now
    && g'.race.cells == After(cfg, g.race.cells, call)
    && Race.Resting(g'.race, t) && SameOthers(g.race, g'.race, t)
  }

  /** A send at the start of a breaker call, run alone to the end of the call. */
  lemma SoloCall(targets: Targets, s0: State, s: State, t: nat) returns (s': State, g': Guard)
    requires Reaches(targets, s0, s) && t in s.sends && (s.sends[t].pc.Admit? || s.sends[t].pc.Record?)
    requires s.sends[t].pid in s.table.breakers && Race.Resting(GuardOf(s, t).race, t)
    ensures Reaches(targets, s0, s')
    ensures var m, g := s.sends[t], GuardOf(s, t);
            var cfg := ConfigOf(targets, m.pid);
            if m.pc.Admit? then
              && After1(cfg, g, g', t, Allow(g.race.now))
              && s' == Moved(s, t, if Admits(cfg, g.race.cells, g.race.now) then Limit else CountRefusal, g')
            else
              && After1(cfg, g, g', t, Race.CallOf(Verdicted(m.outcome), g.race.now, g.race.now))
              && s' == Moved(s, t, Count, g')
  {
    var m, g := s.sends[t], GuardOf(s, t);
    var cfg := ConfigOf(targets, m.pid);
    var kind := if m.pc.Admit? then Race.AllowCall else Verdicted(m.outcome);
    var r1 := Race.Apply(cfg, g.race, Race.Start(t, kind));
    var s1 := CallBegins(targets, s0, s, t, kind);
    var n := SoloRefines(cfg, g.race, t, kind);
    SpinOthers(cfg, r1, t, n);
    var end := if kind.AllowCall? then Race.Returned(Admits(cfg, g.race.cells, g.race.now)) else Race.Idle;
    s', g' := CallRuns(targets, s0, s1, t, n, end);
    MovedTwice(s, t, s1.sends[t].pc, Touch(cfg, g, Race.Start(t, kind)), s'.sends[t].pc, g');
  }

  lemma CallBegins(targets: Targets, s0: State, s: State, t: nat, kind: Race.Kind) returns (s': State)
    requires Reaches(targets, s0, s) && t in s.sends && (s.sends[t].pc.Admit? || s.sends[t].pc.Record?)
    requires s.sends[t].pid in s.table.breakers && Race.Resting(GuardOf(s, t).race, t)
    requires kind == if s.sends[t].pc.Admit? then Race.AllowCall else Verdicted(s.sends[t].outcome)
    ensures Reaches(targets, s0, s') && InCall(s', t)
    ensures var at := Race.Entry(kind);
            s' == Moved(s, t, if s.sends[t].pc.Admit? then Asking(at) else Recording(at),
                        Touch(ConfigOf(targets, s.sends[t].pid), GuardOf(s, t), Race.Start(t, kind)))
  {
    ReachMore(targets, s0, s, Step(t));
    s' := Apply(targets, s, Step(t));
  }

  // ---- a whole send ----

  /** How state `s'` differs from `s` when only send `t` has moved and the time is `now`:
      the send is `m`, its breaker has the cells `c` and no other breaker's cells have
      changed, `inside` more sends are in flight and `counted` more are counted. */
  ghost predicate Along(s: State, s': State, t: nat, m: Send, c: Cells, now: nat, inside: nat, counted: nat) {
    && s'.sends == s.sends[t := m] && s'.flag == s.flag && s'.shuts == s.shuts
    && s'.inFlight == s.inFlight + inside && s'.requestsTotal == s.requestsTotal + counted
    && AlongTable(s.table, s'.table, t, m.key, m.pid, c, now)
  }

  ghost predicate AlongTable(b: Table, b': Table, t: nat, key: string, pid: PolicyId, c: Cells, now: nat) {
    && b'.now == now && b'.policies == b.policies[key := pid] && b'.breakers.Keys == b.breakers.Keys + {pid}
    && Quiet(b'.breakers[pid].race, t, c, now) && SameOthers(BreakerFor(b, key), b'.breakers[pid].race, t)
    && forall p :: p in b.breakers && p != pid ==> b'.breakers[p].race.cells == b.breakers[p].race.cells
  }

  predicate Quiet(r: Race.Race, t: nat, c: Cells, now: nat) {
    r.cells == c && r.now == now && Race.Resting(r, t)
  }

  /** The policy a send on `key` gets, and its breaker. */
  function PolicyOf(s: State, t: nat, key: string): PolicyId {
    if key in s.table.policies then s.table.policies[key] else Fallback(t)
  }

  function BreakerFor(b: Table, key: string): Race.Race {
    if key in b.policies && b.policies[key] in b.breakers then b.breakers[b.policies[key]].race
    else Race.Init(b.now)
  }

  /** The flag is down and the name's breaker, if there is one, reads the clock. */
  predicate Ready(s: State, t: nat, key: string) {
    && t !in s.sends && !s.flag
    && (key in s.table.policies ==> s.table.policies[key] in s.table.breakers)
    && BreakerFor(s.table, key).now == s.table.now && Race.Resting(BreakerFor(s.table, key), t)
  }

  /** Every reachable state with the flag down is ready for a new send on any name. */
  lemma AlwaysReady(targets: Targets, now: nat, sched: seq<Event>, t: nat, key: string)
    requires var s := Run(targets, Init(targets, now), sched); !s.flag && t !in s.sends
    ensures Ready(Run(targets, Init(targets, now), sched), t, key)
  {
    var s := Run(targets, Init(targets, now), sched);
    LinkRun(targets, Init(targets, now), sched, now);
    if key in s.table.policies {
      var pid := s.table.policies[key];
      assert GuardInv(targets, s.table, pid, now) && Linked(s, pid, t);
    }
  }

  /** The send begins, passes the flag and gets its policy. */
  lemma SoloLookup(targets: Targets, s: State, t: nat, key: string) returns (s': State)
    requires Ready(s, t, key)
    ensures Reaches(targets, s, s')
    ensures Along(s, s', t, Send(key, Admit, PolicyOf(s, t, key), OtherFailed),
                  BreakerFor(s.table, key).cells, s.table.now, 0, 0)
  {
    var m := NewSend(t, key, false);
    assert Run(targets, s, []) == s;
    ReachMore(targets, s, s, Begin(t, key, false));
    var s1 := s.(sends := s.sends[t := m]);
    SoloPass(targets, s, s1, t, m);
    var s2 := s.(sends := s.sends[t := m.(pc := Lookup)]);
    if key in s.table.policies {
      s' := SoloFound(targets, s, s2, t, m.(pc := Lookup));
    } else {
      s' := SoloInsert(targets, s, s2, t, m.(pc := Lookup));
    }
  }

  lemma SoloPass(targets: Targets, s: State, s1: State, t: nat, m: Send)
    requires Reaches(targets, s, s1) && !s.flag && m.pc.LoadFlag? && s1 == s.(sends := s.sends[t := m])
    ensures Reaches(targets, s, s.(sends := s.sends[t := m.(pc := Lookup)]))
  {
    ReachMore(targets, s, s1, Step(t));
    assert s1.sends[t := m.(pc := Lookup)] == s.sends[t := m.(pc := Lookup)];
  }

  lemma SoloFound(targets: Targets, s: State, s1: State, t: nat, m: Send) returns (s': State)
    requires Reaches(targets, s, s1) && m.pc.Lookup? && s1 == s.(sends := s.sends[t := m])
    requires m.key in s.table.policies
    ensures Reaches(targets, s, s')
    ensures s' == s.(sends := s.sends[t := m.(pc := Admit, pid := s.table.policies[m.key])])
  {
    ReachMore(targets, s, s1, Step(t));
    s' := Apply(targets, s1, Step(t));
    var m' := m.(pc := Admit, pid := s.table.policies[m.key]);
    assert s1.sends[t := m'] == s.sends[t := m'];
  }

  lemma SoloInsert(targets: Targets, s: State, s1: State, t: nat, m: Send) returns (s': State)
    requires Reaches(targets, s, s1) && m.pc.Lookup? && s1 == s.(sends := s.sends[t := m])
    requires m.key !in s.table.policies
    ensures Reaches(targets, s, s')
    ensures s'.sends == s.sends[t := m.(pc := Admit, pid := Fallback(t))]
    ensures s' == s.(sends := s'.sends,
                     table := s.table.(policies := s.table.policies[m.key := Fallback(t)],
                                       breakers := s.table.breakers[Fallback(t) := NewGuard(s.table.now)]))
  {
    ReachMore(targets, s, s1, Step(t));
    var s2 := Apply(targets, s1, Step(t));
    assert s2 == s.(sends := s1.sends[t := m.(pc := Insert)]);
    ReachMore(targets, s, s2, Step(t));
    s' := Apply(targets, s2, Step(t));
    var m' := m.(pc := Admit, pid := Fallback(t));
    assert s1.sends[t := m.(pc := Insert)][t := m'] == s.sends[t := m'];
  }

  /** The send has asked its breaker. */
  ghost predicate HasAsked(targets: Targets, s: State, s1: State, t: nat, m: Send) {
    Along(s, s1, t, m, After(ConfigOf(targets, m.pid), BreakerFor(s.table, m.key).cells, Allow(s.table.now)), s.table.now, 0, 0)
  }

  /** The send asks its breaker. */
  lemma SoloAsk(targets: Targets, s: State, t: nat, key: string) returns (s': State)
    requires Ready(s, t, key)
    ensures Reaches(targets, s, s')
    ensures t in s'.sends && HasAsked(targets, s, s', t, s'.sends[t])
    ensures var pid := PolicyOf(s, t, key);
            var admitted := Admits(ConfigOf(targets, pid), BreakerFor(s.table, key).cells, s.table.now);
            s'.sends[t] == Send(key, if admitted then Limit else CountRefusal, pid, OtherFailed)
  {
    var s1 := SoloLookup(targets, s, t, key);
    var g;
    s', g := SoloCall(targets, s, s1, t);
  }

  /** A step of the send outside its breaker calls, while the flag is down. */
  lemma SoloMove(targets: Targets, s: State, s1: State, t: nat, m: Send, c: Cells, now: nat, inside: nat, counted: nat)
    returns (s2: State)
    requires Reaches(targets, s, s1) && !s.flag && Along(s, s1, t, m, c, now, inside, counted)
    requires m.pc.CountRefusal? || m.pc.Enter? || m.pc.Count? || m.pc.CheckFlag? || (m.pc.Leave? && inside > 0)
    ensures Reaches(targets, s, s2) && t in s2.sends
    ensures Along(s, s2, t, m.(pc := s2.sends[t].pc), c, now,
                  if m.pc.Enter? then inside + 1 else if m.pc.Leave? then inside - 1 else inside,
                  if m.pc.CountRefusal? || m.pc.Count? then counted + 1 else counted)
    ensures s2.sends[t].pc ==
              match m.pc
              case CountRefusal => Refused
              case Enter => Await
              case Count => Leave
              case Leave => if s1.inFlight == 1 then CheckFlag else Finished
              case _ => Finished
  {
    ReachMore(targets, s, s1, Step(t));
    s2 := Apply(targets, s1, Step(t));
    assert s2.sends == s1.sends[t := m.(pc := s2.sends[t].pc)];
    assert s2.table == s1.table;
  }

  lemma SoloHear(targets: Targets, s: State, s1: State, t: nat, e: Event, m: Send, c: Cells, now: nat,
                 inside: nat, counted: nat) returns (s2: State)
    requires Reaches(targets, s, s1) && Along(s, s1, t, m, c, now, inside, counted)
    requires (e.Answer? || e.Complete?) && e.t == t
    ensures Reaches(targets, s, s2) && Along(s, s2, t, Heard(m, e), c, now, inside, counted)
  {
    ReachMore(targets, s, s1, e);
    s2 := Apply(targets, s1, e);
    assert s2.sends == s1.sends[t := Heard(m, e)];
  }

  lemma SoloWait(targets: Targets, s: State, s1: State, t: nat, ms: nat, m: Send, c: Cells, now: nat,
                 inside: nat, counted: nat) returns (s2: State)
    requires Reaches(targets, s, s1) && Along(s, s1, t, m, c, now, inside, counted)
    ensures Reaches(targets, s, s2) && Along(s, s2, t, m, c, now + ms, inside, counted)
  {
    ReachMore(targets, s, s1, Tick(ms));
    s2 := Apply(targets, s1, Tick(ms));
  }

  /** An admitted send is granted, and its request completes `ms` later. */
  lemma SoloRequest(targets: Targets, s: State, s1: State, t: nat, outcome: Exec, ms: nat, m: Send, c: Cells, now: nat)
    returns (s2: State)
    requires Reaches(targets, s, s1) && !s.flag && m.pc.Limit? && Along(s, s1, t, m, c, now, 0, 0)
    ensures Reaches(targets, s, s2)
    ensures Along(s, s2, t, m.(pc := Record, outcome := outcome), c, now + ms, 1, 0)
  {
    var r1 := SoloHear(targets, s, s1, t, Answer(t, true), m, c, now, 0, 0);
    var r2 := SoloMove(targets, s, r1, t, m.(pc := Enter), c, now, 0, 0);
    var r3 := SoloWait(targets, s, r2, t, ms, m.(pc := Await), c, now, 1, 0);
    s2 := SoloHear(targets, s, r3, t, Complete(t, outcome), m.(pc := Await), c, now + ms, 1, 0);
  }

  /** The send tells its breaker what became of the request. */
  lemma SoloRecorded(targets: Targets, s: State, s1: State, t: nat, m: Send, c: Cells, now: nat) returns (s2: State)
    requires Reaches(targets, s, s1) && m.pc.Record? && Along(s, s1, t, m, c, now, 1, 0)
    ensures Reaches(targets, s, s2)
    ensures Along(s, s2, t, m.(pc := Count),
                  After(ConfigOf(targets, m.pid), c, Race.CallOf(Verdicted(m.outcome), now, now)), now, 1, 0)
  {
    var g;
    s2, g := SoloCall(targets, s, s1, t);
  }

  /** The send is counted, leaves and finishes. */
  lemma SoloFinish(targets: Targets, s: State, s1: State, t: nat, m: Send, c: Cells, now: nat) returns (s2: State)
    requires Reaches(targets, s, s1) && !s.flag && m.pc.Count? && Along(s, s1, t, m, c, now, 1, 0)
    ensures Reaches(targets, s, s2) && Along(s, s2, t, m.(pc := Finished), c, now, 0, 1)
  {
    var r1 := SoloMove(targets, s, s1, t, m, c, now, 1, 0);
    s2 := SoloMove(targets, s, r1, t, m.(pc := Leave), c, now, 1, 1);
    if s2.sends[t].pc.CheckFlag? {
      s2 := SoloMove(targets, s, s2, t, m.(pc := CheckFlag), c, now, 0, 1);
    }
  }

  /** The send reports the outcome of its request, and finishes. */
  lemma SoloReports(targets: Targets, s: State, s1: State, t: nat, m: Send, c: Cells, now: nat) returns (s2: State)
    requires Reaches(targets, s, s1) && !s.flag && m.pc.Record? && Along(s, s1, t, m, c, now, 1, 0)
    ensures Reaches(targets, s, s2)
    ensures Along(s, s2, t, m.(pc := Finished),
                  After(ConfigOf(targets, m.pid), c, Race.CallOf(Verdicted(m.outcome), now, now)), now, 0, 1)
  {
    var r := SoloRecorded(targets, s, s1, t, m, c, now);
    s2 := SoloFinish(targets, s, r, t, m.(pc := Count),
                     After(ConfigOf(targets, m.pid), c, Race.CallOf(Verdicted(m.outcome), now, now)), now);
  }

  lemma SoloExecuted(targets: Targets, s: State, s1: State, t: nat, outcome: Exec, ms: nat, m: Send, c: Cells, now: nat)
    returns (s2: State, m': Send)
    requires Reaches(targets, s, s1) && !s.flag && m.pc.Limit? && Along(s, s1, t, m, c, now, 0, 0)
    ensures Reaches(targets, s, s2) && m' == m.(pc := Finished, outcome := outcome)
    ensures Along(s, s2, t, m',
                  After(ConfigOf(targets, m.pid), c, Race.CallOf(Verdicted(outcome), now + ms, now + ms)),
                  now + ms, 0, 1)
  {
    var r := SoloRequest(targets, s, s1, t, outcome, ms, m, c, now);
    m' := m.(pc := Record, outcome := outcome);
    assert m'.pid == m.pid && m'.outcome == outcome;
    s2 := SoloReports(targets, s, r, t, m', c, now + ms);
    m' := m'.(pc := Finished);
  }

  lemma SoloRefused(targets: Targets, s: State, s1: State, t: nat, m: Send, c: Cells, now: nat)
    returns (s2: State, m': Send)
    requires Reaches(targets, s, s1) && !s.flag && Along(s, s1, t, m, c, now, 0, 0)
    requires m.pc.Limit? || m.pc.CountRefusal?
    ensures Reaches(targets, s, s2) && m' == m.(pc := Refused) && Along(s, s2, t, m', c, now, 0, 1)
  {
    s2 := s1;
    if m.pc.Limit? {
      s2 := SoloHear(targets, s, s1, t, Answer(t, false), m, c, now, 0, 0);
    }
    s2 := SoloMove(targets, s, s2, t, m.(pc := CountRefusal), c, now, 0, 0);
    m' := m.(pc := Refused);
  }

  /** Send `t` has run to its end as the uninterrupted send does, its request taking `ms`:
      it was executed exactly if its breaker and its limiter let it through, it is counted
      once and the in-flight counter is balanced, its caller gets the classified result,
      its breaker ends as the uninterrupted send leaves it, and no other breaker changes. */
  ghost predicate SentAlone(targets: Targets, s: State, s': State, t: nat, m: Send,
                            limiterOk: bool, outcome: Exec, ms: nat)
  {
    var cfg, c, now := ConfigOf(targets, m.pid), BreakerFor(s.table, m.key).cells, s.table.now;
    var after := AfterSend(cfg, c, now, limiterOk, outcome, now + ms, now + ms);
    if Admits(cfg, c, now) && limiterOk
    then m.pc.Finished? && Result(m) == Classify(outcome).result && Along(s, s', t, m, after, now + ms, 0, 1)
    else m.pc.Refused? && Result(m) == Transient && Along(s, s', t, m, after, now, 0, 1)
  }

  lemma AloneExecuted(targets: Targets, s: State, s': State, t: nat, m: Send, outcome: Exec, ms: nat, after: Cells)
    requires Admits(ConfigOf(targets, m.pid), BreakerFor(s.table, m.key).cells, s.table.now)
    requires m.pc.Finished? && m.outcome == outcome
    requires after == AfterSend(ConfigOf(targets, m.pid), BreakerFor(s.table, m.key).cells, s.table.now,
                                true, outcome, s.table.now + ms, s.table.now + ms)
    requires Along(s, s', t, m, after, s.table.now + ms, 0, 1)
    ensures SentAlone(targets, s, s', t, m, true, outcome, ms)
  {
  }

  lemma SoloThrough(targets: Targets, s: State, s1: State, t: nat, m: Send, outcome: Exec, ms: nat)
    returns (s2: State, m': Send)
    requires Reaches(targets, s, s1) && !s.flag && m.pc.Limit? && HasAsked(targets, s, s1, t, m)
    requires Admits(ConfigOf(targets, m.pid), BreakerFor(s.table, m.key).cells, s.table.now)
    ensures Reaches(targets, s, s2) && m'.key == m.key && m'.pid == m.pid
    ensures SentAlone(targets, s, s2, t, m', true, outcome, ms)
  {
    var asked := After(ConfigOf(targets, m.pid), BreakerFor(s.table, m.key).cells, Allow(s.table.now));
    s2, m' := SoloExecuted(targets, s, s1, t, outcome, ms, m, asked, s.table.now);
    var cfg, c, now := ConfigOf(targets, m.pid), BreakerFor(s.table, m.key).cells, s.table.now;
    AloneExecuted(targets, s, s2, t, m', outcome, ms, AfterSend(cfg, c, now, true, outcome, now + ms, now + ms));
  }

  lemma SoloTurnedDown(targets: Targets, s: State, s1: State, t: nat, m: Send, limiterOk: bool, outcome: Exec, ms: nat)
    returns (s2: State, m': Send)
    requires Reaches(targets, s, s1) && !s.flag && HasAsked(targets, s, s1, t, m)
    requires m.pc == if Admits(ConfigOf(targets, m.pid), BreakerFor(s.table, m.key).cells, s.table.now) then Limit else CountRefusal
    requires m.pc.Limit? ==> !limiterOk
    ensures Reaches(targets, s, s2) && m'.key == m.key && m'.pid == m.pid
    ensures SentAlone(targets, s, s2, t, m', limiterOk, outcome, ms)
  {
    var asked := After(ConfigOf(targets, m.pid), BreakerFor(s.table, m.key).cells, Allow(s.table.now));
    s2, m' := SoloRefused(targets, s, s1, t, m, asked, s.table.now);
  }

  /** From every state in which its breaker can be called, a send that runs alone ends as
      the uninterrupted send. */
  lemma SoloSend(targets: Targets, s: State, t: nat, key: string, limiterOk: bool, outcome: Exec, ms: nat)
    returns (s': State, m: Send)
    requires Ready(s, t, key)
    ensures Reaches(targets, s, s') && m.key == key && m.pid == PolicyOf(s, t, key)
    ensures SentAlone(targets, s, s', t, m, limiterOk, outcome, ms)
  {
    var s1 := SoloAsk(targets, s, t, key);
    var m1 := s1.sends[t];
    if m1.pc.Limit? && limiterOk {
      s', m := SoloThrough(targets, s, s1, t, m1, outcome, ms);
    } else {
      s', m := SoloTurnedDown(targets, s, s1, t, m1, limiterOk, outcome, ms);
    }
  }

  // ---- a retrying send and a shutdown call ----

  /** The table after the policy of `key` was looked up on behalf of send `t`. */
  function WithPolicy(b: Table, t: nat, key: string): Table {
    if key in b.policies then b
    else b.(policies := b.policies[key := Fallback(t)], breakers := b.breakers[Fallback(t) := NewGuard(b.now)])
  }

  /** A send made by `send_with_retry` looks its policy up, adding a fallback for a new name,
      and only then comes to its flag load, whether or not the flag is up. */
  lemma PeeksFirst(targets: Targets, s: State, t: nat, key: string) returns (s': State)
    requires t !in s.sends
    ensures Reaches(targets, s, s')
    ensures s' == s.(table := WithPolicy(s.table, t, key), sends := s.sends[t := NewSend(t, key, false)])
  {
    var m := NewSend(t, key, true);
    assert Run(targets, s, []) == s;
    ReachMore(targets, s, s, Begin(t, key, true));
    var s1 := s.(sends := s.sends[t := m]);
    ReachMore(targets, s, s1, Step(t));
    s' := Apply(targets, s1, Step(t));
    if key in s.table.policies {
      assert s1.sends[t := NewSend(t, key, false)] == s.sends[t := NewSend(t, key, false)];
    } else {
      assert s' == s.(sends := s1.sends[t := m.(pc := PeekInsert)]);
      s' := PeekInserts(targets, s, s', t, key);
    }
  }

  lemma PeekInserts(targets: Targets, s: State, s1: State, t: nat, key: string) returns (s': State)
    requires t !in s.sends && key !in s.table.policies && Reaches(targets, s, s1)
    requires s1 == s.(sends := s.sends[t := NewSend(t, key, true)][t := NewSend(t, key, true).(pc := PeekInsert)])
    ensures Reaches(targets, s, s')
    ensures s' == s.(table := WithPolicy(s.table, t, key), sends := s.sends[t := NewSend(t, key, false)])
  {
    ReachMore(targets, s, s1, Step(t));
    s' := Apply(targets, s1, Step(t));
    assert s1.sends[t := NewSend(t, key, false)] == s.sends[t := NewSend(t, key, false)];
  }

  /** After the flag is up, such a send on a new name still adds a policy to the table, before
      it is turned away. */
  lemma LateFallback(targets: Targets, s: State, t: nat, key: string) returns (s': State)
    requires s.flag && t !in s.sends && key !in s.table.policies
    ensures Reaches(targets, s, s')
    ensures key in s'.table.policies && s'.table.policies[key] == Fallback(t)
    ensures t in s'.sends && s'.sends[t].pc.Rejected?
  {
    var s1 := PeeksFirst(targets, s, t, key);
    ReachMore(targets, s, s1, Step(t));
    s' := Apply(targets, s1, Step(t));
  }

  /** Where a shutdown call ends when nothing else moves until its time is up. */
  function ShutAlone(inFlight: int): ShutPc {
    if inFlight == 0 then Drained(SawZero) else TimedOutWith(inFlight)
  }

  lemma SoloShutdown(targets: Targets, s: State, w: nat) returns (s': State)
    requires w in s.shuts && s.shuts[w].StoreFlag?
    ensures Reaches(targets, s, s')
    ensures s' == s.(flag := true, shuts := s.shuts[w := ShutAlone(s.inFlight)])
  {
    assert Run(targets, s, []) == s;
    ReachMore(targets, s, s, ShutStep(w));
    var s1 := Apply(targets, s, ShutStep(w));
    ReachMore(targets, s, s1, ShutStep(w));
    s' := Apply(targets, s1, ShutStep(w));
    assert s1.shuts[w := s'.shuts[w]] == s.shuts[w := s'.shuts[w]];
    if s.inFlight != 0 {
      s' := SoloExpires(targets, s, s', w);
    }
  }

  lemma SoloExpires(targets: Targets, s: State, s2: State, w: nat) returns (s': State)
    requires w in s.shuts && Reaches(targets, s, s2) && s.inFlight != 0
    requires s2 == s.(flag := true, shuts := s.shuts[w := Register])
    ensures Reaches(targets, s, s')
    ensures s' == s.(flag := true, shuts := s.shuts[w := TimedOutWith(s.inFlight)])
  {
    ReachMore(targets, s, s2, ShutStep(w));
    var s3 := Apply(targets, s2, ShutStep(w));
    ReachMore(targets, s, s3, ShutStep(w));
    var s4 := Apply(targets, s3, ShutStep(w));
    ReachMore(targets, s, s4, Expire(w));
    var s5 := Apply(targets, s4, Expire(w));
    ReachMore(targets, s, s5, ShutStep(w));
    s' := Apply(targets, s5, ShutStep(w));
    assert s'.shuts == s.shuts[w := TimedOutWith(s.inFlight)];
  }
}
