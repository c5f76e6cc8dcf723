/** A run of the client in which two sends overlap inside one breaker and leave it in a
    state that no sequence of uninterrupted calls makes: the condition under which a
    policy's breaker is its own log cannot be dropped. */
module ClientOverlap {
  import opened Breaker
  import opened BreakerLog
  import opened BreakerSolo
  import opened BreakerSerial
  import opened Outcome
  import opened Client
  import opened ClientBreakers
  import opened ClientSolo
  import opened ClientShutdown

  const KEY := "upstream"

  /** A breaker that any failure opens, for five milliseconds. */
  const HASTY := Config(0.0, 0, 10, 5)

  const TARGETS: Targets := map[KEY := HASTY]

  const PID := Configured(KEY)

  /** What the run looks like between two calls: the flag is down, the breaker has the
      cells `c`, it reads the clock, and nobody is inside it. */
  ghost predicate Scene(s: State, c: Cells, now: nat) {
    && !s.flag && KEY in s.table.policies && s.table.policies[KEY] == PID && PID in s.table.breakers
    && s.table.now == now
    && s.table.breakers[PID].race.now == now && s.table.breakers[PID].race.cells == c
    && forall t :: Race.Resting(s.table.breakers[PID].race, t)
  }

  lemma SceneAfter(s: State, s': State, t: nat, m: Send, c: Cells, c': Cells, now: nat, now': nat, inside: nat, counted: nat)
    requires Scene(s, c, now) && m.key == KEY && m.pid == PID && Along(s, s', t, m, c', now', inside, counted)
    ensures Scene(s', c', now')
  {
    forall u
      ensures Race.Resting(s'.table.breakers[PID].race, u)
    {
      if u != t {
        OthersRest(s.table.breakers[PID].race, s'.table.breakers[PID].race, t, u);
      }
    }
  }

  const START := Init(TARGETS, 1)

  /** Send 0 waits for its request; send 1 fails at once and opens the breaker; five
      milliseconds pass. */
  lemma Opened() returns (s: State, c: Cells)
    ensures Reaches(TARGETS, START, s) && Scene(s, c, 6) && c.state.Open? && c.openedAt == 1
    ensures s.sends.Keys == {0, 1} && s.sends[0] == Send(KEY, Await, PID, OtherFailed) && s.sends[1].pc.Finished?
  {
    var s1 := ReachAwait(TARGETS, START, 0, KEY);
    SceneAfter(START, s1, 0, s1.sends[0], Fresh(1), Fresh(1), 1, 1, 1, 0);
    var s2, m := SoloSend(TARGETS, s1, 1, KEY, true, TimedOut, 0);
    c := AfterSend(HASTY, Fresh(1), 1, true, TimedOut, 1, 1);
    s := SoloWait(TARGETS, s1, s2, 1, 5, m, c, 1, 0, 1);
    SceneAfter(s1, s, 1, m, Fresh(1), c, 1, 6, 0, 1);
    ReachTrans(TARGETS, START, s1, s);
  }

  /** Send 2 wins the exchange and its request fails; the request of send 0 succeeds. */
  lemma BothCompleted() returns (s: State, c: Cells)
    ensures Reaches(TARGETS, START, s) && Scene(s, c, 6) && c.state.HalfOpen?
    ensures s.sends.Keys == {0, 1, 2} && s.sends[1].pc.Finished?
    ensures s.sends[0] == Send(KEY, Record, PID, Response(200)) && s.sends[2] == Send(KEY, Record, PID, TimedOut)
  {
    var s1, c1 := Opened();
    var s2 := SoloAsk(TARGETS, s1, 2, KEY);
    c := After(HASTY, c1, Allow(6));
    var s3 := SoloRequest(TARGETS, s1, s2, 2, TimedOut, 0, s2.sends[2], c, 6);
    SceneAfter(s1, s3, 2, s3.sends[2], c1, c, 6, 6, 1, 0);
    ReachTrans(TARGETS, START, s1, s3);
    ReachMore(TARGETS, START, s3, Complete(0, Response(200)));
    s := Apply(TARGETS, s3, Complete(0, Response(200)));
    assert s == s3.(sends := s3.sends[0 := Send(KEY, Record, PID, Response(200))]);
  }

  /** Send 0 finds the breaker half-open and is about to close it. */
  lemma AboutToClose() returns (s: State)
    ensures Reaches(TARGETS, START, s) && PID in s.table.breakers && InCall(s, 0)
    ensures s.sends.Keys == {0, 1, 2} && s.sends[1].pc.Finished?
    ensures s.sends[0] == Send(KEY, Recording(Race.CloseStore), PID, Response(200))
    ensures s.sends[2] == Send(KEY, Record, PID, TimedOut)
    ensures var r := s.table.breakers[PID].race;
            r.cells.state.HalfOpen? && r.now == 6 && s.table.now == 6 && Race.Resting(r, 2)
  {
    var s1, c := BothCompleted();
    var s2 := CallBegins(TARGETS, START, s1, 0, Race.SuccessCall);
    var g;
    s, g := CallGoesOn(TARGETS, START, s2, 0, Race.CloseStore);
    var r := s1.table.breakers[PID].race;
    OthersKeep(HASTY, r, Race.Start(0, Race.SuccessCall), 2);
    OthersKeep(HASTY, Race.Apply(HASTY, r, Race.Start(0, Race.SuccessCall)), Race.Step(0), 2);
    assert Race.Resting(r, 2);
  }

  /** Send 2 opens the breaker again. */
  lemma OpenedAgain() returns (s: State)
    ensures Reaches(TARGETS, START, s) && PID in s.table.breakers && InCall(s, 0)
    ensures s.sends.Keys == {0, 1, 2} && s.sends[1].pc.Finished? && s.sends[2].pc.Count?
    ensures s.sends[0] == Send(KEY, Recording(Race.CloseStore), PID, Response(200))
    ensures var r := s.table.breakers[PID].race;
            r.cells.state.Open? && r.cells.openedAt == 6 && r.now == 6 && s.table.now == 6
  {
    var s1 := AboutToClose();
    var g;
    s, g := SoloCall(TARGETS, START, s1, 2);
    OthersRest(s1.table.breakers[PID].race, g.race, 2, 0);
  }

  /** Overlap matters in the client: one send closes the breaker that another has just
      opened, and when both are out of it the cells are such as no calls made by then
      leave, whatever their number, order and clock readings. */
  lemma ClientBeyondAnyLog() returns (s: State)
    ensures Reaches(TARGETS, START, s) && PID in s.table.breakers && s.table.now == 6
    ensures forall t :: !InsideCall(s, PID, t)
    ensures forall h :: Until(h, 6) ==> Replay(HASTY, 1, h) != s.table.breakers[PID].race.cells
  {
    var s1 := OpenedAgain();
    var r := s1.table.breakers[PID].race;
    var r1 := Race.Apply(HASTY, r, Race.Step(0));
    SoloReset(HASTY, r1, 0);
    assert Spin(HASTY, r, 0, 5) == Spin(HASTY, r1, 0, 4);
    var g;
    s, g := CallRuns(TARGETS, START, s1, 0, 5, Race.Idle);
    var c := s.table.breakers[PID].race.cells;
    assert c.state.Closed? && c.openedAt == 6;
    forall h | Until(h, 6)
      ensures Replay(HASTY, 1, h) != c
    {
      CooledBefore(HASTY, 1, h, 6);
    }
  }
}
