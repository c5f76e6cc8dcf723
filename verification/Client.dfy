/** The resilient client as a protocol: any number of sends over any number of targets
    interleave with any number of shutdown calls. Every access to the shutdown flag, the
    in-flight counter, the policy table, the metrics and the waiter list is one atomic
    step, and so is every load, store, fetch-add, exchange and clock reading that a send
    makes inside its policy's breaker: each policy has a contended breaker, on which the
    sends are the threads. The rate limiter's answers and the results of the requests come
    with the events. A future can be dropped where `send` awaits its request. */
module Client {
  import opened Breaker
  import opened Outcome
  import Race = BreakerRace

  /** A policy is identified by how it came to be: from the configuration, or as the
      fallback inserted by a given send. */
  datatype PolicyId = Configured(key: string) | Fallback(inserter: nat)

  /** The breaker settings of a fallback policy. */
  const DEFAULTS := Config(0.5, 10, 10_000, 30_000)

  /** Where a send stands, named after the step it takes next. A send made by
      `send_with_retry` begins by looking its policy up, without asking the flag. `Asking`
      and `Recording` are inside a breaker call, at the position `at`. The last four are
      final: turned away by the shutdown flag, refused by the breaker or the rate limiter,
      finished, and dropped while awaiting. */
  datatype Pc =
    | Peek | PeekInsert
    | LoadFlag | Lookup | Insert | Admit | Asking(at: Race.Pc) | Limit | CountRefusal
    | Enter | Await | Record | Recording(at: Race.Pc) | Count | Leave | CheckFlag | Wake
    | Rejected | Refused | Finished | Dropped

  /** `pid` is meaningful once the policy was looked up, `outcome` once the request
      completed. */
  datatype Send = Send(key: string, pc: Pc, pid: PolicyId, outcome: Exec)

  /** What a shutdown call returned Ok on: a counter it saw at zero, or notifications by
      the given sends. */
  datatype Why = SawZero | Notified(wakers: set<nat>)

  /** Where a shutdown call stands. A waiter is woken by any notification after it
      registered; `wakers` are the sends that notified it. */
  datatype ShutPc =
    | StoreFlag | FirstLoad | Register | Recheck(wakers: set<nat>) | Waiting(wakers: set<nat>)
    | Expired | Drained(why: Why) | TimedOutWith(inFlight: int)

  /** A policy's breaker. For the statements only, `born` is its construction time and
      `journal` what happened to it since. */
  datatype Guard = Guard(race: Race.Race, born: nat, journal: seq<Race.Event>)

  /** The policy table with the breakers, and the clock they read. */
  datatype Table = Table(now: nat, policies: map<string, PolicyId>, breakers: map<PolicyId, Guard>)

  /** `inFlight` is an int so that an underflow would show. */
  datatype State = State(
    table: Table,
    flag: bool,
    inFlight: int,
    requestsTotal: nat,
    sends: map<nat, Send>,
    shuts: map<nat, ShutPc>)

  datatype Event =
    | Tick(ms: nat)
    | Begin(t: nat, key: string, retrying: bool)
    | Step(t: nat)
    | Answer(t: nat, ok: bool)
    | Complete(t: nat, outcome: Exec)
    | Drop(t: nat)
    | Shutdown(w: nat)
    | ShutStep(w: nat)
    | Expire(w: nat)

  /** The configured targets and their breaker settings. */
  type Targets = map<string, Config>

  function ConfigOf(targets: Targets, pid: PolicyId): Config {
    if pid.Configured? && pid.key in targets then targets[pid.key] else DEFAULTS
  }

  function ConfiguredIds(targets: Targets): set<PolicyId> {
    set k | k in targets :: Configured(k)
  }

  function NewGuard(now: nat): Guard {
    Guard(Race.Init(now), now, [])
  }

  function Init(targets: Targets, now: nat): State {
    var table := Table(now,
                       map k | k in targets :: Configured(k),
                       map pid | pid in ConfiguredIds(targets) :: NewGuard(now));
    State(table, false, 0, 0, map[], map[])
  }

  function NewSend(t: nat, key: string, retrying: bool): Send {
    Send(key, if retrying then Peek else LoadFlag, Fallback(t), OtherFailed)
  }

  /** One more event on a breaker. */
  ghost function Touch(cfg: Config, g: Guard, e: Race.Event): Guard {
    Guard(Race.Apply(cfg, g.race, e), g.born, g.journal + [e])
  }

  ghost function TouchAt(targets: Targets, b: Table, pid: PolicyId, e: Race.Event): Table {
    if pid !in b.breakers then b
    else b.(breakers := b.breakers[pid := Touch(ConfigOf(targets, pid), b.breakers[pid], e)])
  }

  /** The clock moves for every breaker. */
  ghost function TickAll(targets: Targets, b: Table, ms: nat): Table {
    b.(now := b.now + ms,
       breakers := map pid | pid in b.breakers ::
                     Touch(ConfigOf(targets, pid), b.breakers[pid], Race.Tick(ms)))
  }

  predicate Calling(pc: Pc) {
    pc.Asking? || pc.Recording?
  }

  /** Where the breaker call of a send stands after its next step. */
  function Onward(targets: Targets, b: Table, m: Send): Race.Pc {
    if !Calling(m.pc) then Race.Idle
    else if m.pid !in b.breakers then m.pc.at
    else
      var r := b.breakers[m.pid].race;
      Race.NextPc(ConfigOf(targets, m.pid), r.cells, r.now, m.pc.at)
  }

  /** What the breaker is told about a request that completed. */
  function Verdicted(outcome: Exec): Race.Kind {
    if Classify(outcome).failure then Race.FailureCall else Race.SuccessCall
  }

  /** The send itself after its next step, where `at` is how far that step takes a breaker
      call; a step that needs an answer from outside waits for it. */
  function NextSend(s: State, t: nat, m: Send, at: Race.Pc): Send {
    var policies := s.table.policies;
    match m.pc
    case Peek => m.(pc := if m.key in policies then LoadFlag else PeekInsert)
    case PeekInsert => m.(pc := LoadFlag)
    case LoadFlag => m.(pc := if s.flag then Rejected else Lookup)
    case Lookup =>
      if m.key in policies then m.(pc := Admit, pid := policies[m.key]) else m.(pc := Insert)
    case Insert => m.(pc := Admit, pid := if m.key in policies then policies[m.key] else Fallback(t))
    case Admit => m.(pc := Asking(Race.Entry(Race.AllowCall)))
    case Asking(_) =>
      m.(pc := if !at.Returned? then Asking(at) else if at.admitted then Limit else CountRefusal)
    case CountRefusal => m.(pc := Refused)
    case Enter => m.(pc := Await)
    case Record => m.(pc := Recording(Race.Entry(Verdicted(m.outcome))))
    case Recording(_) => m.(pc := if at.Idle? then Count else Recording(at))
    case Count => m.(pc := Leave)
    case Leave => m.(pc := if s.inFlight == 1 then CheckFlag else Finished)
    case CheckFlag => m.(pc := if s.flag then Wake else Finished)
    case Wake => m.(pc := Finished)
    case _ => m
  }

  predicate Inserting(pc: Pc) {
    pc.PeekInsert? || pc.Insert?
  }

  /** The event that the next step of send `t` is for its policy's breaker. */
  function Touches(t: nat, m: Send): seq<Race.Event> {
    match m.pc
    case Admit => [Race.Start(t, Race.AllowCall)]
    case Record => [Race.Start(t, Verdicted(m.outcome))]
    case Asking(_) => [Race.Step(t)]
    case Recording(_) => [Race.Step(t)]
    case _ => []
  }

  /** What the next step of send `t` does to the policy table, ... */
  ghost function NextTable(targets: Targets, b: Table, t: nat, m: Send): Table {
    if Inserting(m.pc) then
      if m.key in b.policies then b
      else b.(policies := b.policies[m.key := Fallback(t)],
              breakers := b.breakers[Fallback(t) := NewGuard(b.now)])
    else if Touches(t, m) != [] then TouchAt(targets, b, m.pid, Touches(t, m)[0])
    else b
  }

  /** ... to the in-flight counter, ... */
  function NextInFlight(n: int, m: Send): int {
    if m.pc.Enter? then n + 1 else if m.pc.Leave? then n - 1 else n
  }

  /** ... to the request metric ... */
  function NextTotal(n: nat, m: Send): nat {
    if m.pc.CountRefusal? || m.pc.Count? then n + 1 else n
  }

  /** A shutdown call after a notification by send `t`. */
  function Woken(pc: ShutPc, t: nat): ShutPc {
    match pc
    case Recheck(wakers) => Recheck(wakers + {t})
    case Waiting(wakers) => Waiting(wakers + {t})
    case _ => pc
  }

  /** ... and to the waiters. */
  function NextShuts(shuts: map<nat, ShutPc>, t: nat, m: Send): map<nat, ShutPc> {
    if m.pc.Wake? then map w | w in shuts :: Woken(shuts[w], t) else shuts
  }

  ghost function StepSend(targets: Targets, s: State, t: nat, m: Send): State {
    State(NextTable(targets, s.table, t, m), s.flag, NextInFlight(s.inFlight, m),
          NextTotal(s.requestsTotal, m),
          s.sends[t := NextSend(s, t, m, Onward(targets, s.table, m))],
          NextShuts(s.shuts, t, m))
  }

  /** The next position of a shutdown call. */
  function NextShut(s: State, pc: ShutPc): ShutPc {
    match pc
    case StoreFlag => FirstLoad
    case FirstLoad => if s.inFlight == 0 then Drained(SawZero) else Register
    case Register => Recheck({})
    case Recheck(wakers) => if s.inFlight == 0 then Drained(SawZero) else Waiting(wakers)
    case Waiting(wakers) => if wakers != {} then Drained(Notified(wakers)) else pc
    case Expired => TimedOutWith(s.inFlight)
    case _ => pc
  }

  function StepShut(s: State, w: nat, pc: ShutPc): State {
    s.(flag := s.flag || pc.StoreFlag?, shuts := s.shuts[w := NextShut(s, pc)])
  }

  /** A send after an event from outside. */
  function Heard(m: Send, e: Event): Send {
    if e.Answer? && m.pc.Limit? then m.(pc := if e.ok then Enter else CountRefusal)
    else if e.Complete? && m.pc.Await? then m.(pc := Record, outcome := e.outcome)
    else if e.Drop? && m.pc.Await? then m.(pc := Dropped)
    else m
  }

  ghost function Apply(targets: Targets, s: State, e: Event): State {
    match e
    case Tick(ms) => s.(table := TickAll(targets, s.table, ms))
    case Begin(t, key, retrying) =>
      if t in s.sends then s else s.(sends := s.sends[t := NewSend(t, key, retrying)])
    case Step(t) => if t in s.sends then StepSend(targets, s, t, s.sends[t]) else s
    case Shutdown(w) => if w in s.shuts then s else s.(shuts := s.shuts[w := StoreFlag])
    case ShutStep(w) => if w in s.shuts then StepShut(s, w, s.shuts[w]) else s
    case Expire(w) =>
      if w in s.shuts && s.shuts[w] == Waiting({}) then s.(shuts := s.shuts[w := Expired]) else s
    case _ => if e.t in s.sends then s.(sends := s.sends[e.t := Heard(s.sends[e.t], e)]) else s
  }

  ghost function Run(targets: Targets, s: State, sched: seq<Event>): State
    decreases |sched|
  {
    if sched == [] then s else Run(targets, Apply(targets, s, sched[0]), sched[1..])
  }

  lemma RunCons(targets: Targets, s: State, e: Event, rest: seq<Event>)
    ensures Run(targets, s, [e] + rest) == Run(targets, Apply(targets, s, e), rest)
  {
    assert ([e] + rest)[1..] == rest;
  }

  lemma {:induction false} RunAppend(targets: Targets, s: State, a: seq<Event>, b: seq<Event>)
    ensures Run(targets, s, a + b) == Run(targets, Run(targets, s, a), b)
    decreases |a|
  {
    if a == [] {
      assert a + b == b;
    } else {
      assert (a + b)[1..] == a[1..] + b;
      RunAppend(targets, Apply(targets, s, a[0]), a[1..], b);
    }
  }

  /** The result handed to the caller of a completed send. */
  function Result(m: Send): SendResult {
    if m.pc.Finished? then Classify(m.outcome).result else Transient
  }

  /** What an uninterrupted send makes of its breaker's cells: one admission and, if the
      breaker and the limiter let it through, one outcome. */
  function AfterSend(cfg: Config, c: Cells, now: nat, limiterOk: bool, outcome: Exec, later: nat, stamp: nat): Cells {
    var asked := After(cfg, c, Allow(now));
    if Admits(cfg, c, now) && limiterOk
    then After(cfg, asked, Race.CallOf(Verdicted(outcome), later, stamp))
    else asked
  }
}
