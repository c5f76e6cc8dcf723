/** The Kafka consumer group. Any number of workers join, are given partitions and lose
    them, handle records one at a time, commit asynchronously and may crash or stop on an
    error at any moment. Commits of one assignment are applied in order or lost; a commit
    whose partition was taken away is fenced off by the broker. A partition has at most
    one owner, who starts at the committed offset, or at the earliest record if there is
    none. */
module Delivery {
  import opened StoreRace

  /** A record's payload, as far as the worker can tell. */
  datatype Payload = EventJson(event: TaskCreated) | Undecodable(bytes: seq<nat>)

  /** `Handled(p, o)`: the handler has accepted record `o` of partition `p`, and its
      commit call is next; `Fenced`: the same, but the partition was taken away. */
  datatype Pc = Polling | Handled(p: nat, o: nat) | Fenced | Stopped

  /** A worker session. `positions` gives the next offset of each partition it owns,
      `pending` the commits sent and not yet applied or lost. For the statements only:
      `log` is the records its handler has accepted, in order, and `progress` the records
      that its applied commits have moved past. */
  datatype Worker = Worker(
    pc: Pc,
    positions: map<nat, nat>,
    pending: map<nat, seq<nat>>,
    consumed: nat,
    skipped: nat,
    log: seq<(nat, nat)>,
    progress: set<(nat, nat)>)

  /** `accepted` and `counted` record what the handlers accepted and which ids were
      counted as consumed, over the whole run. */
  datatype Group = Group(
    logs: map<nat, seq<Payload>>,
    committed: map<nat, nat>,
    workers: map<nat, Worker>,
    accepted: set<(nat, nat)>,
    counted: set<string>)

  datatype Event =
    | Append(p: nat, payload: Payload)
    | Join(w: nat)
    | Assign(w: nat, p: nat)
    | Revoke(w: nat, p: nat)
    | ReceiveError(w: nat)
    | Dispatch(w: nat, p: nat, accept: bool)
    | CommitCall(w: nat, ok: bool)
    | ApplyCommit(w: nat, p: nat)
    | LoseCommit(w: nat, p: nat)
    | Crash(w: nat)

  function Init(): Group {
    Group(map[], map[], map[], {}, {})
  }

  function LogOf(g: Group, p: nat): seq<Payload> {
    if p in g.logs then g.logs[p] else []
  }

  /** The committed offset; a new group starts at the earliest record. */
  function CommittedOf(g: Group, p: nat): nat {
    if p in g.committed then g.committed[p] else 0
  }

  predicate Owned(g: Group, p: nat) {
    exists w :: w in g.workers && p in g.workers[w].positions
  }

  /** Leaving the group: nothing is owned and no commit is in flight any more. */
  function Stop(k: Worker): Worker {
    k.(pc := Stopped, positions := map[], pending := map[])
  }

  /** The worker's handler, on a record it accepts. */
  function Count(k: Worker, payload: Payload): Worker {
    if payload.EventJson? then k.(consumed := k.consumed + 1) else k.(skipped := k.skipped + 1)
  }

  function Receive(g: Group, k: Worker, p: nat, accept: bool): Worker {
    if !(k.pc.Polling? && p in k.positions && k.positions[p] < |LogOf(g, p)|) then k
    else if !accept then Stop(k)
    else
      var o := k.positions[p];
      Count(k, LogOf(g, p)[o]).(
        pc := Handled(p, o), positions := k.positions[p := o + 1], log := k.log + [(p, o)])
  }

  function TakeAway(k: Worker, p: nat): Worker {
    k.(pc := if k.pc.Handled? && k.pc.p == p then Fenced else k.pc,
       positions := k.positions - {p}, pending := k.pending - {p})
  }

  function CallCommit(k: Worker, ok: bool): Worker {
    if k.pc.Handled? || k.pc.Fenced? then
      if !ok then Stop(k)
      else if k.pc.Handled? && k.pc.p in k.pending
      then k.(pc := Polling, pending := k.pending[k.pc.p := k.pending[k.pc.p] + [k.pc.o + 1]])
      else k.(pc := Polling)
    else k
  }

  predicate HasPending(k: Worker, p: nat) {
    p in k.pending && |k.pending[p]| > 0
  }

  function Passed(p: nat, from: nat, to: nat): set<(nat, nat)> {
    set o | from <= o < to :: (p, o)
  }

  function PopCommit(k: Worker, p: nat): Worker {
    if HasPending(k, p) then k.(pending := k.pending[p := k.pending[p][1..]]) else k
  }

  function NextWorkers(g: Group, e: Event): map<nat, Worker> {
    match e
    case Append(_, _) => g.workers
    case Join(w) =>
      if w in g.workers then g.workers
      else g.workers[w := Worker(Polling, map[], map[], 0, 0, [], {})]
    case _ => if e.w in g.workers then g.workers[e.w := NextWorker(g, g.workers[e.w], e)] else g.workers
  }

  function NextWorker(g: Group, k: Worker, e: Event): Worker {
    match e
    case Assign(_, p) =>
      if k.pc.Polling? && !Owned(g, p)
      then k.(positions := k.positions[p := CommittedOf(g, p)], pending := k.pending[p := []]) else k
    case Revoke(_, p) => TakeAway(k, p)
    case Dispatch(_, p, accept) => Receive(g, k, p, accept)
    case CommitCall(_, ok) => CallCommit(k, ok)
    case ApplyCommit(_, p) =>
      if HasPending(k, p)
      then PopCommit(k, p).(progress := k.progress + Passed(p, CommittedOf(g, p), k.pending[p][0])) else k
    case LoseCommit(_, p) => PopCommit(k, p)
    case Crash(_) => Stop(k)
    case _ => k
  }

  function NextCommitted(g: Group, e: Event): map<nat, nat> {
    if e.ApplyCommit? && e.w in g.workers && HasPending(g.workers[e.w], e.p)
    then g.committed[e.p := g.workers[e.w].pending[e.p][0]] else g.committed
  }

  /** The record that the event has a handler accept, if any. */
  predicate Accepts(g: Group, e: Event) {
    && e.Dispatch? && e.accept && e.w in g.workers
    && g.workers[e.w].pc.Polling? && e.p in g.workers[e.w].positions
    && g.workers[e.w].positions[e.p] < |LogOf(g, e.p)|
  }

  function NextAccepted(g: Group, e: Event): set<(nat, nat)> {
    if Accepts(g, e) then g.accepted + {(e.p, g.workers[e.w].positions[e.p])} else g.accepted
  }

  function NextCounted(g: Group, e: Event): set<string> {
    if Accepts(g, e) && LogOf(g, e.p)[g.workers[e.w].positions[e.p]].EventJson?
    then g.counted + {LogOf(g, e.p)[g.workers[e.w].positions[e.p]].event.id} else g.counted
  }

  function NextLogs(g: Group, e: Event): map<nat, seq<Payload>> {
    if e.Append? then g.logs[e.p := LogOf(g, e.p) + [e.payload]] else g.logs
  }

  function Apply(g: Group, e: Event): Group {
    Group(NextLogs(g, e), NextCommitted(g, e), NextWorkers(g, e), NextAccepted(g, e), NextCounted(g, e))
  }

  function Run(g: Group, sched: seq<Event>): Group
    decreases |sched|
  {
    if sched == [] then g else Run(Apply(g, sched[0]), sched[1..])
  }

  // ---- at least once ----

  /** Every record of `p` below offset `n` was accepted. */
  predicate AcceptedBelow(g: Group, p: nat, n: nat) {
    forall o :: 0 <= o < n ==> (p, o) in g.accepted
  }

  predicate Increasing(s: seq<nat>) {
    forall i, j :: 0 <= i < j < |s| ==> s[i] < s[j]
  }

  /** A worker's hold on a partition: its position is past accepted records only, and its
      pending commits rise from the committed offset to at most that position. What lies
      between the committed offset and the position is in its own log. */
  predicate OwnerInv(g: Group, k: Worker, p: nat)
    requires p in k.positions
  {
    var c, pos := CommittedOf(g, p), k.positions[p];
    && c <= pos <= |LogOf(g, p)|
    && AcceptedBelow(g, p, pos)
    && p in k.pending
    && Increasing(k.pending[p])
    && (forall i :: 0 <= i < |k.pending[p]| ==> c < k.pending[p][i] <= pos)
    && (k.pc.Handled? && k.pc.p == p ==>
          c < k.pc.o + 1 <= pos && forall i :: 0 <= i < |k.pending[p]| ==> k.pending[p][i] < k.pc.o + 1)
    && (forall o :: c <= o < pos ==> (p, o) in k.log)
  }

  predicate WorkerInv(g: Group, k: Worker) {
    && (forall p :: p in k.positions ==> OwnerInv(g, k, p))
    && (forall p :: p in k.pending ==> p in k.positions)
    && (k.pc.Handled? ==> k.pc.p in k.positions)
    && k.consumed + k.skipped == |k.log|
    && (forall r :: r in k.progress ==> r in k.log)
  }

  predicate Owns(g: Group, w: nat, p: nat) {
    w in g.workers && p in g.workers[w].positions
  }

  ghost predicate OneOwner(g: Group) {
    forall v, w, p :: Owns(g, v, p) && Owns(g, w, p) ==> v == w
  }

  predicate PartitionInv(g: Group, p: nat) {
    CommittedOf(g, p) <= |LogOf(g, p)| && AcceptedBelow(g, p, CommittedOf(g, p))
  }

  ghost predicate GroupInv(g: Group) {
    && (forall p :: PartitionInv(g, p))
    && (forall w :: w in g.workers ==> WorkerInv(g, g.workers[w]))
    && OneOwner(g)
  }

  // Logs and acceptances only grow, and a commit touches its own partition only.
  lemma Monotone(g: Group, e: Event, p: nat)
    ensures var g' := Apply(g, e);
            && |LogOf(g, p)| <= |LogOf(g', p)|
            && g.accepted <= g'.accepted
            && (!(e.ApplyCommit? && e.p == p) ==> CommittedOf(g', p) == CommittedOf(g, p))
  {
  }

  lemma OwnerKept(g: Group, g': Group, k: Worker, p: nat)
    requires p in k.positions && OwnerInv(g, k, p)
    requires |LogOf(g, p)| <= |LogOf(g', p)| && g.accepted <= g'.accepted && CommittedOf(g', p) == CommittedOf(g, p)
    ensures OwnerInv(g', k, p)
  {
  }

  /** An owner's hold does not depend on its other partitions, its progress or the
      records it gets on top, and survives any move that does not touch the partition. */
  lemma OwnerLocal(g: Group, k: Worker, k': Worker, p: nat)
    requires p in k.positions && OwnerInv(g, k, p)
    requires p in k'.positions && k'.positions[p] == k.positions[p]
    requires p in k'.pending && k'.pending[p] == k.pending[p]
    requires k'.pc.Handled? && k'.pc.p == p ==> k'.pc == k.pc
    requires forall r :: r in k.log ==> r in k'.log
    ensures OwnerInv(g, k', p)
  {
  }

  /** A worker that does not act keeps what it has: only an owner commits. */
  lemma Bystander(g: Group, e: Event, v: nat)
    requires GroupInv(g) && v in g.workers
    requires e.Append? || e.w != v
    ensures WorkerInv(Apply(g, e), g.workers[v])
  {
    var k := g.workers[v];
    forall p | p in k.positions
      ensures OwnerInv(Apply(g, e), k, p)
    {
      Monotone(g, e, p);
      assert OwnerInv(g, k, p);
      if e.ApplyCommit? && e.p == p && e.w in g.workers && HasPending(g.workers[e.w], p) {
        assert WorkerInv(g, g.workers[e.w]);
        assert Owns(g, e.w, p) && Owns(g, v, p);
      }
      OwnerKept(g, Apply(g, e), k, p);
    }
  }

  lemma AssignKeeps(g: Group, w: nat, p: nat)
    requires GroupInv(g) && w in g.workers
    ensures WorkerInv(Apply(g, Assign(w, p)), NextWorker(g, g.workers[w], Assign(w, p)))
  {
    var k := g.workers[w];
    var k' := NextWorker(g, k, Assign(w, p));
    var g' := Apply(g, Assign(w, p));
    assert PartitionInv(g, p);
    forall q | q in k'.positions
      ensures OwnerInv(g', k', q)
    {
      Monotone(g, Assign(w, p), q);
      if q in k.positions {
        assert !(k != k' && q == p) by {
          if q == p {
            assert Owned(g, p);
          }
        }
        OwnerKept(g, g', k, q);
        OwnerLocal(g', k, k', q);
      }
    }
  }

  lemma RevokeKeeps(g: Group, w: nat, p: nat)
    requires GroupInv(g) && w in g.workers
    ensures WorkerInv(Apply(g, Revoke(w, p)), TakeAway(g.workers[w], p))
  {
    var k := g.workers[w];
    var g' := Apply(g, Revoke(w, p));
    forall q | q in TakeAway(k, p).positions
      ensures OwnerInv(g', TakeAway(k, p), q)
    {
      Monotone(g, Revoke(w, p), q);
      OwnerKept(g, g', k, q);
      OwnerLocal(g', k, TakeAway(k, p), q);
    }
  }

  /** The partition of an accepted record: the position moves past it. */
  lemma AcceptOwn(g: Group, g': Group, k: Worker, p: nat, k': Worker)
    requires p in k.positions && OwnerInv(g, k, p) && k.positions[p] < |LogOf(g, p)|
    requires LogOf(g', p) == LogOf(g, p) && CommittedOf(g', p) == CommittedOf(g, p)
    requires var o := k.positions[p];
             && g'.accepted == g.accepted + {(p, o)}
             && k'.log == k.log + [(p, o)]
             && k'.pc == Handled(p, o)
             && k'.positions == k.positions[p := o + 1] && k'.pending == k.pending
    ensures OwnerInv(g', k', p)
  {
    assert k'.log[|k.log|] == (p, k.positions[p]);
    assert forall r :: r in k.log ==> r in k'.log;
  }

  lemma AcceptKeeps(g: Group, w: nat, p: nat)
    requires GroupInv(g) && w in g.workers && Accepts(g, Dispatch(w, p, true))
    ensures WorkerInv(Apply(g, Dispatch(w, p, true)), Receive(g, g.workers[w], p, true))
  {
    var e := Dispatch(w, p, true);
    var k := g.workers[w];
    var k' := Receive(g, k, p, true);
    var g' := Apply(g, e);
    assert forall r :: r in k.log ==> r in k'.log;
    forall q | q in k'.positions
      ensures OwnerInv(g', k', q)
    {
      assert OwnerInv(g, k, q);
      Monotone(g, e, q);
      if q == p {
        AcceptOwn(g, g', k, p, k');
      } else {
        OwnerKept(g, g', k, q);
        OwnerLocal(g', k, k', q);
      }
    }
  }

  lemma DispatchKeeps(g: Group, w: nat, p: nat, accept: bool)
    requires GroupInv(g) && w in g.workers
    ensures WorkerInv(Apply(g, Dispatch(w, p, accept)), Receive(g, g.workers[w], p, accept))
  {
    var e := Dispatch(w, p, accept);
    var k' := Receive(g, g.workers[w], p, accept);
    if Accepts(g, e) {
      AcceptKeeps(g, w, p);
    } else {
      forall q | q in k'.positions
        ensures OwnerInv(Apply(g, e), k', q)
      {
        assert OwnerInv(g, g.workers[w], q);
        Monotone(g, e, q);
        OwnerKept(g, Apply(g, e), k', q);
      }
    }
  }

  /** The partition of a commit call: the commit joins the pending ones. */
  lemma CallOwn(g: Group, k: Worker)
    requires k.pc.Handled? && k.pc.p in k.positions && OwnerInv(g, k, k.pc.p)
    ensures OwnerInv(g, CallCommit(k, true), k.pc.p)
  {
    var rest := k.pending[k.pc.p];
    assert forall i :: 0 <= i < |rest| ==> (rest + [k.pc.o + 1])[i] == rest[i];
  }

  lemma CommitCallKeeps(g: Group, w: nat, ok: bool)
    requires GroupInv(g) && w in g.workers
    ensures WorkerInv(Apply(g, CommitCall(w, ok)), CallCommit(g.workers[w], ok))
  {
    var e := CommitCall(w, ok);
    var k := g.workers[w];
    var k' := CallCommit(k, ok);
    forall q | q in k'.positions
      ensures OwnerInv(Apply(g, e), k', q)
    {
      assert OwnerInv(g, k, q);
      Monotone(g, e, q);
      if k.pc.Handled? && k.pc.p == q && ok {
        CallOwn(g, k);
      } else {
        OwnerLocal(g, k, k', q);
      }
      OwnerKept(g, Apply(g, e), k', q);
    }
  }

  /** The committed partition itself: the offset moves to the first pending commit. */
  lemma CommitOwn(g: Group, g': Group, k: Worker, p: nat)
    requires p in k.positions && OwnerInv(g, k, p) && HasPending(k, p)
    requires LogOf(g', p) == LogOf(g, p) && g'.accepted == g.accepted && CommittedOf(g', p) == k.pending[p][0]
    ensures OwnerInv(g', PopCommit(k, p), p)
  {
    var rest := k.pending[p][1..];
    assert forall i :: 0 <= i < |rest| ==> rest[i] == k.pending[p][i + 1];
  }

  lemma ApplyCommitKeeps(g: Group, w: nat, p: nat)
    requires GroupInv(g) && w in g.workers
    ensures WorkerInv(Apply(g, ApplyCommit(w, p)), NextWorker(g, g.workers[w], ApplyCommit(w, p)))
  {
    var e := ApplyCommit(w, p);
    var k := g.workers[w];
    var k' := NextWorker(g, k, e);
    var g' := Apply(g, e);
    forall q | q in k'.positions
      ensures OwnerInv(g', k', q)
    {
      assert OwnerInv(g, k, q);
      if q == p && HasPending(k, p) {
        CommitOwn(g, g', k, p);
        OwnerLocal(g', PopCommit(k, p), k', p);
      } else {
        OwnerKept(g, g', k, q);
        OwnerLocal(g', k, k', q);
      }
    }
    if HasPending(k, p) {
      assert OwnerInv(g, k, p);
    }
  }

  lemma LoseOwn(g: Group, k: Worker, p: nat)
    requires p in k.positions && OwnerInv(g, k, p)
    ensures OwnerInv(g, PopCommit(k, p), p)
  {
    if HasPending(k, p) {
      var rest := k.pending[p][1..];
      assert forall i :: 0 <= i < |rest| ==> rest[i] == k.pending[p][i + 1];
    }
  }

  lemma LoseCommitKeeps(g: Group, w: nat, p: nat)
    requires GroupInv(g) && w in g.workers
    ensures WorkerInv(Apply(g, LoseCommit(w, p)), PopCommit(g.workers[w], p))
  {
    var e := LoseCommit(w, p);
    var k := g.workers[w];
    forall q | q in PopCommit(k, p).positions
      ensures OwnerInv(Apply(g, e), PopCommit(k, p), q)
    {
      assert OwnerInv(g, k, q);
      Monotone(g, e, q);
      if q == p {
        LoseOwn(g, k, p);
      } else {
        OwnerLocal(g, k, PopCommit(k, p), q);
      }
      OwnerKept(g, Apply(g, e), PopCommit(k, p), q);
    }
  }

  /** The acting worker. */
  lemma Actor(g: Group, e: Event)
    requires GroupInv(g) && !e.Append? && !e.Join? && e.w in g.workers
    ensures WorkerInv(Apply(g, e), NextWorker(g, g.workers[e.w], e))
  {
    match e
    case Assign(w, p) => AssignKeeps(g, w, p);
    case Revoke(w, p) => RevokeKeeps(g, w, p);
    case Dispatch(w, p, accept) => DispatchKeeps(g, w, p, accept);
    case CommitCall(w, ok) => CommitCallKeeps(g, w, ok);
    case ApplyCommit(w, p) => ApplyCommitKeeps(g, w, p);
    case LoseCommit(w, p) => LoseCommitKeeps(g, w, p);
    case Crash(_) =>
    case ReceiveError(w) =>
      forall q | q in g.workers[w].positions
        ensures OwnerInv(Apply(g, e), g.workers[w], q)
      {
        assert OwnerInv(g, g.workers[w], q);
      }
  }

  /** A committed offset only ever moves forward, and only over accepted records. */
  lemma PartitionStep(g: Group, e: Event, p: nat)
    requires GroupInv(g)
    ensures PartitionInv(Apply(g, e), p) && CommittedOf(g, p) <= CommittedOf(Apply(g, e), p)
  {
    assert PartitionInv(g, p);
    Monotone(g, e, p);
    if e.ApplyCommit? && e.p == p && e.w in g.workers && HasPending(g.workers[e.w], p) {
      assert OwnerInv(g, g.workers[e.w], p);
    }
  }

  lemma OwnersStep(g: Group, e: Event)
    requires GroupInv(g)
    ensures OneOwner(Apply(g, e))
  {
    var g' := Apply(g, e);
    forall v, w, p | Owns(g', v, p) && Owns(g', w, p)
      ensures v == w
    {
      OwnedBefore(g, e, v, p);
      OwnedBefore(g, e, w, p);
    }
  }

  /** A partition is gained by assignment only, and only when nobody owns it. */
  lemma OwnedBefore(g: Group, e: Event, w: nat, p: nat)
    requires Owns(Apply(g, e), w, p)
    ensures Owns(g, w, p) || (e == Assign(w, p) && forall v :: !Owns(g, v, p))
  {
  }

  lemma GroupStep(g: Group, e: Event)
    requires GroupInv(g)
    ensures GroupInv(Apply(g, e))
  {
    var g' := Apply(g, e);
    forall p
      ensures PartitionInv(g', p)
    {
      PartitionStep(g, e, p);
    }
    forall w | w in g'.workers
      ensures WorkerInv(g', g'.workers[w])
    {
      if w in g.workers && (e.Append? || e.w != w) {
        Bystander(g, e, w);
      } else if w in g.workers && !e.Join? {
        Actor(g, e);
      } else if w in g.workers {
        JoinAgain(g, w);
      }
    }
    OwnersStep(g, e);
  }

  lemma JoinAgain(g: Group, w: nat)
    requires GroupInv(g) && w in g.workers
    ensures WorkerInv(Apply(g, Join(w)), g.workers[w])
  {
    forall q | q in g.workers[w].positions
      ensures OwnerInv(Apply(g, Join(w)), g.workers[w], q)
    {
      assert OwnerInv(g, g.workers[w], q);
    }
  }

  lemma {:induction false} GroupRun(g: Group, sched: seq<Event>, p: nat)
    requires GroupInv(g)
    ensures GroupInv(Run(g, sched)) && CommittedOf(g, p) <= CommittedOf(Run(g, sched), p)
    decreases |sched|
  {
    if sched != [] {
      GroupStep(g, sched[0]);
      PartitionStep(g, sched[0], p);
      GroupRun(Apply(g, sched[0]), sched[1..], p);
    }
  }

  lemma InitInv()
    ensures GroupInv(Init())
  {
    assert forall p :: PartitionInv(Init(), p);
  }

  /** At-least-once delivery: over every run with handler errors, crashes, rebalances and
      lost commits, the committed offset of a partition never decreases, and every record
      below it was accepted by a handler; a partition's owner is past accepted records
      only. */
  lemma AtLeastOnce(past: seq<Event>, future: seq<Event>, p: nat)
    ensures var g := Run(Init(), past);
            && CommittedOf(g, p) <= CommittedOf(Run(g, future), p)
            && (forall o :: 0 <= o < CommittedOf(g, p) ==> o < |LogOf(g, p)| && (p, o) in g.accepted)
            && (forall w, o :: Owns(g, w, p) && 0 <= o < g.workers[w].positions[p] ==> (p, o) in g.accepted)
  {
    InitInv();
    GroupRun(Init(), past, p);
    var g := Run(Init(), past);
    GroupRun(g, future, p);
    assert PartitionInv(g, p);
    forall w, o | Owns(g, w, p) && 0 <= o < g.workers[w].positions[p]
      ensures (p, o) in g.accepted
    {
      assert OwnerInv(g, g.workers[w], p);
    }
  }

  // ---- the worker's counters ----

  lemma {:induction false} FewerThanListed(r: set<(nat, nat)>, log: seq<(nat, nat)>)
    requires forall x :: x in r ==> x in log
    ensures |r| <= |log|
    decreases |log|
  {
    if log != [] {
      var last, rest := log[|log| - 1], log[..|log| - 1];
      forall x | x in r - {last}
        ensures x in rest
      {
        var i :| 0 <= i < |log| && log[i] == x;
        assert rest[i] == x;
      }
      FewerThanListed(r - {last}, rest);
    } else {
      assert r == {};
    }
  }

  /** The decodable records among those listed. */
  function Decoded(g: Group, log: seq<(nat, nat)>): nat {
    if log == [] then 0
    else
      var (p, o) := log[|log| - 1];
      Decoded(g, log[..|log| - 1]) + if o < |LogOf(g, p)| && LogOf(g, p)[o].EventJson? then 1 else 0
  }

  predicate Exists(g: Group, r: (nat, nat)) {
    r.1 < |LogOf(g, r.0)|
  }

  ghost predicate ConsumedInv(g: Group, k: Worker) {
    k.consumed == Decoded(g, k.log) && forall i :: 0 <= i < |k.log| ==> Exists(g, k.log[i])
  }

  /** Appending records does not change those that are there. */
  lemma {:induction false} DecodedStable(g: Group, e: Event, log: seq<(nat, nat)>)
    requires forall i :: 0 <= i < |log| ==> Exists(g, log[i])
    ensures Decoded(Apply(g, e), log) == Decoded(g, log)
    ensures forall i :: 0 <= i < |log| ==> Exists(Apply(g, e), log[i])
  {
    if log != [] {
      DecodedStable(g, e, log[..|log| - 1]);
      assert Exists(g, log[|log| - 1]);
    }
  }

  lemma DecodedMore(g: Group, log: seq<(nat, nat)>, p: nat, o: nat)
    requires o < |LogOf(g, p)|
    ensures Decoded(g, log + [(p, o)]) == Decoded(g, log) + if LogOf(g, p)[o].EventJson? then 1 else 0
  {
    assert (log + [(p, o)])[..|log|] == log;
  }

  lemma ConsumedMove(g: Group, k: Worker, e: Event)
    requires ConsumedInv(g, k)
    ensures ConsumedInv(g, NextWorker(g, k, e))
  {
    if e.Dispatch? {
      if k.pc.Polling? && e.p in k.positions && k.positions[e.p] < |LogOf(g, e.p)| && e.accept {
        DecodedMore(g, k.log, e.p, k.positions[e.p]);
      }
    }
  }

  lemma ConsumedStep(g: Group, e: Event, w: nat)
    requires w in g.workers ==> ConsumedInv(g, g.workers[w])
    requires w in Apply(g, e).workers
    ensures ConsumedInv(Apply(g, e), Apply(g, e).workers[w])
  {
    var k' := Apply(g, e).workers[w];
    if w in g.workers && !e.Append? && !e.Join? && e.w == w {
      ConsumedMove(g, g.workers[w], e);
    }
    if w in g.workers {
      DecodedStable(g, e, k'.log);
    }
  }

  lemma {:induction false} ConsumedRun(g: Group, sched: seq<Event>, w: nat)
    requires w in g.workers ==> ConsumedInv(g, g.workers[w])
    ensures w in Run(g, sched).workers ==> ConsumedInv(Run(g, sched), Run(g, sched).workers[w])
    decreases |sched|
  {
    if sched != [] {
      if w in Apply(g, sched[0]).workers {
        ConsumedStep(g, sched[0], w);
      }
      ConsumedRun(Apply(g, sched[0]), sched[1..], w);
    }
  }

  /** In every run, a worker session's counters add up to the records its handler has
      accepted, the consumed one counts exactly the decodable ones among them, and both
      together cover all the records its commits have moved past. */
  lemma CountersCoverProgress(sched: seq<Event>, w: nat)
    requires w in Run(Init(), sched).workers
    ensures var g := Run(Init(), sched);
            var k := g.workers[w];
            && k.consumed + k.skipped == |k.log|
            && k.consumed == Decoded(g, k.log)
            && |k.progress| <= k.consumed + k.skipped
  {
    InitInv();
    GroupRun(Init(), sched, 0);
    ConsumedRun(Init(), sched, w);
    var k := Run(Init(), sched).workers[w];
    assert WorkerInv(Run(Init(), sched), k);
    FewerThanListed(k.progress, k.log);
  }
}
