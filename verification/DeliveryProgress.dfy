/** Commits take hold. What a worker has accepted is committed once its commit call has
    succeeded and been applied, an owner is never ahead of what it has promised to commit,
    and from every reachable state the whole of a partition can still be accepted and
    committed. */
module DeliveryProgress {
  import opened Tally
  import opened Delivery

  lemma {:induction false} RunAppend(g: Group, a: seq<Event>, b: seq<Event>)
    ensures Run(g, a + b) == Run(Run(g, a), b)
    decreases |a|
  {
    if a == [] {
      assert a + b == b;
    } else {
      assert (a + b)[1..] == a[1..] + b;
      RunAppend(Apply(g, a[0]), a[1..], b);
    }
  }

  lemma RunTwo(g: Group, e: Event, f: Event)
    ensures Run(g, [e]) == Apply(g, e) && Run(g, [e, f]) == Apply(Apply(g, e), f)
  {
    assert [e][1..] == [] && [e, f][1..] == [f] && [f][1..] == [];
    assert Run(Apply(g, e), [f]) == Apply(Apply(g, e), f);
  }

  lemma ReachInv(past: seq<Event>)
    ensures GroupInv(Run(Init(), past))
  {
    InitInv();
    GroupRun(Init(), past, 0);
  }

  // ---- what ends a session, and what does not ----

  /** The worker's loop is to take record `o` of `p` next. */
  predicate CanReceive(g: Group, w: nat, p: nat) {
    && Owns(g, w, p) && g.workers[w].pc.Polling? && g.workers[w].positions[p] < |LogOf(g, p)|
  }

  /** A worker stops exactly on a record its handler refuses, on a commit call that fails
      after one it has accepted, and on a crash; a receive error, a lost commit or a
      rebalance does not stop it. After a commit call that succeeds it polls again, even if
      the partition was taken away meanwhile. */
  lemma StopsExactly(g: Group, e: Event, w: nat)
    requires w in g.workers
    ensures var pc, k' := g.workers[w].pc, Apply(g, e).workers[w];
            && (k'.pc.Stopped? <==>
                  || pc.Stopped? || e == Crash(w)
                  || (e.Dispatch? && e.w == w && !e.accept && CanReceive(g, w, e.p))
                  || (e == CommitCall(w, false) && (pc.Handled? || pc.Fenced?)))
            && (e == CommitCall(w, true) && (pc.Handled? || pc.Fenced?) ==> k'.pc.Polling?)
            && (e == ReceiveError(w) ==> k' == g.workers[w])
  {
  }

  // ---- applying the pending commits ----

  function Applies(w: nat, p: nat, n: nat): seq<Event> {
    if n == 0 then [] else [ApplyCommit(w, p)] + Applies(w, p, n - 1)
  }

  /** Nothing changes but what the broker has committed for `p`, and what worker `w` knows
      of it. */
  predicate OnlyCommits(g: Group, g': Group, w: nat, p: nat) {
    && g'.logs == g.logs && w in g.workers && w in g'.workers
    && g'.workers - {w} == g.workers - {w}
    && g'.workers[w].pc == g.workers[w].pc && g'.workers[w].positions == g.workers[w].positions
    && p in g'.workers[w].pending
  }

  /** Applied in order, the pending commits leave the last of them. */
  lemma {:induction false} ApplyAll(g: Group, w: nat, p: nat)
    requires w in g.workers && p in g.workers[w].pending
    ensures var q := g.workers[w].pending[p];
            var g' := Run(g, Applies(w, p, |q|));
            && OnlyCommits(g, g', w, p) && g'.workers[w].pending[p] == []
            && CommittedOf(g', p) == if q == [] then CommittedOf(g, p) else q[|q| - 1]
    decreases |g.workers[w].pending[p]|
  {
    var q := g.workers[w].pending[p];
    if q != [] {
      var e := ApplyCommit(w, p);
      assert Applies(w, p, |q|)[1..] == Applies(w, p, |q| - 1);
      ApplyAll(Apply(g, e), w, p);
    }
  }

  /** The owner of a partition starts at its committed offset, with nothing pending. */
  lemma NewOwnerStarts(g: Group, v: nat, p: nat)
    requires v in g.workers && g.workers[v].pc.Polling? && !Owned(g, p)
    ensures var k := Apply(g, Assign(v, p)).workers[v];
            p in k.positions && k.positions[p] == CommittedOf(g, p) && k.pending == g.workers[v].pending[p := []]
  {
  }

  /** The commit call puts the next offset behind the pending ones. */
  lemma CallAdds(g: Group, w: nat, p: nat, o: nat)
    requires GroupInv(g) && w in g.workers && g.workers[w].pc == Handled(p, o)
    ensures Owns(g, w, p) && p in g.workers[w].pending
    ensures var called := Apply(g, CommitCall(w, true));
            && called.logs == g.logs && called.committed == g.committed
            && called.workers == g.workers[w := g.workers[w].(pc := Polling,
                 pending := g.workers[w].pending[p := g.workers[w].pending[p] + [o + 1]])]
  {
    assert WorkerInv(g, g.workers[w]) && OwnerInv(g, g.workers[w], p);
  }

  /** From every reachable state in which a worker's handler has accepted record `o` of `p`
      and its commit call is next: once that call has succeeded and the pending commits are
      applied, the committed offset is `o + 1`, and the partition's next owner starts there. */
  lemma CommitTakesHold(past: seq<Event>, w: nat, p: nat, o: nat, v: nat)
    requires var g := Run(Init(), past);
             && w in g.workers && g.workers[w].pc == Handled(p, o)
             && v in g.workers && (v == w || g.workers[v].pc.Polling?)
    ensures var g := Run(Init(), past);
            && p in g.workers[w].pending
            && var called := Apply(g, CommitCall(w, true));
               var done := Run(called, Applies(w, p, |g.workers[w].pending[p]| + 1));
               && CommittedOf(done, p) == o + 1
               && w in done.workers && done.workers[w].pc.Polling?
               && var moved := Run(done, [Revoke(w, p), Assign(v, p)]);
                  v in moved.workers && p in moved.workers[v].positions && moved.workers[v].positions[p] == o + 1
  {
    var g := Run(Init(), past);
    ReachInv(past);
    CallAdds(g, w, p, o);
    var called := Apply(g, CommitCall(w, true));
    ApplyAll(called, w, p);
    HandsOver(g, called, Run(called, Applies(w, p, |g.workers[w].pending[p]| + 1)), w, p, v);
  }

  /** While `w` settles its commits of `p`, no other worker owns `p` or changes. */
  lemma OthersOff(g: Group, called: Group, done: Group, w: nat, p: nat, u: nat)
    requires OneOwner(g) && Owns(g, w, p) && u != w && u in done.workers
    requires w in called.workers && called.workers == g.workers[w := called.workers[w]]
    requires OnlyCommits(called, done, w, p)
    ensures u in g.workers && done.workers[u] == g.workers[u] && p !in done.workers[u].positions
  {
    assert u in done.workers - {w} && u in called.workers - {w};
    assert (done.workers - {w})[u] == (called.workers - {w})[u];
    assert !(Owns(g, u, p) && Owns(g, w, p));
  }

  /** A partition taken from its owner is free, and its next owner starts at the committed
      offset. */
  lemma HandsOver(g: Group, called: Group, done: Group, w: nat, p: nat, v: nat)
    requires OneOwner(g) && Owns(g, w, p) && v in g.workers && (v == w || g.workers[v].pc.Polling?)
    requires w in called.workers && called.workers == g.workers[w := called.workers[w]]
    requires OnlyCommits(called, done, w, p) && done.workers[w].pc.Polling?
    ensures var moved := Run(done, [Revoke(w, p), Assign(v, p)]);
            && v in moved.workers && p in moved.workers[v].positions
            && moved.workers[v].positions[p] == CommittedOf(done, p)
  {
    forall u | u in done.workers && u != w
      ensures p !in done.workers[u].positions
      ensures u in g.workers && done.workers[u] == g.workers[u]
    {
      OthersOff(g, called, done, w, p, u);
    }
    assert v != w ==> v in called.workers - {w} && v in done.workers - {w};
    var revoked := Apply(done, Revoke(w, p));
    RunTwo(done, Revoke(w, p), Assign(v, p));
    assert !Owned(revoked, p);
    NewOwnerStarts(revoked, v, p);
  }

  // ---- an owner's promise ----

  /** The offset that worker `k` will have committed for `p` once its commit call ahead and
      its pending commits are through, where `committed` is the offset now. */
  function Promised(committed: nat, k: Worker, p: nat): nat {
    if k.pc.Handled? && k.pc.p == p then k.pc.o + 1
    else if HasPending(k, p) then k.pending[p][|k.pending[p]| - 1]
    else committed
  }

  predicate PromiseKept(committed: nat, k: Worker, p: nat) {
    p in k.positions ==> k.positions[p] == Promised(committed, k, p)
  }

  predicate KeepsPromise(g: Group, w: nat, p: nat) {
    w in g.workers ==> PromiseKept(CommittedOf(g, p), g.workers[w], p)
  }

  /** The committed offset after an event of worker `k`. */
  function CommittedAfter(g: Group, k: Worker, e: Event, p: nat): nat {
    if e.ApplyCommit? && e.p == p && HasPending(k, p) then k.pending[p][0] else CommittedOf(g, p)
  }

  /** The worker's own events, one kind at a time. */
  lemma PromiseReceive(g: Group, k: Worker, q: nat, accept: bool, p: nat)
    requires PromiseKept(CommittedOf(g, p), k, p)
    ensures PromiseKept(CommittedOf(g, p), Receive(g, k, q, accept), p)
  {
  }

  lemma PromiseCall(g: Group, k: Worker, ok: bool, p: nat)
    requires WorkerInv(g, k) && PromiseKept(CommittedOf(g, p), k, p)
    ensures PromiseKept(CommittedOf(g, p), CallCommit(k, ok), p)
  {
    if k.pc.Handled? {
      assert OwnerInv(g, k, k.pc.p);
    }
  }

  lemma PromiseApply(g: Group, k: Worker, q: nat, p: nat)
    requires PromiseKept(CommittedOf(g, p), k, p) && HasPending(k, q)
    ensures PromiseKept(if q == p then k.pending[p][0] else CommittedOf(g, p), PopCommit(k, q), p)
  {
  }

  lemma PromiseAssign(g: Group, k: Worker, w: nat, q: nat, p: nat)
    requires PromiseKept(CommittedOf(g, p), k, p)
    ensures PromiseKept(CommittedOf(g, p), NextWorker(g, k, Assign(w, q)), p)
  {
  }

  lemma PromiseRevoke(k: Worker, committed: nat, q: nat, p: nat)
    requires PromiseKept(committed, k, p)
    ensures PromiseKept(committed, TakeAway(k, q), p)
  {
  }

  lemma PromiseLose(k: Worker, committed: nat, q: nat, p: nat)
    requires PromiseKept(committed, k, p) && q != p
    ensures PromiseKept(committed, PopCommit(k, q), p)
  {
  }

  lemma PromiseMove(g: Group, k: Worker, e: Event, p: nat)
    requires WorkerInv(g, k) && PromiseKept(CommittedOf(g, p), k, p)
    requires !(e.LoseCommit? && e.p == p)
    ensures PromiseKept(CommittedAfter(g, k, e, p), NextWorker(g, k, e), p)
  {
    match e
    case Assign(w, q) => PromiseAssign(g, k, w, q, p);
    case Revoke(_, q) => PromiseRevoke(k, CommittedOf(g, p), q, p);
    case LoseCommit(_, q) => PromiseLose(k, CommittedOf(g, p), q, p);
    case Dispatch(_, q, accept) => PromiseReceive(g, k, q, accept, p);
    case CommitCall(_, ok) => PromiseCall(g, k, ok, p);
    case ApplyCommit(_, q) => PromiseApplied(g, k, e, q, p);
    case _ =>
  }

  lemma PromiseApplied(g: Group, k: Worker, e: Event, q: nat, p: nat)
    requires e.ApplyCommit? && e.p == q && PromiseKept(CommittedOf(g, p), k, p)
    ensures PromiseKept(CommittedAfter(g, k, e, p), NextWorker(g, k, e), p)
  {
    if HasPending(k, q) {
      PromiseApply(g, k, q, p);
    }
  }

  lemma PromiseOwn(g: Group, e: Event, w: nat, p: nat)
    requires GroupInv(g) && w in g.workers && KeepsPromise(g, w, p)
    requires !e.Append? && !e.Join? && e.w == w && e != LoseCommit(w, p)
    ensures KeepsPromise(Apply(g, e), w, p)
  {
    PromiseMove(g, g.workers[w], e, p);
    assert CommittedOf(Apply(g, e), p) == CommittedAfter(g, g.workers[w], e, p);
  }

  /** No other worker's event moves the committed offset of an owned partition. */
  lemma CommittedKept(g: Group, e: Event, w: nat, p: nat)
    requires GroupInv(g) && Owns(g, w, p) && (e.Append? || e.Join? || e.w != w)
    ensures CommittedOf(Apply(g, e), p) == CommittedOf(g, p)
  {
    if e.ApplyCommit? && e.w in g.workers && HasPending(g.workers[e.w], e.p) && e.p == p {
      assert WorkerInv(g, g.workers[e.w]) && Owns(g, e.w, p);
    }
  }

  /** Events of others. */
  lemma PromiseOther(g: Group, e: Event, w: nat, p: nat)
    requires GroupInv(g) && KeepsPromise(g, w, p)
    requires e.Append? || e.Join? || e.w != w
    ensures KeepsPromise(Apply(g, e), w, p)
  {
    var g' := Apply(g, e);
    if w in g.workers {
      assert g'.workers[w] == g.workers[w];
      if p in g.workers[w].positions {
        CommittedKept(g, e, w, p);
      }
    }
  }

  lemma {:induction false} PromiseRun(g: Group, sched: seq<Event>, w: nat, p: nat)
    requires GroupInv(g) && KeepsPromise(g, w, p) && LoseCommit(w, p) !in sched
    ensures KeepsPromise(Run(g, sched), w, p)
    decreases |sched|
  {
    if sched != [] {
      var e := sched[0];
      GroupStep(g, e);
      if !e.Append? && !e.Join? && e.w == w && w in g.workers {
        PromiseOwn(g, e, w, p);
      } else if !e.Append? && !e.Join? && e.w == w {
        assert Apply(g, e).workers == g.workers;
      } else {
        PromiseOther(g, e, w, p);
      }
      PromiseRun(Apply(g, e), sched[1..], w, p);
    }
  }

  /** In every run without lost commits of this worker and partition, an owner's position is
      what it has promised to commit; so it is the committed offset once nothing is pending
      and no commit call is ahead. */
  lemma OwnerIsCommitted(sched: seq<Event>, w: nat, p: nat)
    requires LoseCommit(w, p) !in sched && Owns(Run(Init(), sched), w, p)
    ensures var g := Run(Init(), sched);
            var k := g.workers[w];
            && k.positions[p] == Promised(CommittedOf(g, p), k, p)
            && (!HasPending(k, p) && !(k.pc.Handled? && k.pc.p == p) ==> k.positions[p] == CommittedOf(g, p))
  {
    InitInv();
    PromiseRun(Init(), sched, w, p);
  }

  // ---- everything can be committed ----

  /** A worker polls, and has nothing of `p` accepted but uncommitted. */
  predicate Caught(g: Group, w: nat, p: nat) {
    && Owns(g, w, p) && g.workers[w].pc.Polling?
    && p in g.workers[w].pending && g.workers[w].pending[p] == []
    && g.workers[w].positions[p] == CommittedOf(g, p) <= |LogOf(g, p)|
  }

  /** One record accepted, committed and applied. */
  lemma OneRecord(g: Group, w: nat, p: nat) returns (g': Group)
    requires Caught(g, w, p) && CommittedOf(g, p) < |LogOf(g, p)|
    ensures g' == Run(g, [Dispatch(w, p, true), CommitCall(w, true)] + [ApplyCommit(w, p)])
    ensures Caught(g', w, p) && g'.logs == g.logs && CommittedOf(g', p) == CommittedOf(g, p) + 1
  {
    var a, b, c := Dispatch(w, p, true), CommitCall(w, true), ApplyCommit(w, p);
    RunTwo(g, a, b);
    RunAppend(g, [a, b], [c]);
    var g1 := Apply(g, a);
    var g2 := Apply(g1, b);
    assert g2.workers[w].pending[p] == [CommittedOf(g, p) + 1];
    RunTwo(g2, c, c);
    g' := Apply(g2, c);
  }

  /** No record arrives during the schedule. */
  predicate NoAppends(sched: seq<Event>) {
    forall i :: 0 <= i < |sched| ==> !sched[i].Append?
  }

  lemma {:induction false} Drains(g: Group, w: nat, p: nat) returns (sched: seq<Event>)
    requires Caught(g, w, p)
    ensures NoAppends(sched)
    ensures var g' := Run(g, sched); g'.logs == g.logs && CommittedOf(g', p) == |LogOf(g, p)|
    decreases |LogOf(g, p)| - CommittedOf(g, p)
  {
    if CommittedOf(g, p) == |LogOf(g, p)| {
      sched := [];
    } else {
      var g' := OneRecord(g, w, p);
      var first := [Dispatch(w, p, true), CommitCall(w, true)] + [ApplyCommit(w, p)];
      var rest := Drains(g', w, p);
      RunAppend(g, first, rest);
      sched := first + rest;
    }
  }

  /** The owner's session ends. */
  lemma FreesFrom(g: Group, v: nat, p: nat)
    requires OneOwner(g) && Owns(g, v, p)
    ensures var g' := Apply(g, Crash(v));
            && !Owned(g', p) && g'.logs == g.logs && g'.committed == g.committed
            && g'.workers.Keys == g.workers.Keys
  {
    var g' := Apply(g, Crash(v));
    forall u | u in g'.workers
      ensures p !in g'.workers[u].positions
    {
      if u != v {
        assert g'.workers[u] == g.workers[u] && !(Owns(g, u, p) && Owns(g, v, p));
      }
    }
  }

  lemma Frees(g: Group, p: nat) returns (sched: seq<Event>)
    requires GroupInv(g)
    ensures NoAppends(sched)
    ensures var g' := Run(g, sched);
            && !Owned(g', p) && g'.logs == g.logs && g'.committed == g.committed
            && g'.workers.Keys == g.workers.Keys
  {
    if Owned(g, p) {
      var v :| v in g.workers && p in g.workers[v].positions;
      sched := [Crash(v)];
      RunTwo(g, Crash(v), Crash(v));
      assert Owns(g, v, p);
      FreesFrom(g, v, p);
    } else {
      sched := [];
    }
  }

  /** A new worker joins and takes a free partition. */
  lemma JoinsAndTakes(g: Group, w: nat, p: nat)
    requires w !in g.workers && !Owned(g, p) && CommittedOf(g, p) <= |LogOf(g, p)|
    ensures var g' := Run(g, [Join(w), Assign(w, p)]); Caught(g', w, p) && g'.logs == g.logs
  {
    RunTwo(g, Join(w), Assign(w, p));
    var joined := Apply(g, Join(w));
    assert !Owned(joined, p) by {
      forall u | u in joined.workers
        ensures p !in joined.workers[u].positions
      {
        if u != w {
          assert joined.workers[u] == g.workers[u];
        }
      }
    }
    NewOwnerStarts(joined, w, p);
  }

  /** A new worker takes the partition over, from whoever owns it. */
  lemma TakesOver(g: Group, p: nat) returns (w: nat, sched: seq<Event>)
    requires GroupInv(g)
    ensures NoAppends(sched)
    ensures Caught(Run(g, sched), w, p) && Run(g, sched).logs == g.logs
  {
    w := FreshKey(g.workers.Keys);
    var first := Frees(g, p);
    assert PartitionInv(g, p);
    JoinsAndTakes(Run(g, first), w, p);
    RunAppend(g, first, [Join(w), Assign(w, p)]);
    sched := first + [Join(w), Assign(w, p)];
  }

  /** From every reachable state, whatever has crashed, stopped or been lost, some
      continuation accepts and commits the whole of a partition. */
  lemma CanAlwaysCatchUp(past: seq<Event>, p: nat) returns (more: seq<Event>)
    ensures NoAppends(more)
    ensures var g, g' := Run(Init(), past), Run(Run(Init(), past), more);
            && g'.logs == g.logs && CommittedOf(g', p) == |LogOf(g, p)|
            && forall o :: 0 <= o < |LogOf(g, p)| ==> (p, o) in g'.accepted
  {
    var g := Run(Init(), past);
    ReachInv(past);
    var w, first := TakesOver(g, p);
    var rest := Drains(Run(g, first), w, p);
    RunAppend(g, first, rest);
    more := first + rest;
    RunAppend(Init(), past, more);
    AtLeastOnce(past + more, [], p);
  }

  // ---- what is counted ----

  /** Every accepted record is there, and if it decodes its id is counted. */
  ghost predicate AcceptedCounted(g: Group) {
    forall p, o :: (p, o) in g.accepted ==>
      o < |LogOf(g, p)| && (LogOf(g, p)[o].EventJson? ==> LogOf(g, p)[o].event.id in g.counted)
  }

  lemma CountedStep(g: Group, e: Event)
    requires AcceptedCounted(g)
    ensures AcceptedCounted(Apply(g, e))
  {
    var g' := Apply(g, e);
    forall p, o | (p, o) in g'.accepted
      ensures o < |LogOf(g', p)| && (LogOf(g', p)[o].EventJson? ==> LogOf(g', p)[o].event.id in g'.counted)
    {
      if (p, o) in g.accepted {
        assert LogOf(g', p)[o] == LogOf(g, p)[o];
      }
    }
  }

  lemma {:induction false} CountedRun(g: Group, sched: seq<Event>)
    requires AcceptedCounted(g)
    ensures AcceptedCounted(Run(g, sched))
    decreases |sched|
  {
    if sched != [] {
      CountedStep(g, sched[0]);
      CountedRun(Apply(g, sched[0]), sched[1..]);
    }
  }

  /** From every reachable state some continuation, without further records, counts every
      decodable record of a partition. */
  lemma CanCountAll(past: seq<Event>, p: nat) returns (more: seq<Event>)
    ensures NoAppends(more)
    ensures var g, g' := Run(Init(), past), Run(Run(Init(), past), more);
            forall o :: 0 <= o < |LogOf(g, p)| && LogOf(g, p)[o].EventJson? ==> LogOf(g, p)[o].event.id in g'.counted
  {
    more := CanAlwaysCatchUp(past, p);
    CountedRun(Init(), past);
    CountedRun(Run(Init(), past), more);
  }

  // ---- whose progress a commit is ----

  ghost predicate InSomeProgress(g: Group, p: nat, o: nat) {
    exists w :: w in g.workers && (p, o) in g.workers[w].progress
  }

  lemma ProgressStep(g: Group, e: Event, p: nat, o: nat)
    requires GroupInv(g)
    requires InSomeProgress(g, p, o) <==> o < CommittedOf(g, p)
    ensures InSomeProgress(Apply(g, e), p, o) <==> o < CommittedOf(Apply(g, e), p)
  {
    var g' := Apply(g, e);
    if w :| w in g.workers && (p, o) in g.workers[w].progress {
      assert w in g'.workers && (p, o) in g'.workers[w].progress;
    }
    if e.ApplyCommit? && e.w in g.workers && HasPending(g.workers[e.w], e.p) {
      ProgressApplied(g, e.w, e.p, p, o);
    } else {
      ProgressSame(g, e, p, o);
    }
  }

  /** No other event moves a committed offset or a progress. */
  lemma ProgressSame(g: Group, e: Event, p: nat, o: nat)
    requires !(e.ApplyCommit? && e.w in g.workers && HasPending(g.workers[e.w], e.p))
    ensures CommittedOf(Apply(g, e), p) == CommittedOf(g, p)
    ensures InSomeProgress(Apply(g, e), p, o) ==> InSomeProgress(g, p, o)
  {
    var g' := Apply(g, e);
    if w :| w in g'.workers && (p, o) in g'.workers[w].progress {
      assert w in g.workers && (p, o) in g.workers[w].progress;
    }
  }

  lemma ProgressApplied(g: Group, w: nat, q: nat, p: nat, o: nat)
    requires GroupInv(g) && w in g.workers && HasPending(g.workers[w], q)
    requires InSomeProgress(g, p, o) <==> o < CommittedOf(g, p)
    ensures var g' := Apply(g, ApplyCommit(w, q));
            InSomeProgress(g', p, o) <==> o < CommittedOf(g', p)
  {
    var g', k := Apply(g, ApplyCommit(w, q)), g.workers[w];
    var c, n := CommittedOf(g, q), k.pending[q][0];
    assert WorkerInv(g, k) && OwnerInv(g, k, q);
    assert g'.workers[w].progress == k.progress + Passed(q, c, n) && c < n;
    assert (p, o) in Passed(q, c, n) <==> p == q && c <= o < n;
    assert (p, o) in g'.workers[w].progress <==> (p, o) in k.progress || (p == q && c <= o < n);
    assert forall u :: u in g'.workers && u != w ==> g'.workers[u] == g.workers[u];
    if v :| v in g.workers && (p, o) in g.workers[v].progress {
      assert (p, o) in g'.workers[v].progress;
    }
    if v :| v in g'.workers && (p, o) in g'.workers[v].progress {
      assert v != w ==> (p, o) in g.workers[v].progress;
    }
  }

  lemma {:induction false} ProgressRun(g: Group, sched: seq<Event>, p: nat, o: nat)
    requires GroupInv(g)
    requires InSomeProgress(g, p, o) <==> o < CommittedOf(g, p)
    ensures InSomeProgress(Run(g, sched), p, o) <==> o < CommittedOf(Run(g, sched), p)
    decreases |sched|
  {
    if sched != [] {
      GroupStep(g, sched[0]);
      ProgressStep(g, sched[0], p, o);
      ProgressRun(Apply(g, sched[0]), sched[1..], p, o);
    }
  }

  /** In every run, the records below the committed offset of a partition are exactly those
      in the committed progress of some session. */
  lemma ProgressIsCommitted(sched: seq<Event>, p: nat, o: nat)
    ensures var g := Run(Init(), sched); InSomeProgress(g, p, o) <==> o < CommittedOf(g, p)
  {
    InitInv();
    ProgressRun(Init(), sched, p, o);
  }
}
