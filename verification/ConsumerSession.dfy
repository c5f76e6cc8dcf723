/** The consumer loop is a session of the consumer group: on records that come in turn, its
    handovers and commit calls are the `Dispatch` and `CommitCall` events of one worker, and
    they leave that worker with what the loop reports. */
module ConsumerSession {
  import opened Delivery
  import opened DeliveryProgress
  import opened ConsumerLoop

  predicate AllGot(messages: seq<Receipt>) {
    forall i :: 0 <= i < |messages| ==> messages[i].Got?
  }

  function RecordsOf(messages: seq<Receipt>): seq<(nat, nat)>
    requires AllGot(messages)
  {
    seq(|messages|, i requires 0 <= i < |messages| => (messages[i].p, messages[i].o))
  }

  /** How many of the records belong to partition `p`. */
  function CountOf(messages: seq<Receipt>, p: nat): nat
    requires AllGot(messages)
  {
    if messages == [] then 0
    else CountOf(messages[..|messages| - 1], p) + if messages[|messages| - 1].p == p then 1 else 0
  }

  /** The offsets committed to partition `p`, in order. */
  function CommitsTo(commits: seq<(nat, nat)>, p: nat): seq<nat> {
    if commits == [] then []
    else
      var last := commits[|commits| - 1];
      CommitsTo(commits[..|commits| - 1], p) + if last.0 == p then [last.1] else []
  }

  /** The records are the next ones of the worker's partitions, each as the broker has it. */
  predicate InTurn(g: Group, k: Delivery.Worker, messages: seq<Receipt>)
    requires AllGot(messages)
  {
    messages == [] ||
    (InTurn(g, k, messages[..|messages| - 1])
     && var Got(p, o, payload) := messages[|messages| - 1];
        && p in k.positions && o == k.positions[p] + CountOf(messages[..|messages| - 1], p)
        && o < |LogOf(g, p)| && LogOf(g, p)[o] == payload)
  }

  /** The loop's turns as events of worker `w`: hand over, then call for a commit. */
  function TurnsOf(w: nat, messages: seq<Receipt>): seq<Event>
    requires AllGot(messages)
  {
    if messages == [] then []
    else
      TurnsOf(w, messages[..|messages| - 1]) + [Dispatch(w, messages[|messages| - 1].p, true), CommitCall(w, true)]
  }

  /** Worker `k` has become `k'` by accepting `messages` and sending `commits`: what it has
      accepted and counted, ... */
  predicate Took(k: Delivery.Worker, k': Delivery.Worker, messages: seq<Receipt>)
    requires AllGot(messages)
  {
    && k'.log == k.log + RecordsOf(messages)
    && k'.consumed == k.consumed + Decodable(messages, |messages|)
    && k'.consumed + k'.skipped == k.consumed + k.skipped + |messages|
  }

  /** ... and where it stands. */
  ghost predicate Moved(k: Delivery.Worker, k': Delivery.Worker, messages: seq<Receipt>, commits: seq<(nat, nat)>)
    requires AllGot(messages)
  {
    && k'.positions.Keys == k.positions.Keys && k'.pending.Keys == k.pending.Keys
    && (forall p :: p in k.positions ==> k'.positions[p] == k.positions[p] + CountOf(messages, p))
    && (forall p :: p in k.pending ==> k'.pending[p] == k.pending[p] + CommitsTo(commits, p))
  }

  ghost predicate Served(k: Delivery.Worker, k': Delivery.Worker, messages: seq<Receipt>, commits: seq<(nat, nat)>)
    requires AllGot(messages)
  {
    k'.pc.Polling? && Took(k, k', messages) && Moved(k, k', messages, commits)
  }

  predicate After(commits: seq<(nat, nat)>, messages: seq<Receipt>)
    requires AllGot(messages)
  {
    |commits| <= |messages| &&
    forall i :: 0 <= i < |commits| ==> commits[i].0 == messages[i].p && commits[i].1 == messages[i].o + 1
  }

  /** The group after one worker has moved and nothing else. */
  predicate OnlyWorker(g: Group, g': Group, w: nat) {
    w in g.workers && w in g'.workers && g'.logs == g.logs && g'.committed == g.committed
  }

  /** One accepted record and its commit call. */
  lemma OneTurn(g: Group, w: nat, p: nat)
    requires w in g.workers && g.workers[w].pc.Polling?
    requires var k := g.workers[w]; p in k.positions && p in k.pending && k.positions[p] < |LogOf(g, p)|
    ensures var g' := Run(g, [Dispatch(w, p, true), CommitCall(w, true)]);
            var k, o := g.workers[w], g.workers[w].positions[p];
            && OnlyWorker(g, g', w)
            && g'.workers[w] == Count(k, LogOf(g, p)[o]).(
                 positions := k.positions[p := o + 1], pending := k.pending[p := k.pending[p] + [o + 1]],
                 log := k.log + [(p, o)])
  {
    RunTwo(g, Dispatch(w, p, true), CommitCall(w, true));
  }

  lemma {:induction false} DecodableFront(messages: seq<Receipt>, n: nat)
    requires AllGot(messages) && n < |messages|
    ensures Decodable(messages[..|messages| - 1], n) == Decodable(messages, n)
  {
    if n > 0 {
      DecodableFront(messages, n - 1);
    }
  }

  /** What the last of some records adds to the counts. */
  lemma {:induction false} CountedMore(messages: seq<Receipt>)
    requires AllGot(messages) && messages != []
    ensures var n := |messages| - 1;
            && RecordsOf(messages) == RecordsOf(messages[..n]) + [(messages[n].p, messages[n].o)]
            && Decodable(messages, n + 1) == Decodable(messages[..n], n) + if messages[n].payload.EventJson? then 1 else 0
  {
    DecodableFront(messages, |messages| - 1);
  }

  /** What the last of some turns adds to what was accepted, ... */
  lemma TookMore(k: Delivery.Worker, k1: Delivery.Worker, k2: Delivery.Worker, messages: seq<Receipt>)
    requires AllGot(messages) && messages != [] && Took(k, k1, messages[..|messages| - 1])
    requires var Got(p, o, payload) := messages[|messages| - 1];
             && k2.log == k1.log + [(p, o)]
             && k2.consumed == Count(k1, payload).consumed && k2.skipped == Count(k1, payload).skipped
    ensures Took(k, k2, messages)
  {
    CountedMore(messages);
    assert k2.log == k.log + RecordsOf(messages);
  }

  /** ... and to where the worker stands. */
  lemma MovedMore(k: Delivery.Worker, k1: Delivery.Worker, k2: Delivery.Worker, messages: seq<Receipt>, commits: seq<(nat, nat)>)
    requires AllGot(messages) && messages != [] && After(commits, messages) && |commits| == |messages|
    requires var n := |messages| - 1; Moved(k, k1, messages[..n], commits[..n])
    requires var Got(p, o, _) := messages[|messages| - 1];
             && p in k1.positions && p in k1.pending && o == k1.positions[p]
             && k2.positions == k1.positions[p := o + 1]
             && k2.pending == k1.pending[p := k1.pending[p] + [o + 1]]
    ensures Moved(k, k2, messages, commits)
  {
    var n := |messages| - 1;
    assert commits[n] == (messages[n].p, messages[n].o + 1);
  }

  /** One turn more. */
  lemma TurnServes(g: Group, k: Delivery.Worker, w: nat, messages: seq<Receipt>, commits: seq<(nat, nat)>)
    requires AllGot(messages) && messages != [] && After(commits, messages) && |commits| == |messages|
    requires w in g.workers
    requires var n := |messages| - 1; Served(k, g.workers[w], messages[..n], commits[..n])
    requires var Got(p, o, payload) := messages[|messages| - 1];
             && p in g.workers[w].positions && p in g.workers[w].pending && o == g.workers[w].positions[p]
             && o < |LogOf(g, p)| && LogOf(g, p)[o] == payload
    ensures var g' := Run(g, [Dispatch(w, messages[|messages| - 1].p, true), CommitCall(w, true)]);
            OnlyWorker(g, g', w) && Served(k, g'.workers[w], messages, commits)
  {
    var p := messages[|messages| - 1].p;
    OneTurn(g, w, p);
    var g' := Run(g, [Dispatch(w, p, true), CommitCall(w, true)]);
    TookMore(k, g.workers[w], g'.workers[w], messages);
    MovedMore(k, g.workers[w], g'.workers[w], messages, commits);
  }

  lemma {:induction false} TurnsServe(g: Group, w: nat, messages: seq<Receipt>, commits: seq<(nat, nat)>)
    requires w in g.workers && g.workers[w].pc.Polling? && AllGot(messages) && InTurn(g, g.workers[w], messages)
    requires forall p :: p in g.workers[w].positions ==> p in g.workers[w].pending
    requires After(commits, messages) && |commits| == |messages|
    ensures var g' := Run(g, TurnsOf(w, messages));
            OnlyWorker(g, g', w) && Served(g.workers[w], g'.workers[w], messages, commits)
  {
    if messages == [] {
      assert g.workers[w].log + [] == g.workers[w].log;
    } else {
      var n := |messages| - 1;
      TurnsServe(g, w, messages[..n], commits[..n]);
      var g1 := Run(g, TurnsOf(w, messages[..n]));
      RunAppend(g, TurnsOf(w, messages[..n]), [Dispatch(w, messages[n].p, true), CommitCall(w, true)]);
      TurnServes(g1, g.workers[w], w, messages, commits);
    }
  }

  /** The events of a loop that ended after handing over `handed` records with `n` commit
      calls accepted. */
  function LoopEvents(w: nat, messages: seq<Receipt>, handed: nat, n: nat, stopped: bool): seq<Event>
    requires AllGot(messages) && n <= handed <= |messages| && (stopped ==> n < |messages|)
  {
    TurnsOf(w, messages[..n]) +
    (if !stopped then []
     else if handed == n then [Dispatch(w, messages[n].p, false)]
     else [Dispatch(w, messages[n].p, true), CommitCall(w, false)])
  }

  lemma {:induction false} InTurnPrefix(g: Group, k: Delivery.Worker, messages: seq<Receipt>, n: nat)
    requires AllGot(messages) && InTurn(g, k, messages) && n <= |messages|
    ensures InTurn(g, k, messages[..n])
    decreases |messages|
  {
    if n == |messages| {
      assert messages[..n] == messages;
    } else {
      var front := messages[..|messages| - 1];
      assert front[..n] == messages[..n];
      InTurnPrefix(g, k, front, n);
    }
  }

  /** Worker `k` has become `k'` by accepting `messages` and then leaving the group. */
  predicate Ended(k: Delivery.Worker, k': Delivery.Worker, messages: seq<Receipt>)
    requires AllGot(messages)
  {
    k'.pc.Stopped? && Took(k, k', messages)
  }

  /** The turn that stops the loop: a record is refused, ... */
  lemma Refuses(g: Group, k: Delivery.Worker, w: nat, messages: seq<Receipt>, commits: seq<(nat, nat)>, p: nat)
    requires w in g.workers && AllGot(messages) && Served(k, g.workers[w], messages, commits)
    requires p in g.workers[w].positions && g.workers[w].positions[p] < |LogOf(g, p)|
    ensures var g' := Run(g, [Dispatch(w, p, false)]);
            OnlyWorker(g, g', w) && Ended(k, g'.workers[w], messages)
  {
    RunTwo(g, Dispatch(w, p, false), Dispatch(w, p, false));
  }

  /** ... or accepted, and its commit call fails. */
  lemma FailsToCommit(g: Group, k: Delivery.Worker, w: nat, messages: seq<Receipt>, commits: seq<(nat, nat)>)
    requires AllGot(messages) && messages != [] && w in g.workers
    requires Served(k, g.workers[w], messages[..|messages| - 1], commits)
    requires var Got(p, o, payload) := messages[|messages| - 1];
             && p in g.workers[w].positions && o == g.workers[w].positions[p]
             && o < |LogOf(g, p)| && LogOf(g, p)[o] == payload
    ensures var g' := Run(g, [Dispatch(w, messages[|messages| - 1].p, true), CommitCall(w, false)]);
            OnlyWorker(g, g', w) && Ended(k, g'.workers[w], messages)
  {
    var n := |messages| - 1;
    RunTwo(g, Dispatch(w, messages[n].p, true), CommitCall(w, false));
    TookMore(k, g.workers[w], Run(g, [Dispatch(w, messages[n].p, true), CommitCall(w, false)]).workers[w], messages);
  }

  /** The records are the next ones at the worker's new positions. */
  lemma NextInTurn(g: Group, g1: Group, w: nat, messages: seq<Receipt>, n: nat, commits: seq<(nat, nat)>)
    requires w in g.workers && AllGot(messages) && n < |messages| && InTurn(g, g.workers[w], messages)
    requires OnlyWorker(g, g1, w) && Served(g.workers[w], g1.workers[w], messages[..n], commits)
    ensures var Got(p, o, payload) := messages[n];
            && p in g1.workers[w].positions && o == g1.workers[w].positions[p]
            && o < |LogOf(g1, p)| && LogOf(g1, p)[o] == payload
  {
    InTurnPrefix(g, g.workers[w], messages, n + 1);
    assert messages[..n + 1][..n] == messages[..n];
  }

  lemma LastTurn(g: Group, w: nat, messages: seq<Receipt>, handed: nat, commits: seq<(nat, nat)>)
    requires w in g.workers && AllGot(messages) && InTurn(g, g.workers[w], messages)
    requires |commits| < |messages| && |commits| <= handed <= |commits| + 1
    requires var g1 := Run(g, TurnsOf(w, messages[..|commits|]));
             OnlyWorker(g, g1, w) && Served(g.workers[w], g1.workers[w], messages[..|commits|], commits)
    ensures var g' := Run(g, LoopEvents(w, messages, handed, |commits|, true));
            OnlyWorker(g, g', w) && Ended(g.workers[w], g'.workers[w], messages[..handed])
  {
    var n := |commits|;
    var g1 := Run(g, TurnsOf(w, messages[..n]));
    NextInTurn(g, g1, w, messages, n, commits);
    if handed == n {
      RunAppend(g, TurnsOf(w, messages[..n]), [Dispatch(w, messages[n].p, false)]);
      Refuses(g1, g.workers[w], w, messages[..n], commits, messages[n].p);
    } else {
      RunAppend(g, TurnsOf(w, messages[..n]), [Dispatch(w, messages[n].p, true), CommitCall(w, false)]);
      assert messages[..n + 1][..n] == messages[..n];
      FailsToCommit(g1, g.workers[w], w, messages[..n + 1], commits);
    }
  }

  /** A consumer loop with the given report is this session of the group. Run as the events
      of worker `w`, it leaves the worker polling with all records accepted and counted, its
      positions past them and exactly the loop's commits pending behind those from before;
      or, if the loop stopped, out of the group with exactly the records accepted and
      counted that the loop handed to an accepting handler. */
  lemma LoopIsASession(g: Group, w: nat, messages: seq<Receipt>, handed: nat, commits: seq<(nat, nat)>,
                       stopped: bool, accepts: nat -> bool, commitOk: nat -> bool)
    requires w in g.workers && g.workers[w].pc.Polling? && AllGot(messages) && InTurn(g, g.workers[w], messages)
    requires forall p :: p in g.workers[w].positions ==> p in g.workers[w].pending
    requires After(commits, messages) && |commits| <= handed <= |messages|
    requires EndedBy(messages, handed, |commits|, stopped, accepts, commitOk)
    ensures stopped ==> |commits| < |messages|
    ensures var g' := Run(g, LoopEvents(w, messages, handed, |commits|, stopped));
            && OnlyWorker(g, g', w)
            && if stopped then Ended(g.workers[w], g'.workers[w], messages[..handed])
               else Served(g.workers[w], g'.workers[w], messages, commits)
  {
    var n := |commits|;
    InTurnPrefix(g, g.workers[w], messages, n);
    TurnsServe(g, w, messages[..n], commits);
    if stopped {
      LastTurn(g, w, messages, handed, commits);
    } else {
      assert messages[..n] == messages;
      assert TurnsOf(w, messages) + [] == TurnsOf(w, messages);
    }
  }
}
