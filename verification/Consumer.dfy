/** The consumer loop and the worker that runs on it. What `recv` yields until the future
    is dropped, and how handlers and commit calls end, are parameters. */
module ConsumerLoop {
  import opened Delivery

  datatype Receipt = Failed | Got(p: nat, o: nat, payload: Payload)

  /** The records among the receipts, in order; a receive error is only logged. */
  function Messages(inbox: seq<Receipt>): seq<Receipt> {
    if inbox == [] then []
    else
      var last := inbox[|inbox| - 1];
      Messages(inbox[..|inbox| - 1]) + if last.Got? then [last] else []
  }

  lemma {:induction false} MessagesPrefix(inbox: seq<Receipt>, n: nat)
    requires n <= |inbox|
    ensures |Messages(inbox[..n])| <= |Messages(inbox)|
    ensures Messages(inbox[..n]) == Messages(inbox)[..|Messages(inbox[..n])|]
    ensures n < |inbox| && inbox[n].Got? ==>
              |Messages(inbox[..n])| < |Messages(inbox)| && Messages(inbox)[|Messages(inbox[..n])|] == inbox[n]
    decreases |inbox|
  {
    if n == |inbox| {
      assert inbox[..n] == inbox;
    } else {
      var front := inbox[..|inbox| - 1];
      assert front[..n] == inbox[..n];
      MessagesPrefix(front, n);
    }
  }

  /** How the loop ended after handing over `handed` records and making `commits` commit
      calls: the receipts ran out, a handler failed on the next record, or the commit
      call for the last record failed. */
  predicate EndedBy(messages: seq<Receipt>, handed: nat, commits: nat, stopped: bool,
                    accepts: nat -> bool, commitOk: nat -> bool)
  {
    if !stopped then handed == |messages| && commits == handed
    else
      || (handed < |messages| && commits == handed && !accepts(handed))
      || (0 < handed <= |messages| && commits == handed - 1 && accepts(handed - 1) && !commitOk(handed - 1))
  }

  lemma {:induction false} MessagesAreGot(inbox: seq<Receipt>)
    ensures forall i :: 0 <= i < |Messages(inbox)| ==> Messages(inbox)[i].Got?
  {
    if inbox != [] {
      MessagesAreGot(inbox[..|inbox| - 1]);
    }
  }

  /** The events among the first `n` records. */
  function Decodable(messages: seq<Receipt>, n: nat): nat
    requires n <= |messages|
    requires forall i :: 0 <= i < |messages| ==> messages[i].Got?
  {
    if n == 0 then 0
    else Decodable(messages, n - 1) + if messages[n - 1].payload.EventJson? then 1 else 0
  }

  class Worker {
    var consumed: nat
    var skipped: nat

    constructor ()
      ensures consumed == 0 && skipped == 0
    {
      consumed, skipped := 0, 0;
    }

    /** Count a decodable event as consumed and any other record as skipped; accept both. */
    method Handle(payload: Payload) returns (accepted: bool)
      modifies this
      ensures accepted
      ensures consumed == old(consumed) + (if payload.EventJson? then 1 else 0)
      ensures skipped == old(skipped) + (if payload.EventJson? then 0 else 1)
    {
      if payload.EventJson? {
        consumed := consumed + 1;
      } else {
        skipped := skipped + 1;
      }
      accepted := true;
    }

    /** The worker on the consumer loop: no record stops it, so it hands over every record
        until a commit call fails, and each is counted exactly once. */
    method RunWorker(inbox: seq<Receipt>, commitOk: nat -> bool)
      returns (handed: nat, commits: seq<(nat, nat)>, stopped: bool)
      modifies this
      ensures forall i :: 0 <= i < |Messages(inbox)| ==> Messages(inbox)[i].Got?
      ensures handed <= |Messages(inbox)|
      ensures EndedBy(Messages(inbox), handed, |commits|, stopped, _ => true, commitOk)
      ensures |commits| <= handed
      ensures forall i :: 0 <= i < |commits| ==>
                commits[i].0 == Messages(inbox)[i].p && commits[i].1 == Messages(inbox)[i].o + 1
      ensures consumed == old(consumed) + Decodable(Messages(inbox), handed)
      ensures consumed + skipped == old(consumed + skipped) + handed
    {
      handed, commits, stopped := RunLoop(inbox, Counting(this), commitOk);
    }
  }

  /** The handler passed to the loop: any handler, described by its answer to each record
      in turn, or the worker's. */
  datatype Handler = Answering(answers: nat -> bool) | Counting(worker: Worker)

  ghost function AnswersOf(handler: Handler): nat -> bool {
    match handler
    case Answering(answers) => answers
    case Counting(_) => _ => true
  }

  /** `Consumer::run`: hand each record to the handler and commit it only once accepted;
      stop at the first failing handler or commit call. The records handed over are a
      prefix of those received, and each commit is the offset after an accepted record. */
  method RunLoop(inbox: seq<Receipt>, handler: Handler, commitOk: nat -> bool)
    returns (handed: nat, commits: seq<(nat, nat)>, stopped: bool)
    modifies if handler.Counting? then {handler.worker} else {}
    ensures forall i :: 0 <= i < |Messages(inbox)| ==> Messages(inbox)[i].Got?
    ensures handed <= |Messages(inbox)| && |commits| <= handed
    ensures forall i :: 0 <= i < |commits| ==>
              commits[i].0 == Messages(inbox)[i].p && commits[i].1 == Messages(inbox)[i].o + 1
    ensures forall i :: 0 <= i < |commits| ==> AnswersOf(handler)(i) && commitOk(i)
    ensures EndedBy(Messages(inbox), handed, |commits|, stopped, AnswersOf(handler), commitOk)
    ensures handler.Counting? ==>
              var k := handler.worker;
              && k.consumed == old(k.consumed) + Decodable(Messages(inbox), handed)
              && k.consumed + k.skipped == old(k.consumed + k.skipped) + handed
  {
    ghost var all := Messages(inbox);
    MessagesAreGot(inbox);
    handed, commits, stopped := 0, [], false;
    var n := 0;
    while n < |inbox|
      invariant 0 <= n <= |inbox|
      invariant handed == |commits| == |Messages(inbox[..n])| <= |all|
      invariant forall i :: 0 <= i < handed ==> commits[i] == (all[i].p, all[i].o + 1)
      invariant forall i :: 0 <= i < handed ==> AnswersOf(handler)(i) && commitOk(i)
      invariant handler.Counting? ==>
                  var k := handler.worker;
                  && k.consumed == old(k.consumed) + Decodable(all, handed)
                  && k.consumed + k.skipped == old(k.consumed + k.skipped) + handed
    {
      MessagesPrefix(inbox, n);
      assert inbox[..n + 1][..n] == inbox[..n];
      if inbox[n].Got? {
        var Got(p, o, payload) := inbox[n];
        var accepted: bool;
        match handler {
          case Answering(answers) => accepted := answers(handed);
          case Counting(worker) => accepted := worker.Handle(payload);
        }
        if !accepted {
          stopped := true;
          return;
        }
        handed := handed + 1;
        if !commitOk(handed - 1) {
          stopped := true;
          return;
        }
        commits := commits + [(p, o + 1)];
        assert all[handed - 1] == inbox[n];
      }
      n := n + 1;
    }
    assert inbox[..n] == inbox;
  }
}
