/** Two deletes of one id. Each looks the document up, deletes it and then removes the
    index entry, so both can answer true; they do exactly when both have looked before
    either has erased the document. */
module StoreDeletes {
  import opened Valkey
  import opened StoreRace
  import opened StoreAnswers

  /** The delete has found its document, and no command of it has failed. */
  predicate FoundIt(pc: DeletePc) {
    pc.DelKey? || pc.RemoveIndex? || pc == Deleted(true)
  }

  /** The delete has found its document, or has still to look and would find it now. */
  predicate MayAnswerTrue(s: Store, d: nat) {
    d in s.deletes && (FoundIt(s.deletes[d].pc) || (s.deletes[d].pc.Probe? && Stored(s.kv, s.deletes[d].id)))
  }

  predicate AnsweredTrue(s: Store, d: nat) {
    d in s.deletes && s.deletes[d].pc == Deleted(true)
  }

  // ---- failure ----

  /** The event is a failed command of delete `d`, which stands at that command. */
  predicate FailsAt(s: Store, e: Event, d: nat) {
    d in s.deletes &&
    match s.deletes[d].pc
    case Probe => e == DeleteRead(d, false)
    case DelKey => e.DeleteWrite? && e.d == d && !e.ack.Acked?
    case RemoveIndex => e.DeleteWrite? && e.d == d && !e.ack.Acked?
    case _ => false
  }

  predicate HasFailed(s: Store, d: nat) {
    d in s.deletes && (s.deletes[d].pc.ProbeFailed? || s.deletes[d].pc.DelFailed? || s.deletes[d].pc.RemoveFailed?)
  }

  ghost predicate FailedBefore(sched: seq<Event>, d: nat) {
    exists j :: 0 <= j < |sched| && FailsAt(Run(sched[..j]), sched[j], d)
  }

  lemma FailureStep(s: Store, e: Event, d: nat)
    requires WellFormed(s.kv)
    ensures HasFailed(Apply(s, e), d) <==> HasFailed(s, d) || FailsAt(s, e, d)
  {
    if d in s.deletes {
      GetJsonView(s.kv, s.deletes[d].id);
    }
  }

  lemma FailedMore(sched: seq<Event>, e: Event, d: nat)
    ensures FailedBefore(sched + [e], d) <==> FailedBefore(sched, d) || FailsAt(Run(sched), e, d)
  {
    var longer := sched + [e];
    assert longer[..|sched|] == sched && longer[|sched|] == e;
    assert forall j :: 0 <= j < |sched| ==> longer[..j] == sched[..j] && longer[j] == sched[j];
    if j :| 0 <= j < |sched| && FailsAt(Run(sched[..j]), sched[j], d) {
      assert FailsAt(Run(longer[..j]), longer[j], d);
    }
    if FailsAt(Run(sched), e, d) {
      assert FailsAt(Run(longer[..|sched|]), longer[|sched|], d);
    }
  }

  /** In every run, a delete has ended in an error if and only if a command of its own has
      failed, at the moment it stood at that command. */
  lemma {:induction false} DeleteFailsExactly(sched: seq<Event>, d: nat)
    ensures HasFailed(Run(sched), d) <==> FailedBefore(sched, d)
  {
    if sched != [] {
      var p, e := sched[..|sched| - 1], sched[|sched| - 1];
      assert sched == p + [e];
      DeleteFailsExactly(p, d);
      FailedMore(p, e, d);
      StoreRun(p);
      FailureStep(Run(p), e, d);
      RunLast(p, e);
    }
  }

  // ---- never again ----

  /** Once a delete of an id exists, no document is written under it any more. */
  lemma NotStoredAgain(s: Store, e: Event, d: nat)
    requires StoreInv(s) && d in s.deletes && !Stored(s.kv, s.deletes[d].id)
    ensures !Stored(Apply(s, e).kv, s.deletes[d].id)
  {
    var id := s.deletes[d].id;
    assert Exact(s, id) && Deleting(s.deletes, id);
    StoreStep(s, e);
    assert Exact(Apply(s, e), id);
    if !(e.DeleteWrite? && e.d !in s.deletes) {
      DeletesAfter(s, e, id);
    }
  }

  lemma StaysHopeless(s: Store, e: Event, d: nat)
    requires StoreInv(s) && d in s.deletes && !MayAnswerTrue(s, d)
    ensures d in Apply(s, e).deletes && !MayAnswerTrue(Apply(s, e), d)
  {
    DeleteMoves(s, e, d);
    if s.deletes[d].pc.Probe? {
      NotStoredAgain(s, e, d);
    }
  }

  lemma {:induction false} NeverTrue(past: seq<Event>, more: seq<Event>, d: nat)
    requires d in Run(past).deletes && !MayAnswerTrue(Run(past), d)
    ensures d in Run(past + more).deletes && !MayAnswerTrue(Run(past + more), d)
    decreases |more|
  {
    if more == [] {
      assert past + more == past;
    } else {
      var p, e := more[..|more| - 1], more[|more| - 1];
      assert past + more == (past + p) + [e];
      NeverTrue(past, p, d);
      RunLast(past + p, e);
      StoreRun(past + p);
      StaysHopeless(Run(past + p), e, d);
    }
  }

  // ---- carried out one after the other ----

  /** Only delete `d` differs. */
  predicate OnlyDelete(s: Store, s': Store, d: nat) {
    d in s'.deletes && s'.deletes == s.deletes[d := s'.deletes[d]]
  }

  /** The delete looks, if it has not yet. */
  lemma LooksUp(past: seq<Event>, d: nat) returns (more: seq<Event>)
    requires MayAnswerTrue(Run(past), d)
    ensures var s, s' := Run(past), Run(past + more);
            OnlyDelete(s, s', d) && FoundIt(s'.deletes[d].pc) && s'.kv == s.kv
  {
    var s := Run(past);
    if s.deletes[d].pc.Probe? {
      more := [DeleteRead(d, true)];
      RunLast(past, more[0]);
      StoreRun(past);
      GetJsonView(s.kv, s.deletes[d].id);
    } else {
      more := [];
      assert past + more == past;
    }
  }

  /** The delete carries on, each command acknowledged. */
  lemma CarriesOn(past: seq<Event>, d: nat) returns (more: seq<Event>)
    requires d in Run(past).deletes && FoundIt(Run(past).deletes[d].pc)
    ensures OnlyDelete(Run(past), Run(past + more), d) && AnsweredTrue(Run(past + more), d)
    decreases match Run(past).deletes[d].pc case DelKey => 2 case RemoveIndex => 1 case _ => 0
  {
    var s, e := Run(past), DeleteWrite(d, Acked);
    if s.deletes[d].pc.Deleted? {
      more := [];
      assert past + more == past;
    } else {
      RunLast(past, e);
      var rest := CarriesOn(past + [e], d);
      more := [e] + rest;
      assert past + more == (past + [e]) + rest;
    }
  }

  lemma BothLookUp(past: seq<Event>, d: nat, x: nat) returns (more: seq<Event>)
    requires d != x && MayAnswerTrue(Run(past), d) && MayAnswerTrue(Run(past), x)
    ensures var s := Run(past + more);
            d in s.deletes && x in s.deletes && FoundIt(s.deletes[d].pc) && FoundIt(s.deletes[x].pc)
  {
    var a := LooksUp(past, d);
    var b := LooksUp(past + a, x);
    more := a + b;
    assert past + more == (past + a) + b;
  }

  lemma BothCarryOn(past: seq<Event>, d: nat, x: nat) returns (more: seq<Event>)
    requires d != x && d in Run(past).deletes && x in Run(past).deletes
    requires FoundIt(Run(past).deletes[d].pc) && FoundIt(Run(past).deletes[x].pc)
    ensures AnsweredTrue(Run(past + more), d) && AnsweredTrue(Run(past + more), x)
  {
    var a := CarriesOn(past, d);
    var b := CarriesOn(past + a, x);
    more := a + b;
    assert past + more == (past + a) + b;
  }

  lemma BothAnswerTrue(past: seq<Event>, d: nat, x: nat) returns (more: seq<Event>)
    requires d != x && MayAnswerTrue(Run(past), d) && MayAnswerTrue(Run(past), x)
    ensures AnsweredTrue(Run(past + more), d) && AnsweredTrue(Run(past + more), x)
  {
    var a := BothLookUp(past, d, x);
    var b := BothCarryOn(past + a, d, x);
    more := a + b;
    assert past + more == (past + a) + b;
  }

  /** Exact: two deletes, of one id or not, can both answer true from here on if and only
      if each has found its document already or would find it now. Of one id, neither may
      look after the other has erased the document, and nothing else stands in the way. */
  lemma BothTrueExactly(past: seq<Event>, d: nat, x: nat)
    requires d != x && d in Run(past).deletes && x in Run(past).deletes
    ensures (exists more :: AnsweredTrue(Run(past + more), d) && AnsweredTrue(Run(past + more), x))
            <==> MayAnswerTrue(Run(past), d) && MayAnswerTrue(Run(past), x)
  {
    if MayAnswerTrue(Run(past), d) && MayAnswerTrue(Run(past), x) {
      var more := BothAnswerTrue(past, d, x);
    } else {
      forall more
        ensures !(AnsweredTrue(Run(past + more), d) && AnsweredTrue(Run(past + more), x))
      {
        if !MayAnswerTrue(Run(past), d) {
          NeverTrue(past, more, d);
        } else {
          NeverTrue(past, more, x);
        }
      }
    }
  }

  /** Two true answers for one task do come about. */
  lemma TrueTwice() returns (sched: seq<Event>)
    ensures var s := Run(sched);
            0 in s.deletes && 1 in s.deletes && s.deletes[0].id == s.deletes[1].id
            && AnsweredTrue(s, 0) && AnsweredTrue(s, 1)
  {
    var past := BothBegun("1");
    var more := BothAnswerTrue(past, 0, 1);
    sched := past + more;
    NamesKept(past, more, 0);
    NamesKept(past, more, 1);
  }

  /** Two deletes begin on a task that has been created. */
  lemma BothBegun(id: string) returns (sched: seq<Event>)
    ensures var s := Run(sched);
            && 0 in s.deletes && s.deletes[0].id == id && MayAnswerTrue(s, 0)
            && 1 in s.deletes && s.deletes[1].id == id && MayAnswerTrue(s, 1)
  {
    var past := CreatedAlone(id);
    StoreRun(past);
    assert Exact(Run(past), id);
    RunLast(past, BeginDelete(0, id));
    RunLast(past + [BeginDelete(0, id)], BeginDelete(1, id));
    sched := (past + [BeginDelete(0, id)]) + [BeginDelete(1, id)];
  }

  lemma CreatedAlone(id: string) returns (sched: seq<Event>)
    ensures var s := Run(sched); id in s.creates && s.creates[id].pc.Publish? && s.deletes == map[]
  {
    var a, b := BeginCreate(Task(id, "title", false, 1)), CreateWrite(id, Acked);
    RunLast([], a);
    RunLast([a], b);
    RunLast([a, b], b);
    assert [] + [a] == [a] && [a] + [b] == [a, b];
    sched := [a, b] + [b];
  }

  lemma {:induction false} NamesKept(past: seq<Event>, more: seq<Event>, d: nat)
    requires d in Run(past).deletes
    ensures d in Run(past + more).deletes && Run(past + more).deletes[d].id == Run(past).deletes[d].id
    decreases |more|
  {
    if more == [] {
      assert past + more == past;
    } else {
      var p, e := more[..|more| - 1], more[|more| - 1];
      assert past + more == (past + p) + [e];
      NamesKept(past, p, d);
      RunLast(past + p, e);
    }
  }
}
