/** When a list fails, and that it gets through otherwise: a list ends without a result only
    through a failed command of its own, whatever is created or deleted meanwhile, and with
    every command answered it ends after as many turns as the index had ids. */
module StoreLists {
  import opened Valkey
  import opened StoreRace
  import opened StoreAnswers

  // ---- failure ----

  /** The event is a failed command of list `l`, which stands at that command. */
  predicate FailsAt(s: Store, e: Event, l: nat) {
    l in s.lists &&
    match s.lists[l].pc
    case ReadIndex => e.ListIndex? && e.l == l && !e.ok
    case Fetch(ids, at, _) => e == ListFetch(l, false) && at < |ids|
    case _ => false
  }

  predicate HasFailed(s: Store, l: nat) {
    l in s.lists && s.lists[l].pc.ListFailed?
  }

  ghost predicate FailedBefore(sched: seq<Event>, l: nat) {
    exists j :: 0 <= j < |sched| && FailsAt(Run(sched[..j]), sched[j], l)
  }

  /** On any key space, a fetch turn fails exactly if its command does, or if what lies under
      the key does not decode. */
  lemma TurnFailsExactly(kv: Keyspace, pc: ListPc, ok: bool)
    requires pc.Fetch? && pc.at < |pc.ids|
    ensures var key := TaskKey(pc.ids[pc.at]);
            NextFetch(kv, pc, ok).ListFailed? <==> !ok || (key in kv && !kv[key].Json?)
  {
  }

  /** On a well-formed key space, a list fails by a failed command and by nothing else: in
      particular an id whose document is gone is skipped. */
  lemma FailureStep(s: Store, e: Event, l: nat)
    requires WellFormed(s.kv)
    ensures HasFailed(Apply(s, e), l) <==> HasFailed(s, l) || FailsAt(s, e, l)
  {
    if l in s.lists && s.lists[l].pc.Fetch? && s.lists[l].pc.at < |s.lists[l].pc.ids| {
      GetJsonView(s.kv, s.lists[l].pc.ids[s.lists[l].pc.at]);
    }
  }

  lemma FailedMore(sched: seq<Event>, e: Event, l: nat)
    ensures FailedBefore(sched + [e], l) <==> FailedBefore(sched, l) || FailsAt(Run(sched), e, l)
  {
    var longer := sched + [e];
    assert longer[..|sched|] == sched && longer[|sched|] == e;
    assert forall j :: 0 <= j < |sched| ==> longer[..j] == sched[..j] && longer[j] == sched[j];
    if j :| 0 <= j < |sched| && FailsAt(Run(sched[..j]), sched[j], l) {
      assert FailsAt(Run(longer[..j]), longer[j], l);
    }
    if FailsAt(Run(sched), e, l) {
      assert FailsAt(Run(longer[..|sched|]), longer[|sched|], l);
    }
  }

  /** In every run, a list has failed if and only if a command of its own has. */
  lemma {:induction false} ListFailsExactly(sched: seq<Event>, l: nat)
    ensures HasFailed(Run(sched), l) <==> FailedBefore(sched, l)
  {
    if sched != [] {
      var p, e := sched[..|sched| - 1], sched[|sched| - 1];
      assert sched == p + [e];
      ListFailsExactly(p, l);
      FailedMore(p, e, l);
      StoreRun(p);
      FailureStep(Run(p), e, l);
      RunLast(p, e);
    }
  }

  // ---- progress ----

  /** The fetch turns of list `l` in a schedule. */
  function Turns(sched: seq<Event>, l: nat): nat {
    if sched == [] then 0
    else Turns(sched[..|sched| - 1], l) + if sched[|sched| - 1] == ListFetch(l, true) then 1 else 0
  }

  /** Where a list that was fetching `ids` from `at` on stands after so many turns. */
  predicate Fetched(pc: ListPc, ids: seq<string>, at: nat, turns: nat) {
    if turns <= |ids| - at then pc.Fetch? && pc.ids == ids && pc.at == at + turns else pc.Listed?
  }

  lemma FetchedStep(s: Store, e: Event, l: nat, ids: seq<string>, at: nat, turns: nat)
    requires WellFormed(s.kv) && l in s.lists && at <= |ids| && Fetched(s.lists[l].pc, ids, at, turns)
    requires e != ListFetch(l, false)
    ensures l in Apply(s, e).lists
    ensures Fetched(Apply(s, e).lists[l].pc, ids, at, turns + if e == ListFetch(l, true) then 1 else 0)
  {
    if e == ListFetch(l, true) && s.lists[l].pc.Fetch? && s.lists[l].pc.at < |ids| {
      GetJsonView(s.kv, ids[s.lists[l].pc.at]);
    }
  }

  /** Whatever interleaves, a list whose fetches succeed moves on by one id a turn, and is
      through after one turn more than it had ids left. */
  lemma {:induction false} FetchesGetThrough(past: seq<Event>, more: seq<Event>, l: nat)
    requires l in Run(past).lists && Run(past).lists[l].pc.Fetch? && ListFetch(l, false) !in more
    ensures var Fetch(ids, at, _) := Run(past).lists[l].pc;
            && at <= |ids| && l in Run(past + more).lists
            && Fetched(Run(past + more).lists[l].pc, ids, at, Turns(more, l))
    decreases |more|
  {
    ListsRun(past);
    assert ListInv(Run(past), Run(past).lists[l]);
    if more == [] {
      assert past + more == past;
    } else {
      var p, e := more[..|more| - 1], more[|more| - 1];
      assert past + more == (past + p) + [e];
      FetchesGetThrough(past, p, l);
      RunLast(past + p, e);
      StoreRun(past + p);
      var Fetch(ids, at, _) := Run(past).lists[l].pc;
      FetchedStep(Run(past + p), e, l, ids, at, Turns(p, l));
    }
  }

  /** Every finite set can be listed, each member once. */
  lemma {:induction false} SomeOrder(ids: set<string>) returns (order: seq<string>)
    ensures Enumerates(order, ids)
    decreases ids
  {
    if ids == {} {
      order := [];
    } else {
      var id :| id in ids;
      var rest := SomeOrder(ids - {id});
      order := rest + [id];
      assert forall x :: x in ids ==> x == id || x in ids - {id};
    }
  }

  /** The ids in the index. */
  function IndexedIds(kv: Keyspace): set<string> {
    if INDEX_KEY in kv && kv[INDEX_KEY].Members? then kv[INDEX_KEY].ids else {}
  }

  /** In every run, an index read that succeeds takes the list on to fetch exactly the ids
      indexed at that moment, in the order in which the server gave them. */
  lemma IndexReadMovesOn(past: seq<Event>, l: nat, order: seq<string>)
    requires l in Run(past).lists && Run(past).lists[l].pc.ReadIndex?
    requires Enumerates(order, IndexedIds(Run(past).kv))
    ensures Run(past + [ListIndex(l, true, order)]).lists[l].pc == Fetch(order, 0, [])
  {
    RunLast(past, ListIndex(l, true, order));
    StoreRun(past);
  }

  function FetchTurns(l: nat, n: nat): (sched: seq<Event>)
    ensures Turns(sched, l) == n
    ensures ListFetch(l, false) !in sched
  {
    if n == 0 then []
    else
      var rest := FetchTurns(l, n - 1);
      assert (rest + [ListFetch(l, true)])[..|rest|] == rest;
      rest + [ListFetch(l, true)]
  }

  /** From every reachable state, a list that has not failed can be answered. */
  lemma ListCanFinish(past: seq<Event>, l: nat) returns (more: seq<Event>)
    requires l in Run(past).lists && !Run(past).lists[l].pc.ListFailed?
    ensures l in Run(past + more).lists && Run(past + more).lists[l].pc.Listed?
  {
    var first: seq<Event> := [];
    if Run(past).lists[l].pc.ReadIndex? {
      var order := SomeOrder(IndexedIds(Run(past).kv));
      IndexReadMovesOn(past, l, order);
      first := [ListIndex(l, true, order)];
    } else {
      assert past + first == past;
    }
    var now := past + first;
    if Run(now).lists[l].pc.Fetch? {
      var turns := FetchTurns(l, |Run(now).lists[l].pc.ids| + 1);
      FetchesGetThrough(now, turns, l);
      more := first + turns;
      assert past + more == now + turns;
    } else {
      more := first;
    }
  }

  /** From every reachable state a new list can be made and answered. */
  lemma ListCanRun(past: seq<Event>, l: nat) returns (more: seq<Event>)
    requires l !in Run(past).lists
    ensures l in Run(past + more).lists && Run(past + more).lists[l].pc.Listed?
    ensures Run(past + more).lists[l].began == |past|
  {
    var e := BeginList(l);
    RunLast(past, e);
    ClockCounts(past);
    var rest := ListCanFinish(past + [e], l);
    more := [e] + rest;
    assert past + more == (past + [e]) + rest;
    BeganKept(past + [e], rest, l);
  }

  lemma {:induction false} BeganKept(past: seq<Event>, more: seq<Event>, l: nat)
    requires l in Run(past).lists
    ensures l in Run(past + more).lists && Run(past + more).lists[l].began == Run(past).lists[l].began
    decreases |more|
  {
    if more == [] {
      assert past + more == past;
    } else {
      var p, e := more[..|more| - 1], more[|more| - 1];
      assert past + more == (past + p) + [e];
      BeganKept(past, p, l);
      RunLast(past + p, e);
    }
  }
}
