/** What a successful list returns, what a published event proves and what a delete's
    answer means, in every run of the contended store. */
module StoreAnswers {
  import opened Valkey
  import opened NewestFirst
  import opened StoreRace

  lemma {:induction false} RunLast(sched: seq<Event>, e: Event)
    ensures Run(sched + [e]) == Apply(Run(sched), e)
  {
    assert (sched + [e])[..|sched|] == sched;
  }

  // ---- completeness, order and uniqueness ----

  /** A task that a list must not miss: settled when it began, and erased by no delete up
      to now. */
  ghost predicate Due(s: Store, list: Listing, id: string) {
    id in list.settled && !SomeErased(s.deletes, id)
  }

  ghost predicate ListInv(s: Store, list: Listing) {
    && (forall id :: id in list.settled ==> Settled(s.creates, id))
    && match list.pc
       case ReadIndex => true
       case ListFailed => true
       case Fetch(ids, at, found) =>
         && at <= |ids|
         && (forall i, j :: 0 <= i < j < |ids| ==> ids[i] != ids[j])
         && DistinctIds(found)
         && (forall k :: 0 <= k < |found| ==> found[k].id in ids[..at])
         && (forall id :: Due(s, list, id) ==> id in ids && (id in ids[..at] ==> s.creates[id].task in found))
       case Listed(tasks) =>
         && Sorted(tasks) && DistinctIds(tasks)
         && (forall id :: Due(s, list, id) ==> s.creates[id].task in tasks)
  }

  /** A due task is stored and indexed. */
  lemma DueIsThere(s: Store, list: Listing, id: string)
    requires StoreInv(s) && Due(s, list, id) && Settled(s.creates, id)
    ensures Indexed(s.kv, id) && Holds(s.kv, s.creates[id].task) && s.creates[id].task.id == id
  {
    assert Exact(s, id);
  }

  lemma ForwardAll(s: Store, e: Event, list: Listing)
    requires ListInv(s, list)
    ensures ListInv(Apply(s, e), list)
  {
    var s' := Apply(s, e);
    forall id
      ensures Settled(s.creates, id) ==> Settled(s'.creates, id)
      ensures Due(s', list, id) ==> Due(s, list, id) && id in s'.creates && s'.creates[id].task == s.creates[id].task
    {
      if !(e.DeleteWrite? && e.d !in s.deletes) {
        DeletesAfter(s, e, id);
      }
    }
  }

  lemma IndexReadKeeps(s: Store, list: Listing, ok: bool, order: seq<string>)
    requires StoreInv(s) && ListInv(s, list)
    ensures ListInv(s, list.(pc := NextIndexRead(s.kv, list.pc, ok, order)))
  {
    var list' := list.(pc := NextIndexRead(s.kv, list.pc, ok, order));
    if list.pc.ReadIndex? && list'.pc.Fetch? {
      forall id | Due(s, list', id)
        ensures id in order
      {
        assert Due(s, list, id);
        DueIsThere(s, list, id);
      }
      assert order[..0] == [];
    }
  }

  lemma FetchKeeps(s: Store, list: Listing, ok: bool)
    requires StoreInv(s) && ListInv(s, list) && list.pc.Fetch? && list.pc.at < |list.pc.ids|
    ensures ListInv(s, list.(pc := NextFetch(s.kv, list.pc, ok)))
  {
    var Fetch(ids, at, found) := list.pc;
    var list' := list.(pc := NextFetch(s.kv, list.pc, ok));
    GetJsonView(s.kv, ids[at]);
    if list'.pc.Fetch? {
      var found' := list'.pc.found;
      assert ids[..at + 1] == ids[..at] + [ids[at]];
      assert forall t :: t in found ==> t in found';
      forall id | Due(s, list', id)
        ensures id in ids && (id in ids[..at + 1] ==> s.creates[id].task in found')
      {
        assert Due(s, list, id);
        if id == ids[at] {
          DueIsThere(s, list, id);
          assert found'[|found|] == s.creates[id].task;
        }
      }
    }
  }

  lemma SortKeeps(s: Store, list: Listing, ok: bool)
    requires ListInv(s, list) && list.pc.Fetch? && list.pc.at >= |list.pc.ids|
    ensures ListInv(s, list.(pc := NextFetch(s.kv, list.pc, ok)))
  {
    var Fetch(ids, at, found) := list.pc;
    var list' := list.(pc := Listed(Sort(found)));
    SortIsStable(found, 0);
    SortDistinct(found);
    assert ids[..at] == ids;
    forall id | Due(s, list', id)
      ensures s.creates[id].task in Sort(found)
    {
      assert Due(s, list, id);
      SortMembers(found, s.creates[id].task);
    }
  }

  ghost predicate ListsInv(s: Store) {
    forall l :: l in s.lists ==> ListInv(s, s.lists[l])
  }

  /** What the event makes of one list, before the rest of the state moves on. */
  lemma ListMoves(s: Store, e: Event, l: nat)
    requires StoreInv(s) && ListsInv(s) && l in NextLists(s, e)
    ensures ListInv(s, NextLists(s, e)[l])
  {
    if l in s.lists {
      assert ListInv(s, s.lists[l]);
      if e.ListIndex? && e.l == l {
        IndexReadKeeps(s, s.lists[l], e.ok, e.order);
      } else if e.ListFetch? && e.l == l && s.lists[l].pc.Fetch? {
        if s.lists[l].pc.at < |s.lists[l].pc.ids| {
          FetchKeeps(s, s.lists[l], e.ok);
        } else {
          SortKeeps(s, s.lists[l], e.ok);
        }
      }
    }
  }

  lemma {:induction false} ListsRun(sched: seq<Event>)
    ensures StoreInv(Run(sched)) && ListsInv(Run(sched))
  {
    StoreRun(sched);
    if sched != [] {
      var s, e := Run(sched[..|sched| - 1]), sched[|sched| - 1];
      ListsRun(sched[..|sched| - 1]);
      forall l | l in Apply(s, e).lists
        ensures ListInv(Apply(s, e), Apply(s, e).lists[l])
      {
        ListMoves(s, e, l);
        ForwardAll(s, e, NextLists(s, e)[l]);
      }
    }
  }

  // ---- soundness, and what the list began from ----

  /** The task was stored at some instant from step `from` on. */
  ghost predicate HeldDuring(sched: seq<Event>, task: Task, from: nat) {
    exists j :: from <= j < |sched| && Holds(Run(sched[..j]).kv, task)
  }

  predicate Collected(pc: ListPc, task: Task) {
    (pc.Fetch? && task in pc.found) || (pc.Listed? && task in pc.tasks)
  }

  lemma HeldLonger(sched: seq<Event>, e: Event, task: Task, from: nat)
    requires HeldDuring(sched, task, from)
    ensures HeldDuring(sched + [e], task, from)
  {
    var j :| from <= j < |sched| && Holds(Run(sched[..j]).kv, task);
    assert (sched + [e])[..j] == sched[..j];
  }

  /** A task newly collected by an event is stored at that moment. */
  lemma CollectedFromStore(s: Store, e: Event, l: nat, task: Task)
    requires StoreInv(s) && l in NextLists(s, e) && Collected(NextLists(s, e)[l].pc, task)
    ensures l in s.lists && NextLists(s, e)[l].began == s.lists[l].began
    ensures Collected(s.lists[l].pc, task) || Holds(s.kv, task)
  {
    if e.ListFetch? && e.l == l && s.lists[l].pc.Fetch? {
      var pc := s.lists[l].pc;
      if pc.at < |pc.ids| {
        GetJsonView(s.kv, pc.ids[pc.at]);
      } else {
        SortMembers(pc.found, task);
      }
    }
  }

  lemma {:induction false} CollectedWasHeld(sched: seq<Event>, l: nat, task: Task)
    requires l in Run(sched).lists && Collected(Run(sched).lists[l].pc, task)
    ensures HeldDuring(sched, task, Run(sched).lists[l].began)
  {
    var p, e := sched[..|sched| - 1], sched[|sched| - 1];
    var s := Run(p);
    assert sched == p + [e];
    StoreRun(p);
    CollectedFromStore(s, e, l, task);
    if Collected(s.lists[l].pc, task) {
      CollectedWasHeld(p, l, task);
      HeldLonger(p, e, task, s.lists[l].began);
    } else {
      BeganBefore(p, l);
      assert (p + [e])[..|p|] == p;
    }
  }

  /** An event keeps what a list began from, or begins it now. */
  lemma ListOrigin(s: Store, e: Event, l: nat)
    requires l in NextLists(s, e)
    ensures var list := NextLists(s, e)[l];
            if l in s.lists then list.began == s.lists[l].began && list.settled == s.lists[l].settled
            else list.began == s.clock && list.settled == SettledIds(s)
  {
  }

  /** `began` is a step of the run, and `settled` is what was settled then. */
  lemma {:induction false} BeganBefore(sched: seq<Event>, l: nat)
    requires l in Run(sched).lists
    ensures var list := Run(sched).lists[l];
            list.began < |sched| && list.settled == SettledIds(Run(sched[..list.began]))
  {
    var p, e := sched[..|sched| - 1], sched[|sched| - 1];
    var s := Run(p);
    ClockCounts(p);
    ListOrigin(s, e, l);
    if l in s.lists {
      BeganBefore(p, l);
      assert p[..s.lists[l].began] == sched[..s.lists[l].began];
    } else {
      assert sched[..|p|] == p;
    }
  }

  /** List under concurrency. In every run, a successful list is ordered newest first and
      has no id twice; it contains every task whose create had returned from the store
      when the list began and that no delete has erased up to now, even if deletes have
      looked at it or failed on it; and each task it contains was stored at some instant after it began. */
  lemma ListIsFaithful(sched: seq<Event>, l: nat)
    requires l in Run(sched).lists && Run(sched).lists[l].pc.Listed?
    ensures var s := Run(sched);
            var began, tasks := s.lists[l].began, s.lists[l].pc.tasks;
            && began < |sched|
            && Sorted(tasks) && DistinctIds(tasks)
            && (forall id :: Settled(Run(sched[..began]).creates, id) && !SomeErased(s.deletes, id) ==>
                  id in s.creates && s.creates[id].task in tasks)
            && (forall task :: task in tasks ==> HeldDuring(sched, task, began))
  {
    var s := Run(sched);
    var list := s.lists[l];
    ListsRun(sched);
    BeganBefore(sched, l);
    assert ListInv(s, list);
    forall id | Settled(Run(sched[..list.began]).creates, id) && !SomeErased(s.deletes, id)
      ensures id in s.creates && s.creates[id].task in list.pc.tasks
    {
      assert id in list.settled;
      assert Due(s, list, id);
    }
    forall task | task in list.pc.tasks
      ensures HeldDuring(sched, task, list.began)
    {
      CollectedWasHeld(sched, l, task);
    }
  }

  // ---- no event without a durable task ----

  /** The create wrote its document at step `keyAt` and its index entry at a later step
      `indexAt`, both acknowledged. */
  ghost predicate Durable(sched: seq<Event>, c: Create) {
    && c.keyAt < c.indexAt < |sched|
    && Holds(Run(sched[..c.keyAt + 1]).kv, c.task)
    && Indexed(Run(sched[..c.indexAt + 1]).kv, c.task.id)
  }

  /** Progress of a create's writes through the run. */
  ghost predicate WritesInv(sched: seq<Event>, c: Create) {
    && (c.pc.AddIndex? ==> c.keyAt < |sched| && Holds(Run(sched[..c.keyAt + 1]).kv, c.task))
    && (c.pc.Publish? || c.pc.Created? ==> Durable(sched, c))
  }

  lemma {:induction false} WritesLonger(sched: seq<Event>, e: Event, c: Create)
    requires WritesInv(sched, c)
    ensures WritesInv(sched + [e], c)
  {
    if c.pc.AddIndex? || c.pc.Publish? || c.pc.Created? {
      assert (sched + [e])[..c.keyAt + 1] == sched[..c.keyAt + 1];
      if !c.pc.AddIndex? {
        assert (sched + [e])[..c.indexAt + 1] == sched[..c.indexAt + 1];
      }
    }
  }

  /** The state in which a create writes. */
  lemma {:induction false} BeforeWrite(sched: seq<Event>, id: string, ack: Ack)
    requires id in Run(sched).creates
    ensures var e := CreateWrite(id, ack);
            && Run(sched).clock == |sched| && WellFormed(Run(sched).kv)
            && Run(sched).creates[id].task.id == id
            && Run(sched + [e]) == Apply(Run(sched), e) && (sched + [e])[..|sched| + 1] == sched + [e]
  {
    RunLast(sched, CreateWrite(id, ack));
    ClockCounts(sched);
    StoreRun(sched);
    assert Exact(Run(sched), id);
  }

  /** An acknowledged write of a create is visible right after it: its document, ... */
  lemma {:induction false} KeyWritten(sched: seq<Event>, id: string, ack: Ack)
    requires id in Run(sched).creates && Run(sched).creates[id].pc.SetKey?
    ensures WritesInv(sched + [CreateWrite(id, ack)], Run(sched + [CreateWrite(id, ack)]).creates[id])
  {
    BeforeWrite(sched, id, ack);
    SetJsonView(Run(sched).kv, Run(sched).creates[id].task, id);
  }

  /** ... and its index entry. */
  lemma {:induction false} IndexWritten(sched: seq<Event>, id: string, ack: Ack)
    requires id in Run(sched).creates && Run(sched).creates[id].pc.AddIndex?
    requires WritesInv(sched, Run(sched).creates[id])
    ensures WritesInv(sched + [CreateWrite(id, ack)], Run(sched + [CreateWrite(id, ack)]).creates[id])
  {
    var s, e := Run(sched), CreateWrite(id, ack);
    var c := s.creates[id];
    BeforeWrite(sched, id, ack);
    SetAddView(s.kv, id, id);
    assert Apply(s, e).creates[id] == NextCreate(c, ack, |sched|);
    if ack.Acked? {
      assert (sched + [e])[..c.keyAt + 1] == sched[..c.keyAt + 1];
      NowDurable(sched + [e], c.(pc := Publish, indexAt := |sched|));
    }
  }

  lemma {:induction false} NowDurable(sched: seq<Event>, c: Create)
    requires c.pc.Publish? && c.keyAt < c.indexAt == |sched| - 1
    requires Holds(Run(sched[..c.keyAt + 1]).kv, c.task) && Indexed(Run(sched).kv, c.task.id)
    ensures WritesInv(sched, c)
  {
    assert sched[..c.indexAt + 1] == sched;
  }

  lemma PublishedKeepsWrites(sched: seq<Event>, c: Create, c': Create)
    requires WritesInv(sched, c) && (c' == c || (c.pc.Publish? && c' == c.(pc := Created)))
    ensures WritesInv(sched, c')
  {
  }

  lemma {:induction false} WritesRun(sched: seq<Event>, id: string)
    requires id in Run(sched).creates
    ensures WritesInv(sched, Run(sched).creates[id])
  {
    var p, e := sched[..|sched| - 1], sched[|sched| - 1];
    assert sched == p + [e];
    var s := Run(p);
    assert Run(sched).creates == NextCreates(s, e);
    if id in s.creates {
      WritesRun(p, id);
      if e.CreateWrite? && e.id == id && s.creates[id].pc.SetKey? {
        KeyWritten(p, id, e.ack);
      } else if e.CreateWrite? && e.id == id && s.creates[id].pc.AddIndex? {
        IndexWritten(p, id, e.ack);
      } else {
        WritesLonger(p, e, s.creates[id]);
        PublishedKeepsWrites(sched, s.creates[id], NextCreates(s, e)[id]);
      }
    }
  }

  ghost predicate PublishedAfter(sched: seq<Event>, id: string, from: nat) {
    exists k :: from < k < |sched| && sched[k].PublishEvent? && sched[k].id == id
  }

  lemma PublishedLonger(sched: seq<Event>, e: Event, id: string, from: nat)
    requires PublishedAfter(sched, id, from)
    ensures PublishedAfter(sched + [e], id, from)
  {
    var k :| from < k < |sched| && sched[k].PublishEvent? && sched[k].id == id;
    assert (sched + [e])[k] == sched[k];
  }

  /** The event carries the task's id, title and creation time. */
  predicate Announces(e: TaskCreated, task: Task) {
    e.id == task.id && e.title == task.title && e.createdAt == task.createdAt
  }

  /** The event names a task whose document and index entry were both written, and
      acknowledged, before the publish that appended it. */
  ghost predicate Caused(sched: seq<Event>, e: TaskCreated) {
    && e.id in Run(sched).creates
    && var c := Run(sched).creates[e.id];
       && c.pc.Created? && Announces(e, c.task)
       && Durable(sched, c)
       && PublishedAfter(sched, e.id, c.indexAt)
  }

  lemma {:induction false} CopiesAreIt(e: TaskCreated, n: nat, x: TaskCreated)
    ensures x in Copies(e, n) ==> x == e
  {
    if n > 0 {
      CopiesAreIt(e, n - 1, x);
    }
  }

  lemma {:induction false} CausedLonger(sched: seq<Event>, next: Event, e: TaskCreated)
    requires Caused(sched, e)
    ensures Caused(sched + [next], e)
  {
    var s := Run(sched);
    var c := s.creates[e.id];
    RunLast(sched, next);
    WritesLonger(sched, next, c);
    PublishedLonger(sched, next, e.id, c.indexAt);
  }

  /** The publish step itself. */
  lemma {:induction false} CausedNow(sched: seq<Event>, id: string, copies: nat)
    requires id in Run(sched).creates && Run(sched).creates[id].pc.Publish?
    ensures Caused(sched + [PublishEvent(id, copies)], EventOf(Run(sched).creates[id].task))
  {
    var e := PublishEvent(id, copies);
    var s := Run(sched);
    var c := s.creates[id];
    StoreRun(sched);
    assert Exact(s, id);
    WritesRun(sched, id);
    WritesLonger(sched, e, c);
    assert (sched + [e])[|sched|] == e;
    assert PublishedAfter(sched + [e], id, c.indexAt);
    RunLast(sched, e);
    assert Run(sched + [e]).creates[id] == c.(pc := Created);
  }

  /** In every run with failures, deletes and repeated or lost publishes, each event in
      the topic names a task that was durably stored and indexed before its publish. */
  lemma {:induction false} NoEventWithoutTask(sched: seq<Event>, e: TaskCreated)
    requires e in Run(sched).topic
    ensures Caused(sched, e)
  {
    var p, last := sched[..|sched| - 1], sched[|sched| - 1];
    assert sched == p + [last];
    var s := Run(p);
    if e in s.topic {
      NoEventWithoutTask(p, e);
      CausedLonger(p, last, e);
    } else {
      CopiesAreIt(EventOf(s.creates[last.id].task), last.copies, e);
      CausedNow(p, last.id, last.copies);
    }
  }

  // ---- what a delete answers ----

  /** The delete looked its document up at some step, and found it exactly if `there`. */
  ghost predicate Looked(sched: seq<Event>, d: nat, id: string, there: bool) {
    exists j :: 0 <= j < |sched| && sched[j] == DeleteRead(d, true) && (Stored(Run(sched[..j]).kv, id) <==> there)
  }

  /** What the look-up of a delete says about it now. */
  ghost predicate LookedInv(sched: seq<Event>, d: nat, x: Delete) {
    match x.pc
    case Probe => true
    case ProbeFailed => true
    case Deleted(existed) => Looked(sched, d, x.id, existed)
    case _ => Looked(sched, d, x.id, true)
  }

  lemma LookedLonger(sched: seq<Event>, e: Event, d: nat, id: string, there: bool)
    requires Looked(sched, d, id, there)
    ensures Looked(sched + [e], d, id, there)
  {
    var j :| 0 <= j < |sched| && sched[j] == DeleteRead(d, true) && (Stored(Run(sched[..j]).kv, id) <==> there);
    assert (sched + [e])[j] == sched[j] && (sched + [e])[..j] == sched[..j];
  }

  /** One event of a delete: it looks, or it moves on from what it saw. */
  lemma DeleteMoves(s: Store, e: Event, d: nat)
    requires WellFormed(s.kv) && d in NextDeletes(s, e)
    ensures var x' := NextDeletes(s, e)[d];
            if d !in s.deletes then x'.pc.Probe?
            else
              && x'.id == s.deletes[d].id
              && match s.deletes[d].pc
                 case Probe =>
                   || x'.pc.Probe? || x'.pc.ProbeFailed?
                   || (e == DeleteRead(d, true) && x'.pc == if Stored(s.kv, x'.id) then DelKey else Deleted(false))
                 case ProbeFailed => x' == s.deletes[d]
                 case Deleted(_) => x' == s.deletes[d]
                 case _ => !x'.pc.Probe? && !x'.pc.ProbeFailed? && x'.pc != Deleted(false)
  {
    if d in s.deletes {
      GetJsonView(s.kv, s.deletes[d].id);
    }
  }

  lemma {:induction false} LookedRun(sched: seq<Event>, d: nat)
    requires d in Run(sched).deletes
    ensures LookedInv(sched, d, Run(sched).deletes[d])
  {
    var p, e := sched[..|sched| - 1], sched[|sched| - 1];
    assert sched == p + [e];
    var s := Run(p);
    StoreRun(p);
    DeleteMoves(s, e, d);
    if d in s.deletes {
      var x := s.deletes[d];
      LookedRun(p, d);
      if x.pc.Probe? && e == DeleteRead(d, true) {
        assert sched[|p|] == e && sched[..|p|] == p;
        assert Looked(sched, d, x.id, Stored(s.kv, x.id));
      } else if x.pc.Deleted? {
        LookedLonger(p, e, d, x.id, x.pc.existed);
      } else if !x.pc.Probe? && !x.pc.ProbeFailed? {
        LookedLonger(p, e, d, x.id, true);
      }
    }
  }

  /** In every run, a delete that answers false found no document when it looked; one that
      answers true found a document then, and by now the document and the index entry
      are both gone for good. */
  lemma DeleteIsFaithful(sched: seq<Event>, d: nat)
    requires d in Run(sched).deletes && Run(sched).deletes[d].pc.Deleted?
    ensures var s := Run(sched);
            var Delete(id, Deleted(existed)) := s.deletes[d];
            && Looked(sched, d, id, existed)
            && (existed ==> !Stored(s.kv, id) && !Indexed(s.kv, id))
  {
    LookedRun(sched, d);
    StoreRun(sched);
    var s := Run(sched);
    var x := s.deletes[d];
    assert Exact(s, x.id);
    if x.pc.existed {
      assert Erased(x) && Unlinked(x);
    }
  }
}
