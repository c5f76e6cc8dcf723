/** The task store under contention and failure. Any number of creates, deletes and lists
    interleave; each Valkey command is one atomic step that may fail with or without
    having taken effect. Ids are fresh: no create uses an id that a create or a delete
    has named before, and a delete starts only when no create of its id is still writing.
    After storing a task, its create publishes the event; the broker may append it any
    number of times, including none. */
module StoreRace {
  import opened Valkey
  import opened NewestFirst

  /** Where a create stands. The failed positions tell whether the failing command took
      effect. */
  datatype CreatePc =
    | SetKey | AddIndex | Publish | Created
    | SetFailed(written: bool) | AddFailed(indexed: bool)

  datatype DeletePc =
    | Probe | DelKey | RemoveIndex | Deleted(existed: bool)
    | ProbeFailed | DelFailed(gone: bool) | RemoveFailed(removed: bool)

  datatype ListPc =
    | ReadIndex
    | Fetch(ids: seq<string>, at: nat, found: seq<Task>)
    | Listed(tasks: seq<Task>)
    | ListFailed

  /** `keyAt` and `indexAt` are the steps at which the two writes were acknowledged. */
  datatype Create = Create(task: Task, pc: CreatePc, keyAt: nat, indexAt: nat)

  datatype Delete = Delete(id: string, pc: DeletePc)

  /** `began` is the step at which the list began, and `settled` the ids whose create had
      returned successfully from the store by then. */
  datatype Listing = Listing(pc: ListPc, began: nat, settled: set<string>)

  datatype TaskCreated = TaskCreated(id: string, title: string, createdAt: nat)

  /** `clock` counts the steps of the run. */
  datatype Store = Store(
    kv: Keyspace,
    creates: map<string, Create>,
    deletes: map<nat, Delete>,
    lists: map<nat, Listing>,
    topic: seq<TaskCreated>,
    clock: nat)

  datatype Event =
    | BeginCreate(task: Task)
    | CreateWrite(id: string, ack: Ack)
    | PublishEvent(id: string, copies: nat)
    | BeginDelete(d: nat, id: string)
    | DeleteRead(d: nat, ok: bool)
    | DeleteWrite(d: nat, ack: Ack)
    | BeginList(l: nat)
    | ListIndex(l: nat, ok: bool, order: seq<string>)
    | ListFetch(l: nat, ok: bool)

  function Init(): Store {
    Store(map[], map[], map[], map[], [], 0)
  }

  function EventOf(task: Task): TaskCreated {
    TaskCreated(task.id, task.title, task.createdAt)
  }

  function Copies(e: TaskCreated, n: nat): seq<TaskCreated> {
    if n == 0 then [] else [e] + Copies(e, n - 1)
  }

  predicate Deleting(deletes: map<nat, Delete>, id: string) {
    exists d :: d in deletes && deletes[d].id == id
  }

  predicate Writing(creates: map<string, Create>, id: string) {
    id in creates && (creates[id].pc.SetKey? || creates[id].pc.AddIndex?)
  }

  /** The store's create has returned successfully. */
  predicate Settled(creates: map<string, Create>, id: string) {
    id in creates && (creates[id].pc.Publish? || creates[id].pc.Created?)
  }

  function SettledIds(s: Store): set<string> {
    set id | id in s.creates && Settled(s.creates, id)
  }

  /** `order` lists a set, each member once. */
  predicate Enumerates(order: seq<string>, ids: set<string>) {
    && (forall i, j :: 0 <= i < j < |order| ==> order[i] != order[j])
    && (forall i :: 0 <= i < |order| ==> order[i] in ids)
    && (forall id :: id in ids ==> id in order)
  }

  // ---- the steps ----

  function NextCreate(c: Create, ack: Ack, clock: nat): Create {
    if c.pc.SetKey? then
      if ack.Acked? then c.(pc := AddIndex, keyAt := clock) else c.(pc := SetFailed(TakesEffect(ack)))
    else if c.pc.AddIndex? then
      if ack.Acked? then c.(pc := Publish, indexAt := clock) else c.(pc := AddFailed(TakesEffect(ack)))
    else c
  }

  function KvAfterCreate(kv: Keyspace, c: Create, ack: Ack): Keyspace {
    if !TakesEffect(ack) then kv
    else if c.pc.SetKey? then SetJson(kv, TaskKey(c.task.id), c.task)
    else if c.pc.AddIndex? then SetAdd(kv, INDEX_KEY, c.task.id)
    else kv
  }

  function NextProbe(kv: Keyspace, x: Delete, ok: bool): Delete {
    if !x.pc.Probe? then x
    else if !ok then x.(pc := ProbeFailed)
    else
      match GetJson(kv, TaskKey(x.id))
      case Err => x.(pc := ProbeFailed)
      case Ok(None) => x.(pc := Deleted(false))
      case Ok(Some(_)) => x.(pc := DelKey)
  }

  function NextDelete(x: Delete, ack: Ack): Delete {
    if x.pc.DelKey? then
      x.(pc := if ack.Acked? then RemoveIndex else DelFailed(TakesEffect(ack)))
    else if x.pc.RemoveIndex? then
      x.(pc := if ack.Acked? then Deleted(true) else RemoveFailed(TakesEffect(ack)))
    else x
  }

  function KvAfterDelete(kv: Keyspace, x: Delete, ack: Ack): Keyspace {
    if !TakesEffect(ack) then kv
    else if x.pc.DelKey? then Del(kv, TaskKey(x.id))
    else if x.pc.RemoveIndex? then SetRemove(kv, INDEX_KEY, x.id)
    else kv
  }

  function NextIndexRead(kv: Keyspace, pc: ListPc, ok: bool, order: seq<string>): ListPc {
    if !pc.ReadIndex? then pc
    else if !ok || SetMembers(kv, INDEX_KEY).Err? then ListFailed
    else if Enumerates(order, SetMembers(kv, INDEX_KEY).value) then Fetch(order, 0, [])
    else pc
  }

  /** One turn of the fetch loop, or the final sort. */
  function NextFetch(kv: Keyspace, pc: ListPc, ok: bool): ListPc {
    if !pc.Fetch? then pc
    else if pc.at >= |pc.ids| then Listed(Sort(pc.found))
    else if !ok then ListFailed
    else
      match GetJson(kv, TaskKey(pc.ids[pc.at]))
      case Err => ListFailed
      case Ok(None) => pc.(at := pc.at + 1)
      case Ok(Some(task)) => pc.(at := pc.at + 1, found := pc.found + [task])
  }

  function NextCreates(s: Store, e: Event): map<string, Create> {
    match e
    case BeginCreate(task) =>
      if task.id in s.creates || Deleting(s.deletes, task.id) then s.creates
      else s.creates[task.id := Create(task, SetKey, 0, 0)]
    case CreateWrite(id, ack) =>
      if id in s.creates then s.creates[id := NextCreate(s.creates[id], ack, s.clock)] else s.creates
    case PublishEvent(id, _) =>
      if id in s.creates && s.creates[id].pc.Publish? then s.creates[id := s.creates[id].(pc := Created)]
      else s.creates
    case _ => s.creates
  }

  function NextDeletes(s: Store, e: Event): map<nat, Delete> {
    match e
    case BeginDelete(d, id) =>
      if d in s.deletes || Writing(s.creates, id) then s.deletes else s.deletes[d := Delete(id, Probe)]
    case DeleteRead(d, ok) =>
      if d in s.deletes then s.deletes[d := NextProbe(s.kv, s.deletes[d], ok)] else s.deletes
    case DeleteWrite(d, ack) =>
      if d in s.deletes then s.deletes[d := NextDelete(s.deletes[d], ack)] else s.deletes
    case _ => s.deletes
  }

  function NextLists(s: Store, e: Event): map<nat, Listing> {
    match e
    case BeginList(l) =>
      if l in s.lists then s.lists else s.lists[l := Listing(ReadIndex, s.clock, SettledIds(s))]
    case ListIndex(l, ok, order) =>
      if l in s.lists
      then s.lists[l := s.lists[l].(pc := NextIndexRead(s.kv, s.lists[l].pc, ok, order))] else s.lists
    case ListFetch(l, ok) =>
      if l in s.lists then s.lists[l := s.lists[l].(pc := NextFetch(s.kv, s.lists[l].pc, ok))] else s.lists
    case _ => s.lists
  }

  function NextKv(s: Store, e: Event): Keyspace {
    match e
    case CreateWrite(id, ack) =>
      if id in s.creates then KvAfterCreate(s.kv, s.creates[id], ack) else s.kv
    case DeleteWrite(d, ack) =>
      if d in s.deletes then KvAfterDelete(s.kv, s.deletes[d], ack) else s.kv
    case _ => s.kv
  }

  function NextTopic(s: Store, e: Event): seq<TaskCreated> {
    if e.PublishEvent? && e.id in s.creates && s.creates[e.id].pc.Publish?
    then s.topic + Copies(EventOf(s.creates[e.id].task), e.copies)
    else s.topic
  }

  function Apply(s: Store, e: Event): Store {
    Store(NextKv(s, e), NextCreates(s, e), NextDeletes(s, e), NextLists(s, e), NextTopic(s, e), s.clock + 1)
  }

  /** The state after a run. */
  function Run(sched: seq<Event>): Store {
    if sched == [] then Init() else Apply(Run(sched[..|sched| - 1]), sched[|sched| - 1])
  }

  lemma {:induction false} ClockCounts(sched: seq<Event>)
    ensures Run(sched).clock == |sched|
  {
    if sched != [] {
      ClockCounts(sched[..|sched| - 1]);
    }
  }

  // ---- the exact contents of the key space ----

  /** The create's document was written. */
  predicate Written(c: Create) {
    !c.pc.SetKey? && c.pc != SetFailed(false)
  }

  /** The create's id was added to the index. */
  predicate Linked(c: Create) {
    c.pc.Publish? || c.pc.Created? || c.pc == AddFailed(true)
  }

  /** The delete removed the document. */
  predicate Erased(x: Delete) {
    x.pc.RemoveIndex? || x.pc == Deleted(true) || x.pc == DelFailed(true) || x.pc.RemoveFailed?
  }

  /** The delete removed the id from the index. */
  predicate Unlinked(x: Delete) {
    x.pc == Deleted(true) || x.pc == RemoveFailed(true)
  }

  ghost predicate SomeErased(deletes: map<nat, Delete>, id: string) {
    exists d :: d in deletes && deletes[d].id == id && Erased(deletes[d])
  }

  ghost predicate SomeUnlinked(deletes: map<nat, Delete>, id: string) {
    exists d :: d in deletes && deletes[d].id == id && Unlinked(deletes[d])
  }

  /** What the key space holds for `id`, exactly: a document if its create wrote one and
      no delete has erased it, and an index entry if its create added one and no delete
      has removed it. */
  ghost predicate Exact(s: Store, id: string) {
    && (Stored(s.kv, id) <==> id in s.creates && Written(s.creates[id]) && !SomeErased(s.deletes, id))
    && (Indexed(s.kv, id) <==> id in s.creates && Linked(s.creates[id]) && !SomeUnlinked(s.deletes, id))
    && (Stored(s.kv, id) ==> Holds(s.kv, s.creates[id].task))
    && (id in s.creates ==> s.creates[id].task.id == id)
    && (Writing(s.creates, id) ==> !Deleting(s.deletes, id))
  }

  /** The deletes on `id` after an event, as far as the key space depends on them. */
  lemma DeletesAfter(s: Store, e: Event, id: string)
    requires e.DeleteWrite? ==> e.d in s.deletes
    ensures var ds := NextDeletes(s, e);
            var acts := e.DeleteWrite? && s.deletes[e.d].id == id && TakesEffect(e.ack);
            var begins := e.BeginDelete? && e.id == id && e.d !in s.deletes && !Writing(s.creates, id);
            && (SomeErased(ds, id) <==> SomeErased(s.deletes, id) || (acts && s.deletes[e.d].pc.DelKey?))
            && (SomeUnlinked(ds, id) <==> SomeUnlinked(s.deletes, id) || (acts && s.deletes[e.d].pc.RemoveIndex?))
            && (Deleting(ds, id) <==> Deleting(s.deletes, id) || begins)
  {
    if e.BeginDelete? || e.DeleteRead? || e.DeleteWrite? {
      var ds := NextDeletes(s, e);
      if e.d in s.deletes {
        OneDelete(s.deletes, e.d, ds[e.d], id);
      } else if e.BeginDelete? {
        OneDelete(s.deletes, e.d, Delete(e.id, Probe), id);
      }
    }
  }

  /** Changing one delete, or adding one, matters for its own id only. */
  lemma OneDelete(ds: map<nat, Delete>, d: nat, x: Delete, id: string)
    requires d in ds ==> ds[d].id == x.id && (Erased(ds[d]) ==> Erased(x)) && (Unlinked(ds[d]) ==> Unlinked(x))
    ensures var ds' := ds[d := x];
            && (SomeErased(ds', id) <==> SomeErased(ds, id) || (x.id == id && Erased(x)))
            && (SomeUnlinked(ds', id) <==> SomeUnlinked(ds, id) || (x.id == id && Unlinked(x)))
            && (Deleting(ds', id) <==> Deleting(ds, id) || x.id == id)
    ensures d in ds && ds[d] == x ==> ds[d := x] == ds
  {
    var ds' := ds[d := x];
    assert d in ds' && ds'[d] == x;
    assert forall k :: k in ds && k != d ==> k in ds' && ds'[k] == ds[k];
    assert forall k :: k in ds' && k != d ==> k in ds && ds'[k] == ds[k];
  }

  lemma ExactSetKey(s: Store, who: string, ack: Ack, id: string)
    requires WellFormed(s.kv) && Exact(s, id) && who in s.creates && s.creates[who].task.id == who
    requires s.creates[who].pc.SetKey?
    ensures var s' := Apply(s, CreateWrite(who, ack)); WellFormed(s'.kv) && Exact(s', id)
  {
    SetJsonView(s.kv, s.creates[who].task, id);
  }

  lemma ExactAddIndex(s: Store, who: string, ack: Ack, id: string)
    requires WellFormed(s.kv) && Exact(s, id) && who in s.creates && s.creates[who].task.id == who
    requires s.creates[who].pc.AddIndex?
    ensures var s' := Apply(s, CreateWrite(who, ack)); WellFormed(s'.kv) && Exact(s', id)
  {
    SetAddView(s.kv, who, id);
  }

  lemma ExactCreate(s: Store, who: string, ack: Ack, id: string)
    requires WellFormed(s.kv) && Exact(s, id) && who in s.creates && s.creates[who].task.id == who
    ensures var s' := Apply(s, CreateWrite(who, ack)); WellFormed(s'.kv) && Exact(s', id)
  {
    if s.creates[who].pc.SetKey? {
      ExactSetKey(s, who, ack, id);
    } else if s.creates[who].pc.AddIndex? {
      ExactAddIndex(s, who, ack, id);
    } else {
      assert NextCreates(s, CreateWrite(who, ack)) == s.creates;
    }
  }

  lemma ExactDelete(s: Store, d: nat, ack: Ack, id: string)
    requires WellFormed(s.kv) && Exact(s, id) && d in s.deletes
    ensures var s' := Apply(s, DeleteWrite(d, ack)); WellFormed(s'.kv) && Exact(s', id)
  {
    var x := s.deletes[d];
    DeletesAfter(s, DeleteWrite(d, ack), id);
    DelView(s.kv, x.id, id);
    SetRemoveView(s.kv, x.id, id);
  }

  ghost predicate StoreInv(s: Store) {
    WellFormed(s.kv) && forall id :: Exact(s, id)
  }

  lemma StoreStep(s: Store, e: Event)
    requires StoreInv(s)
    ensures StoreInv(Apply(s, e))
  {
    forall id
      ensures WellFormed(Apply(s, e).kv) && Exact(Apply(s, e), id)
    {
      assert Exact(s, id);
      if e.CreateWrite? && e.id in s.creates {
        assert Exact(s, e.id);
        ExactCreate(s, e.id, e.ack, id);
      } else if e.DeleteWrite? && e.d in s.deletes {
        ExactDelete(s, e.d, e.ack, id);
      } else if !e.CreateWrite? && !e.DeleteWrite? {
        DeletesAfter(s, e, id);
      }
    }
    assert Exact(Apply(s, e), INDEX_KEY);
  }

  lemma {:induction false} StoreRun(sched: seq<Event>)
    ensures StoreInv(Run(sched))
  {
    if sched != [] {
      StoreRun(sched[..|sched| - 1]);
      StoreStep(Run(sched[..|sched| - 1]), sched[|sched| - 1]);
    } else {
      forall id
        ensures Exact(Init(), id)
      {
      }
    }
  }

  // ---- index agreement ----

  /** In every run, a document without an index entry belongs to a create that is pending
      or failed between its two writes, and an index entry without a document to a delete
      that is pending or failed between its two. */
  lemma IndexAgreement(sched: seq<Event>, id: string)
    ensures var s := Run(sched);
            && (Stored(s.kv, id) && !Indexed(s.kv, id) ==>
                  id in s.creates && s.creates[id].pc in {AddIndex, SetFailed(true), AddFailed(false)})
            && (Indexed(s.kv, id) && !Stored(s.kv, id) ==>
                  exists d :: d in s.deletes && s.deletes[d].id == id
                    && s.deletes[d].pc in {RemoveIndex, DelFailed(true), RemoveFailed(false)})
  {
    StoreRun(sched);
    var s := Run(sched);
    assert Exact(s, id);
    if Indexed(s.kv, id) && !Stored(s.kv, id) {
      assert SomeErased(s.deletes, id);
      var d :| d in s.deletes && s.deletes[d].id == id && Erased(s.deletes[d]);
      assert !Unlinked(s.deletes[d]);
    }
  }

  /** Every create and delete has ended, and without an error. */
  predicate QuietAndClean(s: Store) {
    && (forall id :: id in s.creates ==> s.creates[id].pc.Created?)
    && (forall d :: d in s.deletes ==> s.deletes[d].pc.Deleted?)
  }

  /** The plain map the store stands for: the created tasks without the deleted ones. */
  ghost predicate InPlainMap(s: Store, task: Task) {
    && task.id in s.creates && s.creates[task.id].task == task
    && !exists d :: d in s.deletes && s.deletes[d] == Delete(task.id, Deleted(true))
  }

  /** In a quiet state without failures the index lists exactly the stored ids, and the
      documents are exactly the entries of the plain map. */
  lemma QuietRefinesPlainMap(sched: seq<Event>)
    requires QuietAndClean(Run(sched))
    ensures var s := Run(sched);
            && (forall id :: Indexed(s.kv, id) <==> Stored(s.kv, id))
            && (forall task :: Holds(s.kv, task) <==> InPlainMap(s, task))
  {
    StoreRun(sched);
    var s := Run(sched);
    forall id
      ensures Indexed(s.kv, id) <==> Stored(s.kv, id)
    {
      IndexAgreement(sched, id);
    }
    forall task
      ensures Holds(s.kv, task) <==> InPlainMap(s, task)
    {
      QuietHolds(s, task);
    }
  }

  lemma QuietHolds(s: Store, task: Task)
    requires StoreInv(s) && QuietAndClean(s)
    ensures Holds(s.kv, task) <==> InPlainMap(s, task)
  {
    assert Exact(s, task.id);
    if SomeErased(s.deletes, task.id) {
      var d :| d in s.deletes && s.deletes[d].id == task.id && Erased(s.deletes[d]);
      assert s.deletes[d] == Delete(task.id, Deleted(true));
    }
    if exists d :: d in s.deletes && s.deletes[d] == Delete(task.id, Deleted(true)) {
      var d :| d in s.deletes && s.deletes[d] == Delete(task.id, Deleted(true));
      assert Erased(s.deletes[d]);
    }
  }
}
