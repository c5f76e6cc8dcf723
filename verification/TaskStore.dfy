/** The task store as its caller sees it: each operation runs its commands in order and
    stops at the first error. How each command ends comes as a parameter. The operations
    take the same steps as in the contended model. */
module TaskStoreObject {
  import opened Valkey
  import opened NewestFirst
  import opened StoreRace

  /** Whether fetching the document of `id` succeeds: the command does, and what lies under
      the key, if anything, decodes. */
  predicate Fetches(kv: Keyspace, id: string, ok: bool) {
    ok && (TaskKey(id) in kv ==> kv[TaskKey(id)].Json?)
  }

  /** Whether reading the index succeeds: the command does, and the key is free or a set. */
  predicate ReadsIndex(kv: Keyspace, ok: bool) {
    ok && (INDEX_KEY in kv ==> kv[INDEX_KEY].Members?)
  }

  class TaskStore {
    var kv: Keyspace

    constructor ()
      ensures kv == map[]
    {
      kv := map[];
    }

    /** Write the document, then the index entry. */
    method CreateTask(task: Task, first: Ack, second: Ack) returns (ok: bool)
      modifies this
      ensures var c := Create(task, SetKey, 0, 0);
              var c' := NextCreate(c, first, 0);
              && kv == KvAfterCreate(KvAfterCreate(old(kv), c, first), c', second)
              && (ok <==> NextCreate(c', second, 0).pc.Publish?)
      ensures ok && WellFormed(old(kv)) ==> WellFormed(kv) && Holds(kv, task) && Indexed(kv, task.id)
    {
      if WellFormed(kv) { SetJsonView(kv, task, task.id); }
      if TakesEffect(first) {
        kv := SetJson(kv, TaskKey(task.id), task);
      }
      if !first.Acked? {
        return false;
      }
      if WellFormed(kv) { SetAddView(kv, task.id, task.id); }
      if TakesEffect(second) {
        kv := SetAdd(kv, INDEX_KEY, task.id);
      }
      return second.Acked?;
    }

    /** Look the document up. On a well-formed key space a lookup that gets through never
        fails, finds a task exactly if one is stored under the id, and finds that task. */
    method Get(id: string, ok: bool) returns (r: Reply<Option<Task>>)
      ensures r.Ok? <==> Fetches(kv, id, ok)
      ensures ok && WellFormed(kv) ==>
                && r.Ok? && (r.value.Some? <==> Stored(kv, id))
                && (r.value.Some? ==> r.value.value.id == id && Holds(kv, r.value.value))
      ensures r.Ok? ==> r == GetJson(kv, TaskKey(id))
    {
      if WellFormed(kv) { GetJsonView(kv, id); }
      if ok {
        r := GetJson(kv, TaskKey(id));
      } else {
        r := Err;
      }
    }

    /** Look the document up; if it is there, delete it, then its index entry. */
    method DeleteTask(id: string, readOk: bool, first: Ack, second: Ack) returns (r: Reply<bool>)
      modifies this
      ensures var x := NextProbe(old(kv), Delete(id, Probe), readOk);
              var x' := if x.pc.DelKey? then NextDelete(x, first) else x;
              var x'' := if x'.pc.RemoveIndex? then NextDelete(x', second) else x';
              && kv == (if !x.pc.DelKey? then old(kv)
                        else KvAfterDelete(KvAfterDelete(old(kv), x, first), x', second))
              && (r == match x''.pc case Deleted(existed) => Ok(existed) case _ => Err)
      ensures r == Ok(true) && WellFormed(old(kv)) ==>
                WellFormed(kv) && old(Stored(kv, id)) && !Stored(kv, id) && !Indexed(kv, id)
    {
      var found := Get(id, readOk);
      if found.Err? {
        return Err;
      }
      if found.value.None? {
        return Ok(false);
      }
      if WellFormed(kv) { DelView(kv, id, id); }
      if TakesEffect(first) {
        kv := Del(kv, TaskKey(id));
      }
      if !first.Acked? {
        return Err;
      }
      if WellFormed(kv) { SetRemoveView(kv, id, id); }
      if TakesEffect(second) {
        kv := SetRemove(kv, INDEX_KEY, id);
      }
      if !second.Acked? {
        return Err;
      }
      return Ok(true);
    }

    /** Read the index, fetch each document in turn, and sort what is there. With no
        interference, a list that succeeds holds exactly the tasks that are both indexed
        and stored, each once, newest first. */
    method ListTasks(readOk: bool, order: seq<string>, fetchOk: nat -> bool) returns (r: Reply<seq<Task>>)
      requires SetMembers(kv, INDEX_KEY).Ok? ==> Enumerates(order, SetMembers(kv, INDEX_KEY).value)
      ensures r.Ok? <==>
                && ReadsIndex(kv, readOk)
                && forall i :: 0 <= i < |order| ==> Fetches(kv, order[i], fetchOk(i))
      ensures r.Ok? && WellFormed(kv) ==>
                && Sorted(r.value) && DistinctIds(r.value)
                && forall task :: task in r.value <==> Indexed(kv, task.id) && Holds(kv, task)
    {
      if !readOk || SetMembers(kv, INDEX_KEY).Err? {
        return Err;
      }
      var tasks: seq<Task> := [];
      var i := 0;
      while i < |order|
        invariant 0 <= i <= |order|
        invariant forall j :: 0 <= j < i ==> Fetches(kv, order[j], fetchOk(j))
        invariant WellFormed(kv) ==> DistinctIds(tasks)
        invariant WellFormed(kv) ==> forall t :: t in tasks <==> t.id in order[..i] && Holds(kv, t)
      {
        if !Fetches(kv, order[i], fetchOk(i)) {
          return Err;
        }
        var found := GetJson(kv, TaskKey(order[i])).value;
        CollectOne(kv, order, i, tasks);
        if found.Some? {
          tasks := tasks + [found.value];
        }
        i := i + 1;
      }
      assert order[..|order|] == order;
      SortIsStable(tasks, 0);
      if WellFormed(kv) {
        SortDistinct(tasks);
        forall t: Task
          ensures t in Sort(tasks) <==> Indexed(kv, t.id) && Holds(kv, t)
        {
          SortMembers(tasks, t);
        }
      }
      return Ok(Sort(tasks));
    }
  }

  /** One turn of the fetch loop. */
  lemma CollectOne(kv: Keyspace, order: seq<string>, i: nat, tasks: seq<Task>)
    requires i < |order| && GetJson(kv, TaskKey(order[i])).Ok?
    requires forall j, k :: 0 <= j < k < |order| ==> order[j] != order[k]
    requires WellFormed(kv) ==>
               DistinctIds(tasks) && forall t :: t in tasks <==> t.id in order[..i] && Holds(kv, t)
    ensures var found := GetJson(kv, TaskKey(order[i])).value;
            var tasks' := if found.Some? then tasks + [found.value] else tasks;
            WellFormed(kv) ==>
              DistinctIds(tasks') && forall t :: t in tasks' <==> t.id in order[..i + 1] && Holds(kv, t)
  {
    if WellFormed(kv) {
      var id := order[i];
      GetJsonView(kv, id);
      assert order[..i + 1] == order[..i] + [id];
      assert forall k :: 0 <= k < |tasks| ==> tasks[k] in tasks;
    }
  }
}
