/** The key space of the Valkey server as the task store uses it: JSON documents and one
    set of ids, each command atomic on the server. A command may fail for the caller with
    or without having taken effect. */
module Valkey {

  datatype Task = Task(id: string, title: string, done: bool, createdAt: nat)

  /** A task's document, a set of ids, or anything else: a value of another type or a
      document that does not decode. */
  datatype Value = Json(task: Task) | Members(ids: set<string>) | Foreign(bytes: string)

  type Keyspace = map<string, Value>

  /** How a write command ends for the caller: acknowledged, or an error after or before
      it took effect. */
  datatype Ack = Acked | FailedAfter | FailedBefore

  predicate TakesEffect(ack: Ack) {
    !ack.FailedBefore?
  }

  datatype Reply<T> = Ok(value: T) | Err

  datatype Option<T> = None | Some(value: T)

  const INDEX_KEY: string := "tasks"

  function TaskKey(id: string): string {
    "task:" + id
  }

  /** Different ids have different keys, and no id's key is the index. */
  lemma KeysApart(id: string, other: string)
    ensures TaskKey(id) == TaskKey(other) <==> id == other
    ensures TaskKey(id) != INDEX_KEY
  {
    assert TaskKey(id)[5..] == id && TaskKey(other)[5..] == other;
    assert TaskKey(id)[4] == ':';
  }

  function SetJson(kv: Keyspace, key: string, task: Task): Keyspace {
    kv[key := Json(task)]
  }

  function Del(kv: Keyspace, key: string): Keyspace {
    kv - {key}
  }

  /** SADD: creates the set if need be, and is refused on a key of another type. */
  function SetAdd(kv: Keyspace, key: string, id: string): Keyspace {
    if key !in kv then kv[key := Members({id})]
    else if kv[key].Members? then kv[key := Members(kv[key].ids + {id})]
    else kv
  }

  /** SREM: a set that becomes empty disappears. */
  function SetRemove(kv: Keyspace, key: string, id: string): Keyspace {
    if key in kv && kv[key].Members? then
      var rest := kv[key].ids - {id};
      if rest == {} then kv - {key} else kv[key := Members(rest)]
    else kv
  }

  /** GET and decode; a key of another type, or one that does not decode, is an error. */
  function GetJson(kv: Keyspace, key: string): Reply<Option<Task>> {
    if key !in kv then Ok(None)
    else if kv[key].Json? then Ok(Some(kv[key].task))
    else Err
  }

  function SetMembers(kv: Keyspace, key: string): Reply<set<string>> {
    if key !in kv then Ok({})
    else if kv[key].Members? then Ok(kv[key].ids)
    else Err
  }

  // ---- the store's view of the key space ----

  predicate Stored(kv: Keyspace, id: string) {
    TaskKey(id) in kv
  }

  predicate Indexed(kv: Keyspace, id: string) {
    INDEX_KEY in kv && kv[INDEX_KEY].Members? && id in kv[INDEX_KEY].ids
  }

  predicate Holds(kv: Keyspace, task: Task) {
    TaskKey(task.id) in kv && kv[TaskKey(task.id)] == Json(task)
  }

  /** Only the index is a set, and every document lies under the key of its own id. */
  predicate WellFormed(kv: Keyspace) {
    forall key :: key in kv ==>
      if key == INDEX_KEY then kv[key].Members?
      else kv[key].Json? && key == TaskKey(kv[key].task.id)
  }

  /** What each command does to the store's view, and to nothing else. */
  lemma SetJsonView(kv: Keyspace, task: Task, id: string)
    requires WellFormed(kv)
    ensures var kv' := SetJson(kv, TaskKey(task.id), task);
            && WellFormed(kv') && Holds(kv', task)
            && (Indexed(kv', id) <==> Indexed(kv, id))
            && (id != task.id ==> (Stored(kv', id) <==> Stored(kv, id)))
            && (id != task.id && Stored(kv, id) ==> kv'[TaskKey(id)] == kv[TaskKey(id)])
  {
    KeysApart(id, task.id);
    KeysApart(task.id, id);
  }

  lemma DelView(kv: Keyspace, gone: string, id: string)
    requires WellFormed(kv)
    ensures var kv' := Del(kv, TaskKey(gone));
            && WellFormed(kv') && !Stored(kv', gone)
            && (Indexed(kv', id) <==> Indexed(kv, id))
            && (id != gone ==> (Stored(kv', id) <==> Stored(kv, id)))
            && (Stored(kv', id) ==> Stored(kv, id) && kv'[TaskKey(id)] == kv[TaskKey(id)])
  {
    KeysApart(gone, id);
    KeysApart(id, gone);
  }

  lemma SetAddView(kv: Keyspace, added: string, id: string)
    requires WellFormed(kv)
    ensures var kv' := SetAdd(kv, INDEX_KEY, added);
            && WellFormed(kv')
            && (Indexed(kv', id) <==> Indexed(kv, id) || id == added)
            && (Stored(kv', id) <==> Stored(kv, id))
            && (Stored(kv, id) ==> kv'[TaskKey(id)] == kv[TaskKey(id)])
  {
    KeysApart(id, added);
  }

  lemma SetRemoveView(kv: Keyspace, removed: string, id: string)
    requires WellFormed(kv)
    ensures var kv' := SetRemove(kv, INDEX_KEY, removed);
            && WellFormed(kv')
            && (Indexed(kv', id) <==> Indexed(kv, id) && id != removed)
            && (Stored(kv', id) <==> Stored(kv, id))
            && (Stored(kv, id) ==> kv'[TaskKey(id)] == kv[TaskKey(id)])
  {
    KeysApart(id, removed);
    if INDEX_KEY in kv {
      var rest := kv[INDEX_KEY].ids - {removed};
      assert id in rest <==> Indexed(kv, id) && id != removed;
    }
  }

  lemma GetJsonView(kv: Keyspace, id: string)
    requires WellFormed(kv)
    ensures GetJson(kv, TaskKey(id)).Ok?
    ensures GetJson(kv, TaskKey(id)).value.Some? <==> Stored(kv, id)
    ensures GetJson(kv, TaskKey(id)).value.Some? ==>
              GetJson(kv, TaskKey(id)).value.value.id == id && Holds(kv, GetJson(kv, TaskKey(id)).value.value)
  {
    KeysApart(id, id);
    if TaskKey(id) in kv {
      KeysApart(id, kv[TaskKey(id)].task.id);
    }
  }
}
