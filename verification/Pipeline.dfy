/** The whole pipeline: the contended task store publishes into the topic that the
    consumer group drains. An id counted by any worker, after any failures, restarts and
    redeliveries, names a task that was durably stored before its event was published. */
module Pipeline {
  import opened Valkey
  import Store = StoreRace
  import opened StoreAnswers
  import Group = Delivery
  import opened DeliveryProgress

  datatype System = System(store: Store.Store, group: Group.Group)

  /** A publish appends the event to the given partitions, once for each copy that the
      broker ends up with. Only the tasks service writes to the topic. */
  datatype Event =
    | StoreStep(se: Store.Event)
    | GroupStep(ge: Group.Event)
    | PublishTo(id: string, partitions: seq<nat>)

  function Init(): System {
    System(Store.Init(), Group.Init())
  }

  function AppendAll(g: Group.Group, partitions: seq<nat>, payload: Group.Payload): Group.Group {
    if partitions == [] then g
    else
      var n := |partitions| - 1;
      Group.Apply(AppendAll(g, partitions[..n], payload), Group.Append(partitions[n], payload))
  }

  predicate Publishing(s: Store.Store, id: string) {
    id in s.creates && s.creates[id].pc.Publish?
  }

  function NextGroup(s: System, e: Event): Group.Group {
    match e
    case StoreStep(_) => s.group
    case GroupStep(ge) => if ge.Append? then s.group else Group.Apply(s.group, ge)
    case PublishTo(id, partitions) =>
      if Publishing(s.store, id)
      then AppendAll(s.group, partitions, Group.EventJson(Store.EventOf(s.store.creates[id].task)))
      else s.group
  }

  /** The store events behind an event of the pipeline. */
  function ToStore(e: Event): seq<Store.Event> {
    match e
    case StoreStep(se) => if se.PublishEvent? then [] else [se]
    case GroupStep(_) => []
    case PublishTo(id, partitions) => [Store.PublishEvent(id, |partitions|)]
  }

  function Apply(s: System, e: Event): System {
    System(if ToStore(e) == [] then s.store else Store.Apply(s.store, ToStore(e)[0]), NextGroup(s, e))
  }

  function Run(sched: seq<Event>): System {
    if sched == [] then Init() else Apply(Run(sched[..|sched| - 1]), sched[|sched| - 1])
  }

  /** The run of the store alone. */
  function StorePart(sched: seq<Event>): seq<Store.Event> {
    if sched == [] then [] else StorePart(sched[..|sched| - 1]) + ToStore(sched[|sched| - 1])
  }

  lemma {:induction false} StoreRunsAlone(sched: seq<Event>)
    ensures Run(sched).store == Store.Run(StorePart(sched))
  {
    if sched != [] {
      var p, e := sched[..|sched| - 1], sched[|sched| - 1];
      StoreRunsAlone(p);
      if ToStore(e) == [] {
        assert StorePart(p) + [] == StorePart(p);
      } else {
        assert ToStore(e) == [ToStore(e)[0]];
        RunLast(StorePart(p), ToStore(e)[0]);
      }
    }
  }

  /** Every record of every partition is an event of the topic. */
  ghost predicate Fed(g: Group.Group, topic: seq<Store.TaskCreated>) {
    forall p, o :: 0 <= o < |Group.LogOf(g, p)| ==>
      var r := Group.LogOf(g, p)[o]; r.EventJson? && r.event in topic
  }

  ghost predicate Named(topic: seq<Store.TaskCreated>, id: string) {
    exists i :: 0 <= i < |topic| && topic[i].id == id
  }

  ghost predicate PipelineInv(s: System) {
    Fed(s.group, s.store.topic) && forall id :: id in s.group.counted ==> Named(s.store.topic, id)
  }

  lemma FedOne(g: Group.Group, p: nat, e: Store.TaskCreated, topic: seq<Store.TaskCreated>)
    requires Fed(g, topic) && e in topic
    ensures var g' := Group.Apply(g, Group.Append(p, Group.EventJson(e))); Fed(g', topic) && g'.counted == g.counted
  {
    var g' := Group.Apply(g, Group.Append(p, Group.EventJson(e)));
    forall q, o | 0 <= o < |Group.LogOf(g', q)|
      ensures Group.LogOf(g', q)[o].EventJson? && Group.LogOf(g', q)[o].event in topic
    {
      if o < |Group.LogOf(g, q)| {
        assert Group.LogOf(g', q)[o] == Group.LogOf(g, q)[o];
      }
    }
  }

  lemma {:induction false} FedAppend(g: Group.Group, partitions: seq<nat>, e: Store.TaskCreated, topic: seq<Store.TaskCreated>)
    requires Fed(g, topic) && (partitions != [] ==> e in topic)
    ensures var g' := AppendAll(g, partitions, Group.EventJson(e)); Fed(g', topic) && g'.counted == g.counted
    decreases |partitions|
  {
    if partitions != [] {
      var n := |partitions| - 1;
      FedAppend(g, partitions[..n], e, topic);
      var h := AppendAll(g, partitions[..n], Group.EventJson(e));
      FedOne(h, partitions[n], e, topic);
    }
  }

  lemma Larger(g: Group.Group, topic: seq<Store.TaskCreated>, topic': seq<Store.TaskCreated>)
    requires Fed(g, topic) && topic <= topic'
    ensures Fed(g, topic') && forall id :: Named(topic, id) ==> Named(topic', id)
  {
    forall id | Named(topic, id)
      ensures Named(topic', id)
    {
      var i :| 0 <= i < |topic| && topic[i].id == id;
      assert topic'[i].id == id;
    }
    forall p, o | 0 <= o < |Group.LogOf(g, p)|
      ensures Group.LogOf(g, p)[o].EventJson? && Group.LogOf(g, p)[o].event in topic'
    {
      var e := Group.LogOf(g, p)[o].event;
      var i :| 0 <= i < |topic| && topic[i] == e;
      assert topic'[i] == e;
    }
  }

  lemma GroupStepKeeps(g: Group.Group, ge: Group.Event, topic: seq<Store.TaskCreated>)
    requires !ge.Append? && Fed(g, topic) && forall id :: id in g.counted ==> Named(topic, id)
    ensures var g' := Group.Apply(g, ge); Fed(g', topic) && forall id :: id in g'.counted ==> Named(topic, id)
  {
    var g' := Group.Apply(g, ge);
    assert g'.logs == g.logs;
    assert forall p :: Group.LogOf(g', p) == Group.LogOf(g, p);
    forall id | id in g'.counted
      ensures Named(topic, id)
    {
      if id !in g.counted {
        var e := Group.LogOf(g, ge.p)[g.workers[ge.w].positions[ge.p]].event;
        assert e in topic && e.id == id;
      }
    }
  }

  lemma PublishKeeps(s: System, id: string, partitions: seq<nat>)
    requires PipelineInv(s)
    ensures PipelineInv(Apply(s, PublishTo(id, partitions)))
  {
    var se := Store.PublishEvent(id, |partitions|);
    var topic' := Store.Apply(s.store, se).topic;
    Larger(s.group, s.store.topic, topic');
    if Publishing(s.store, id) {
      var e := Store.EventOf(s.store.creates[id].task);
      if partitions != [] {
        assert Store.Copies(e, |partitions|)[0] == e;
        assert topic'[|s.store.topic|] == e;
      }
      FedAppend(s.group, partitions, e, topic');
    }
  }

  lemma PipelineStep(s: System, e: Event)
    requires PipelineInv(s)
    ensures PipelineInv(Apply(s, e))
  {
    match e
    case StoreStep(se) =>
      Larger(s.group, s.store.topic, Store.Apply(s.store, se).topic);
    case GroupStep(ge) =>
      if !ge.Append? {
        GroupStepKeeps(s.group, ge, s.store.topic);
      }
    case PublishTo(id, partitions) => PublishKeeps(s, id, partitions);
  }

  lemma {:induction false} PipelineRun(sched: seq<Event>)
    ensures PipelineInv(Run(sched))
  {
    if sched != [] {
      PipelineRun(sched[..|sched| - 1]);
      PipelineStep(Run(sched[..|sched| - 1]), sched[|sched| - 1]);
    }
  }

  /** In every run of the whole pipeline, each id a worker has counted as consumed names a
      task whose document and index entry were both written, and acknowledged, before the
      publish of its event. */
  lemma CountedNamesDurableTask(sched: seq<Event>, id: string) returns (e: Store.TaskCreated)
    requires id in Run(sched).group.counted
    ensures e.id == id && Caused(StorePart(sched), e)
  {
    PipelineRun(sched);
    StoreRunsAlone(sched);
    var topic := Run(sched).store.topic;
    assert Named(topic, id);
    var i :| 0 <= i < |topic| && topic[i].id == id;
    e := topic[i];
    NoEventWithoutTask(StorePart(sched), e);
  }

  // ---- every published event can be counted ----

  /** The appends behind a publish. */
  function AppendsOf(partitions: seq<nat>, payload: Group.Payload): seq<Group.Event> {
    if partitions == [] then []
    else AppendsOf(partitions[..|partitions| - 1], payload) + [Group.Append(partitions[|partitions| - 1], payload)]
  }

  lemma {:induction false} AppendsAre(g: Group.Group, partitions: seq<nat>, payload: Group.Payload)
    ensures AppendAll(g, partitions, payload) == Group.Run(g, AppendsOf(partitions, payload))
    decreases |partitions|
  {
    if partitions != [] {
      var n := |partitions| - 1;
      AppendsAre(g, partitions[..n], payload);
      GroupSnoc(g, AppendsOf(partitions[..n], payload), Group.Append(partitions[n], payload));
    }
  }

  lemma GroupSnoc(g: Group.Group, sched: seq<Group.Event>, ge: Group.Event)
    ensures Group.Run(g, sched + [ge]) == Group.Apply(Group.Run(g, sched), ge)
  {
    DeliveryProgress.RunAppend(g, sched, [ge]);
    RunTwo(Group.Run(g, sched), ge, ge);
  }

  /** The group events behind an event of the pipeline. */
  function ToGroup(s: System, e: Event): seq<Group.Event> {
    match e
    case StoreStep(_) => []
    case GroupStep(ge) => if ge.Append? then [] else [ge]
    case PublishTo(id, partitions) =>
      if Publishing(s.store, id)
      then AppendsOf(partitions, Group.EventJson(Store.EventOf(s.store.creates[id].task)))
      else []
  }

  function GroupPart(sched: seq<Event>): seq<Group.Event> {
    if sched == [] then []
    else
      var p := sched[..|sched| - 1];
      GroupPart(p) + ToGroup(Run(p), sched[|sched| - 1])
  }

  /** The group of the pipeline is a run of the consumer group. */
  lemma {:induction false} GroupRunsAlone(sched: seq<Event>)
    ensures Run(sched).group == Group.Run(Group.Init(), GroupPart(sched))
  {
    if sched != [] {
      var p, e := sched[..|sched| - 1], sched[|sched| - 1];
      GroupRunsAlone(p);
      var s := Run(p);
      DeliveryProgress.RunAppend(Group.Init(), GroupPart(p), ToGroup(s, e));
      if e.PublishTo? && Publishing(s.store, e.id) {
        AppendsAre(s.group, e.partitions, Group.EventJson(Store.EventOf(s.store.creates[e.id].task)));
      } else if e.GroupStep? && !e.ge.Append? {
        RunTwo(s.group, e.ge, e.ge);
      }
    }
  }

  lemma RunMore(sched: seq<Event>, e: Event)
    ensures Run(sched + [e]) == Apply(Run(sched), e)
  {
    assert (sched + [e])[..|sched|] == sched;
  }

  function GroupSteps(sched: seq<Group.Event>): seq<Event> {
    if sched == [] then [] else GroupSteps(sched[..|sched| - 1]) + [GroupStep(sched[|sched| - 1])]
  }

  lemma OneGroupStep(sched: seq<Event>, ge: Group.Event)
    requires !ge.Append?
    ensures Run(sched + [GroupStep(ge)]) == Run(sched).(group := Group.Apply(Run(sched).group, ge))
  {
    RunMore(sched, GroupStep(ge));
  }

  /** Group events that append nothing run in the pipeline as they run alone. */
  lemma {:induction false} GroupStepsRun(sched: seq<Event>, steps: seq<Group.Event>)
    requires NoAppends(steps)
    ensures var s, s' := Run(sched), Run(sched + GroupSteps(steps));
            s'.store == s.store && s'.group == Group.Run(s.group, steps)
    decreases |steps|
  {
    if steps == [] {
      assert sched + [] == sched;
    } else {
      var n := |steps| - 1;
      var front := steps[..n];
      assert steps == front + [steps[n]];
      GroupStepsRun(sched, front);
      GroupSnoc(Run(sched).group, front, steps[n]);
      assert sched + GroupSteps(steps) == (sched + GroupSteps(front)) + [GroupStep(steps[n])];
      OneGroupStep(sched + GroupSteps(front), steps[n]);
    }
  }

  /** Every record of a partition can be counted, if it decodes. */
  lemma CanCountAll(sched: seq<Event>, p: nat) returns (more: seq<Event>)
    ensures var s, s' := Run(sched), Run(sched + more);
            forall o :: 0 <= o < |Group.LogOf(s.group, p)| && Group.LogOf(s.group, p)[o].EventJson? ==>
              Group.LogOf(s.group, p)[o].event.id in s'.group.counted
  {
    GroupRunsAlone(sched);
    var steps := DeliveryProgress.CanCountAll(GroupPart(sched), p);
    more := GroupSteps(steps);
    GroupStepsRun(sched, steps);
  }

  /** A publish of one copy puts the task's event behind the partition's records. */
  lemma PublishAppends(s: System, id: string, p: nat)
    requires Publishing(s.store, id)
    ensures var e := Store.EventOf(s.store.creates[id].task);
            var g' := Apply(s, PublishTo(id, [p])).group;
            Group.LogOf(g', p) == Group.LogOf(s.group, p) + [Group.EventJson(e)]
  {
    var payload := Group.EventJson(Store.EventOf(s.store.creates[id].task));
    assert AppendAll(s.group, [p][..0], payload) == s.group;
  }

  lemma OwnId(sched: seq<Event>, id: string)
    requires id in Run(sched).store.creates
    ensures Run(sched).store.creates[id].task.id == id
  {
    StoreRunsAlone(sched);
    Store.StoreRun(StorePart(sched));
    assert Store.Exact(Store.Run(StorePart(sched)), id);
  }

  /** The event of a published task lies in its partition. */
  lemma PublishLies(sched: seq<Event>, id: string, p: nat)
    requires Publishing(Run(sched).store, id)
    ensures var log := Group.LogOf(Run(sched + [PublishTo(id, [p])]).group, p);
            |log| > 0 && log[|log| - 1].EventJson? && log[|log| - 1].event.id == id
  {
    RunMore(sched, PublishTo(id, [p]));
    OwnId(sched, id);
    PublishAppends(Run(sched), id, p);
  }

  /** From every reachable state in which a task has been stored and its publish is next, some
      continuation has a worker count the task. */
  lemma PublishedCanBeCounted(sched: seq<Event>, id: string, p: nat) returns (more: seq<Event>)
    requires Publishing(Run(sched).store, id)
    ensures id in Run(sched + more).group.counted
  {
    var e := PublishTo(id, [p]);
    PublishLies(sched, id, p);
    var rest := CanCountAll(sched + [e], p);
    more := [e] + rest;
    assert sched + more == (sched + [e]) + rest;
  }

  /** End to end: from every reachable state, a task with a fresh id can be created, stored,
      published and counted by a worker. */
  lemma EndToEnd(sched: seq<Event>, task: Task, p: nat) returns (more: seq<Event>)
    requires task.id !in Run(sched).store.creates && !Store.Deleting(Run(sched).store.deletes, task.id)
    ensures task.id in Run(sched + more).group.counted
  {
    var a, b := StoreStep(Store.BeginCreate(task)), StoreStep(Store.CreateWrite(task.id, Acked));
    RunMore(sched, a);
    RunMore(sched + [a], b);
    RunMore((sched + [a]) + [b], b);
    var stored := ((sched + [a]) + [b]) + [b];
    var rest := PublishedCanBeCounted(stored, task.id, p);
    more := [a, b, b] + rest;
    assert sched + more == stored + rest;
  }
}
