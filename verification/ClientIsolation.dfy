/** Targets do not influence each other, however the sends interleave. Each name has one
    policy, which every later send on it shares, and a target's breaker evolves, step by
    step, as if the sends on all other targets had never been made. */
module ClientIsolation {
  import opened Client
  import opened ClientAccounting

  // ---- one policy per name ----

  /** The send has its policy. */
  predicate PolicyHeld(pc: Pc) {
    !pc.Peek? && !pc.PeekInsert? && !pc.LoadFlag? && !pc.Lookup? && !pc.Insert? && !pc.Rejected?
  }

  /** Whose policy this is. */
  predicate Owns(s: State, key: string, pid: PolicyId) {
    match pid
    case Configured(k) => k == key
    case Fallback(t) => t in s.sends && s.sends[t].key == key
  }

  ghost predicate PolicyInv(s: State) {
    var b := s.table;
    && (forall k :: k in b.policies ==> Owns(s, k, b.policies[k]) && b.policies[k] in b.breakers)
    && (forall t :: t in s.sends && PolicyHeld(s.sends[t].pc) ==>
          s.sends[t].key in b.policies && b.policies[s.sends[t].key] == s.sends[t].pid)
  }

  /** The table only ever gains policies, and a send keeps its key. */
  predicate Grows(s: State, s': State) {
    && (forall k :: k in s.table.policies ==>
          k in s'.table.policies && s'.table.policies[k] == s.table.policies[k])
    && (forall pid :: pid in s.table.breakers ==> pid in s'.table.breakers)
    && (forall t :: t in s.sends ==> t in s'.sends && s'.sends[t].key == s.sends[t].key)
  }

  lemma NextTableGrows(targets: Targets, b: Table, t: nat, m: Send)
    ensures var b' := NextTable(targets, b, t, m);
            && b'.now == b.now
            && b'.policies == (if Inserting(m.pc) && m.key !in b.policies
                               then b.policies[m.key := Fallback(t)] else b.policies)
            && forall pid :: pid in b.breakers || (Inserting(m.pc) && m.key !in b.policies && pid == Fallback(t))
                             <==> pid in b'.breakers
  {
  }

  lemma GrowsStep(targets: Targets, s: State, e: Event)
    ensures Grows(s, Apply(targets, s, e))
  {
    if e.Step? && e.t in s.sends {
      NextTableGrows(targets, s.table, e.t, s.sends[e.t]);
      SameKey(s, e.t, s.sends[e.t], Onward(targets, s.table, s.sends[e.t]));
    }
  }

  lemma PolicyStep(targets: Targets, s: State, e: Event)
    requires PolicyInv(s)
    ensures PolicyInv(Apply(targets, s, e))
  {
    GrowsStep(targets, s, e);
    if e.Step? && e.t in s.sends {
      PolicySend(targets, s, e.t);
    }
  }

  lemma PolicySend(targets: Targets, s: State, t: nat)
    requires PolicyInv(s) && t in s.sends && Grows(s, StepSend(targets, s, t, s.sends[t]))
    ensures PolicyInv(StepSend(targets, s, t, s.sends[t]))
  {
    var m := s.sends[t];
    NextTableGrows(targets, s.table, t, m);
  }

  lemma {:induction false} PolicyRun(targets: Targets, s: State, sched: seq<Event>)
    requires PolicyInv(s)
    ensures PolicyInv(Run(targets, s, sched)) && Grows(s, Run(targets, s, sched))
    decreases |sched|
  {
    if sched != [] {
      PolicyStep(targets, s, sched[0]);
      GrowsStep(targets, s, sched[0]);
      PolicyRun(targets, Apply(targets, s, sched[0]), sched[1..]);
    }
  }

  /** In every run, two sends on one name hold the same policy, even when they raced to
      insert it, and a name's policy is never replaced afterwards. */
  lemma OnePolicyPerName(targets: Targets, now: nat, sched: seq<Event>, t: nat, u: nat, more: seq<Event>)
    requires var s := Run(targets, Init(targets, now), sched);
             && t in s.sends && u in s.sends && s.sends[t].key == s.sends[u].key
             && PolicyHeld(s.sends[t].pc) && PolicyHeld(s.sends[u].pc)
    ensures var s := Run(targets, Init(targets, now), sched);
            && s.sends[t].pid == s.sends[u].pid
            && s.sends[t].key in Run(targets, s, more).table.policies
            && Run(targets, s, more).table.policies[s.sends[t].key] == s.sends[t].pid
  {
    PolicyRun(targets, Init(targets, now), sched);
    PolicyRun(targets, Run(targets, Init(targets, now), sched), more);
  }

  /** A configured name keeps its configured policy and settings, and any other name's
      policy is a fallback with the default settings. */
  lemma SettingsOfName(targets: Targets, now: nat, sched: seq<Event>, k: string)
    ensures var b := Run(targets, Init(targets, now), sched).table;
            && (k in targets ==>
                  k in b.policies && b.policies[k] == Configured(k) && ConfigOf(targets, b.policies[k]) == targets[k])
            && (k in b.policies && k !in targets ==>
                  b.policies[k].Fallback? && ConfigOf(targets, b.policies[k]) == DEFAULTS)
  {
    PolicyRun(targets, Init(targets, now), sched);
    ConfiguredOnly(targets, Init(targets, now), sched);
  }

  /** The configured policies are those of the start. */
  ghost predicate NoNewConfigured(targets: Targets, s: State) {
    forall k :: k in s.table.policies && s.table.policies[k].Configured? ==> s.table.policies[k].key in targets
  }

  lemma {:induction false} ConfiguredOnly(targets: Targets, s: State, sched: seq<Event>)
    requires NoNewConfigured(targets, s)
    ensures NoNewConfigured(targets, Run(targets, s, sched))
    decreases |sched|
  {
    if sched != [] {
      var e := sched[0];
      if e.Step? && e.t in s.sends {
        NextTableGrows(targets, s.table, e.t, s.sends[e.t]);
      }
      ConfiguredOnly(targets, Apply(targets, s, e), sched[1..]);
    }
  }

  /** A send inserts at most once. */
  ghost predicate InsertsOnce(s: State) {
    forall t :: Fallback(t) in s.table.breakers ==> t in s.sends && s.sends[t].key in s.table.policies
  }

  lemma InsertsOnceStep(targets: Targets, s: State, e: Event)
    requires InsertsOnce(s)
    ensures InsertsOnce(Apply(targets, s, e))
  {
    GrowsStep(targets, s, e);
    if e.Step? && e.t in s.sends {
      NextTableGrows(targets, s.table, e.t, s.sends[e.t]);
    }
  }

  // ---- the run that keeps only one target's sends ----

  /** The event belongs to target `k`: it starts or moves a send on it. Clock and
      shutdown events belong to every target. */
  predicate Concerns(s: State, e: Event, k: string) {
    match e
    case Tick(_) => true
    case Shutdown(_) => true
    case ShutStep(_) => true
    case Expire(_) => true
    case Begin(t, key, _) => t !in s.sends && key == k
    case _ => e.t in s.sends && s.sends[e.t].key == k
  }

  /** The schedule without the sends on other targets. */
  ghost function Keep(targets: Targets, s: State, sched: seq<Event>, k: string): seq<Event>
    decreases |sched|
  {
    if sched == [] then []
    else
      (if Concerns(s, sched[0], k) then [sched[0]] else [])
      + Keep(targets, Apply(targets, s, sched[0]), sched[1..], k)
  }

  /** Two sends agree up to how they report the end of their flight, which depends on
      the sends of other targets. */
  predicate SameSend(m: Send, n: Send) {
    m == n || (Left(m.pc) && Left(n.pc) && m.(pc := n.pc) == n)
  }

  ghost predicate SameSends(k: string, a: map<nat, Send>, b: map<nat, Send>) {
    && (forall t :: t in b <==> t in a && a[t].key == k)
    && (forall t :: t in b ==> SameSend(a[t], b[t]))
  }

  predicate SameShuts(a: map<nat, ShutPc>, b: map<nat, ShutPc>) {
    && a.Keys == b.Keys
    && (forall w :: w in a ==> (a[w].StoreFlag? <==> b[w].StoreFlag?))
  }

  /** `n` is the run that keeps only target `k`'s sends. */
  ghost predicate SameFor(k: string, s: State, n: State) {
    && s.flag == n.flag
    && SameTable(k, s.table, n.table)
    && SameSends(k, s.sends, n.sends)
    && SameShuts(s.shuts, n.shuts)
  }

  predicate SameTable(k: string, b: Table, c: Table) {
    && b.now == c.now
    && (k in b.policies <==> k in c.policies)
    && (k in b.policies ==>
          && b.policies[k] == c.policies[k]
          && b.policies[k] in b.breakers && b.policies[k] in c.breakers
          && b.breakers[b.policies[k]] == c.breakers[b.policies[k]])
  }

  lemma OwnSend(s: State, n: State, t: nat, m: Send, l: Send, at: Race.Pc, at': Race.Pc, k: string)
    requires s.flag == n.flag && SameTable(k, s.table, n.table) && SameSend(m, l) && m.key == k
    requires m == l ==> at == at'
    ensures SameSend(NextSend(s, t, m, at), NextSend(n, t, l, at'))
  {
  }

  lemma OwnSendTable(targets: Targets, b: Table, c: Table, t: nat, m: Send, l: Send, k: string)
    requires SameTable(k, b, c) && SameSend(m, l) && m.key == k
    requires PolicyHeld(m.pc) ==> k in b.policies && b.policies[k] == m.pid
    ensures SameTable(k, NextTable(targets, b, t, m), NextTable(targets, c, t, l))
  {
  }

  lemma SameSendsForeign(k: string, a: map<nat, Send>, b: map<nat, Send>, t: nat, m: Send)
    requires SameSends(k, a, b) && m.key != k && (t in a ==> a[t].key != k)
    ensures SameSends(k, a[t := m], b)
  {
  }

  lemma ForeignStep(targets: Targets, s: State, n: State, t: nat, k: string)
    requires PolicyInv(s) && SameFor(k, s, n) && t in s.sends && s.sends[t].key != k
    ensures SameFor(k, StepSend(targets, s, t, s.sends[t]), n)
  {
    var m := s.sends[t];
    var at := Onward(targets, s.table, m);
    SameKey(s, t, m, at);
    SameSendsForeign(k, s.sends, n.sends, t, NextSend(s, t, m, at));
  }

  lemma ForeignEvent(targets: Targets, s: State, n: State, e: Event, k: string)
    requires PolicyInv(s) && SameFor(k, s, n) && !Concerns(s, e, k)
    ensures SameFor(k, Apply(targets, s, e), n)
  {
    match e
    case Step(t) =>
      if t in s.sends {
        ForeignStep(targets, s, n, t, k);
      }
    case Begin(t, key, retrying) =>
      if t !in s.sends {
        SameSendsForeign(k, s.sends, n.sends, t, NewSend(t, key, retrying));
      }
    case Answer(t, _) => ForeignHeard(s, n, e, k);
    case Complete(t, _) => ForeignHeard(s, n, e, k);
    case Drop(t) => ForeignHeard(s, n, e, k);
  }

  lemma ForeignHeard(s: State, n: State, e: Event, k: string)
    requires SameFor(k, s, n) && (e.Answer? || e.Complete? || e.Drop?) && !Concerns(s, e, k)
    ensures e.t in s.sends ==> SameFor(k, s.(sends := s.sends[e.t := Heard(s.sends[e.t], e)]), n)
  {
    if e.t in s.sends {
      SameSendsForeign(k, s.sends, n.sends, e.t, Heard(s.sends[e.t], e));
    }
  }

  lemma SameSendsUpdate(k: string, a: map<nat, Send>, b: map<nat, Send>, t: nat, m: Send, l: Send)
    requires SameSends(k, a, b) && SameSend(m, l) && m.key == k
    ensures SameSends(k, a[t := m], b[t := l])
  {
  }

  lemma SameShutsNext(a: map<nat, ShutPc>, b: map<nat, ShutPc>, t: nat, m: Send, l: Send)
    requires SameShuts(a, b)
    ensures SameShuts(NextShuts(a, t, m), NextShuts(b, t, l))
  {
  }

  lemma OwnStep(targets: Targets, s: State, n: State, t: nat, k: string)
    requires PolicyInv(s) && SameFor(k, s, n) && t in s.sends && s.sends[t].key == k
    ensures SameFor(k, Apply(targets, s, Step(t)), Apply(targets, n, Step(t)))
  {
    var m, l := s.sends[t], n.sends[t];
    var at, at' := Onward(targets, s.table, m), Onward(targets, n.table, l);
    OwnSend(s, n, t, m, l, at, at', k);
    OwnSendTable(targets, s.table, n.table, t, m, l, k);
    SameKey(s, t, m, at);
    SameSendsUpdate(k, s.sends, n.sends, t, NextSend(s, t, m, at), NextSend(n, t, l, at'));
    SameShutsNext(s.shuts, n.shuts, t, m, l);
    assert Apply(targets, s, Step(t)) == StepSend(targets, s, t, m);
    assert Apply(targets, n, Step(t)) == StepSend(targets, n, t, l);
  }

  lemma SameKey(s: State, t: nat, m: Send, at: Race.Pc)
    ensures NextSend(s, t, m, at).key == m.key
  {
  }

  lemma OwnTick(targets: Targets, b: Table, c: Table, ms: nat, k: string)
    requires SameTable(k, b, c)
    ensures SameTable(k, TickAll(targets, b, ms), TickAll(targets, c, ms))
  {
  }

  /** Shutdown calls move alike in both runs, as far as the flag depends on them. */
  lemma SameShutStep(s: State, n: State, w: nat)
    requires SameShuts(s.shuts, n.shuts) && w in s.shuts
    ensures SameShuts(s.shuts[w := NextShut(s, s.shuts[w])], n.shuts[w := NextShut(n, n.shuts[w])])
  {
  }

  lemma OwnShutStep(targets: Targets, s: State, n: State, w: nat, k: string)
    requires SameFor(k, s, n)
    ensures SameFor(k, Apply(targets, s, ShutStep(w)), Apply(targets, n, ShutStep(w)))
  {
    if w in s.shuts {
      SameShutStep(s, n, w);
    }
  }

  lemma OwnShutdown(targets: Targets, s: State, n: State, w: nat, k: string)
    requires SameFor(k, s, n)
    ensures SameFor(k, Apply(targets, s, Shutdown(w)), Apply(targets, n, Shutdown(w)))
  {
  }

  lemma OwnExpire(targets: Targets, s: State, n: State, w: nat, k: string)
    requires SameFor(k, s, n)
    ensures SameFor(k, Apply(targets, s, Expire(w)), Apply(targets, n, Expire(w)))
  {
    var s', n' := Apply(targets, s, Expire(w)), Apply(targets, n, Expire(w));
    assert SameShuts(s'.shuts, n'.shuts);
  }

  lemma OwnEvent(targets: Targets, s: State, n: State, e: Event, k: string)
    requires PolicyInv(s) && SameFor(k, s, n) && Concerns(s, e, k)
    ensures SameFor(k, Apply(targets, s, e), Apply(targets, n, e))
  {
    match e
    case Step(t) => OwnStep(targets, s, n, t, k);
    case Tick(ms) => OwnTick(targets, s.table, n.table, ms, k);
    case Shutdown(w) => OwnShutdown(targets, s, n, w, k);
    case ShutStep(w) => OwnShutStep(targets, s, n, w, k);
    case Expire(w) => OwnExpire(targets, s, n, w, k);
    case Begin(t, _, retrying) =>
      var m := NewSend(t, k, retrying);
      SameSendsUpdate(k, s.sends, n.sends, t, m, m);
    case _ =>
      SameSendsUpdate(k, s.sends, n.sends, e.t, Heard(s.sends[e.t], e), Heard(n.sends[e.t], e));
  }

  lemma {:induction false} SameForRun(targets: Targets, s: State, n: State, sched: seq<Event>, k: string)
    requires PolicyInv(s) && SameFor(k, s, n)
    ensures SameFor(k, Run(targets, s, sched), Run(targets, n, Keep(targets, s, sched, k)))
    decreases |sched|
  {
    if sched != [] {
      var e := sched[0];
      var s' := Apply(targets, s, e);
      var rest := Keep(targets, s', sched[1..], k);
      PolicyStep(targets, s, e);
      if Concerns(s, e, k) {
        OwnEvent(targets, s, n, e, k);
        SameForRun(targets, s', Apply(targets, n, e), sched[1..], k);
        RunCons(targets, n, e, rest);
      } else {
        ForeignEvent(targets, s, n, e, k);
        SameForRun(targets, s', n, sched[1..], k);
        assert [] + rest == rest;
      }
    }
  }

  /** Target isolation: in every run, with the sends racing inside the breakers, target `k`
      has the policy and the breaker (its cells and every send's position inside it) of the
      run that keeps only `k`'s sends, with the same clock readings, rate-limiter answers
      and request outcomes; and `k`'s sends take the same path in both, up to the drain
      notification. */
  lemma TargetIsolation(targets: Targets, now: nat, sched: seq<Event>, k: string)
    ensures var s := Run(targets, Init(targets, now), sched);
            var n := Run(targets, Init(targets, now), Keep(targets, Init(targets, now), sched, k));
            && SameTable(k, s.table, n.table)
            && forall t :: t in s.sends && s.sends[t].key == k ==> t in n.sends && SameSend(s.sends[t], n.sends[t])
  {
    SameForRun(targets, Init(targets, now), Init(targets, now), sched, k);
  }
}
