/** The client object as one caller drives it: the policy table of breaker objects, the
    shutdown flag and the counters, changed in place. The limiter's answer, the outcome
    of the request and the clock readings of a send are parameters: `now` when it asks the
    breaker, `later` and `stamp` when it reports the outcome. Module Client has the same
    sends broken into their atomic steps, and ClientSolo proves that an undisturbed one
    has the effect stated here. */
module ClientObject {
  import opened Breaker
  import opened BreakerLog
  import opened BreakerObject
  import opened Outcome
  import opened Client
  import opened ClientSolo

  class ResilientHttpClient {
    const targets: Targets
    var policies: map<string, CircuitBreaker>
    var isShuttingDown: bool
    var inFlight: nat
    var requestsTotal: nat

    /** Every policy has a breaker of its own, with its target's settings. */
    ghost predicate Valid()
      reads this, policies.Values
    {
      && (forall k :: k in policies ==> policies[k].Valid() && policies[k].cfg == SettingsOf(k))
      && (forall j, k :: j in policies && k in policies && j != k ==> policies[j] != policies[k])
    }

    function SettingsOf(key: string): Config {
      if key in targets then targets[key] else DEFAULTS
    }

    /** One policy per configured target. */
    constructor (targets: Targets, now: nat)
      ensures Valid() && this.targets == targets && policies.Keys == targets.Keys
      ensures forall k :: k in policies ==> fresh(policies[k]) && policies[k].View() == Fresh(now)
      ensures !isShuttingDown && inFlight == 0 && requestsTotal == 0
    {
      this.targets := targets;
      policies := map[];
      isShuttingDown, inFlight, requestsTotal := false, 0, 0;
      new;
      var left := targets.Keys;
      while left != {}
        invariant left <= targets.Keys && policies.Keys == targets.Keys - left
        invariant Valid()
        invariant forall k :: k in policies ==> fresh(policies[k]) && policies[k].View() == Fresh(now)
        invariant !isShuttingDown && inFlight == 0 && requestsTotal == 0
        decreases left
      {
        var k :| k in left;
        var b := new CircuitBreaker(targets[k], now);
        policies := policies[k := b];
        left := left - {k};
      }
    }

    /** The calls made so far on the breaker of a name. */
    ghost function LogOf(key: string): seq<Call>
      reads this, policies.Values
    {
      if key in policies then policies[key].log else []
    }

    ghost function BornOf(key: string, now: nat): nat
      reads this
    {
      if key in policies then policies[key].born else now
    }

    /** The breaker of a name, as it is or as it would be created now. */
    ghost function CellsOf(key: string, now: nat): Cells
      reads this, policies.Values
    {
      Replay(SettingsOf(key), BornOf(key, now), LogOf(key))
    }

    /** The policy of a name: the one in the table, or a new one put there. */
    method PolicyFor(key: string, now: nat) returns (b: CircuitBreaker)
      requires Valid()
      modifies this`policies
      ensures Valid() && key in policies && policies[key] == b
      ensures old(key in policies) ==> policies == old(policies)
      ensures old(key !in policies) ==>
                fresh(b) && b.born == now && b.log == [] && policies == old(policies)[key := b]
      ensures b.log == old(LogOf(key)) && b.View() == old(CellsOf(key, now))
    {
      if key in policies {
        b := policies[key];
      } else {
        b := new CircuitBreaker(SettingsOf(key), now);
        policies := policies[key := b];
      }
    }

    /** Ask the breaker and the limiter, and tell the breaker what became of the request. */
    method Attempt(b: CircuitBreaker, now: nat, limiterOk: bool, outcome: Exec, later: nat, stamp: nat)
      returns (executed: bool)
      requires b.Valid()
      modifies b, this`inFlight
      ensures b.Valid() && inFlight == old(inFlight)
      ensures executed == (Admits(b.cfg, old(b.View()), now) && limiterOk)
      ensures b.log == old(b.log) + [Allow(now)]
                       + (if executed then [Race.CallOf(Verdicted(outcome), later, stamp)] else [])
      ensures b.View() == AfterSend(b.cfg, old(b.View()), now, limiterOk, outcome, later, stamp)
    {
      var admitted := b.AllowRequest(now);
      executed := admitted && limiterOk;
      if executed {
        inFlight := inFlight + 1;
        if Classify(outcome).failure {
          b.RecordFailure(later, stamp);
        } else {
          b.RecordSuccess(later);
        }
        inFlight := inFlight - 1;
      }
    }

    /** One request through the policy stack. It is executed when its own target's breaker
        and limiter let it through; its breaker then sees one admission and one outcome,
        and no other target's breaker sees anything. */
    method SendRequest(key: string, now: nat, limiterOk: bool, outcome: Exec, later: nat, stamp: nat)
      returns (result: SendResult)
      requires Valid()
      modifies this, policies.Values
      ensures Valid()
      ensures inFlight == old(inFlight) && isShuttingDown == old(isShuttingDown)
      ensures old(isShuttingDown) ==>
                && result.Transient? && requestsTotal == old(requestsTotal) && policies == old(policies)
                && LogOf(key) == old(LogOf(key))
      ensures !old(isShuttingDown) ==>
                var executed := Admits(SettingsOf(key), old(CellsOf(key, now)), now) && limiterOk;
                && requestsTotal == old(requestsTotal) + 1
                && result == (if executed then Classify(outcome).result else Transient)
                && LogOf(key) == old(LogOf(key)) + [Allow(now)]
                                 + (if executed then [Race.CallOf(Verdicted(outcome), later, stamp)] else [])
                && key in policies
                && policies[key].View() ==
                     AfterSend(SettingsOf(key), old(CellsOf(key, now)), now, limiterOk, outcome, later, stamp)
      ensures policies == old(policies) || (old(key !in policies) && key in policies
                 && policies == old(policies)[key := policies[key]])
      ensures forall k :: k in old(policies) && k != key ==> policies[k].log == old(policies[k].log)
    {
      if isShuttingDown {
        return Transient;
      }
      result := SendThrough(key, now, limiterOk, outcome, later, stamp);
    }

    /** A send that has passed the flag. */
    method SendThrough(key: string, now: nat, limiterOk: bool, outcome: Exec, later: nat, stamp: nat)
      returns (result: SendResult)
      requires Valid()
      modifies this`policies, this`inFlight, this`requestsTotal, policies.Values
      ensures Valid()
      ensures inFlight == old(inFlight) && requestsTotal == old(requestsTotal) + 1
      ensures var executed := Admits(SettingsOf(key), old(CellsOf(key, now)), now) && limiterOk;
              && result == (if executed then Classify(outcome).result else Transient)
              && LogOf(key) == old(LogOf(key)) + [Allow(now)]
                               + (if executed then [Race.CallOf(Verdicted(outcome), later, stamp)] else [])
      ensures key in policies && policies[key].View() ==
                AfterSend(SettingsOf(key), old(CellsOf(key, now)), now, limiterOk, outcome, later, stamp)
      ensures key in policies && policies == old(policies)[key := policies[key]]
      ensures old(key in policies) ==> policies == old(policies)
      ensures forall k :: k in old(policies) && k != key ==> policies[k].log == old(policies[k].log)
    {
      var breaker := PolicyFor(key, now);
      var executed := Attempt(breaker, now, limiterOk, outcome, later, stamp);
      requestsTotal := requestsTotal + 1;
      return if executed then Classify(outcome).result else Transient;
    }

    /** Raise the flag and wait for the sends in flight until the time is up. With no other
        caller none of them can finish, so the call ends where the protocol's shutdown call
        ends when nothing else moves. */
    method ShutDown() returns (end: ShutPc)
      modifies this`isShuttingDown
      ensures isShuttingDown && end == ShutAlone(inFlight)
    {
      isShuttingDown := true;
      return if inFlight == 0 then Drained(SawZero) else TimedOutWith(inFlight);
    }
  }
}
