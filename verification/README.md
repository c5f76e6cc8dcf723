# rust-basics: verified models of its three protocols

This project models, in Dafny 4.11, the three places of the rust-basics workspace
where behaviour depends on interleaving and failure, and proves what they guarantee:

1. **`resilient-client`** — the lock-free circuit breaker, the per-target policy stack,
   the drain-on-shutdown protocol and the retry loop.
2. **`tasks` store** — JSON documents plus an id index in Valkey, kept in step by
   separate commands that may fail or interleave.
3. **`kafka` consumer, `consumer` worker and the `tasks` publish order** — at-least-once
   delivery, and the link from a counted event back to a stored task.

## How the models are built

A protocol is a total function `Apply(state, event)`. A run is the fold of a *schedule*,
a sequence of events, so a lemma over every schedule is a statement about every run with
any number of threads. Each event is one atomic step: a load, a store, a fetch-add, a
compare-exchange, a clock reading, one server command. What comes from outside (clock
readings, limiter answers, request outcomes, random draws, command failures, lost
commits, crashes, dropped futures) is part of the schedule or a parameter.

In the client, a send that calls its policy's breaker takes that call's steps one by one:
each policy has a breaker of module `BreakerRace`, and the sends are its threads
(`ClientBreakers.BreakersRace`). No statement about runs of the client treats a breaker call
as atomic; where calls must not overlap, the statement says so.

Code that changes fields or loops is also given in that form: `CircuitBreaker`,
`ResilientHttpClient`, `TaskStore` and `Worker` are classes whose methods update their
fields, and the retry and consumer loops are methods with loops. They are tied to the
protocol models where both exist: `BreakerSolo.SoloRefines` and
`BreakerSerial.SerialRefines` for the breaker, `ClientSolo.SoloSend` for a send, and the
shared step functions of `StoreRace` for the store's operations, and
`ConsumerSession.LoopIsASession` for the consumer loop.

| files | content |
|---|---|
| `Breaker`, `BreakerLog`, `BreakerSliding`, `CircuitBreaker` | the breaker with uninterrupted calls, its call log, the documented sliding window, the object |
| `BreakerRace`, `BreakerLedger`, `BreakerCooldown`, `BreakerWindow`, `BreakerEdges` | the breaker under contention |
| `BreakerSolo`, `BreakerSerial` | when the contended breaker is the uninterrupted one |
| `Outcome`, `Retry` | classification, backoff and the retry loop |
| `Client`, `ClientAccounting`, `ClientShutdown`, `ClientDrained`, `ClientProgress`, `ClientIsolation`, `ClientBreakers`, `ClientAdmission` | sends, shutdown calls and breakers under contention |
| `ClientSolo`, `ClientOverlap`, `ClientObject` | a send on its own, a run with an overlap, the client object |
| `Valkey`, `NewestFirst`, `StoreRace`, `StoreAnswers`, `StoreLists`, `StoreDeletes`, `TaskStore` | the task store, contended and sequential |
| `Delivery`, `DeliveryProgress`, `Consumer`, `ConsumerSession`, `Pipeline` | the consumer group, the consumer loop and worker as a session of it, store and group together |
| `Tally` | sums over the threads of a state |

## What is assumed

- Steps are sequentially consistent. The source uses `Acquire`/`Release` and, for the two
  window counters, `Relaxed`; reorderings that weaker orderings allow are not modelled.
- The clock never goes back; where a positive clock matters it is a precondition.
- Ratios and delays are exact. u32 wrap-around of the counters, the `as i32` cast and the
  f64 overflow in the backoff are modelled; f64 rounding is not.
- A `notified()` future is woken by any later `notify_waiters()`, even before it is polled.
- A future of `send` can be dropped only where it awaits its request.
- Valkey commands are atomic. A failed command took effect or not before its caller went
  on; none takes effect later.
- Task ids are fresh, and a delete of an id starts only when no create of it is writing.
- A Kafka partition has one owner at a time; commits of one assignment are applied in
  order or lost, and fenced off once the partition is taken away. This is stronger than the
  broker's own rule, which fences by member generation: a live member's late commit after a
  rebalance is taken to be dropped. Only the `tasks` service writes to the topic.

## Where the source and its documentation differ

The model follows the code.

- "One probe request is allowed" (`crates/resilient-client/src/circuit_breaker.rs:32`):
  every caller that finds the state HalfOpen is admitted (line 89). The winner's request
  is the only one of a half-open period exactly when no caller loads the state in it
  (`BreakerEdges.OneProbeExactly`); `BreakerEdges.TwoProbes` is a run with two. What is
  unique is the caller that wins the exchange, once per store of Open
  (`BreakerRace.UniqueWinner`).
- "Sliding window" (line 18 and `README.md` of the crate): the window tumbles
  (`BreakerLog.WindowTumbles`). It counts the outcomes of the sliding window exactly when
  the last outcome before it is at least a window length old
  (`BreakerSliding.SlidingExactly`); `BreakerSliding.RotationForgets` is a log that trips
  although the sliding ratio is below the threshold.
- The drawn state machine (lines 6-16) holds for uninterrupted calls
  (`BreakerLog.DrawnEdges`). Under contention a late success can close an Open breaker
  (`BreakerEdges.StaleSuccessClosesOpen`), a late failure can open a Closed one without a
  trip test (`BreakerEdges.StaleFailureOpensClosed`), and a HalfOpen one can be left by a
  store decided on before, or by a failure counted before. Open and Closed are left as
  drawn exactly when no such store is pending (`BreakerEdges.LeavesOpenExactly`,
  `BreakerEdges.LeavesClosedExactly`); for HalfOpen see `BreakerEdges.LeavesHalfOpenExactly`
  and `BreakerEdges.LeavesHalfOpenByProbes`.
- A breaker whose calls overlap need not be in a state that its calls, one after the other,
  could have made (`BreakerSerial.RaceBeyondAnyLog`, `ClientOverlap.ClientBeyondAnyLog`);
  without overlap it always is (`BreakerSerial.SerialRefines`).
- "How long the circuit stays Open before a probe is allowed"
  (`crates/resilient-client/src/config.rs:74`): guaranteed for the first opening; after a
  re-opening an older stamp may be read, because the state is stored before the stamp.
  `BreakerCooldown.CooldownExact` gives the exact condition and
  `BreakerSolo.ReopeningSkipsCooldown` a run that violates it.
- An Ok of `shutdown` does not always mean drained, for two reasons. First, a send that saw
  the count at zero before the flag was raised may notify after it, while another send is
  in flight: `ClientShutdown.OkByCause` says which Ok means that the sends counted at the
  flag store have left, `ClientShutdown.ShutdownExact` after which flag stores every Ok
  does, and `ClientShutdown.StaleNotifyHappens` gives a run in which one does not. Second, a
  send that passed the flag load earlier and is not counted yet may go out after the Ok
  (`ClientDrained.EntersAfterOk`). Without either, an Ok means that nothing is in flight and
  nothing will be (`ClientDrained.OkMeansIdle`); `ClientDrained.IdleExactly` says the same
  of the moment of the Ok, and that a send at its limiter or about to enter does go out in
  some continuation.
- "Stop accepting new work" (`crates/resilient-client/src/client.rs:242`): no send goes out
  after its flag load has seen the flag, but `send_with_retry` looks its policy up first, and
  still adds a fallback policy for a new name (line 221, `ClientSolo.LateFallback`).
- "Deleting" a task (`crates/tasks/src/store.rs:62-73`) can answer true more than once:
  `StoreDeletes.BothTrueExactly` says when, `StoreDeletes.TrueTwice` gives a run.
- `crates/resilient-client/src/error.rs` calls TLS failures and unparseable URLs fatal;
  `classify` makes every such execution error transient.
- The backoff ceiling is the documented one exactly under the condition of
  `Retry.CeilingExact`: it can differ from attempt 2^31 on, and for a zero base from attempt
  1024 up to there (`Retry.CeilingFails`).

## Model

| member | source | states |
|---|---|---|
| BreakerLog.RefinesLog | crates/resilient-client/src/circuit_breaker.rs:87-167 | For every timed call history with fewer than 2^32 outcomes per window, the five cells agree with a counter-free breaker recomputed from the log; while Closed the two counters are the outcome and failure counts since the latest construction, rotation or reset |
| BreakerLog.WindowIsLogSuffix | crates/resilient-client/src/circuit_breaker.rs:149-167 | The window of the reference breaker is a stretch of the log that reaches up to its end |
| BreakerLog.WindowTumbles | crates/resilient-client/src/circuit_breaker.rs:155-167 | While Closed, the window counts no outcome recorded a window length or more after its start, other than the one that began it |
| BreakerLog.DrawnEdges | crates/resilient-client/src/circuit_breaker.rs:5-16 | With uninterrupted calls, the state changes along each drawn edge if and only if that edge's condition holds, and along no other |
| BreakerLog.OpenSince | crates/resilient-client/src/circuit_breaker.rs:87-108 | An Open breaker was opened by the failure that read the time in its stamp, and every admission request since then was refused |
| BreakerLog.ReopensIffStamped | crates/resilient-client/src/circuit_breaker.rs:90-106 | An Open breaker admits some later request if and only if its stamp is positive; with a zero stamp no call ever changes it |
| BreakerLog.OpensExactlyAt | crates/resilient-client/src/circuit_breaker.rs:126-147 | From any Closed state, consecutive failures inside the window open the breaker at exactly max(1, min - r, ceil((t*r - f)/(1 - t))), counting each failure, with the stamp that the opening one reads |
| BreakerLog.TripTest | crates/resilient-client/src/circuit_breaker.rs:131-138 | The ratio test on the counts after j further failures holds exactly from the closed-form trip point on |
| BreakerLog.UnreachableThreshold | crates/resilient-client/src/circuit_breaker.rs:133-137 | At a threshold of one only an all-failure window trips, above one nothing does |
| BreakerLog.RatioBelowThreshold | crates/resilient-client/src/circuit_breaker.rs:111-142 | While Closed, once a failure of the window was judged, the window's failure ratio stays below the threshold whatever is recorded afterwards |
| BreakerObject.CircuitBreaker.constructor | crates/resilient-client/src/circuit_breaker.rs:59-78 | A new breaker is Closed with empty counters, its window starts now, and its log is empty |
| BreakerObject.CircuitBreaker.AllowRequest | crates/resilient-client/src/circuit_breaker.rs:87-108 | Answers and changes the cells as the log model says, touching only the state, and keeps cells and log in agreement |
| BreakerObject.CircuitBreaker.RecordSuccess | crates/resilient-client/src/circuit_breaker.rs:111-123 | The cells after a success are those of the log model, and still the replay of the extended log |
| BreakerObject.CircuitBreaker.RecordFailure | crates/resilient-client/src/circuit_breaker.rs:126-142 | With one clock reading for the rotation and one for the opening stamp, the cells after a failure are those of the log model, and still the replay of the extended log |
| BreakerObject.CircuitBreaker.DoOpenCircuit | crates/resilient-client/src/circuit_breaker.rs:144-147 | Opening changes the state and the stamp and nothing else |
| BreakerObject.CircuitBreaker.DoResetWindow | crates/resilient-client/src/circuit_breaker.rs:149-153 | Resetting stamps the window, clears both counters and changes nothing else |
| BreakerObject.CircuitBreaker.MaybeRotateWindow | crates/resilient-client/src/circuit_breaker.rs:155-167 | The window is reset when it is due and untouched otherwise |
| BreakerRace.UniqueWinner | crates/resilient-client/src/circuit_breaker.rs:94-102 | Over every stretch of every interleaved run, winning exchanges plus one if it ends Open are at most stores of Open plus one if it began Open |
| BreakerRace.WaitFree | crates/resilient-client/src/circuit_breaker.rs:87-167 | Whatever the other threads do, a call is over after four own steps for an admission and twelve for an outcome |
| BreakerCooldown.CooldownExact | crates/resilient-client/src/circuit_breaker.rs:90-106 | After a store of Open, every later winning exchange is at least the half-open timeout away if and only if that timeout is zero or no older stamp is left in the cell or with any thread |
| BreakerCooldown.FirstCooldown | crates/resilient-client/src/circuit_breaker.rs:144-147 | In every interleaving, the first winning exchange comes at least the half-open timeout after the first store of Open |
| BreakerCooldown.NeverWedged | crates/resilient-client/src/circuit_breaker.rs:90-92 | In every interleaving, Open implies a positive stamp or an opener between its two stores |
| BreakerCooldown.CanAlwaysProbe | crates/resilient-client/src/circuit_breaker.rs:87-108 | From every reachable Open state some continuation wins the exchange |
| BreakerLedger.EveryOutcomeIsCounted | crates/resilient-client/src/circuit_breaker.rs:111-142 | Over every stretch of every interleaved run and for every thread, the outcomes that found the breaker Closed equal the request increments, its failures the failure increments, and these the trip tests, up to calls under way at either end; whether the window exchange was won, lost or not tried |
| BreakerLedger.EveryWindowIsChecked | crates/resilient-client/src/circuit_breaker.rs:155-163 | Every outcome that found the breaker Closed reads the window once, and tries the exchange exactly if it found the window over |
| BreakerLedger.OnlyWinnersClear | crates/resilient-client/src/circuit_breaker.rs:149-167 | Over every stretch of every interleaved run, the stores of zero to the request counter equal the won window exchanges and the reset stores, up to threads in between, and each is followed by one to the failure counter |
| BreakerLedger.EveryDecisionIsStored | crates/resilient-client/src/circuit_breaker.rs:111-147 | Every failure whose trip test held or that found HalfOpen stores Open once and then a stamp, every success that found HalfOpen stores Closed once and then resets the window, and no other step does |
| BreakerLedger.ValuesAreRead | crates/resilient-client/src/circuit_breaker.rs:87-167 | In every run a call acts on the values its own steps obtained: the trip test on the counts its two increments returned, the exchange on the start it loaded, the cooldown test on the stamp it loaded |
| BreakerLedger.CellsWritten | crates/resilient-client/src/circuit_breaker.rs:87-167 | Each cell is written by exactly the steps that name it, with the value they hold |
| BreakerLedger.RequestsAddUp | crates/resilient-client/src/circuit_breaker.rs:117-130 | Over every stretch without a clear or a wrap-around, the request counter grows by one for every outcome that found the breaker Closed, up to those yet to count |
| BreakerLedger.FailuresAddUp | crates/resilient-client/src/circuit_breaker.rs:130 | Likewise the failure counter, for every failure that found the breaker Closed |
| BreakerLedger.RotationsAreCounted | crates/resilient-client/src/circuit_breaker.rs:149-167 | Over every stretch of every run after a reset store and without another one, the won exchanges times the window length are at most the distance from that reset's stamp to the window's start, which is not ahead of the clock |
| BreakerWindow.RotationsAreSpaced | crates/resilient-client/src/circuit_breaker.rs:149-167 | In every interleaving, k rotations since the latest reset stamp s give k * window <= windowStart - s, with windowStart not ahead of the clock |
| BreakerWindow.SkewBound | crates/resilient-client/src/circuit_breaker.rs:117-132 | In every interleaving with no clear in progress and no wrap, failures plus the recorders that still owe one are at most requests plus the recorders that stood between their increments when the requests were last zeroed |
| BreakerSolo.SoloRefines | crates/resilient-client/src/circuit_breaker.rs:87-167 | A call whose steps are not interrupted leaves the cells, and gives the answer, of the atomic call |
| BreakerSolo.ReopeningSkipsCooldown | crates/resilient-client/src/circuit_breaker.rs:144-147 | A concrete reachable state whose re-opening can be probed before the half-open timeout |
| BreakerEdges.LeavesOpenExactly | crates/resilient-client/src/circuit_breaker.rs:87-116 | From an Open state, every continuation first leaves Open by a winning exchange if and only if no thread is about to store Closed |
| BreakerEdges.LeavesClosedExactly | crates/resilient-client/src/circuit_breaker.rs:126-147 | From a Closed state, every continuation first leaves Closed by the store of a thread whose trip test held in that continuation if and only if no thread is about to store Open |
| BreakerEdges.LeavesHalfOpenExactly | crates/resilient-client/src/circuit_breaker.rs:111-147 | From a HalfOpen state, every continuation first leaves it by a store decided on in that continuation, by a load that found HalfOpen or by a trip test, if and only if no thread is about to store Open or Closed |
| BreakerEdges.LeavesHalfOpenByProbes | crates/resilient-client/src/circuit_breaker.rs:111-147 | It is left by threads that found it HalfOpen only, if no store is pending and no failure recorder that found it Closed has its trip test ahead; and it cannot be if a store is pending or such a test holds |
| BreakerEdges.StaleSuccessClosesOpen | crates/resilient-client/src/circuit_breaker.rs:112-114 | A concrete run in which a late success closes a breaker that was opened again |
| BreakerEdges.StaleFailureOpensClosed | crates/resilient-client/src/circuit_breaker.rs:126-128 | A concrete run in which a late failure opens a Closed breaker with empty counters |
| BreakerEdges.OneProbeExactly | crates/resilient-client/src/circuit_breaker.rs:87-104 | Over a half-open period the requests admitted are the exchange winner's plus one per caller that loads the state, so the winner's is the only one if and only if no caller loads the state before the period ends |
| BreakerEdges.TwoProbes | crates/resilient-client/src/circuit_breaker.rs:88-89 | A concrete run whose half-open period admits two requests |
| BreakerSliding.SlidingExactly | crates/resilient-client/src/circuit_breaker.rs:155-167 | When an outcome is counted or closes the breaker, the window's outcomes are those of the last window length if and only if the last outcome before the window is at least a window length old |
| BreakerSliding.RotationForgets | crates/resilient-client/src/circuit_breaker.rs:126-142 | A concrete log whose rotation forgets a success one millisecond old, so that the breaker trips although the sliding ratio is below the threshold |
| BreakerSerial.SerialRefines | crates/resilient-client/src/circuit_breaker.rs:87-167 | In every run without overlapping calls, at rest, the cells are the replay of the finished calls with the clock readings they made, and agree with the reference breaker of that log |
| BreakerSerial.SerialAnswer | crates/resilient-client/src/circuit_breaker.rs:87-108 | In such a run every admission answer is the one that the calls finished before it give |
| BreakerSerial.RaceBeyondAnyLog | crates/resilient-client/src/circuit_breaker.rs:111-147 | A concrete run with an overlap that ends, at rest, in cells that no calls made by then leave, whatever their number, order and clock readings |
| Retry.CeilingExact | crates/resilient-client/src/backoff.rs:21-29 | For caps up to 2^53, the computed ceiling is min(cap, base * 2^attempt) exactly on the attempts that neither the i32 cast nor the f64 overflow spoils |
| Retry.CeilingFails | crates/resilient-client/src/backoff.rs:21-29 | Attempt 2^31 with base and cap 1 gets the ceiling 0, and attempt 1024 with base 0 and cap 1 gets 1, where the documentation says 1 and 0 |
| Retry.CeilingMonotone | crates/resilient-client/src/backoff.rs:21-29 | Below the cast limit the ceilings never decrease with the attempt and never exceed the cap |
| Retry.TotalSleep | crates/resilient-client/src/client.rs:230-237 | Delays within their ceilings add up to at most max * cap and, for a positive base, at most base * (2^(max+1) - 2) |
| Retry.SendWithRetry | crates/resilient-client/src/client.rs:219-240 | At most max + 1 sends, a further one only after a transient failure and after sleeping for the delay drawn below that attempt's ceiling, the last one's result returned, a transient result only when attempts ran out, one retry counted per further send, and both bounds on the total sleep |
| Outcome.ClassifySplit | crates/resilient-client/src/client.rs:279-333 | For every status code: delivered exactly on 2xx and 3xx, transient exactly on 429, 5xx and execution errors, fatal on every other response; the breaker is told of a failure exactly for the transient ones; each kind of outcome has its own error type |
| ClientAccounting.CountersConserved | crates/resilient-client/src/client.rs:174-215 | In every interleaving the in-flight counter is the number of sends inside or dropped there and never underflows, and requests_total is the number of sends whose counting step has run |
| ClientBreakers.BreakersRace | crates/resilient-client/src/client.rs:184-210 | In every run each policy's breaker is a run of the contended breaker with its settings on the client's clock, and its threads are that policy's sends, each at the position the send is at |
| ClientBreakers.BreakersKeepTheirBounds | crates/resilient-client/src/circuit_breaker.rs:87-167 | In every run of the client no breaker is wedged open, and each keeps the rotation rate and the counter skew bound |
| ClientBreakers.OneOutcomePerSend | crates/resilient-client/src/client.rs:279-333 | In every run a finished send made exactly one outcome call on its own policy's breaker and ran it to its end, a failure exactly when it returned Transient, and none on another; a rejected, refused or dropped one made none |
| ClientAdmission.OnlyAdmittedGoOut | crates/resilient-client/src/client.rs:184-201 | In every interleaving, breaker steps included, a request goes out only after its own breaker let it in (a state other than Open loaded, or the exchange won) and its limiter granted it; a refused send was refused by its breaker (a stamp too young, or the exchange lost) or by its limiter |
| ClientAdmission.AdmittedByItsLog | crates/resilient-client/src/client.rs:184-201 | If no two calls on its breaker overlap, a request that went out was admitted by the breaker that the calls finished before had made, and a refused send was refused by it or by the limiter |
| ClientShutdown.NeverLosesWakeup | crates/resilient-client/src/client.rs:244-260 | A shutdown call past its re-check and unwoken has a positive in-flight count or a finisher with its notification still to perform |
| ClientShutdown.DrainIsFinite | crates/resilient-client/src/client.rs:178-215 | Once the flag is up, the steps still taken by sends past the flag load those inside their breaker calls included, are bounded by what they had left, in every continuation |
| ClientShutdown.LateSendsRejected | crates/resilient-client/src/client.rs:178-182 | Once the flag is up, a send not past the flag load never enters the in-flight count or the request metric |
| ClientShutdown.DrainWakesWaiters | crates/resilient-client/src/client.rs:342-348 | When the sends past the flag load have used up their steps and none was dropped, nothing is in flight and no waiter is unwoken |
| ClientShutdown.OkByCause | crates/resilient-client/src/client.rs:201-260 | From any reachable flag store and in every continuation, an Ok that rests on a zero seen at either load, or on a notification by a send that had not found the count at zero before the flag store, means that all sends counted before it are uncounted and none was dropped |
| ClientShutdown.OldNotifyIsTooEarly | crates/resilient-client/src/client.rs:342-348 | Any other Ok promises nothing: while a send is in flight and a finisher from before the flag store is still to notify, some continuation returns Ok on such notifications with a counted send in flight |
| ClientShutdown.ShutdownExact | crates/resilient-client/src/client.rs:244-260 | From any reachable flag store, Ok means in every continuation that all sends counted before it are uncounted and none was dropped, if and only if no send was in flight while a finisher still had its notification ahead |
| ClientShutdown.StaleNotifyHappens | crates/resilient-client/src/client.rs:342-348 | A concrete run that reaches such a flag store, so that an Ok can come while a counted send is in flight |
| ClientProgress.NoSendIsStuck | crates/resilient-client/src/client.rs:184-215 | With the flag up, every send past its flag load that is not through has an event that brings it closer to its end and moves no other send |
| ClientProgress.CanAlwaysDrain | crates/resilient-client/src/client.rs:244-260 | From every reachable state with the flag up and no send dropped, some continuation leaves nothing in flight and no waiter unwoken |
| ClientProgress.NotifiedReturns | crates/resilient-client/src/client.rs:249-255 | A notification reaches every registered call; whatever happens then, the call does not time out, and has returned Ok after two steps of its own |
| ClientProgress.DroppedStaysCounted | crates/resilient-client/src/client.rs:201-213 | A send whose future is dropped while awaiting stays counted in every continuation, so that no shutdown call sees zero |
| ClientDrained.OkMeansIdle | crates/resilient-client/src/client.rs:174-260 | From any reachable flag store with no old notification pending and no send between its flag load and its count, an Ok means in every continuation that nothing is in flight and nothing will be |
| ClientDrained.IdleExactly | crates/resilient-client/src/client.rs:178-201 | With the flag up, nothing is in flight now and ever after if the count is zero and no send is between its flag load and its count, and only if the count is zero and no send is at its limiter or about to enter |
| ClientDrained.EntersLater | crates/resilient-client/src/client.rs:194-248 | From any flag store with a zero count and a send at its limiter or about to enter, some continuation returns Ok and then has a request in flight |
| ClientDrained.EntersAfterOk | crates/resilient-client/src/client.rs:201 | A concrete run that reaches such a flag store with no old notification pending |
| ClientIsolation.OnePolicyPerName | crates/resilient-client/src/client.rs:162-170 | Sends on one name hold the same policy even when they raced to insert it, and a name's policy is never replaced |
| ClientIsolation.SettingsOfName | crates/resilient-client/src/client.rs:138-170 | A configured name keeps its configured policy and settings in every run; any other name's policy is a fallback with the default settings |
| ClientBreakers.FallbackBreaker | crates/resilient-client/src/config.rs:120-158 | A fallback policy's breaker trips from ten outcomes on when half of them failed, so on the tenth failure in a row and not before; its window is over after 10 s and it may be probed 30 s after its stamp |
| ClientBreakers.BreakerIsItsOwnLog | crates/resilient-client/src/client.rs:174-215 | If no two calls on a policy's breaker overlap, then whenever no send is inside one the breaker is the replay of exactly the calls made on that policy, and agrees with the reference breaker of that log |
| ClientOverlap.ClientBeyondAnyLog | crates/resilient-client/src/client.rs:174-215 | A concrete run of three sends whose overlap leaves the breaker in a state that no calls made by then leave |
| ClientIsolation.TargetIsolation | crates/resilient-client/src/client.rs:162-215 | In every interleaving, breaker steps included, a target's policy, breaker and sends are those of the run that keeps only its own sends, with the same clock readings and answers |
| ClientObject.ResilientHttpClient.constructor | crates/resilient-client/src/client.rs:124-155 | Every configured target gets a fresh breaker of its own with its settings; the flag is down and the counters are zero |
| ClientObject.ResilientHttpClient.PolicyFor | crates/resilient-client/src/client.rs:162-170 | A known name yields its policy unchanged; an unknown one gets a fresh breaker with default settings, which is put in the table |
| ClientSolo.AlwaysReady | crates/resilient-client/src/client.rs:162-186 | Every reachable state with the flag down is one from which a new send on any name can run so |
| ClientSolo.SoloSend | crates/resilient-client/src/client.rs:174-215 | From every state in which its breaker can be called, the interleaved send run on its own leaves the breaker, the counters and the result of the uninterrupted send, and changes no other breaker |
| ClientSolo.PeeksFirst | crates/resilient-client/src/client.rs:219-230 | A retrying send looks its policy up, adding a fallback for a new name, and only then comes to its flag load, whether or not the flag is up |
| ClientSolo.LateFallback | crates/resilient-client/src/client.rs:219-221 | With the flag up, a retrying send on a new name still adds a fallback policy, and is then rejected |
| ClientSolo.SoloShutdown | crates/resilient-client/src/client.rs:244-260 | A shutdown call that runs on its own ends in Ok if nothing is in flight and times out with the count otherwise, and changes only the flag |
| ClientObject.ResilientHttpClient.SendRequest | crates/resilient-client/src/client.rs:174-215 | An uninterrupted send rejected by the flag changes nothing; any other counts once, leaves the in-flight count balanced, makes one admission and, if executed, one outcome on its own breaker, whose cells and result are those of the protocol's send, and leaves all other breakers alone |
| ClientObject.ResilientHttpClient.ShutDown | crates/resilient-client/src/client.rs:244-260 | Raises the flag, changes nothing else, and ends where the protocol's shutdown call ends on its own: Ok, or the timeout with the count |
| Valkey.KeysApart | crates/tasks/src/store.rs:9-13 | Task keys are injective in the id and never collide with the index key |
| NewestFirst.SortIsStable | crates/tasks/src/store.rs:58 | The listing order is newest first, a permutation, and stable |
| StoreRace.StoreRun | crates/tasks/src/store.rs:32-73 | In every run a document is stored exactly if its create wrote it and no delete erased it, and an id is indexed exactly if its create added it and no delete removed it |
| StoreRace.IndexAgreement | crates/tasks/src/store.rs:32-36 | A stored unindexed id belongs to a create pending or failed between its writes, an indexed missing one to a delete pending or failed between its writes |
| StoreRace.QuietRefinesPlainMap | crates/tasks/src/store.rs:28-73 | In a quiet state without failures, index and stored ids agree and the documents are exactly the created tasks that were not deleted |
| StoreAnswers.ListIsFaithful | crates/tasks/src/store.rs:50-60 | In every interleaving a successful list is newest first without repeated ids, contains every task settled when it began and erased by no delete up to now, and only tasks stored at some instant after it began |
| StoreLists.ListFailsExactly | crates/tasks/src/store.rs:50-60 | In every run a list has failed if and only if a command of its own has: an id whose document is gone is skipped |
| StoreLists.FetchesGetThrough | crates/tasks/src/store.rs:53-59 | Whatever interleaves, a list whose fetches succeed moves on by one id a turn and is answered after one turn more than it had ids left |
| StoreLists.IndexReadMovesOn | crates/tasks/src/store.rs:51-52 | An index read that succeeds takes the list on to fetch exactly the ids indexed at that moment |
| StoreLists.TurnFailsExactly | crates/tasks/src/store.rs:53-57 | On any key space a fetch turn fails exactly if its command does or the document does not decode |
| StoreLists.ListCanRun | crates/tasks/src/store.rs:50-60 | From every reachable state a new list can be made and answered, and one under way that has not failed can be answered |
| StoreAnswers.DeleteIsFaithful | crates/tasks/src/store.rs:66-73 | A delete answers whether it found a document when it looked, and after a true answer document and index entry are gone |
| StoreDeletes.DeleteFailsExactly | crates/tasks/src/store.rs:66-73 | In every run a delete has ended in an error if and only if a command of its own has failed |
| StoreDeletes.BothTrueExactly | crates/tasks/src/store.rs:66-73 | Two deletes can both answer true from here on if and only if each has found its document already or would find it now, so of one id exactly when both look before either erases |
| StoreDeletes.TrueTwice | crates/tasks/src/store.rs:66-73 | A concrete run in which two deletes of one task both answer true |
| StoreAnswers.NoEventWithoutTask | crates/tasks/src/lib.rs:93-123 | Each event in the topic carries the id, title and creation time of a task whose document and index entry were both written and acknowledged before its publish |
| TaskStoreObject.TaskStore.CreateTask | crates/tasks/src/store.rs:32-36 | The key space moves by the model's two create steps, stopping at the first error; success leaves the task stored and indexed |
| TaskStoreObject.TaskStore.Get | crates/tasks/src/store.rs:42-44 | Fails exactly if the command fails or what lies under the key does not decode as a document; on a well-formed key space a lookup that gets through finds a task exactly if one is stored under the id, and that very task |
| TaskStoreObject.TaskStore.DeleteTask | crates/tasks/src/store.rs:66-73 | Moves by the model's probe and delete steps, stopping at the first error; a true answer leaves the task neither stored nor indexed |
| TaskStoreObject.TaskStore.ListTasks | crates/tasks/src/store.rs:50-60 | Fails exactly if some read fails or some document does not decode; otherwise returns exactly the tasks both indexed and stored, each once, newest first |
| Delivery.AtLeastOnce | crates/kafka/src/lib.rs:189-210 | Over every run with handler errors, crashes, rebalances and lost commits, committed offsets never decrease and every record below them, and below any owner's position, was accepted |
| DeliveryProgress.StopsExactly | crates/kafka/src/lib.rs:194-209 | A worker stops exactly on a refused record, on a failed commit call and on a crash; a receive error changes nothing, and after a commit call that succeeds it polls again |
| DeliveryProgress.CommitTakesHold | crates/kafka/src/lib.rs:205-206 | From every reachable state with record o accepted and its commit call next, once that call has succeeded and is applied the committed offset is o + 1, and the partition's next owner starts there |
| DeliveryProgress.OwnerIsCommitted | crates/kafka/src/lib.rs:189-210 | In every run without lost commits of it, an owner's position is what its commit call ahead and its pending commits promise, so the committed offset once there are none |
| DeliveryProgress.CanAlwaysCatchUp | crates/kafka/src/lib.rs:155-210 | From every reachable state some continuation has every record of a partition accepted and committed |
| DeliveryProgress.ProgressIsCommitted | crates/kafka/src/lib.rs:189-210 | In every run the records below a partition's committed offset are exactly those in the committed progress of some session |
| Delivery.CountersCoverProgress | crates/consumer/src/lib.rs:76-109 | A session's consumed + skipped is the number of records its handler accepted, consumed those that decode, and together they cover the session's committed progress |
| ConsumerLoop.RunLoop | crates/kafka/src/lib.rs:189-210 | The records handed over are a prefix of those received, each commit is the offset after an accepted record in order, and the loop ends exactly at the first failing handler or commit call |
| ConsumerSession.LoopIsASession | crates/kafka/src/lib.rs:189-210 | On records that come in turn, the loop's handovers and commit calls are the dispatch and commit events of one worker of the group, and leave it with exactly the records, counters, positions and pending commits the loop reports, stopped exactly if the loop stopped |
| ConsumerLoop.Worker.Handle | crates/consumer/src/lib.rs:83-106 | A decodable record adds one to consumed, any other one to skipped, and both are accepted |
| ConsumerLoop.Worker.RunWorker | crates/consumer/src/lib.rs:76-109 | No record stops the worker; each record handed over is counted once, in consumed exactly if it decodes |
| Pipeline.CountedNamesDurableTask | crates/tasks/src/lib.rs:105-123 | In every run of store, topic and consumer group together, each counted id names a task durably stored and indexed before its event was published |
| Pipeline.PublishedCanBeCounted | crates/tasks/src/lib.rs:108-122 | From every reachable state with a task stored and its publish next, some continuation has a worker count it |
| Pipeline.EndToEnd | crates/tasks/src/lib.rs:93-123 | From every reachable state a task with a fresh id can be created, stored, published and counted |

## Left out

- Weak memory: reorderings allowed by `Relaxed`, `Acquire` and `Release`.
- `governor` internals and `crates/ratelimit`: each check is an answer in the schedule.
- reqwest, redis, rdkafka and tokio internals: only the contracts named above.
- f64 rounding, and the debug-build panic on `fetch_add(..) + 1` at the u32 limit.
- ClientBreakers.BreakerIsItsOwnLog: that calls do not overlap is sufficient, not necessary; an overlap may also happen to leave a state that calls could have made.
- ClientDrained.IdleExactly: one way only for sends that have still to ask their breaker, which may let them in or refuse them.
- BreakerEdges.LeavesHalfOpenByProbes: one way only for failure recorders that have not counted yet, whose trip test depends on what others count by then.
- ClientObject.ResilientHttpClient.SendRequest: one caller at a time; interleaving, dropped futures and the waiter are in module Client.
- ClientObject.ResilientHttpClient.ShutDown: one caller at a time, like SendRequest.
- The client's metrics other than `requests_total`, among them the breaker state it reads for its gauge, and the text of errors.
- JSON encoding: a document that was written decodes to the task it was written from.
- Offsets with gaps (compaction, transactions), retention of the topic, and the health probes of `crates/kafka` and `crates/valkey`.
- HTTP handlers of `crates/tasks` beyond the order of store and publish: request validation and problem responses.
- `crates/secrets`, `crates/httpx`, `crates/otelx`, `crates/ping`, `crates/heartbeat`, configuration loading: they would only add easy members.
