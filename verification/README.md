# The honor engine, modelled and proved

The repository watches a chain and hands out goods exactly once per accepted quote. This project models
the parts that decide when goods leave: the two-table gate, the engine's `honor` cut at its awaits, the
two settlement forms, the HTLC claim protocol over a chain that reorganises, the transaction wire decoder
and the `onPaid` loop. Everything below is a statement over all inputs, all interleavings or all runs.

## How the model is put together

- **Values** (`Spec`, `Datum`): quotes, rows, verdicts, the strict 16-byte settlement datum.
- **The gate** (`Gate`, `SqliteStore`, `FakeStore`): SEEN, CONSUMED and the consumer's goods as a value,
  and two stores as classes. `SqliteStore` updates its tables in place and restores them when the
  transaction body throws; `FakeSyncStore` stages copies and publishes them at commit. Both are proved
  equal to the same function of the state, and to each other over any sequence of operations.
- **The engine** (`Engine`): a transition system. A call of `honor` is a program counter with the locals
  it captured (row, candidate and the `now` read on entry); between two of its atomic sections anything
  else may happen: other calls, registrations, observations, reservations, sweeps, faults, restarts. A log
  records committed deliveries. The class `HonorEngine` has one method per atomic section, each proved to
  take the corresponding step.
- **Whole-run theorems** (`ExactlyOnce`, `SweepInvisible`, `StaleHonor`, `GateBijection`, `LateHonor`,
  `Conservation`).
- **The HTLC form** (`Chain`, `Htlc`, `HtlcEarned`, `HtlcBookkeeping`, `HtlcFinality`, `HtlcProgress`): the form's claim
  map, the engine's claim map and the CONSUMED rows step together; the class `HtlcForm` has one method per
  atomic section of `prepare`, each proved to take its step, and every run of the protocol is a run of the
  engine. The chain is a sequence of blocks that grows or replaces at most `maxReorgDepth` top blocks by at
  least as many.
- **The plain form** (`Plain`, `PlainTheorems`): the binding spine and the candidate loop.
- **The wire** (`LittleEndian`, `TxCodec`, `WireDecoder`, `ChainSource`): an independent serializer and
  parser of the canonical format, the cursor class proved against that parser, and the verdict from raw
  bytes proved equal to the verdict on the abstract ledger.
- **`onPaid`** (`OnPaid`, `LoopCancel`, `LoopProgress`): timer, `settled`, `ticking`, suspended ticks and `cancel` on top
  of the engine. The number of ticks in flight is not built in: ticks live in a map and the guard is proved
  to keep it to one.
- **End to end** (`Settlement`): rows from the store, quotes rebuilt from rows, verdicts from the two forms
  over a chain that moves between any two calls of a scoring, then the gate. The hypotheses H3 and "exact
  amount" of the gate theorems are discharged here from what the scorers check.

## Hypotheses

Each theorem lists the ones it needs.

- **H1** (`Timely`, `TimelyCalls`): a call that reaches the gate does not carry a time before a sweep that
  already ran. Only this part of "time never goes backwards" is used, and only where sweeps appear.
- **H2** (`OneQuotePerKey`): a key is always registered with the same quote and window.
- **H3** (`OneOwner`): candidates and reservations belong to the key they are scored for. `Settlement`
  derives it: the plain spine checks the datum; for HTLC it rests on the indexer listing locks by their
  datum (`HonestLock`), since the form re-decodes the quote's own id.
- **H4**: a better-sqlite3 transaction is atomic and rolls back on a throw (how `RunHonorTxn` is modelled).

## What was found

- **Stale time at the gate.** `honor` reads the clock (or takes `opts.now`) on entry and commits with that
  time. A call that has read its row and then spans a delivery, a sweep and a re-registration delivers the
  same quote from the same outpoint twice, exactly when its stale time still lies within the quote's life
  and retention (`StaleHonorPaysTwice`). Hence H1.
- **Cancel does not recall.** `settled` is tested only when a tick starts. A loop that answered `cancelled`
  can still deliver (`CancelledLoopDelivers`), and it can exactly when a tick is suspended before its honor
  call or waits for one that has not ended (`SettledIsQuietIff`); `cancelled` therefore means at most one
  delivery, not none.
- **A failed registration is not repaired.** The comment at src/service/honor-service.ts:307-308 says a later
  tick registers again; no tick calls `register`. Such a loop never delivers unless someone else registers
  the key (`LostRegistrationNeverHonors`), its first undisturbed tick ends it as `expired_unobserved`
  (`LostRegistrationExpires`), and a tick ends it so exactly when the row is missing (`MissingRowEndsTheLoop`).
- **A shallow payment can be declined.** The loop over candidates keeps the last verdict that was not a skip.
  When nothing passes, the last candidate that does not carry another quote id decides alone, with the
  first rule it breaks (`RefusedList`); a list that holds a valid payment lacking only depth is terminally
  declined exactly when that last candidate is not itself shallow (`ShallowDeclinedIff`).
- **`hexToBytes` is lenient.** `parseInt` tolerates signs, spaces and trailing junk; a text it accepts is the
  hex of the bytes it yields exactly when it is bare lowercase hex of even length (`HexCanonicalIff`).
- **The margin identity leaves the sign open.** `createHonorEngine` checks the identity of the three depths but
  not that `confirmationDepth` is non-negative, and burial implies finality exactly when it is, or when no
  reorganisation is tolerated (`BurialIsFinalIff`, `MarginCoversReorgs`).
- **The rebuilt quote is not the registered one.** `quoteFromSeen` puts the acceptance time into `issuedAt`
  (`QuoteRoundTrip`).
- **The order of two reads matters.** Finality holds because the tip is read before the claim height;
  reading them the other way round would accept claims that a reorganisation removed in between
  (`ReadOrderMatters`).

## Model

| member | source | states |
|---|---|---|
| HonorSpec.QuoteRoundTrip | src/core/scorer.ts:36-47 | persisting a quote and rebuilding it keeps every field but `issuedAt`; it is the identity iff the quote was accepted when issued |
| HonorSpec.RowKeyInjective | src/core/engine.ts:77-79 | the string key "signer:quoteId" identifies the pair whenever signers hold no colon |
| Datum.DatumRoundTrip | src/spec/datum.ts:56-95 | decoding accepts exactly the 16-byte bare-hex strings under version 1, the encoder emits exactly those, and the two are inverse |
| Datum.RejectedFor | src/spec/datum.ts:56-74 | the reason of every rejection: version before alphabet before parity before length |
| Datum.NoTrailingBytes | src/spec/datum.ts:69-73 | an accepted datum with anything before or after it is no longer accepted, so one output names one quote |
| Gate.HonorTxnByRule | src/adapters/sqlite-store.ts:243-338 | which violation, throw or commit a transaction ends in, from the rows as they stand; a commit honors the row, takes the outpoint and adds the callback's writes to the goods, anything else changes nothing |
| Gate.FailuresLeaveNoTrace | src/adapters/sqlite-store.ts:243-338 | any run of honor transactions ends in the same database as the run of its successful ones alone, each of which still succeeds |
| Gate.RetryAfterFailures | src/adapters/sqlite-store.ts:294-309 | any number of failing attempts followed by one more equals that one alone; a failed promote leaves its claim_pending row |
| SqliteStores.SqliteStore.constructor | src/adapters/sqlite-store.ts:102-115 | a new store shows the rows its connection already holds |
| SqliteStores.SqliteStore.UpsertAccepted | src/adapters/sqlite-store.ts:182-198 | inserts an unobserved, unhonored row for a new key and leaves everything else, including an existing row, untouched |
| SqliteStores.SqliteStore.GetSeen | src/adapters/sqlite-store.ts:200-203 | returns the key's row exactly when there is one |
| ExactlyOnce.ConsumedIffDelivered | src/adapters/sqlite-store.ts:214-216 | while nothing is swept, `isOutpointConsumed` holds of exactly the outpoints goods were delivered for, not of reserved ones |
| GateBijection.ConsumedIffHonored | src/adapters/sqlite-store.ts:214-216 | in every reachable state, sweeps included, it holds exactly when some key stands honored from that outpoint, and then of one key only |
| SqliteStores.SqliteStore.MarkObservedBeforeExpiry | src/adapters/sqlite-store.ts:210-212 | raises the flag of an existing row exactly when the time is before its expiry, and nothing else |
| SqliteStores.SqliteStore.ReserveClaimOutpoint | src/adapters/sqlite-store.ts:218-236 | reserves a free outpoint for ever; an outpoint already known keeps its row |
| SqliteStores.SqliteStore.LockSeen | src/adapters/sqlite-store.ts:150-161 | one row changes exactly when it is unhonored, inside retention and inside life or observed in time; otherwise none |
| SqliteStores.SqliteStore.InsertConsumed | src/adapters/sqlite-store.ts:274-293 | inserts an honored row exactly when the outpoint has no row of any state |
| SqliteStores.SqliteStore.PromoteConsumed | src/adapters/sqlite-store.ts:169-173 | changes a row exactly when it is claim_pending, keeping its key and claim id |
| SqliteStores.SqliteStore.RunDeliver | src/adapters/sqlite-store.ts:311-319 | the callback's writes are added to the goods on the same connection |
| SqliteStores.SqliteStore.TxnBody | src/adapters/sqlite-store.ts:244-332 | the result is the gate's for the state at BEGIN, and on a commit so is the state, goods written included; on a throw partial writes may remain |
| SqliteStores.SqliteStore.RunHonorTxn | src/adapters/sqlite-store.ts:243-338 | in-place statements plus rollback have the all-or-nothing effect of the gate function, on rows and violation kind; a commit adds exactly the callback's writes to the goods, anything else leaves the store as it was |
| SqliteStores.SqliteStore.Sweep | src/adapters/sqlite-store.ts:340-347 | removes exactly the rows of both tables whose retention lies before `now`, and counts them |
| FakeStores.FakeSyncStore.UpsertAccepted | src/core/fakes.test-helpers.ts:118-139 | same effect as the SQL insert |
| FakeStores.FakeSyncStore.MarkObservedBeforeExpiry | src/core/fakes.test-helpers.ts:152-157 | same effect as the SQL update |
| FakeStores.FakeSyncStore.ReserveClaimOutpoint | src/core/fakes.test-helpers.ts:164-184 | same effect as the SQL reservation, without a claim id |
| FakeStores.FakeSyncStore.RunHonorTxn | src/core/fakes.test-helpers.ts:191-290 | staged copies published at commit have the effect of the gate function, with exactly the staged goods on a commit and no change otherwise; the delivery counter counts every callback but an asynchronous one |
| FakeStores.FakeSyncStore.Sweep | src/core/fakes.test-helpers.ts:292-308 | the row-by-row deletion loops remove and count exactly the expired rows |
| FakeStores.FakeSyncStore.SweepSeen | src/core/fakes.test-helpers.ts:295-300 | the loop over SEEN, with its counter |
| FakeStores.FakeSyncStore.SweepOutpoints | src/core/fakes.test-helpers.ts:301-306 | the loop over CONSUMED, with its counter |
| FakeStores.StoresAgree | src/core/fakes.test-helpers.ts:191-308 | over any sequence of store operations the two stores answer alike (violations, sweep counts) and hold the same rows and goods up to claim_tx_id |
| Engine.HonoredIffDelivered | src/core/engine.ts:226-267 | only a gate step at the gate adds to the log, exactly one entry with the captured time and candidate; the caller hears honored iff it did; a gate step that delivers nothing changes no table |
| Engine.RegisterByRule | src/core/engine.ts:83-108 | a standing row is left exactly as it is, flag included; a new key gets a row with the quote's facts, unobserved, unhonored, kept until expiry plus window |
| Engine.LoadByRule | src/core/scorer.ts:80-88 | at the read a missing row ends the call as expired_unobserved, an honored one as already_honored, any other is captured |
| Engine.ScoreByRule | src/core/engine.ts:163-167 | an honor verdict goes on with row and candidate, any other ends the call as it is |
| Engine.PrepareByRule | src/core/engine.ts:169-196 | ready keeps row and candidate, a claim is shown for its key and answered htlc_claim_pending, a wait keeps its reason |
| Engine.RestartByRule | src/core/engine.ts:69-71 | a restart forgets calls in flight and submitted claims, and nothing stored |
| Engine.GateAnswers | src/core/engine.ts:226-267 | what the caller hears of each end of the transaction; a consumer's error is thrown on iff asked for, else delivery_failed |
| Engine.HonorEngine.BeginRegister | src/core/engine.ts:87-92 | an existing row answers at once with its own retention |
| Engine.HonorEngine.ResumeRegister | src/core/engine.ts:94-107 | after the await: refused exactly by a failing pre-screen, with no effect; otherwise the register step, `created` even when another call inserted the row meanwhile |
| Engine.HonorEngine.BeginObserve | src/core/engine.ts:112-117 | over at the read unless there is a flag to raise; what it then answers is the truth and the observe step would change nothing |
| Engine.HonorEngine.ResumeObserve | src/core/engine.ts:117-128 | after the await: the observe step on the row as it is now; the flag answered holds of the row unless it has gone or changed its expiry |
| Engine.HonorEngine.BeginHonor | src/core/engine.ts:148-153 | a call enters with the clock read once |
| Engine.HonorEngine.LoadSeen | src/core/engine.ts:155-161 | the call ends on a missing or honored row and otherwise captures the row |
| Engine.HonorEngine.ResumeScored | src/core/engine.ts:163-167 | only an honor verdict goes on, with its candidate |
| Engine.HonorEngine.ResumePrepared | src/core/engine.ts:169-192 | ready goes to the gate; a submitted claim is recorded and ends the call as htlc_claim_pending; a wait ends it |
| Engine.HonorEngine.CommitHonor | src/core/engine.ts:202-267 | the gate step with the captured values, answered with the outcome the caller gets; honored iff the log grew |
| Engine.HonorEngine.ReadStatus | src/core/engine.ts:271-285 | reports honored before claim_submitted before accepted, from row and claim map |
| Engine.HonorEngine.Sweep | src/core/engine.ts:289-291 | the sweep step, with the number of rows that left each table |
| ExactlyOnce.LockedStep | src/adapters/sqlite-store.ts:150-173 | every step but a sweep keeps both locks of every delivery |
| ExactlyOnce.ExactlyOnceUnswept | src/core/engine.ts:148-267 | any number of concurrent calls with arbitrary stale times, verdicts and candidates, restarts included, no sweep: no key delivered twice, no outpoint pays twice |
| ExactlyOnce.LoserIsTurnedAway | src/core/engine.ts:253-262 | a call reaching the gate after its key was delivered ends as already_honored and changes nothing else |
| ExactlyOnce.TakenOutpointIsTurnedAway | src/core/engine.ts:253-262 | a call reaching the gate with a delivered outpoint changes nothing either, and ends as outpoint_consumed exactly when its own row could still be locked |
| ExactlyOnce.GoodsAreDelivered | src/adapters/sqlite-store.ts:311-332 | over any run the goods handed out are exactly what the callbacks of the delivered transactions wrote |
| ExactlyOnce.HonorLockStands | src/adapters/sqlite-store.ts:174-177 | an honored row only disappears by a sweep past its retention |
| ExactlyOnce.DeliveryIsFresh | src/adapters/sqlite-store.ts:243-338 | under H1-H3 what is delivered is a live, unhonored, unexpired key from its own outpoint |
| ExactlyOnce.ExactlyOnceSwept | src/core/engine.ts:83-108 | H1-H3, with sweeps and re-registration: no key delivered twice, no outpoint pays twice, in any run |
| SweepInvisible.SweepsAreInvisible | src/adapters/sqlite-store.ts:340-347 | H1-H3: a run delivers exactly what the same run delivers with every sweep removed, in order, by a simulation that differs only on expired keys |
| SweepInvisible.ExpiredNeverCommits | src/adapters/sqlite-store.ts:150-161 | a transaction for a key past its retention never commits, swept or not |
| StaleHonor.StaleHonorPaysTwice | src/core/engine.ts:153-233 | without H1: a call that has read clock and row together, and then spans a delivery, a sweep and a re-registration, delivers a second time exactly when its time is still inside life and retention |
| StaleHonor.StaleReadSeesTheSweep | src/core/engine.ts:153-161 | without H1 on calls that end at the read (a caller-supplied `opts.now`), a sweep is observable |
| GateBijection.GateIsBijective | src/adapters/sqlite-store.ts:244-309 | H2: honoredOutpoint is a bijection between honored SEEN rows and honored CONSUMED rows, with equal honoredAt and retainUntil, in every reachable state |
| GateBijection.SweepKeepsPairs | src/adapters/sqlite-store.ts:340-347 | a sweep removes both halves of an honor or neither |
| LateHonor.DeliveriesAreTruthful | src/adapters/sqlite-store.ts:134-161 | H2: every delivery was committed before retention ended, and one at or after expiry follows an observation of that key before expiry, of the very row honored |
| LateHonor.FlagMeansObserved | src/adapters/sqlite-store.ts:134-137 | a row's flag implies a timely observation since the row was inserted |
| LateHonor.FlagIffObserved | src/adapters/sqlite-store.ts:134-137 | H2: a standing row's flag is raised iff the key was observed before expiry since the row was inserted |
| LateHonor.DeliveredIffInTime | src/adapters/sqlite-store.ts:150-173 | H2: in any run a call at the gate whose callback returns is delivered iff its row stands unhonored, its time is inside retention and before expiry or observed in time, and its outpoint is open; otherwise the answer names what failed |
| Conservation.DeliveredIsPaid | src/adapters/sqlite-store.ts:274-309 | H1-H3: at every reachable state the quoted amounts delivered sum to the on-chain value of the distinct outpoints consumed |
| Chains.BurialIsFinalIff | src/forms/htlc.ts:249-260 | tip read in one chain state, claim height in the same or a later one, buried by CLAIM_MARGIN: of all configurations the constructor accepts, the claim is mined that deep in every later state under exactly those with a non-negative confirmationDepth or no tolerated reorganisation |
| Chains.FinalIffDeep | src/core/engine.ts:329-335 | a mined transaction survives every tolerated reorganisation iff it is deeper than the deepest one |
| Chains.MarginCoversReorgs | src/core/engine.ts:334-342 | the same exact condition for a claim seen buried in one chain state |
| Chains.ReadOrderMatters | src/forms/htlc.ts:249-260 | with the two reads swapped, a claim no deeper than the tolerated reorganisation can look buried and be gone |
| Htlc.HtlcHonorsExactly | src/forms/htlc.ts:102-175 | an HTLC is honored iff the first candidate's lock exists, pays this payee exactly the amount, from this payer where one is named, for a well-formed quote id |
| Htlc.HtlcScoreByRule | src/forms/htlc.ts:102-175 | every answer of the form: a wait, never a decline, without candidate or lock; otherwise declined with the first rule the lock breaks |
| Htlc.HtlcRunIsEngineRun | src/forms/htlc.ts:181-260 | every run of the protocol is a run of the engine's own events, so the engine theorems hold of it |
| Htlc.HtlcForm.constructor | src/forms/htlc.ts:71-84 | a new process knows no claim |
| Htlc.HtlcForm.Prepare | src/forms/htlc.ts:181-192 | the entry step: this process's own claim record decides the phase |
| Htlc.HtlcForm.Return | src/core/engine.ts:184-196 | the suspended activation is gone and the engine resumes with the result |
| Htlc.HtlcForm.ResumeHtlc | src/forms/htlc.ts:205-213 | the step that leaves or goes on, on whether the lock exists and the claim can bury before the timeout |
| Htlc.HtlcForm.ResumePreimage | src/forms/htlc.ts:215-227 | the step after the preimage lookup |
| Htlc.HtlcForm.ResumeSubmitted | src/forms/htlc.ts:228-228 | the step after the claim was submitted |
| Htlc.HtlcForm.RunReserve | src/forms/htlc.ts:232-240 | the reservation takes effect in the store before anything is recorded |
| Htlc.HtlcForm.RecordClaim | src/forms/htlc.ts:241-241 | the record step: claim and lock of this key, visible to phase B from then on |
| Htlc.HtlcForm.ReturnSubmitted | src/forms/htlc.ts:242-242 | the engine is told of the claim |
| Htlc.HtlcForm.ResumeClaim | src/forms/htlc.ts:249-260 | phase B's step on the re-read claim height |
| Htlc.HtlcForm.RunGate | src/core/engine.ts:226-267 | the gate step of the protocol; a promoting delivery is marked |
| HtlcEarned.HtlcDeliveriesAreEarned | src/forms/htlc.ts:181-260 | each promoting delivery in the log follows a phase A of that key for that same lock, with the preimage in hand and in time to claim, and a later phase B that found that same claim buried |
| HtlcEarned.HtlcDeliversOnce | src/forms/htlc.ts:181-260 | in a run of the protocol no key is delivered twice and no outpoint pays twice, without sweeps or, under H1-H3, with them |
| HtlcEarned.PromotesItsLock | src/adapters/sqlite-store.ts:294-309 | the outpoint promoted is the lock recorded at phase A, though phase B never compares them |
| HtlcEarned.InvHolds | src/forms/htlc.ts:198-260 | reservations, claim records, suspended phases and history fit together at every point of every run |
| HtlcProgress.EntryNext | src/forms/htlc.ts:181-192 | phase A or B by the claim on record, on the tip read |
| HtlcProgress.LockNext | src/forms/htlc.ts:205-213 | no lock waits no_candidate, too late waits reorg_withheld, otherwise on to the preimage |
| HtlcProgress.PreimageNext | src/forms/htlc.ts:215-228 | with the preimage on to the submission with the same tip and timeout, without it no_candidate |
| HtlcProgress.ClaimNext | src/forms/htlc.ts:228-242 | submitted, reserved unless the outpoint has a row, recorded, and answered htlc_claim_pending, each step with all it leaves unchanged |
| HtlcProgress.BurialNext | src/forms/htlc.ts:249-260 | unmined or shallow waits reorg_withheld, CLAIM_MARGIN deep opens the gate |
| HtlcProgress.HtlcQuoteDelivers | src/forms/htlc.ts:181-260 | from any state, a live HTLC quote with a free outpoint, no claim yet, time to claim and a claim that buries is delivered from its lock by two calls |
| HtlcProgress.HtlcRunDelivers | src/core/engine.ts:148-267 | so every HTLC quote has a run from its registration that ends with its goods |
| HtlcBookkeeping.ClaimMapsAgree | src/core/engine.ts:186-192 | at every quiescent point the engine's claim map equals the form's |
| HtlcBookkeeping.RecordedLocksAreHeld | src/forms/htlc.ts:228-242 | without sweeps, each recorded lock is claim_pending or the honored outpoint of that same key |
| HtlcBookkeeping.ReservationIsFresh | src/forms/htlc.ts:232-240 | phase A always reserves an outpoint that had no row |
| HtlcBookkeeping.StatusByRule | src/core/engine.ts:271-285 | honored with the row's time and outpoint before claim_submitted with the engine's claim before accepted |
| HtlcBookkeeping.StatusTellsDelivery | src/core/engine.ts:271-285 | while nothing is swept, honored at a time from an outpoint is reported iff the key was delivered so |
| HtlcBookkeeping.StatusOnlyAdvances | src/core/engine.ts:271-285 | status only moves accepted, claim_submitted, honored, and honored never changes, between any two points of an unswept run of one process |
| HtlcFinality.DeliveredClaimsAreFinal | src/forms/htlc.ts:249-260 | over any chain history the claim behind the outpoint of an HTLC delivery is mined, CLAIM_MARGIN deep, in every state from then on |
| Plain.Score | src/forms/plain.ts:44-83 | the loop with its two locals computes the recursive score, faults included |
| Plain.PlainScoreMeans | src/forms/plain.ts:44-83 | the earliest acceptance or fault decides; failing both the last verdict that was not a skip; failing that no_candidate |
| PlainTheorems.ScanMeans | src/forms/spine.ts:161-171 | the prevout scan passes iff some prevout is scripted to the payer and no earlier lookup threw |
| PlainTheorems.PayerCheckMeans | src/forms/spine.ts:147-172 | payer binding passes iff there is no payer, consent suffices or a payer-keyed prevout funds the payment |
| PlainTheorems.AcceptedIffPasses | src/forms/spine.ts:58-132 | a candidate is accepted iff it meets every rule (id, exact amount, script, custody, payer, depth), and its facts are carried on |
| PlainTheorems.BrokenIffCustodyUnavailable | src/forms/spine.ts:101-109 | when the chain answers, a candidate faults iff custody is unavailable and it got that far; never a decline |
| PlainTheorems.BrokenIffQueryFails | src/forms/spine.ts:58-172 | over any answers: a candidate faults with f iff the first query it needs that fails, fails with f, in the order datum, custody, prevouts, scripts |
| PlainTheorems.JudgedByRule | src/forms/spine.ts:58-132 | over any answers: accepted, skipped, waiting, declined for a reason or faulting exactly as the rules and the failing queries say; a failing query is never a skip, wait or decline |
| PlainTheorems.ScoredByRule | src/forms/plain.ts:44-83 | over any answers: the first candidate that passes or has a query fail decides the list, else the last own candidate, else no_candidate |
| PlainTheorems.PlainSoundAndComplete | src/forms/plain.ts:44-99 | score honors iff some candidate meets every rule, and returns the earliest such; it faults iff custody is unavailable and some candidate reaches it |
| PlainTheorems.OrderFreeIff | src/forms/plain.ts:54-72 | honor, fault or neither is the same for every permutation iff the list does not hold both an acceptable and a faulting candidate |
| PlainTheorems.OrderFreeWhenAnswered | src/forms/plain.ts:54-72 | when the chain answers, order never matters |
| PlainTheorems.RefusedByRule | src/forms/spine.ts:58-132 | with chain and custody answering, a candidate is skipped, waited for or declined for a reason exactly as the rules say, the first broken rule giving the reason |
| PlainTheorems.RefusedList | src/forms/plain.ts:49-76 | when nothing passes, the last candidate not carrying another quote id decides alone: a wait for depth iff it is shallow, a decline iff it breaks a rule, with that rule's reason |
| PlainTheorems.ForeignList | src/forms/plain.ts:77-82 | only other quotes' candidates: no_candidate |
| PlainTheorems.ShallowDeclinedIff | src/forms/plain.ts:60-71 | a list that holds a payment lacking only depth is declined exactly when its last own candidate is not shallow |
| PlainTheorems.ShallowCanBeDeclined | src/forms/plain.ts:60-71 | for one, when a wrong-amount sibling follows it; in the other order the list waits |
| LittleEndian.U16IsLittleEndian | src/adapters/indexer-chain.ts:331-337 | the shift-or expression is the little-endian value of the two bytes, below 2^16 |
| LittleEndian.U32IsLittleEndian | src/adapters/indexer-chain.ts:339-350 | with signed 32-bit shifts and `>>> 0`, exactly the little-endian value, below 2^32 |
| LittleEndian.BytesOfValue | src/adapters/indexer-chain.ts:352-361 | encoding the value of bytes gives the bytes back |
| LittleEndian.ValueOfBytes | src/adapters/indexer-chain.ts:352-361 | decoding the bytes of any value that fits gives the value back |
| LittleEndian.OrLow | src/adapters/indexer-chain.ts:355-358 | or-ing a byte below a shifted value is addition, for unbounded integers |
| TxCodec.ParseIsCanonical | src/adapters/indexer-chain.ts:391-421 | on every byte string what is parsed is a valid transaction whose serialization is exactly the bytes consumed |
| TxCodec.ParseSerialized | src/adapters/indexer-chain.ts:301-309 | a valid transaction followed by any witness bytes parses to itself and stops at the witnesses |
| TxCodec.SerializationUnique | src/adapters/indexer-chain.ts:301-309 | no byte string starts with two different transactions |
| WireDecoder.HexToBytes | src/adapters/indexer-chain.ts:424-437 | the loop fills exactly the bytes `parseInt` yields, or throws on odd length or NaN |
| WireDecoder.HexRoundTrip | src/adapters/indexer-chain.ts:364-372 | lowercase hex of any bytes decodes to those bytes |
| WireDecoder.HexCanonicalIff | src/adapters/indexer-chain.ts:424-437 | an accepted text is the hex of its bytes iff it is bare lowercase hex of even length |
| WireDecoder.LenientExamples | src/adapters/indexer-chain.ts:430-433 | "-1", "5g" and " 7" are accepted |
| WireDecoder.ParseInt16IsParseInt | src/adapters/indexer-chain.ts:430-430 | the two-character table is `Number.parseInt(s, 16)`: white space, sign, 0x, longest digit prefix, NaN without digits |
| WireDecoder.ByteReader.U8 | src/adapters/indexer-chain.ts:326-329 | one byte or a throw; in bounds, forward |
| WireDecoder.ByteReader.U16le | src/adapters/indexer-chain.ts:331-337 | reads the number the parser reads there, or throws; in bounds, never back |
| WireDecoder.ByteReader.U32le | src/adapters/indexer-chain.ts:339-350 | the same for four bytes |
| WireDecoder.ByteReader.U64le | src/adapters/indexer-chain.ts:352-361 | the descending loop reads the number the parser reads, below 2^64 |
| WireDecoder.ByteReader.ReadHex | src/adapters/indexer-chain.ts:364-372 | the next n bytes in lowercase hex, iff there are that many |
| WireDecoder.ByteReader.SkipVarBytes | src/adapters/indexer-chain.ts:375-379 | skips exactly the field the parser reads |
| WireDecoder.ByteReader.VarBytesHex | src/adapters/indexer-chain.ts:382-385 | reads exactly the field the parser reads |
| WireDecoder.ReadInput | src/adapters/indexer-chain.ts:397-400 | one prevout, iff the parser accepts one there |
| WireDecoder.ReadOutput | src/adapters/indexer-chain.ts:405-417 | one output with its datum and datum hash skipped, iff the parser accepts one there; flags other than 0 and 1 throw |
| WireDecoder.DecodeTxHex | src/adapters/indexer-chain.ts:391-421 | succeeds exactly when the canonical parser does, with the projection of its transaction |
| WireDecoder.DecodeRoundTrip | src/adapters/indexer-chain.ts:391-421 | every transaction within u16 counts and lengths, with any datum, hash and witnesses, decodes from its hex to its prevouts and outputs |
| WireDecoder.DecodeCanonical | src/adapters/indexer-chain.ts:391-421 | bytes decode to d iff a prefix of them serializes a valid transaction that projects to d |
| ChainSource.FindSettlementsByQuoteId | src/adapters/indexer-chain.ts:178-209 | the candidates of the reported outpoints, or the fault of the first that throws, is missing or does not decode |
| ChainSource.CandidatesExact | src/adapters/indexer-chain.ts:183-208 | those candidates are one per outpoint, in order |
| ChainSource.ListingFaults | src/adapters/indexer-chain.ts:178-208 | a listing that throws, or whose first unreadable outpoint throws, faults the scoring with just that fault |
| ChainSource.DatumByRule | src/adapters/indexer-chain.ts:160-170 | honorable iff not flagged and a quote id is named; the indexer's fault is passed on |
| ChainSource.OutputByRule | src/adapters/indexer-chain.ts:188-206 | the decoded value, script and height; the node's fault passed on, a plain error for unknown, undecodable or missing |
| ChainSource.InputsByRule | src/adapters/indexer-chain.ts:220-229 | the decoded prevouts, none for an unknown transaction, the node's fault passed on |
| ChainSource.GetTxInputs | src/adapters/indexer-chain.ts:220-229 | the decoded prevouts; none for an unknown transaction; the RPC's own fault if it throws |
| ChainSource.GetOutputScript | src/adapters/indexer-chain.ts:232-244 | the decoded script, or a throw for an unknown transaction, a missing output or an RPC that throws |
| ChainSource.ServedCandidates | src/adapters/indexer-chain.ts:178-209 | from a node serving serialized transactions, the candidates are the listed outputs as they stand on the ledger, or a throw if one does not |
| ChainSource.ServedFacts | src/adapters/indexer-chain.ts:160-244 | likewise every datum, prevout list and script the spine can ask for, unknown ones included |
| ChainSource.PassesIffSettles | src/forms/spine.ts:58-172 | a listed output meets every rule of the spine iff it settles the quote on the abstract ledger |
| ChainSource.BytesToVerdict | src/adapters/indexer-chain.ts:178-244 | scoring out of serialized transactions equals scoring on the abstract ledger: verdict, reason, candidate and fault, for every listing and configuration, prevouts known or not |
| ChainSource.BytesHonorIffSettled | src/adapters/indexer-chain.ts:178-244 | that verdict honors iff custody is certain and some listed output settles, naming the earliest, and faults iff custody is unavailable and some listed output pays the quote |
| OnPaid.OnPaidIsSafe | src/service/honor-service.ts:202-324 | over all schedules: at most one tick in flight, timer live iff started and unsettled, honored means exactly one delivery (the one answered), declined or rejected none, cancelled at most one |
| OnPaid.DoneSettlesOnce | src/service/honor-service.ts:232-244 | a settled `done` never changes, whatever happens next |
| OnPaid.SettlesOnlyFor | src/service/honor-service.ts:232-293 | over all schedules: cancelled only by a cancel, honored or declined only with what a call of this loop answered, rejected only with a fault that came back and is none of the four retryable ones |
| OnPaid.TickAnswers | src/service/honor-service.ts:264-293 | honor, decline and terminal fault settle with just that; a wait, a failed delivery or a retryable fault leaves `done` pending and the timer live |
| OnPaid.TickProceeds | src/service/honor-service.ts:252-262 | a tick observes its key at its own start and enters honor for that key when the observation is back |
| OnPaid.ObserveAnswers | src/service/honor-service.ts:282-293 | the same for a fault of the observation |
| OnPaid.RegisterAnswers | src/service/honor-service.ts:299-317 | a terminal fault rejects, a settled loop starts nothing, otherwise timer and first tick |
| OnPaid.IntervalAnswers | src/service/honor-service.ts:248-250 | an interval starts a tick iff none is in flight |
| LoopProgress.PendingMayHonorIff | src/service/honor-service.ts:202-324 | a pending loop can still come to answer honored iff the call it awaits has not ended with a decline or a terminal fault |
| OnPaid.LoopIsEngineRun | src/service/honor-service.ts:248-294 | every run of the loop is one of the engine's interleavings, so the engine theorems apply to it |
| OnPaid.HonoredLoopOwnsTheDelivery | src/service/honor-service.ts:264-267 | without sweeps, or under H1-H3 with them, the delivery behind an honored answer is the only one of its key in the whole system |
| OnPaid.LoopTicksAreSerial | src/service/honor-service.ts:246-250 | with the loop as only caller of its key, no two honor calls of that key are in flight together |
| LoopCancel.SettledIsQuietIff | src/service/honor-service.ts:248-294 | once settled, no continuation delivers anything more through the loop iff no tick is suspended before its honor call or waits for one that has not ended |
| LoopCancel.CancelledLoopDelivers | src/service/honor-service.ts:248-262 | for every plain quote, a run that answers cancelled and then delivers |
| LoopCancel.LostRegistrationExpires | src/service/honor-service.ts:299-317 | the failing run: after any retryable registration fault the first undisturbed tick declines with expired_unobserved |
| OnPaid.LostRegistrationNeverHonors | src/service/honor-service.ts:299-317 | a loop whose key nobody registers never delivers and resolves only as cancelled or expired_unobserved |
| OnPaid.MissingRowEndsTheLoop | src/service/honor-service.ts:275-280 | an honor call that goes from its read straight to its answer ends the loop as expired_unobserved iff the row is missing |
| OnPaid.PaidLoop.constructor | src/service/honor-service.ts:207-223 | a loop starts registering, without timer, unsettled |
| OnPaid.PaidLoop.Finish | src/service/honor-service.ts:232-237 | settles and stops the timer once; later calls do nothing |
| OnPaid.PaidLoop.FailWith | src/service/honor-service.ts:239-244 | the same for a rejection |
| OnPaid.PaidLoop.Cancel | src/service/honor-service.ts:322-322 | the cancel step |
| OnPaid.PaidLoop.BeginTick | src/service/honor-service.ts:248-252 | does nothing when settled or ticking, else raises the guard and suspends at the observation |
| OnPaid.PaidLoop.OnInterval | src/service/honor-service.ts:312-314 | the interval step |
| OnPaid.PaidLoop.ResumeRegistered | src/service/honor-service.ts:299-317 | terminal fault rejects; cancelled meanwhile starts nothing; otherwise timer and first tick |
| OnPaid.PaidLoop.ReadObserve | src/service/honor-service.ts:252-258 | the observation is over at its read when there is no flag to raise |
| OnPaid.PaidLoop.WriteObserve | src/service/honor-service.ts:252-258 | the observation of this tick takes effect in the engine |
| OnPaid.PaidLoop.ResumeObserved | src/service/honor-service.ts:260-262 | a new honor call of this key enters the engine |
| OnPaid.PaidLoop.ObserveFaulted | src/service/honor-service.ts:282-293 | a retryable fault only ends the tick, any other rejects |
| OnPaid.PaidLoop.ResumeHonored | src/service/honor-service.ts:264-293 | each outcome of honor settles, rejects or leaves the loop as the step says (a rethrown delivery error by its own code), and the guard is lowered |
| OnPaid.PaidLoop.RunGate | src/service/honor-service.ts:260-262 | the gate transaction of a call, credited to the loop that started it |
| Settlement.MovingIsScore | src/forms/plain.ts:54-72 | the loop over a moving world is the plain form's loop when the world stands still |
| Settlement.HonoredCandidate | src/forms/plain.ts:64-68 | while the world moves, an honor verdict names a listed candidate that met every rule when it was judged, with its own value |
| Settlement.VerdictPays | src/core/scorer.ts:55-72 | an honor verdict of either form, each answer true of its own chain state, proves an existing output with that quote id and exact amount, which pays the payee's script or locks for the payee |
| Settlement.GroundedIsAllowed | src/forms/spine.ts:80-92 | verdicts of the two forms over an honest moving chain meet H3 and the exact-amount hypothesis |
| Settlement.GoodsOnlyForPayment | src/core/engine.ts:148-267 | end to end, H1: every delivery is of an existing output carrying that quote id and exactly the amount for the payee, once per key and per outpoint, and the totals agree |

## Left out

- PostgresStore: same gate steps, but its concurrency rests on the database's SERIALIZABLE isolation and
  async deliver failures take another path through the engine; only the synchronous store is modelled.
- SQL text, prepared statements, column encodings and file reopening: the tables are maps, and the
  transaction is atomic (H4).
- String keys and hex case: maps are keyed by pairs (see RowKeyInjective); free-text `detail` fields are dropped.
- HTTP transport, retries, and the message sniffing of WalletdVerifier and KeystoreKeyCustody: I/O. What RPCs
  answer or throw is a parameter.
- The reference address deriver: an uninterpreted function from public key to script.
- Signatures, hash locks, preimage validity and proof of work: preimage lookup and claim submission are
  nondeterministic events.
- `getHtlc` (record mapping) and `normaliseHtlcState`: what an HTLC lookup returns is a parameter.
- HtlcEarned.HtlcDeliveriesAreEarned: one process, calls of a key serial, reserver present, and no fault between a
  reservation and its claim record; a crash there leaves a reservation no record points to.
- HtlcBookkeeping.RecordedLocksAreHeld: without sweeps, since a swept lock has no row to agree with.
- Settlement.GoodsOnlyForPayment: for HTLC the link from the output's script to the terms it locks is the
  indexer's word (`lockOf`), as is which quote a lock belongs to.
- Settlement.VerdictPays: the same prevout looked up twice for one candidate is answered alike.
- Asynchronous rejections of `deliver`: the bridge only catches synchronous throws, so they are not
  delivery_failed; a thenable is the infra error of the store's guard. All non-retryable errors of that
  kind share the fault ContractViolation.
- The F8 type tests, the F12 handle check and the API version check: no run-time state to reason about.
- `canHonor`, `listHonorable`, the form registry, error classes, price feed and version constants: only easy members.
- Conformance harness, examples, faucet and loop daemons, scripts and deploy files: drivers and finite tests.
- Liveness: nothing is said about when a tick fires or a claim is mined.
