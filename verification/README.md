# Porulle: proofs about its hard core

Porulle is a commerce platform. This project models the parts of it where correctness hangs on interleavings, on
arithmetic, or on a translation that must keep its meaning, and proves what those parts promise.

| part | source | files |
|---|---|---|
| the per-key job lock | `packages/jobs-cloudflare/src/coordinator.ts` | `KeyLock`, `JobCoordinator`, `LockProtocol`, `LockLine`, `TurnWait` |
| the input hash behind coalescing | `packages/jobs-cloudflare/src/index.ts` | `CanonicalJson`, `InputHash`, `HashCollisions` |
| the offline queue | `packages/sdk/src/offline-queue.ts` | `QueueModel`, `OfflineQueue`, `QueueDrain`, `QueueOutcome`, `QueueRuns`, `QueueGuarantees` |
| pushing an order to WooCommerce | `packages/adapters/adapter-woocommerce/src/orders.ts` | `OrderPushProtocol`, `OrderPushSafety`, `OrderPushLimits`, `OrderPushCheck`, `OrderPushSuccess`, `OrderTotals` |
| pushing a catalogue to WooCommerce | `packages/adapters/adapter-woocommerce/src/catalog-push.ts` | `CatalogFields`, `CatalogImages`, `CatalogPlan`, `CatalogMeaning`, `CatalogPush`, `CatalogAnswers` |
| the PostgreSQL search adapter | `packages/adapters/adapter-pg-search/src/index.ts` | `PlaceholderSplit`, `SearchFilters`, `SearchStatements`, `SearchReading`, `SearchFacets` |
| a Shopify return | `packages/adapters/adapter-shopify/src/index.ts` | `Returns` |

`Sequences` (with `Wrappers`), `JsText`, `Numbers` and `Runs` hold what several parts share: filtering and order of
sequences, `trim` and decimal numerals, powers of two, and finite runs of a step function. `dafny verify dfyconfig.toml` verifies everything.

## How the parts are modelled

**The job lock.** `KeyLock` gives each storage-only phase as a function of the stored record; the class
`JobCoordinatorLogic` implements them over its storage and every method is proved to store and answer exactly that.
`LockProtocol` then runs any number of instances over one key. Every RPC is a message at the point it has reached: a
gated read, an ungated status check, a gated commit, an ungated turn event. All of them interleave, and a message that
was sent may be handled late, again, or never, which covers retried steps and lost answers. Releases hand the key on as
the Durable Object does, by releasing again on behalf of a successor that could not be woken.

The environment is a parameter: `blamed` is the set of phases in which an instance may be reported stale, or not woken.
The code treats every failed status call and every failed event as proof of death
(`coordinator.ts:296-304`, `355-360`), so the parameter is where its assumption lives, and `ExclusionIff` says exactly
which assumption it needs: the handler must be over. Three phases are not enough to be over: waiting, holding, and not
yet created. The last one is worth knowing, because an instance is registered before it is created, a hand-over can
reach it in between, and its status call fails.

**The input hash.** JSON values, texts as UTF-16 code units, escaping as in section 7 of RFC 8259 with lone surrogates
escaped. Numerals are opaque texts that cannot be mistaken for anything else. The hash loop is modelled with explicit
32-bit wrapping.

**The offline queue.** Operations are objects updated in place, as in the source, and the class refines a queue of
plain values: each method is one stretch between two awaits. `QueueRuns` interleaves them with enqueue, drop, retry and
the timer at every await, with a server that may apply a request and lose its answer, and with new sessions: a restart
loads what is stored, perhaps in an older state of its operations, while requests of the old session are still in
flight. Storage is synchronous; ids are distinct. `QueueOutcome` follows one flush to its end under arbitrary answers.

**Order pushes.** A shop with stock pools (variations may share their parent's stock), store orders carrying the
platform's key, and any number of pushes interleaved request by request, each order retried one attempt after another.
`Faults` says what may go wrong: create answers lost, attempts that end midway without an answer, re-reads failing,
cancels failing, final errors retried. Creating
draws stock, cancelling restocks, a created order is visible to the next lookup, and nobody else changes stock. Finding
an order wrong, cancelling it and answering the error are steps of their own, so an attempt can end between them.
`OrderPushSuccess` is the other direction: when a push does succeed, alone and among others.
`Allocate` and the sent totals are separate: money is in integer minor units, with products below 2^53 so that
JavaScript numbers are exact.

**Catalogue pushes.** The fold over fields is a class with the collections the source fills in place, proved against a
one-line reading: the first English field wins a key, else the first field. `CatalogMeaning` says where every field goes
from its intent and its key alone. The image merge and the batching are methods
with the source's loops, proved against independent definitions of what ends up where. Store answers are parameters.

**Search.** `BuildWhere` produces clauses with numbered placeholders and the values behind them. Clauses have a meaning
over rows. Statements are spelt as the adapter spells them, character by character, and `ToDatabaseQuery` splits the
text again at its placeholders. `SearchReading` reads the SQL back, word by word and without knowing how it was put
together, and says which rows it chooses. The chunks are proved to be the statement with every value in its place exactly when
there is no text to look for or nothing in the configured dictionary's name reads as a placeholder. The table name is
an identifier, as the adapter is not built with any other.

**Returns.** The loop over wanted lines and fulfilment lines as it stands, with the fulfilment lines' ids distinct.

## What the proofs found

- Two handlers under one key can overlap when an instance is reported stale, or not woken, before its handler is over:
  `ExclusionIff`, with runs from the empty record in `BlameBreaksExclusion`.
- A record is spoilt exactly by registering an empty id, or the holder's own id: `CommitEnqueueKeepsWellFormedIff`,
  `StepKeepsWellFormedIff`.
- Grants follow arrival except that whoever asks for an available key takes it: `OvertakesIff` says exactly which steps
  pass over the line, and `FreeKeyIsNotFifo` reaches one from the empty record.
- Equal hashes are all that coalescing asks for: `CoalescesIff`. Under every key there are two different values for which
  the inputs hash alike (`EveryKeyHasACollision`), and then the second input is dropped in favour of the first
  (`DifferentInputsCoalesce`).
- Operations under one key leave the queue together with the first that is delivered, bodies not sent yet included:
  `DeliveryTakesOnlyItselfIff`.
- A dropped operation can still be sent, exactly while a running flush has it ahead in its snapshot:
  `SentAfterLeavingIff`, with a run in `DroppedCanStillBeSent`. Without a server that replays repeated keys an
  operation can act twice: `ActsAtMostOnceIff`.
- Oversells: `NeverOversellsIff`. A lost create answer, or an attempt that ends after its create, lets the next attempt
  accept the order without the check after creation; a failed re-read counts as a pass; a failed cancel leaves an
  order that a later attempt accepts. The check before creation looks at each line as if it were the only one, so two
  lines on one stock both pass for the last unit: `CheckIsEnoughIff`.
- Pushing an order again after a final error answers Ok with a cancelled order, and so does the attempt after one that
  ended between its cancel and its answer: `OkMeansStandingIff`.
- The last line of an order takes the whole rounding remainder of a discount and can end below zero
  (`LastLineCanGoNegative`). It does not exactly when the parts the other lines keep, each rounded up, leave enough of
  the discounted order: `LastLineIff`, and `SentTotalsStayNonNegativeIff` for all lines sent.
- A discount over an order worth nothing is dropped, a negative one too: `SentTotalsConserveMoneyIff`.
- An attribute filter with an empty list pushes its name and never refers to it: the postcondition of `BuildWhere`.
- Pushing the same images twice changes nothing exactly when none is sent by address and no new id comes in twice with
  different content: `MergeIsIdempotentIff`. An image sent by address is added every time: `MergingAddressesGrows`.
- A dictionary name with a `$` and digits in it is taken for a placeholder: `SearchChunks`,
  `FilledInSaysWhatIsMeantIff`.
- A return that names one variant twice can take more from a fulfilment line than it holds: `NeverOverReturnsIff`.

## Model

| member | source | states |
|---|---|---|
| KeyLock.FirstWithHash | packages/jobs-cloudflare/src/coordinator.ts:63-69 | finds a pending id registered under the hash, or none when there is none |
| KeyLock.CommitEnqueueRegisters | packages/jobs-cloudflare/src/coordinator.ts:107-125 | a committing enqueue puts its id last, leaves the holder, and under supersede leaves only its id and reports exactly the other pending ids |
| KeyLock.TwoPhaseEnqueueIsCorrect | packages/jobs-cloudflare/src/coordinator.ts:76-105 | whatever ran in between, the second phase coalesces exactly into an id still pending under the same hash and then changes nothing; otherwise it registers its own id last |
| KeyLock.CandidateIsPendingUnderHash | packages/jobs-cloudflare/src/coordinator.ts:56-71 | a candidate is offered exactly when a superseding enqueue finds its hash among the pending; the holder never changes |
| KeyLock.ReadEnqueueIsCorrect | packages/jobs-cloudflare/src/coordinator.ts:56-71 | a first phase that commits reports exactly the other pending ids, once each and only under supersede, never the holder; its id stands last, alone under supersede |
| KeyLock.ReadAcquireIsCorrect | packages/jobs-cloudflare/src/coordinator.ts:129-140 | the first phase grants exactly a free key or the asker's own, and asks about any other holder without a change |
| KeyLock.TwoPhaseAcquireIsCorrect | packages/jobs-cloudflare/src/coordinator.ts:143-198 | whatever ran in between, "granted" means holding and no longer waiting, "pending" means waiting behind the same holder, and only the very holder found stale is replaced |
| KeyLock.CommitEnqueueKeepsWellFormedIff | packages/jobs-cloudflare/src/coordinator.ts:107-125 | a commit keeps the record well formed if and only if the id is neither empty nor the holder's |
| KeyLock.GrantKeepsWellFormed | packages/jobs-cloudflare/src/coordinator.ts:172-184 | a grant keeps the line free of duplicates, the holder out of it and every hash owned by a pending id |
| KeyLock.ParkKeepsWellFormedIff | packages/jobs-cloudflare/src/coordinator.ts:186-198 | parking a waiter keeps the record well formed if and only if it waits already or is a proper id other than the holder's |
| KeyLock.ReleaseKeepsWellFormed | packages/jobs-cloudflare/src/coordinator.ts:203-211 | a release keeps the record well formed, whoever calls it |
| KeyLock.GrantKeepsLine | packages/jobs-cloudflare/src/coordinator.ts:172-184 | a grant takes only the grantee out of the line and reorders nobody |
| KeyLock.ParkKeepsLine | packages/jobs-cloudflare/src/coordinator.ts:186-198 | parking only appends |
| KeyLock.ReleaseKeepsLine | packages/jobs-cloudflare/src/coordinator.ts:203-211 | a release takes out only the new holder and reorders nobody |
| KeyLock.CommitEnqueueKeepsLine | packages/jobs-cloudflare/src/coordinator.ts:107-125 | an enqueue without supersede keeps the order of everybody else |
| KeyLock.ReleaseIsCorrect | packages/jobs-cloudflare/src/coordinator.ts:203-211 | a release hands the key to the first waiter, who waits no more, or frees it when nobody waits; by anyone but the holder it does nothing |
| KeyLock.LoadKeepsTheRow | packages/jobs-cloudflare/src/coordinator.ts:213-221 | a row of before hashes existed keeps its holder and its line and has no hashes; any other loads as stored, a missing one as a free key |
| KeyLock.OthersKeepTheirHashes | packages/jobs-cloudflare/src/coordinator.ts:107-198 | a grant, a parking and an enqueue without supersede leave everybody else the hash they wait under |
| KeyLock.ReleaseKeepsHashes | packages/jobs-cloudflare/src/coordinator.ts:203-211 | a release leaves those who go on waiting their hashes |
| JobCoordinator.StorageKey | packages/jobs-cloudflare/src/coordinator.ts:227-229 | different keys have different rows |
| JobCoordinator.JobCoordinatorLogic.PutState | packages/jobs-cloudflare/src/coordinator.ts:223-225 | the key's row holds the state and no other key's record changes |
| JobCoordinator.JobCoordinatorLogic.EnqueueRead | packages/jobs-cloudflare/src/coordinator.ts:56-71 | stores and answers what the first enqueue phase specifies, on this key only |
| JobCoordinator.JobCoordinatorLogic.EnqueueAfterLiveCandidate | packages/jobs-cloudflare/src/coordinator.ts:76-93 | stores and answers what the commit phase specifies for a live candidate |
| JobCoordinator.JobCoordinatorLogic.EnqueueAfterStaleCandidate | packages/jobs-cloudflare/src/coordinator.ts:97-105 | stores and answers what the commit phase specifies for a dead candidate |
| JobCoordinator.JobCoordinatorLogic.Commit | packages/jobs-cloudflare/src/coordinator.ts:107-125 | the loop over the terminated ids prunes exactly their hashes; the commit is the specified one |
| JobCoordinator.JobCoordinatorLogic.AcquireRead | packages/jobs-cloudflare/src/coordinator.ts:129-140 | grants a free key or confirms the holder; otherwise names the holder to check and changes nothing |
| JobCoordinator.JobCoordinatorLogic.AcquireWhenHolderLive | packages/jobs-cloudflare/src/coordinator.ts:143-154 | the commit phase of acquire after a live holder |
| JobCoordinator.JobCoordinatorLogic.AcquireAfterStale | packages/jobs-cloudflare/src/coordinator.ts:158-170 | the commit phase after a stale holder takes the key over only from the id that was checked |
| JobCoordinator.JobCoordinatorLogic.Release | packages/jobs-cloudflare/src/coordinator.ts:203-211 | releases only for the holder and names the first pending id |
| JobCoordinator.HandOnFromDeadSuccessor | packages/jobs-cloudflare/src/coordinator.ts:350-361 | releasing and then handing on from a dead successor is one hand-over past it |
| JobCoordinator.PorulleJobCoordinator.ReleaseAndWake | packages/jobs-cloudflare/src/coordinator.ts:350-361 | undisturbed, it ends; the first id that can be woken holds the key and is the one woken, exactly the dead ids before it are gone, nobody is woken and the key is free only when none before an empty id can be, and a non-holder changes nothing |
| LockProtocol.OverIsForGood | packages/jobs-cloudflare/src/coordinator.ts:466-475 | an instance whose handler is over never holds again |
| LockProtocol.HolderIsKept | packages/jobs-cloudflare/src/coordinator.ts:129-211 | no step takes the key from an instance that may still use it |
| LockProtocol.GrantIsRecorded | packages/jobs-cloudflare/src/coordinator.ts:330-341 | only the recorded holder is answered "granted" |
| LockProtocol.StepKeepsSafe | packages/jobs-cloudflare/src/coordinator.ts:306-361 | the safety invariant is kept by every step of the protocol |
| LockProtocol.MutualExclusion | packages/jobs-cloudflare/src/coordinator.ts:330-361 | in every run from any stored record at most one live instance is between the answer that grants it the key and the end of its handler, and it is the recorded holder |
| LockProtocol.BlameBreaksExclusion | packages/jobs-cloudflare/src/coordinator.ts:296-304 | blaming a single instance whose handler is not over, even one not yet created, lets two handlers run at once |
| LockProtocol.ExclusionIff | packages/jobs-cloudflare/src/coordinator.ts:444-475 | handlers never overlap, nor do grants that can still be acted on, if and only if only instances whose handler is over are reported stale or not woken |
| LockLine.StepKeepsWellFormedIff | packages/jobs-cloudflare/src/coordinator.ts:56-211 | a protocol step keeps the record well formed if and only if it registers no empty id and no holder |
| LockLine.ReachableRecordsAreWellFormed | packages/jobs-cloudflare/src/coordinator.ts:213-221 | from an absent row, one written before hashes existed, or any other in order, every reachable record has no duplicates, its holder not in line, and hashes only for pending ids |
| LockLine.StepKeepsNoDuplicates | packages/jobs-cloudflare/src/coordinator.ts:107-211 | no step makes an id wait twice |
| LockLine.StepLosesNobody | packages/jobs-cloudflare/src/coordinator.ts:107-211 | a step takes an id out of line only by granting it the key or reporting it terminated |
| LockLine.NoWaiterIsLost | packages/jobs-cloudflare/src/coordinator.ts:107-211 | over any run, whoever waited and no longer waits was given the key or was reported terminated at some step |
| LockLine.TerminatedWasWaiting | packages/jobs-cloudflare/src/coordinator.ts:107-125 | a step reports an id terminated if and only if it is a superseding enqueue's commit that takes this other waiter out of line; the holder is never reported and never changes by it |
| LockLine.RunsTerminateOnlyWaiters | packages/jobs-cloudflare/src/coordinator.ts:47-125 | in every orderly run whoever is reported terminated waits at that moment and does not hold the key |
| LockLine.WaitersKeepTheirHash | packages/jobs-cloudflare/src/coordinator.ts:56-211 | over any run, an id that waits without being enqueued again stays under the hash it was registered under |
| LockLine.StepKeepsBehind | packages/jobs-cloudflare/src/coordinator.ts:107-211 | a step keeps a later arrival behind an earlier one that still waits |
| LockLine.RunKeepsBehind | packages/jobs-cloudflare/src/coordinator.ts:107-211 | so does every run in which neither is enqueued again |
| LockLine.HandOversFollowArrival | packages/jobs-cloudflare/src/coordinator.ts:203-211 | while an earlier arrival waits, no release gives the key to a later one |
| LockLine.OvertakesIff | packages/jobs-cloudflare/src/coordinator.ts:129-211 | a step gives the key past the head of the line if and only if it handles an acquire of an instance that does not hold the key, and finds the key free or held by the dead holder it checked |
| LockLine.FreeKeyIsNotFifo | packages/jobs-cloudflare/src/coordinator.ts:134-138 | a run from the empty record in which a later arrival overtakes an earlier one |
| LockLine.DeadHolderIsReplaced | packages/jobs-cloudflare/src/coordinator.ts:438-443 | whenever the holder's handler is over, an instance that wants the key can take it by its own acquire, provided ended instances are found stale |
| LockLine.FreeKeyIsTaken | packages/jobs-cloudflare/src/coordinator.ts:134-138 | an instance that wants a free key can take it |
| LockLine.ReleaseWakesTheNext | packages/jobs-cloudflare/src/coordinator.ts:203-211 | a release makes the head of the line the holder and wakes it and nobody else |
| LockLine.DeadSuccessorIsPassedOver | packages/jobs-cloudflare/src/coordinator.ts:350-362 | a successor that cannot be woken is passed over in favour of the next in line, who is woken in turn |
| LockLine.HandedOverKeyIsTaken | packages/jobs-cloudflare/src/coordinator.ts:203-211 | the head of the line has the key by its own acquire as soon as the holder releases it, whoever may be blamed |
| TurnWait.WaitsGrowToAnHour | packages/jobs-cloudflare/src/coordinator.ts:11-23 | waits lie between a minute and an hour, never shrink, and are an hour from the seventh on |
| TurnWait.TotalAfterSixRounds | packages/jobs-cloudflare/src/coordinator.ts:17-23 | n waits total 3780000 + 3600000 (n - 6) milliseconds |
| TurnWait.ADayTakes29Rounds | packages/jobs-cloudflare/src/coordinator.ts:17-20 | a day of waiting takes exactly 29 rounds |
| TurnWait.ElapsedIsBounded | packages/jobs-cloudflare/src/coordinator.ts:459-464 | turn events only shorten the wait; without any in time it is the total |
| TurnWait.RoundEndsWithItsEvent | packages/jobs-cloudflare/src/coordinator.ts:459-464 | a round ends with its turn event when that comes within the wait, else when the wait is over |
| TurnWait.AwaitTurn | packages/jobs-cloudflare/src/coordinator.ts:452-465 | the acquire loop ends at the first grant, has waited each round until its event or its timeout, and whoever waited a day went through at least 29 rounds |
| CanonicalJson.EscapeIsReadable | packages/jobs-cloudflare/src/index.ts:96-96 | an escaped string followed by a quote can be read in one way only |
| CanonicalJson.EscapedIsClean | packages/jobs-cloudflare/src/index.ts:96-96 | no control character and no half of a surrogate pair without the other is left in an escaped string |
| CanonicalJson.SortedKeysAscend | packages/jobs-cloudflare/src/index.ts:99-99 | keys are strictly ascending and exactly the object's keys |
| CanonicalJson.AscendingIsUnique | packages/jobs-cloudflare/src/index.ts:99-99 | two ascending lists of the same keys are equal |
| CanonicalJson.SameValuesSerialiseEqually | packages/jobs-cloudflare/src/index.ts:94-101 | values equal up to key order at every depth serialise equally |
| CanonicalJson.ValueIsReadable | packages/jobs-cloudflare/src/index.ts:95-101 | a serialised value with anything delimited behind it can be read in one way only |
| CanonicalJson.StableStringifyIsCanonical | packages/jobs-cloudflare/src/index.ts:94-101 | two values serialise equally if and only if they are equal up to key order at every depth |
| InputHash.HashText | packages/jobs-cloudflare/src/index.ts:106-109 | the loop computes the recurrence h := (33 h mod 2^32) xor c over the code units |
| InputHash.MixedIsExact | packages/jobs-cloudflare/src/index.ts:108-108 | each intermediate sum stays within 2^32 in magnitude and is 33 h modulo 2^32 |
| InputHash.RoundIsExact | packages/jobs-cloudflare/src/index.ts:108-108 | one turn of the signed loop is one step of the unsigned recurrence |
| InputHash.XorSetsWhereBitsDiffer | packages/jobs-cloudflare/src/index.ts:108-108 | a bit of the exclusive or is set exactly where the two differ |
| InputHash.Base36RoundTrip | packages/jobs-cloudflare/src/index.ts:110-110 | the base-36 text reads back as the number |
| InputHash.HashInput | packages/jobs-cloudflare/src/index.ts:104-111 | the hash of an input is the base-36 text of the recurrence over its canonical text |
| InputHash.HashIsShort | packages/jobs-cloudflare/src/index.ts:103-111 | a hash has one to seven characters |
| InputHash.KeyOrderDoesNotChangeTheHash | packages/jobs-cloudflare/src/index.ts:94-111 | values equal up to key order hash equally |
| InputHash.HashesAgreeIff | packages/jobs-cloudflare/src/index.ts:104-111 | hashes agree if and only if the recurrence agrees: printing loses nothing |
| HashCollisions.LettersMeet | packages/jobs-cloudflare/src/index.ts:107-109 | from every state of the loop two different pairs of letters lead to the same state |
| HashCollisions.EveryKeyHasACollision | packages/jobs-cloudflare/src/index.ts:103-111 | under every key there are two different inputs that hash alike |
| HashCollisions.CoalescesIff | packages/jobs-cloudflare/src/coordinator.ts:56-93 | a second superseding enqueue is answered with a live waiting id if and only if the input hashes agree |
| HashCollisions.DifferentInputsCoalesce | packages/jobs-cloudflare/src/coordinator.ts:76-93 | under every key an input is coalesced into a different one that waits |
| QueueModel.RetryDelay | packages/sdk/src/offline-queue.ts:266-268 | a retry is never later than a minute |
| QueueModel.DelaysDouble | packages/sdk/src/offline-queue.ts:266-268 | the first retry waits the backoff and each further one twice as long, up to a minute |
| QueueModel.AdvanceChangesOnlyFlush | packages/sdk/src/offline-queue.ts:216-217 | the drain passes over failed operations only, and changes nothing else |
| QueueModel.RefusalIsFinalIff | packages/sdk/src/offline-queue.ts:241-258 | a refused pending operation fails if and only if the status is below 500 and neither 408 nor 429, or its attempts are used up; otherwise it stays pending with a retry scheduled |
| QueueModel.AttemptsAreCounted | packages/sdk/src/offline-queue.ts:226-241 | a refusal and a network failure each count one attempt of this operation alone; a network failure leaves it pending, ends the drain and schedules a retry |
| QueueModel.OneFlushAtATime | packages/sdk/src/offline-queue.ts:210-217 | a flush started during another does nothing; otherwise it comes to the first pending operation; a timer that fires is gone and flushes |
| QueueModel.RetryStartsOverIff | packages/sdk/src/offline-queue.ts:186-196 | retrying makes a failed queued operation pending with no attempts and no error, and does nothing about any other |
| OfflineQueue.OfflineQueue.Enqueue | packages/sdk/src/offline-queue.ts:148-167 | appends a fresh operation with its key stamped into the body, and stores it |
| OfflineQueue.OfflineQueue.Drop | packages/sdk/src/offline-queue.ts:199-203 | takes exactly that operation out, in memory and in storage |
| OfflineQueue.OfflineQueue.Retry | packages/sdk/src/offline-queue.ts:186-196 | makes a failed operation new again and touches no other |
| OfflineQueue.OfflineQueue.BeginFlush | packages/sdk/src/offline-queue.ts:210-217 | sends the first pending operation of a snapshot, unless a flush is running |
| OfflineQueue.OfflineQueue.OnNetworkError | packages/sdk/src/offline-queue.ts:226-230 | counts the attempt, stores, keeps everything pending |
| OfflineQueue.OfflineQueue.OnDelivered | packages/sdk/src/offline-queue.ts:235-238 | an ok answer removes exactly the delivered operation |
| OfflineQueue.DeliveryTakesOnlyItselfIff | packages/sdk/src/offline-queue.ts:154-154 | over operations that may share keys, an ok answer removes no other operation if and only if the delivered key occurs once |
| OfflineQueue.OfflineQueue.OnRefused | packages/sdk/src/offline-queue.ts:241-244 | counts the attempt before the body is read |
| OfflineQueue.OfflineQueue.OnBodyRead | packages/sdk/src/offline-queue.ts:248-258 | fails the operation or schedules its retry, by status and attempts |
| OfflineQueue.OfflineQueue.OnPersisted | packages/sdk/src/offline-queue.ts:216-217 | goes on with the rest of the snapshot |
| OfflineQueue.OfflineQueue.OnLastPersisted | packages/sdk/src/offline-queue.ts:230-232 | schedules the backoff and ends the flush |
| OfflineQueue.OfflineQueue.OnTimer | packages/sdk/src/offline-queue.ts:269-272 | clears the timer and flushes |
| QueueDrain.DrainFrom | packages/sdk/src/offline-queue.ts:216-239 | from any point of its snapshot an online flush delivers what is pending and passes over what failed |
| QueueDrain.OnlineFlushDeliversEverything | packages/sdk/src/offline-queue.ts:205-264 | undisturbed and online, a flush ends, sends every pending operation once, first in first out, and leaves exactly the failed ones |
| QueueOutcome.FlushOutcome | packages/sdk/src/offline-queue.ts:210-264 | whatever each request is answered, a flush that is not disturbed gets to every pending operation up to the first network failure; accepted ones leave, refused ones fail exactly for a final status or used-up attempts, the rest stays as it was; if anything is left pending the timer is set by the backoff of one that was tried |
| QueueOutcome.RetriesEnd | packages/sdk/src/offline-queue.ts:241-258 | an operation that is always refused is sent once a flush and has failed after exactly the allowed attempts, or after one for a status that is not worth a retry |
| QueueGuarantees.NothingIsLostOrResurrected | packages/sdk/src/offline-queue.ts:164-264 | in every run, restarts included, the queue is what arrived less what was delivered or dropped, in order, storage agrees, and an operation failed only on an HTTP status below 500 other than 408 and 429, or after its attempts were used up |
| QueueGuarantees.ExactlyOnce | packages/sdk/src/offline-queue.ts:5-7 | against a replaying server, over any number of sessions on one storage, no operation acts twice, and one that left undropped acted exactly once |
| QueueGuarantees.ActsAtMostOnceIff | packages/sdk/src/offline-queue.ts:5-7 | effects are unique in every run if and only if the server replays repeated keys |
| QueueGuarantees.SentAfterLeavingIff | packages/sdk/src/offline-queue.ts:199-217 | an operation that left the queue can be sent again if and only if the running flush has it ahead and it is pending |
| QueueGuarantees.DroppedCanStillBeSent | packages/sdk/src/offline-queue.ts:199-217 | a run in which a dropped operation is still to be sent |
| OrderPushProtocol.FindExisting | packages/adapters/adapter-woocommerce/src/orders.ts:40-56 | finds an order carrying the platform order's key if there is one |
| OrderPushSafety.StepTouchesOnly | packages/adapters/adapter-woocommerce/src/orders.ts:88-187 | a push changes no store order but the one of its own platform order |
| OrderPushSafety.StepKeepsIdentified | packages/adapters/adapter-woocommerce/src/orders.ts:88-91 | the store never comes to hold two orders with one key |
| OrderPushSafety.StepKeepsBalanced | packages/adapters/adapter-woocommerce/src/orders.ts:158-192 | stock is the starting stock less what standing orders draw |
| OrderPushSafety.StepKeepsBounded | packages/adapters/adapter-woocommerce/src/orders.ts:178-185 | orders whose re-read found a pool not negative never draw more than it began with |
| OrderPushSafety.OneStoreOrderEach | packages/adapters/adapter-woocommerce/src/orders.ts:78-91 | in every run, with lost answers and any number of attempts, each platform order has at most one store order, and stock balances |
| OrderPushSafety.CheckedNeverOversells | packages/adapters/adapter-woocommerce/src/orders.ts:158-187 | with re-reads answered, the orders accepted by the check after creation never exceed the starting stock of a pool; which orders are accepted is `CoveredOrderIsAccepted` and `EnoughTurnsNobodyAway` |
| OrderPushSafety.SafeFaultsNeverOversell | packages/adapters/adapter-woocommerce/src/orders.ts:88-192 | without lost answers, attempts that end midway, failed re-reads, or retries after a failed cancel, no accepted orders exceed the stock |
| OrderPushLimits.NeverOversellsIff | packages/adapters/adapter-woocommerce/src/orders.ts:88-192 | accepted orders never oversell if and only if none of those faults can happen |
| OrderPushLimits.OkMeansStandingIff | packages/adapters/adapter-woocommerce/src/orders.ts:88-187 | Ok always names an order that still stands if and only if final errors are not retried and no attempt ends midway |
| OrderPushCheck.SufficesIff | packages/adapters/adapter-woocommerce/src/orders.ts:93-108 | on reads of one state the check passes if and only if each line by itself finds enough, tracked or not |
| OrderPushCheck.CheckIsEnoughIff | packages/adapters/adapter-woocommerce/src/orders.ts:93-111 | with nobody else pushing, an order that passes the check never oversells, whatever the stock, if and only if on each of its pools exactly one line asks for something |
| OrderPushSuccess.RereadCondemnsIff | packages/adapters/adapter-woocommerce/src/orders.ts:178-185 | an answered re-read condemns the order if and only if the line's pool is below zero; otherwise it clears the pool and goes on |
| OrderPushSuccess.FinalErrors | packages/adapters/adapter-woocommerce/src/orders.ts:158-170 | an answered refusal is final and places nothing, an answered or lost create places the order and draws its units, anything else may be tried again |
| OrderPushSuccess.UndisturbedPush | packages/adapters/adapter-woocommerce/src/orders.ts:88-187 | undisturbed, a push is decided by the stock: too little for some line leaves the store as it was; enough for each line but not for all is placed, cancelled and restocked; otherwise the order stands, checked, and has drawn its units |
| OrderPushSuccess.CoveredOrderIsAccepted | packages/adapters/adapter-woocommerce/src/orders.ts:88-187 | from every state a run reaches, an order the stock covers can be pushed to a standing, checked order |
| OrderPushSuccess.EnoughTurnsNobodyAway | packages/adapters/adapter-woocommerce/src/orders.ts:88-187 | when no pool began with less than all orders draw, in every run no pool goes below zero, every check of the stock passes and no re-read condemns an order |
| OrderTotals.Allocate | packages/adapters/adapter-woocommerce/src/orders.ts:65-71 | the loops and the overwritten last slot compute the specified shares |
| OrderTotals.SharesAddUp | packages/adapters/adapter-woocommerce/src/orders.ts:64-71 | the shares add up to the discount exactly |
| OrderTotals.FloorsBound | packages/adapters/adapter-woocommerce/src/orders.ts:68-68 | rounding n shares down loses less than n units |
| OrderTotals.SharesAreProportional | packages/adapters/adapter-woocommerce/src/orders.ts:64-71 | shares are non-negative, every one but the last the exact proportional floor, the last less than n above its own |
| OrderTotals.EarlierLinesStayNonNegative | packages/adapters/adapter-woocommerce/src/orders.ts:68-69 | when the discount does not exceed the order, every line but the last, which the next row is about, has a share within its total |
| OrderTotals.LastLineIff | packages/adapters/adapter-woocommerce/src/orders.ts:65-71 | the last share stays within the last total if and only if the other lines' parts of the discounted order, each rounded up, do not exceed it |
| OrderTotals.NoLineGoesNegativeIff | packages/adapters/adapter-woocommerce/src/orders.ts:64-71 | all shares stay within their totals if and only if the discount does not exceed the order and the last line passes that test |
| OrderTotals.SentTotalsStayNonNegativeIff | packages/adapters/adapter-woocommerce/src/orders.ts:117-154 | exactly when no line total sent is below zero, whichever way the discount is split |
| OrderTotals.LastLineCanGoNegative | packages/adapters/adapter-woocommerce/src/orders.ts:69-69 | totals 3, 3, 1 less 6 are sent as 1, 1 and -1 |
| OrderTotals.SentTotalsConserveMoneyIff | packages/adapters/adapter-woocommerce/src/orders.ts:117-154 | the totals sent sum to the order less its discount if and only if the platform split it, or it is nothing, or it and the order are positive |
| OrderTotals.SentTotalsAre | packages/adapters/adapter-woocommerce/src/orders.ts:117-154 | a line is sent less the platform's own discount on it exactly when those add up to the order's, else less its allocated share |
| CatalogFields.MetaKeysMeetIff | packages/adapters/adapter-woocommerce/src/catalog-push.ts:151-154 | two remote keys share a metadata entry if and only if, trimmed, they differ at most by the prefix |
| CatalogFields.WinnerAppend | packages/adapters/adapter-woocommerce/src/catalog-push.ts:181-185 | taking a key over only when first, or first in English, keeps the first English field, else the first field |
| CatalogFields.MetaOrderIsUnique | packages/adapters/adapter-woocommerce/src/catalog-push.ts:195-199 | metadata keys are unique and exactly those some field feeds |
| CatalogFields.MetaOrderGrows | packages/adapters/adapter-woocommerce/src/catalog-push.ts:198-198 | metadata keys stand in the order of first appearance |
| CatalogFields.NativeStep | packages/adapters/adapter-woocommerce/src/catalog-push.ts:181-185 | one more field leaves every native key with its winner's value |
| CatalogFields.MetaReplace | packages/adapters/adapter-woocommerce/src/catalog-push.ts:196-201 | replacing an entry in place keeps every metadata entry its winner's |
| CatalogFields.CatalogFold.AddOneNative | packages/adapters/adapter-woocommerce/src/catalog-push.ts:175-186 | adding a native field leaves every native key with the value of its first English field, else of its first field |
| CatalogFields.CatalogFold.AddMetaField | packages/adapters/adapter-woocommerce/src/catalog-push.ts:188-202 | the new entries and locales: appended, replaced where the key stood, or unchanged |
| CatalogFields.CatalogFold.AddOneMeta | packages/adapters/adapter-woocommerce/src/catalog-push.ts:188-202 | adding a metadata field leaves one entry per key, in first-appearance order, with its winner's value |
| CatalogFields.CatalogFold.AppendCatalogFields | packages/adapters/adapter-woocommerce/src/catalog-push.ts:204-236 | fails exactly when a field other than a tag has no remote key, naming the first; else every key holds the first English field's value or the first field's, with filters and tags in order |
| CatalogMeaning.TargetOfIff | packages/adapters/adapter-woocommerce/src/catalog-push.ts:204-236 | tags go to the tags, keyed filterable fields to the filters, and display fields under their trimmed key if the store knows it, else to the metadata under the prefix |
| CatalogMeaning.FoldedBodyHolds | packages/adapters/adapter-woocommerce/src/catalog-push.ts:204-236 | the body has exactly the known keys that display fields have, the metadata exactly their other keys with the prefix and each once; every value is that of the first English field, or the first |
| CatalogImages.BatchIdIsStable | packages/adapters/adapter-woocommerce/src/catalog-push.ts:275-277 | normalising an id twice is normalising it once |
| CatalogImages.BatchIdsAgreeIff | packages/adapters/adapter-woocommerce/src/catalog-push.ts:275-277 | two ids are one to the store if and only if they are equal or spell one number |
| CatalogImages.MergeWooImages | packages/adapters/adapter-woocommerce/src/catalog-push.ts:246-273 | store images in their places, each replaced by the last incoming one with its id, then the new ones |
| CatalogImages.StoreImagesKeepTheirPlace | packages/adapters/adapter-woocommerce/src/catalog-push.ts:255-262 | every store image keeps its position and id, and its content unless an incoming image has its id |
| CatalogImages.AppendedAt | packages/adapters/adapter-woocommerce/src/catalog-push.ts:263-271 | an appended id is new and stands for the image it first came with |
| CatalogImages.AppendedOnce | packages/adapters/adapter-woocommerce/src/catalog-push.ts:267-268 | no id is appended twice |
| CatalogImages.AppendedHas | packages/adapters/adapter-woocommerce/src/catalog-push.ts:264-271 | every new incoming id is appended |
| CatalogImages.FreshAreKept | packages/adapters/adapter-woocommerce/src/catalog-push.ts:264-271 | images sent by address are all appended, in order |
| CatalogImages.MergingAddressesGrows | packages/adapters/adapter-woocommerce/src/catalog-push.ts:263-271 | an image sent by address is added again, whatever the store has |
| CatalogImages.MergeIsIdempotentIff | packages/adapters/adapter-woocommerce/src/catalog-push.ts:246-273 | merging into what the store has after the first push, whatever ids it gave new images, changes nothing if and only if no image came by address and no new id came in twice with different content |
| CatalogPlan.BuildCatalogPlan | packages/adapters/adapter-woocommerce/src/catalog-push.ts:279-309 | says the first thing wrong with an item, product before variants; else the plan holds the winners, filters, tags and images |
| CatalogPlan.PlanVariant | packages/adapters/adapter-woocommerce/src/catalog-push.ts:291-306 | a variant is refused for a missing key, then a filter, then a tag |
| CatalogMeaning.ItemIsPlannedIff | packages/adapters/adapter-woocommerce/src/catalog-push.ts:279-309 | an item can be planned if and only if all its fields but tags are keyed and its variants' fields are keyed and neither filters nor tags; its own first field without a key is reported first |
| CatalogMeaning.VariantsProblemIs | packages/adapters/adapter-woocommerce/src/catalog-push.ts:290-306 | the first variant that cannot be planned is the one reported |
| CatalogMeaning.PlanHoldsTheItem | packages/adapters/adapter-woocommerce/src/catalog-push.ts:279-309 | a plan read field by field: values, metadata, filters in order, each named tag once, images in place, and every variant's values under its id |
| CatalogPlan.BatchableIff | packages/adapters/adapter-woocommerce/src/catalog-push.ts:515-515 | a plan may go into a batch if and only if its item has fields, no variants, no images, and no filter or images field |
| CatalogPlan.PlanRequestsAre | packages/adapters/adapter-woocommerce/src/catalog-push.ts:425-476 | by itself an item reads images when it carries some, prepares attributes when it has filters, updates the product when it has fields or images, and every variant that has fields |
| CatalogPush.PushCatalogBatch | packages/adapters/adapter-woocommerce/src/catalog-push.ts:478-534 | every item of a chunk, and no other, is told the answer found under its id |
| CatalogPush.RepliesById | packages/adapters/adapter-woocommerce/src/catalog-push.ts:486-486 | of several entries about one id the last one counts |
| CatalogPush.RankOf | packages/adapters/adapter-woocommerce/src/catalog-push.ts:515-519 | a batched item's rank among the batched is its place in their list |
| CatalogPush.MadeUpToTheFirstError | packages/adapters/adapter-woocommerce/src/catalog-push.ts:461-476 | an item's requests are made in order, the first error ends them, and it is the one reported |
| CatalogPush.PushCatalogItem | packages/adapters/adapter-woocommerce/src/catalog-push.ts:461-476 | the loop makes the requests up to the first error |
| CatalogPush.PushCatalog | packages/adapters/adapter-woocommerce/src/catalog-push.ts:497-543 | outcomes stand in input order and each is the verdict of its own plan, its batch, or its own requests; what is sent is exactly the batches and then the requests of the other items; a dry run, or another provider's store, sends nothing |
| CatalogPush.EachPlannedItemGoesOnce | packages/adapters/adapter-woocommerce/src/catalog-push.ts:515-541 | an item with a plan goes out exactly once, in a batch or alone; no other item goes out |
| CatalogPush.BatchesAreBounded | packages/adapters/adapter-woocommerce/src/catalog-push.ts:517-520 | a batch holds one to a hundred items, all of them fit for a batch |
| CatalogPush.FineIff | packages/adapters/adapter-woocommerce/src/catalog-push.ts:497-543 | an item is reported ok if and only if it has a plan and its batch's last entry about it, or every request of its own, reports no error (or nothing was to be sent) |
| CatalogAnswers.BatchVerdictIff | packages/adapters/adapter-woocommerce/src/catalog-push.ts:128-138 | an item of a batch is told the batch's error, or what the last entry about it says, or that there is none; a refusal is worth another try if and only if its status is 500 or more, 408 or 429 |
| CatalogAnswers.GoesInABatchIff | packages/adapters/adapter-woocommerce/src/catalog-push.ts:515-520 | an item goes in a batch if and only if it is one of at least two that may |
| CatalogAnswers.ToldByItsOwnBatch | packages/adapters/adapter-woocommerce/src/catalog-push.ts:517-534 | the answer an item is told is that of the batch it is in; all batches but the last hold a hundred |
| CatalogAnswers.GoesAloneIff | packages/adapters/adapter-woocommerce/src/catalog-push.ts:536-541 | an item goes alone, with the requests it asks for up to the first error, if and only if it has a plan and no batch takes it |
| CatalogAnswers.GoInInputOrder | packages/adapters/adapter-woocommerce/src/catalog-push.ts:515-541 | batches go first, then the other items in input order |
| PlaceholderSplit.SubstitutePlain | packages/adapters/adapter-pg-search/src/index.ts:59-64 | text before the next placeholder stands for itself |
| PlaceholderSplit.ToDatabaseQuery | packages/adapters/adapter-pg-search/src/index.ts:46-66 | the chunks are the text with each placeholder replaced by its parameter; it throws exactly when a placeholder names none |
| SearchFilters.BuildWhere | packages/adapters/adapter-pg-search/src/index.ts:165-223 | every placeholder is in range and names the value it was pushed for; `$1` is the query text when there is one; every value is referred to if and only if no attribute filter is an empty list |
| SearchFilters.MeansPush | packages/adapters/adapter-pg-search/src/index.ts:173-174 | pushing values and one clause about them leaves the meaning of the earlier clauses alone |
| SearchFilters.WhereMeansTheRequest | packages/adapters/adapter-pg-search/src/index.ts:165-223 | a row passes the clauses if and only if it satisfies every requested filter |
| SearchFilters.ValuesOfAre | packages/adapters/adapter-pg-search/src/index.ts:204-205 | a single wanted text stands for the list of it |
| SearchFilters.AnEmptyListMatchesNothing | packages/adapters/adapter-pg-search/src/index.ts:206-209 | an attribute filter with an empty list lets no row pass |
| SearchStatements.Assemble | packages/adapters/adapter-pg-search/src/index.ts:373-405 | the three statements' numbers are in range and name the values of the search, count and facet statements, score, limit and offset included; `SearchReadsAsAsked` says what those statements select |
| SearchStatements.SpellMeansIff | packages/adapters/adapter-pg-search/src/index.ts:46-66 | substituting the parameters in spelt pieces gives back the pieces with their values if and only if the dictionary's name, if used, holds nothing that reads as a placeholder |
| SearchStatements.FilledInSaysWhatIsMeantIff | packages/adapters/adapter-pg-search/src/index.ts:301-307 | filling in a statement's parameters gives exactly the statement meant, under that same condition and no other |
| SearchStatements.SearchUsesDictionaryIff | packages/adapters/adapter-pg-search/src/index.ts:172-175 | a search statement uses the dictionary if and only if there is a text to look for |
| SearchStatements.SearchChunks | packages/adapters/adapter-pg-search/src/index.ts:376-393 | the search statement is split without an error into exactly the statement with every value in its place, if and only if there is no text or the dictionary's name holds no placeholder |
| SearchStatements.EveryHitHasOnePage | packages/adapters/adapter-pg-search/src/index.ts:376-378 | with limits between 1 and 100, every hit is on exactly one page |
| SearchReading.WhereChoosesTheRequest | packages/adapters/adapter-pg-search/src/index.ts:165-223 | read as SQL, word by word, the WHERE chooses a row if and only if it satisfies every requested filter |
| SearchReading.SearchReadsAsAsked | packages/adapters/adapter-pg-search/src/index.ts:376-393 | the search statement ranks by the text looked for, chooses what was asked for, and takes the wanted number of rows after those of earlier pages |
| SearchReading.CountAndFacetsReadAsAsked | packages/adapters/adapter-pg-search/src/index.ts:395-405 | the count and the facet statement choose exactly the same rows |
| SearchReading.TokensSpeak | packages/adapters/adapter-pg-search/src/index.ts:376-405 | the words read are the statement, character by character |
| SearchFacets.ComputeFacets | packages/adapters/adapter-pg-search/src/index.ts:225-277 | which facets the answer holds, and that each counts exactly the values that occur |
| SearchFacets.AttributeFacetsCountDocuments | packages/adapters/adapter-pg-search/src/index.ts:267-273 | an attribute facet counts documents, however often one repeats the value |
| SearchFacets.TypeFacetCounts | packages/adapters/adapter-pg-search/src/index.ts:229-234 | the type facet counts the documents of a type |
| SearchFacets.StatusFacetCounts | packages/adapters/adapter-pg-search/src/index.ts:236-242 | the status facet counts the documents of a status, those without one as unknown |
| SearchFacets.CategoryFacetCounts | packages/adapters/adapter-pg-search/src/index.ts:244-251 | the category facet counts how often a category is listed |
| SearchFacets.BrandFacetCounts | packages/adapters/adapter-pg-search/src/index.ts:253-260 | the brand facet counts how often a brand is listed |
| SearchFacets.FixedFacetsPresentIff | packages/adapters/adapter-pg-search/src/index.ts:226-253 | each fixed facet is there if and only if it was asked for under either name, or nothing was |
| SearchFacets.AttributeNameIff | packages/adapters/adapter-pg-search/src/index.ts:262-266 | a requested name stands for one attribute, with or without the prefix |
| Returns.RequestReturn | packages/adapters/adapter-shopify/src/index.ts:378-389 | fails exactly when some wanted variant was not shipped often enough, naming the first and what is missing |
| Returns.TakePieces | packages/adapters/adapter-shopify/src/index.ts:381-389 | the loop takes the variant's lines in order and says what is still missing |
| Returns.PiecesAddUp | packages/adapters/adapter-shopify/src/index.ts:381-389 | a granted return gives back exactly what was asked, in all |
| Returns.EachVariantAddsUp | packages/adapters/adapter-shopify/src/index.ts:380-389 | the pieces on each variant's fulfilment lines add up to what was asked of that variant |
| Returns.LineShare | packages/adapters/adapter-shopify/src/index.ts:383-388 | one wanted line takes from each fulfilment line what is left after the earlier ones, at most its quantity, and only from its variant |
| Returns.EachLineGivesItsShare | packages/adapters/adapter-shopify/src/index.ts:380-389 | with distinct variants, each fulfilment line gives exactly its share over the whole return |
| Returns.NeverOverReturnsIff | packages/adapters/adapter-shopify/src/index.ts:380-389 | whatever was shipped, no line gives back more than it holds, if and only if no variant is asked for twice |

## Left out

- The Workflow and Durable Object runtimes, HTTP clients and their schemas: status checks, turn events, creates, lost
  answers and store answers are steps or parameters. `prepareEnqueue` and retry settings are not part of this model.
- Fairness of the lock: an instance can always take a free key or a dead holder's, but that it is granted some day
  depends on timeouts, on holders ending and on who asks first.
- Ids that JavaScript objects treat specially, such as `__proto__`, as keys of `pendingHashes` or of a filter.
- `stableStringify` outside JSON: undefined, NaN, dates, negative zero. How numbers are spelt is opaque.
- Hash collisions other than those exhibited: which inputs share a hash is not characterised.
- OfflineQueue.OfflineQueue.Enqueue: asks for a key that was not used before, since the guarantees are about distinct
  keys; `DeliveryTakesOnlyItselfIff` says what a repeated key does. Loaded operations have distinct ids likewise.
- The offline queue's listeners, `state`, `dispose`, the online event, response bodies, and asynchronous storage, where
  two saves may overtake each other. That a retry is ever made: a timer firing during a flush is swallowed.
- In `pushOrder`: the request body apart from the line totals, the draft deletion after a refusal, and `moneyString`.
  The push is a protocol of single requests rather than one method, because its requests interleave with other pushes.
- In the catalogue push: merging filterable attributes and terms with their caches, whose requests are one step of an
  item, and ids of 2^53 and above, which JavaScript rounds.
- CatalogPush.PushCatalog: says which requests an item makes and not the bodies it sends beyond the plan and the merged
  images.
- In search: `index`, `remove`, `suggest`, reading rows back into documents, ranking itself (full-text matching is a
  parameter), and limits that are not whole numbers.
- In `requestReturn`: the reason lookup, notes, the mutation, and negative quantities.
- The other job engines, the kernel's order state machine, tax, payment, e-mail, storage and the remaining adapters:
  option translation, wrappers, or code that is not in the repository.
