# AeroPass: the protocols between its stores, proved

AeroPass issues single-use access credentials that live 30 to 60 seconds. The rows are in Postgres, the
keys `qr:{jti}` in Redis, events leave through a transactional outbox, and outside providers sit behind
circuit breakers. This project models the protocols that keep those stores consistent while requests
interleave, dependencies fail and processes stop at any point, and proves what they guarantee.

| files | what they model |
|---|---|
| `Base.dfy`, `Passengers.dfy` | identifiers, instants (integer microseconds), Option; the passenger row |
| `Credentials.dfy` | the credential aggregate, its state pattern and what its history means |
| `TokenStore.dfy` | the keys with their TTLs, and the proxy that reads them |
| `CredentialProtocol.dfy`, `CredentialInvariants.dfy`, `CredentialTheorems.dfy` | issue, renewal, consume, revoke, detail and sweep as one machine over both stores; its invariant; the theorems |
| `CredentialServices.dfy` | the in-memory repository and the two services, each method proved to do the machine's transactions |
| `Outbox.dfy`, `OutboxLease.dfy`, `OutboxTheorems.dfy`, `OutboxRecovery.dfy`, `OutboxServices.dfy` | the outbox with any number of dispatchers: loss freedom, the lease, exactly-once, recovery, the loop |
| `CircuitBreaker.dfy` | the breaker, interleaved and sequential, and its store |
| `RateLimiter.dfy` | the sliding-window issuance limit |
| `Registration.dfy` | the registration race |
| `Verification.dfy`, `UnitOfWork.dfy` | the selfie pipeline over its tables; the unit of work with shared mutable objects |
| `TokenTimes.dfy` | whole-second token claims against sub-second expiry |
| `Images.dfy` | the marker in the mock JPEG images |

## How to read the machines

A machine has a world, events, `Enabled`, `Step`, and `Legal`/`Exec` for sequences of events. A theorem
about `Exec(s0, es)` speaks of every state reachable by any interleaving, of any length.

`issue` is split where another request can get in or the process can stop: `Lock` (passenger row locked,
clock read), `Stage` (old credential expired or revoked, new one added), `RegisterOk` or `RegisterFails`
(the Redis step inside the transaction), `Commit`, and afterwards `Forget`. `Abort` may come at any point of
the transaction. Every other operation is one locked transaction, followed by its own Redis step where it
has one, and that step may fail or never come. The outbox steps are `Claim`, `Publish`, `Save` and `Crash`
for each dispatcher; the breaker's are the prelude of a call, its end, and its abandonment.

Assumptions, stated once:

- one clock, which does not go back, for the application and Redis;
- identifiers drawn are fresh;
- a row locked `FOR UPDATE` stays locked until commit, and a locked transaction on one row is atomic;
- Redis loses a key only by TTL or deletion;
- `consume` and `sweep_expired` read the clock before they get the lock, `revoke_by_id` and
  `detail_for_owner` while they hold it, so a reading may be any past instant; no order of `created_at`
  within a history is claimed;
- a registration reported as failed may still have written its key.

Clock readings, the outcome of publications and uploads, and Redis outages are inputs of the methods.

## What the proofs show about the code

- The lease alone does not keep dispatchers apart. `save` overwrites the row whatever it holds
  (`src/aeropass/adapters/db/repositories.py:297-305`), so a save after the lease can put a delivered event
  back to pending: `LateSaveUndoesDelivery`. Dispatchers that claim at most k entries and take at most tau
  for each (or stop) are safe over all runs if and only if k * tau < 30 s (`PacedBatchesAreSafe`); the default batch
  is 100. Loss freedom needs no such condition, and delivery after a recovery only from the recovery on.
- The failure window of the breaker tumbles, so "5 failures in 60 s" may leave it closed: at any time of
  day seven consecutive failures in six seconds can (`SevenFailuresMayNotOpen`), and 2 * 5 - 2 in 60 s
  cannot. `BurstExact` says for each state and each burst whether it opens, `BurstSize` which number of
  failures is sure to.
- The two reads of `register` can see different committed states when each statement takes its own
  snapshot. Of two simultaneous submissions of one's own document one can then be answered "registered by
  another account" (`SplitReadAnomaly`). `Register` is linearizable if and only if it is not the case that
  account and document were both registered between the two reads, the account first (`SplitReadExact`);
  with one snapshot for both reads, as in the in-memory unit of work, nothing comes between them.
- `revoke` leaves it to its caller to forget the key after the commit, whenever the revocation is accepted
  (`src/aeropass/services/credential_lifecycle_service.py:76-83`). `issue` does not when the new key could
  not be registered (`src/aeropass/services/pass_issuance_service.py:103-109`): the old credential is then
  revoked, and the proxy goes on taking its key for usable until that key expires, whatever happens
  meanwhile (`FailedRenewalLeavesKey`). The key of a renewed credential can die earlier if and only if the
  new one was registered (`OldKeyDiesEarlyIffRegistered`).
- `_REJECTION` has no entry for ACTIVA; `AnswersStayTrue` shows that the missing key is never looked up.

The theorems on token times are stated for every instant. Their exceptions, a lifetime that straddles the
epoch and an expiry within the first second after it, are edges of truncation toward zero that no real
clock reading meets.

## Model

| member | source | states |
|---|---|---|
| CredentialTheorems.CacheNeverDeniesUsable | src/aeropass/adapters/redis/token_proxy.py:17-23 | in every reachable state the proxy does not reject a credential that Postgres would still accept, wherever issues, renewals, consumptions and sweeps have been interrupted |
| CredentialTheorems.HealthyCacheIsExact | src/aeropass/services/credential_lifecycle_service.py:57-103 | a key taken for usable with no Redis step owed or failed belongs to an ACTIVA or merely past-due credential, to one about to be committed, or to one revoked by a renewal whose own registration failed |
| CredentialTheorems.FailedRenewalLeavesKey | src/aeropass/services/pass_issuance_service.py:89-109 | if the old credential is revoked in a commit whose new one failed to register, then after every continuation it is REVOCADA and its key is taken for usable exactly until the key's own expiry |
| CredentialTheorems.OldKeyDiesEarlyIffRegistered | src/aeropass/services/pass_issuance_service.py:89-115 | some continuation of a renewal's commit makes the old key dead before its expiry if and only if the new credential was registered |
| CredentialTheorems.KeysDieWithinAMinute | src/aeropass/services/credential_lifecycle_service.py:98-103 | whatever became of its credential and whichever deletions failed, a key seen at any point is dead from its own expiry on and does not come back; that is at most the TTL later, hence at most 60 s |
| CredentialTheorems.AtMostOneLive | src/aeropass/services/pass_issuance_service.py:76-112 | at every committed state there is at most one live credential per passenger and flight, and none is EMITIDA |
| CredentialTheorems.RenewalNeverRefused | src/aeropass/services/pass_issuance_service.py:85-102 | the uniqueness check of `add` never fires, and the old credential is expired exactly when due and otherwise its revocation is accepted |
| CredentialTheorems.CommitLeavesAtMostTheNewOne | src/aeropass/services/pass_issuance_service.py:103-112 | after the commit the pair's live credentials are exactly the new one, or none if its registration failed, and those of every other pair are as they were |
| CredentialTheorems.HistoriesReplay | src/aeropass/domain/credential/credential.py:85-116 | at every point each history starts with the emission, chains to the current state and to no other, accepts at most three rows and each final state at most once; lifetimes are 30 to 60 s; later it has only grown and a final state is unchanged |
| CredentialTheorems.RowsAreTimely | src/aeropass/services/credential_lifecycle_service.py:57-66 | accepted CONSUMIDA rows are dated before the expiry, EXPIRADA rows from it on, no expiry is ever refused, and each row gives the reason and actor proper to it |
| CredentialTheorems.SingleUse | src/aeropass/services/credential_lifecycle_service.py:57-74 | of any number of calls mixed with any other operations at most one is answered CONSUMIDA per jti |
| CredentialTheorems.AnswersStayTrue | src/aeropass/services/credential_lifecycle_service.py:37-74 | every answer names the committed state, then and ever after, never hits the missing dictionary key, and the calls that found the credential are exactly its CONSUMIDA rows |
| CredentialTheorems.ExpiryIsConfluent | src/aeropass/services/credential_lifecycle_service.py:106-129 | sweeps and lazy refreshes at one instant, in any order and number, end in the same table: each due row expired once, every other row untouched |
| CredentialTheorems.SweepShrinks | src/aeropass/services/credential_lifecycle_service.py:121-129 | an uncontended sweep takes min(limit, size) rows out of the past-due set and puts none in |
| CredentialTheorems.SweepsDrain | src/aeropass/services/credential_lifecycle_service.py:121-129 | k uncontended sweeps leave size - k * limit rows past due, and when that is none each due row has expired exactly once |
| CredentialInvariants.StepInv | src/aeropass/services/pass_issuance_service.py:75-115 | every step of every operation, at every crash position, keeps rows, keys, open transactions, owed Redis steps and answers consistent |
| CredentialInvariants.ConsumeRowMeaning | src/aeropass/services/credential_lifecycle_service.py:57-74 | consuming a row adds one CONSUMIDA request, accepted exactly when answered CONSUMIDA, and any other answer names the state left |
| CredentialInvariants.StagePreviaMeaning | src/aeropass/services/pass_issuance_service.py:86-90 | the old credential is expired if due and else revoked with success, and only the revoked one is to be forgotten |
| Credentials.ReplayBounds | src/aeropass/domain/credential/states.py:26-54 | a replayable history accepts at most three rows and has entered a final state exactly once if it is in it, else never |
| Credentials.IntentaGenuine | src/aeropass/domain/credential/credential.py:103-116 | a transition asked at a proper time extends a genuine history to a genuine one, rejected rows included |
| Credentials.RefrescaGenuine | src/aeropass/domain/credential/credential.py:126-130 | lazy expiry leaves nothing past due, extends the history by at most an accepted EXPIRADA row and never touches a final credential |
| Credentials.FinalIffNotLive | src/aeropass/domain/credential/states.py:14-49 | the states with no way out are exactly those the repositories do not call live |
| Credentials.CredencialAcceso.Emitir | src/aeropass/domain/credential/credential.py:58-88 | a new credential is EMITIDA with its one emission row pending |
| Credentials.CredencialAcceso.Transition | src/aeropass/domain/credential/credential.py:103-116 | the object after a transition, pending rows included, is the specified next record, and the result tells whether it was accepted |
| Credentials.CredencialAcceso.RefreshExpiry | src/aeropass/domain/credential/credential.py:126-130 | moves exactly a live past-due credential to EXPIRADA |
| TokenStore.FakeTokenStore.Register | src/aeropass/adapters/fakes/token_store.py:29-37 | refuses on an outage or while a live key is there, and otherwise sets ACTIVA with the TTL |
| TokenStore.FakeTokenStore.Revoke | src/aeropass/adapters/fakes/token_store.py:39-43 | deletes the key, live or not, unless an outage is simulated |
| TokenStore.FakeTokenStore.ConsumeKey | src/aeropass/adapters/fakes/token_store.py:45-51 | flips exactly a live ACTIVA key, keeping its expiry |
| CredentialServices.InMemoryCredentialRepository.Store | src/aeropass/adapters/fakes/repositories.py:154-157 | the stored history is the old one extended by the pending rows, which are cleared |
| CredentialServices.InMemoryCredentialRepository.GetLiveForUpdate | src/aeropass/adapters/fakes/repositories.py:173-185 | a fresh copy of a live credential of the pair, or null exactly when there is none |
| CredentialServices.InMemoryCredentialRepository.Add | src/aeropass/adapters/fakes/repositories.py:159-164 | refuses exactly a live credential whose pair already has one |
| CredentialServices.InMemoryCredentialRepository.ExpiredLiveForUpdate | src/aeropass/adapters/db/repositories.py:411-418 | the past-due live rows, those with the earliest expiry, as many as the limit allows |
| CredentialServices.CredentialLifecycleService.Consume | src/aeropass/services/credential_lifecycle_service.py:57-74 | does the machine's consume transaction and answers as it does; the row names the actor, and after an accepted consumption its key, if Redis answers, is usable no more and every other is as it was |
| CredentialServices.CredentialLifecycleService.RevokeById | src/aeropass/services/credential_lifecycle_service.py:76-103 | does the machine's revoke transaction with its two clock readings; the row names the caller's reason, and the key is deleted only if the revocation was accepted |
| CredentialServices.CredentialLifecycleService.DetailForOwner | src/aeropass/services/credential_lifecycle_service.py:106-118 | expires the owner's credential if it is due and changes nothing else, answers it with its whole history, and changes nothing for anyone else |
| CredentialServices.CredentialLifecycleService.SweepExpired | src/aeropass/services/credential_lifecycle_service.py:121-129 | the loop expires exactly the selected rows and counts them |
| CredentialServices.PassIssuanceService.Issue | src/aeropass/services/pass_issuance_service.py:75-115 | the answer for every branch; the rows it leaves, spelled out; after a success the new key is usable until its TTL ends, the key of a revoked old credential is gone if Redis answered, and every other key is as it was; no uniqueness violation while one live credential per pair holds |
| CredentialServices.PassIssuanceService.StageAnterior | src/aeropass/services/pass_issuance_service.py:85-90 | the old credential is staged as the machine does, and the key to forget is that of a revoked one only |
| CredentialServices.PassIssuanceService.ActivateOrRevoke | src/aeropass/services/pass_issuance_service.py:103-111 | the new credential becomes ACTIVA exactly if its key was registered, else REVOCADA |
| CredentialServices.IssueAloneIsIssueTx | src/aeropass/services/pass_issuance_service.py:75-112 | the machine's four steps, with nothing between them, leave the table the service method leaves |
| CredentialServices.IssueAloneLeavesTokens | src/aeropass/services/pass_issuance_service.py:103-115 | with the forgetting that follows they leave the token store the service method leaves |
| CredentialServices.IssueTxRows | src/aeropass/services/pass_issuance_service.py:81-112 | the new row and its two transitions field by field, the old row expired if due and else revoked for the renewal, every other row as it was |
| CredentialServices.IssueTokensRenew | src/aeropass/services/pass_issuance_service.py:103-115 | after a success the new key is usable exactly until registration + TTL, the key of a revoked old credential never again, and no other key changed |
| CredentialServices.ConsumeAsks | src/aeropass/services/credential_lifecycle_service.py:63-65 | the credential is expired if due and then asked for CONSUMIDA by the caller's actor, which only an ACTIVA one grants |
| CredentialServices.RevokeAsks | src/aeropass/services/credential_lifecycle_service.py:81-92 | the credential is expired if due and then asked for REVOCADA with the caller's reason, which only a live one grants |
| CredentialServices.RefrescaExpires | src/aeropass/domain/credential/credential.py:126-130 | lazy expiry adds exactly one EXPIRADA row to a live past-due credential and leaves every other one as it is |
| CredentialServices.StagedPairIsFree | src/aeropass/services/pass_issuance_service.py:85-102 | with one live credential per pair, staging the old one leaves no live one for the new one to collide with |
| Outbox.NothingIsLost | src/aeropass/services/outbox_dispatcher.py:59-84 | with any crashes, late saves and outages no row is ever removed, a delivered event was published, and a pending one is due within 180 s |
| OutboxLease.StepInv | src/aeropass/services/outbox_dispatcher.py:59-84 | with timely saves every step keeps: one live holder per event, held rows as they were read, failures counted and spaced by the backoff |
| OutboxLease.SaveMeaning | src/aeropass/adapters/db/repositories.py:297-305 | a timely save replaces a row that is still pending and that nobody else holds |
| OutboxLease.StepKeepsDelivered | src/aeropass/adapters/db/repositories.py:297-305 | with timely saves no step changes a delivered row |
| OutboxTheorems.LeaseExcludes | src/aeropass/services/outbox_dispatcher.py:59-74 | over every run with timely saves: one live holder per event, `intentos` is the number of recorded failures, and delivered stays delivered |
| OutboxTheorems.FailureWaitsExactly | src/aeropass/domain/events.py:60-89 | over every run with timely saves, after the n-th recorded failure and until its next claim an event is due exactly min(2^n, 180) s after the end of that publication |
| OutboxTheorems.NewEventIsDue | src/aeropass/domain/events.py:75-77 | until its first claim a new event is due from the instant it occurred |
| OutboxTheorems.LateSaveUndoesDelivery | src/aeropass/adapters/db/repositories.py:297-305 | a reachable run in which a save after the lease puts a delivered event back to pending |
| OutboxTheorems.PacedBatchesAreSafe | src/aeropass/services/outbox_dispatcher.py:53-74 | over all runs with at most k entries a claim and at most tau a save no event has two live holders and no delivery is undone, if and only if k * tau < 30 s |
| OutboxTheorems.PacedIsTimely | src/aeropass/services/outbox_dispatcher.py:59-74 | in every such run with k * tau < 30 s each save comes before the end of its lease |
| OutboxTheorems.DeliveredMeansPublishedOnce | src/aeropass/services/outbox_dispatcher.py:66-84 | without crashes and within the leases every delivered event was published exactly once and none more often |
| OutboxRecovery.DeliveredAfterRecovery | src/aeropass/services/outbox_dispatcher.py:52-84 | whatever came before, late saves and crashes included: once publishing works, with a dispatch every 60 s that has room, each stored event is delivered or held by 240 s and delivered by 270 s, inside the promised five minutes |
| OutboxRecovery.OutageCost | src/aeropass/domain/events.py:60-89 | n recorded failures of one event span at least the sum of its backoffs, so D seconds of outage see at most 8 + D/180 of them |
| OutboxRecovery.OutageSpanClosed | src/aeropass/domain/events.py:60-61 | that sum is 2^n - 2 up to eight failures and then 180 s more for each |
| OutboxServices.InMemoryOutboxRepository.ClaimDue | src/aeropass/adapters/fakes/repositories.py:119-138 | answers the due rows, earliest first and cut at the limit, as they were, and leases exactly those |
| OutboxServices.OutboxDispatcher.DispatchDue | src/aeropass/services/outbox_dispatcher.py:52-57 | undisturbed, it dispatches the due rows that fit, and the deliveries and the pending events it reports make up exactly what was pending before |
| OutboxServices.SaveRestPending | src/aeropass/services/outbox_dispatcher.py:67-73 | recording a batch takes out of the pending rows exactly the entries that were published |
| OutboxServices.OutboxDispatcher.Dispatch | src/aeropass/services/outbox_dispatcher.py:59-84 | each selected row is delivered at the end of its publication, or has one attempt more and is due min(2^n, 180) s after it; no other row changed; and it counts the deliveries |
| OutboxServices.DispatchIs | src/aeropass/services/outbox_dispatcher.py:67-84 | claiming and then recording every outcome in order leaves exactly those rows |
| OutboxServices.LoopIsRun | src/aeropass/services/outbox_dispatcher.py:67-84 | the loop's effect is that of the machine's publish and save steps for each claimed entry in turn |
| CircuitBreaker.HalfOpenExclusion | src/aeropass/adapters/resilience/circuit_breaker.py:119-159 | from whatever instant the service starts: over all interleavings of timely recorded calls at most one executes while half open, if and only if timeout + 1 fits in the open period |
| CircuitBreaker.StepInv | src/aeropass/adapters/resilience/circuit_breaker.py:119-159 | under OPEN every call in flight began at least the open period before its end, so late failures of old calls cannot break the trial |
| CircuitBreaker.ClosedCounts | src/aeropass/adapters/resilience/circuit_breaker.py:144-157 | over sequential calls the counter of a closed breaker is the length of a run of executed failures within one window |
| CircuitBreaker.OpensOnlyAfterThreshold | src/aeropass/adapters/resilience/circuit_breaker.py:144-157 | it opens from closed only if the last `failure_threshold` executed calls all failed within one window |
| CircuitBreaker.BurstExact | src/aeropass/adapters/resilience/circuit_breaker.py:149-157 | consecutive failures spanning at most the window open a closed breaker if and only if those before the end of its window, with the ones counted, or those after it reach the threshold |
| CircuitBreaker.BurstSize | src/aeropass/adapters/resilience/circuit_breaker.py:149-157 | n consecutive failures within one window's length open it after every run of calls if and only if n >= 2 * threshold - 2 (the threshold itself when that is 1 or the window is empty) |
| CircuitBreaker.BurstOpens | src/aeropass/adapters/resilience/circuit_breaker.py:149-157 | 2 * threshold - 1 of them, with the ones counted, open it from any closed state |
| CircuitBreaker.SevenFailuresMayNotOpen | src/aeropass/adapters/resilience/circuit_breaker.py:149-152 | at any time t past the first minute a failure at t and seven around t + 60 leave the default breaker closed |
| CircuitBreaker.OutageIsProbedSlowly | src/aeropass/adapters/resilience/circuit_breaker.py:123-148 | once open and while calls fail it stays open, and executions are at least the open period apart |
| CircuitBreaker.SuccessRestores | src/aeropass/adapters/resilience/circuit_breaker.py:119-142 | after every sequential run the next call executes exactly unless the breaker is open and its period not over; a call turned away leaves no trace, and one that executes and succeeds leaves the breaker as new |
| CircuitBreaker.NeverLockedOut | src/aeropass/adapters/resilience/circuit_breaker.py:119-142 | over all interleavings, abandoned trials included, calls are let through exactly from the stored instant on, which is at most the open period or timeout + 1 away; a success closes the breaker unless it began with nothing to reset |
| CircuitBreaker.Breaker.Call | src/aeropass/adapters/resilience/circuit_breaker.py:119-142 | the state stored and the answer given are those of the sequential specification, of which the lemmas of this module speak, and other breakers' states are untouched |
| CircuitBreaker.Breaker.RecordFailure | src/aeropass/adapters/resilience/circuit_breaker.py:144-159 | the failure is recorded against the snapshot read when the call began |
| RateLimiter.NoWindowExceedsLimit | src/aeropass/adapters/fakes/rate_limiter.py:17-26 | no half-open interval of 60 s, wherever it begins, holds more than 30 allowed hits |
| RateLimiter.FakeRateLimiter.Hit | src/aeropass/adapters/fakes/rate_limiter.py:17-26 | allowed exactly if fewer than 30 of the key's allowed hits in its whole history lie less than 60 s back; on refusal the wait is exact; other keys are untouched |
| RateLimiter.WaitIsLeast | src/aeropass/adapters/fakes/rate_limiter.py:22-24 | a hit in k seconds would be allowed if and only if k is at least `retry_after` |
| RateLimiter.FakeRateLimiter.Prune | src/aeropass/adapters/fakes/rate_limiter.py:20-21 | what is left of the queue is exactly the part of the full history less than 60 s old |
| RateLimiter.FakeRateLimiter.WindowRespected | src/aeropass/adapters/fakes/rate_limiter.py:10-26 | whatever calls were made, each key's allowed hits respect the limit in every window |
| Registration.RegistrationService.Register | src/aeropass/services/registration_service.py:55-97 | answer and table are those of an atomic register at some point during the call, race losers included, unless account and document were registered between the two reads, the account first; a failed upload is what is answered exactly when the check found neither, and then nothing is stored; account and document stay unique and no passenger disappears |
| Registration.RegistrationService.ResolveRace | src/aeropass/services/registration_service.py:88-97 | the loser gets the answer of an atomic register on the table the winner left |
| Registration.AtomicRegisterDecides | src/aeropass/services/registration_service.py:55-68 | the atomic register has one answer per table, save for whether the upload worked |
| Registration.OthersKeep | src/aeropass/adapters/fakes/repositories.py:67-72 | inserts of any requests never remove or change a passenger and keep account and document unique |
| Registration.PassengerRepository.Add | src/aeropass/adapters/fakes/repositories.py:67-72 | refuses exactly when the account or the document is taken |
| Registration.SplitReadExact | src/aeropass/services/registration_service.py:55-62 | with other inserts between the two reads the optimistic answer is right at some point between them if and only if it is not the case that account and document were both new and the account came first |
| Registration.SplitReadAnomaly | src/aeropass/services/registration_service.py:55-62 | a case in which one's own resubmission is answered as another account's document, which is right at no point between the reads |
| Verification.PipelineConserves | src/aeropass/services/identity_verification_facade.py:86-107 | in every state of every run from empty tables, registrations included: failures counted and at most 3; verified iff one success, and then one identity and one event naming it; manual review iff 3 failures |
| Verification.RunConserves | src/aeropass/services/identity_verification_facade.py:86-107 | the tables are consistent at the start and after every registration and upload |
| Verification.TransactionConserves | src/aeropass/services/identity_verification_facade.py:86-107 | one locked transaction keeps that for every passenger and changes nothing of the others |
| Verification.ExistingIdentityUnreachable | src/aeropass/services/identity_service.py:30-32 | the branch for an identity that already exists is never taken |
| Verification.ConcludesOnce | src/aeropass/domain/passenger.py:148-157 | at most one committed outcome per passenger has a final state, and none is committed after it |
| Verification.AnswersTell | src/aeropass/services/identity_verification_facade.py:86-112 | over every run the caller is told exactly who may not be verified, the result its biometric scores deserve, the final state (VERIFICADO for a pass, manual review for the third stored failure, else none) and the identity created |
| Verification.FinalStays | src/aeropass/domain/passenger.py:133-138 | a concluded passenger is never written again |
| Verification.VerifiedIffPassed | src/aeropass/domain/verification.py:26-36 | a passenger is verified if and only if one of its recorded uploads reached both inclusive thresholds |
| Verification.EveryAttemptTells | src/aeropass/services/biometric_verification_service.py:32-45 | every stored attempt comes from an upload of its passenger and says truly how it compares; liveness is blamed first |
| UnitOfWork.IdentityVerificationFacade.Verify | src/aeropass/services/identity_verification_facade.py:86-107 | with shared mutable passenger objects, what is committed is exactly the specified transaction, and a rejection commits nothing |
| UnitOfWork.IdentityVerificationFacade.RecordAttempt | src/aeropass/services/biometric_verification_service.py:32-45 | the attempt is stored and its outcome applied to the locked passenger, in the working state only |
| UnitOfWork.IdentityService.CreateForSuccess | src/aeropass/services/identity_service.py:21-41 | returns the active identity or creates it together with its event; the uniqueness check of `add` never fires |
| UnitOfWork.Agregado.Apply | src/aeropass/domain/passenger.py:133-146 | refuses unless verification is pending, else applies the outcome and the limit of three failures |
| UnitOfWork.InMemoryUnitOfWork.Session | src/aeropass/adapters/fakes/repositories.py:207-224 | a whole unit of work commits exactly what was done before its commit, or nothing; writes through old references afterwards do not reach it |
| UnitOfWork.InMemoryUnitOfWork.Run | src/aeropass/adapters/fakes/repositories.py:207-214 | whatever is called and mutated in place, the committed state stays as it was |
| UnitOfWork.WritesReadBack | src/aeropass/adapters/fakes/repositories.py:67-72 | each kind of write is read back, the others' rows and tables are as they were, and a second active identity is refused |
| UnitOfWork.InMemoryUnitOfWork.Commit | src/aeropass/adapters/fakes/repositories.py:219-221 | the committed state becomes equal to the working one and shares no mutable object with it |
| UnitOfWork.InMemoryState.DeepCopy | src/aeropass/adapters/fakes/repositories.py:32-39 | an equal state of all six tables made of new objects only |
| UnitOfWork.InMemoryState.AddIdentity | src/aeropass/adapters/fakes/repositories.py:100-103 | refuses exactly an active identity for a passenger that has one |
| UnitOfWork.InMemoryState.StoreCredential | src/aeropass/adapters/fakes/repositories.py:154-157 | the pending rows go to the history and a copy without them to the table |
| TokenTimes.AcceptedIsBeforeExpiry | src/aeropass/domain/credential/signing.py:85-89 | an instant the verifier accepts is strictly before the credential's expiry |
| TokenTimes.AcceptanceWindow | src/aeropass/domain/credential/signing.py:85-89 | the instants accepted are exactly one half-open interval, from five whole seconds before `iat` to `exp`, and from `exp` on the token is expired |
| TokenTimes.ClaimsBracket | src/aeropass/domain/credential/builder.py:90-98 | `iat` and `exp` are the whole seconds in which issue and expiry fall |
| TokenTimes.ExpiresLessThanASecondEarly | src/aeropass/domain/credential/signing.py:85-87 | the verifier's expiry check on the signed token is less than a second early for every clock reading if and only if the expiry is not within the first second after the epoch |
| TokenTimes.LifetimeIsTtl | src/aeropass/domain/credential/builder.py:90-98 | `exp - iat` is the TTL if and only if the lifetime does not straddle the epoch off a whole second |
| Images.MarkerRoundTrip | src/aeropass/adapters/fakes/images.py:20-51 | a non-empty alphanumeric marker can be packed if and only if it has at most 65528 bytes, and is then the one answer a correct reader gives |
| Images.JpegIsOneComment | src/aeropass/adapters/fakes/images.py:20-22 | the image is start marker, one comment segment with its true length, and end marker |
| Images.ReadMarker | src/aeropass/adapters/fakes/images.py:42-51 | answers the longest alphanumeric run behind the first prefix, or nothing if it is empty or there is no prefix |
| Images.FirstMatchIsAtSix | src/aeropass/adapters/fakes/images.py:20-22 | neither the header nor any length bytes can contain or begin a match |

## Left out

- OutboxTheorems.LeaseExcludes: needs every save to come before the end of its lease, because the code does not enforce it; `PacedBatchesAreSafe` says which pace guarantees it.
- OutboxTheorems.DeliveredMeansPublishedOnce: needs that no dispatcher crashes between publishing and saving or outlives its lease; otherwise QStash's own deduplication, which is not part of this model, is the guard.
- OutboxRecovery.DeliveredAfterRecovery: from the recovery on no dispatcher crashes or is at work beyond its lease, and each scheduled batch has room for all that is due; with a longer backlog than the limit the bound does not hold.
- OutboxServices.OutboxDispatcher.Dispatch: `publish_now` is the same call with its exceptions swallowed; a failure other than PublishFailed ends the batch, which the machine shows as a crash.
- OutboxServices.OutboxDispatcher.DispatchDue: speaks of a dispatch nobody interferes with; with others at work the two numbers are read at different moments.
- CircuitBreaker.BurstExact: counting is about calls made one after another, since an interleaved failure is recorded against an old snapshot.
- CircuitBreaker.BurstSize: the first failure is later than one window after the epoch, as every real one is.
- CircuitBreaker.HalfOpenExclusion: the read and save before `fn` are one step, as in the in-memory store on one event loop, and each call is recorded within `timeout + 1` of its start.
- CredentialServices.InMemoryCredentialRepository.ExpiredLiveForUpdate: orders by expiry as the SQL does; the in-memory double takes them in dictionary order.
- CredentialServices.PassIssuanceService.Issue: the flight catalogue, the rate limit and the first passenger lookup are before it; a missing or inactive identity and an expired document are inputs.
- Images.MarkerRoundTrip: says nothing of PNG, where CRC bytes follow the marker.
- Claims with SKIP LOCKED: a claim that skips a row another transaction holds is taken to come after that transaction.
- The builder's field checks, permissions, flight numbers, document validation and image sniffing: easy members.
- Signatures and JWT encoding; only the time claims are modelled.
- Routers, schemas, wiring, configuration, CORS, Sentry, telemetry and audit emission.
- The real Clerk, Blob, QStash, Upstash and biometric clients, including the issuance limiter that lets hits through when Redis is down.
- A breaker whose state store is broken: `state` and `_save` then fall back to a closed breaker.
- SQLAlchemy sessions, the identity map, migrations and triggers.
- Error texts (`ultimo_error`), names of violated constraints, media paths and masked numbers.
- Rounding of float timestamps: the breaker uses reals and everything else whole microseconds.
