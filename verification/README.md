# Verification of the integrations module

This project models four parts of the integrations module and proves what they promise: the inbound event
lane, the OAuth account lifecycle with its refreshes, the credential store behind them, and the text and
guard functions of the OAuth flow. `dafny verify dfyconfig.toml` checks all of it.

## How it is modelled

**Concurrency.** Each lane is a labelled step relation: a `World` (committed tables, running calls, history),
a `Label` (who does what, with every outside answer in it), `Enabled` and a deterministic `Apply`. A step is
what is atomic in the source: one statement outside a transaction, one committed transaction, one call to an
outside party. Any number of calls overlap, and `Fail` may end an unfinished one between any two of its
steps (an error return, a rollback, a crash). A *run* starts from empty tables; a *path* from any world.

**The source's own form.** The service and job bodies are methods of classes that change table fields
statement by statement (`EventService`, `OAuthDatabase`, `OAuthService`, `RefreshJob`, `CredentialStore`,
`EndpointGuard.ProviderRegistry`). Between two statements they pass a scheduling point, `Others`, after which
everything but their own place in the program may have changed. Their ghost fields record the run; every
method is proved to be a path of its lane, so the theorems about runs hold of these bodies. A step can only go
by answers the body has just been given: what the target was asked and said (`asked`), and what store,
provider and configuration answered (`unused`), are kept apart from the run and must match it. So are the calls
that database or provider left without an answer (`outages`), and an error needs its reason.

**The inbound event lane.** `EventTables` holds the rows and the repository's statements, `EventLane` the
steps, `EventInvariants`, `EventTarget` and `EventCounts` what every step keeps, `EventResults`,
`EventStranding` and `EventKeys` the theorems, `EventAnswers` what each call asks, writes and answers, column by
column, and `EventService` the bodies. The dedup key is (connector, business
key), as the code and its unique index have it; comments that still name the external id are not followed.

**OAuth accounts.** `IdentityChecks` and `AccountRows` hold the decisions and statements, `AccountLane` the
steps with row locks (`FOR UPDATE SKIP LOCKED`, and writers that wait), `AccountInvariants` what every step
keeps. Results: `AccountResults` (lifecycle, completions), `CompletionOrigins`, `RefreshOrigins` and
`AccountSteps` (where everything that is stored, written and answered comes from, down to the columns),
`RefreshResults` (store and mirror),
`SweepCoverage`, `SweepOnce`, `SweepAlone`, `ServiceSweep` (sweeps), `RefreshAgreement` with `RefreshDrive` (job against
service), `CrashRepair` (crash and repair), `Withdrawals`, `Reissues` and `LateRejection` (what a disconnect
and a late rejection leave behind), `Reconnects` (the refresh token over a reconnection); `CompletionRun` has
the runs the last two start from. Bodies: `OAuthDatabase`,
`OAuthService`, `RefreshJob`.

**Credential store.** `CredentialStore` has the port's promise per scope and `FakeStore`, an append-only list
shown to stand for it.

**Text and guards.** `Strings`, `Utf8`, `Base64Url` (section 5 of RFC 4648), `StateToken`, `FormParser`
(serializer of section 5.2 of the WHATWG URL Standard), `CallbackPage`, `EndpointGuard`. `Outcomes` and
`Lists` are shared vocabulary.

**Outside parties** are parameters of steps: database failures, the target module's and the provider's
answers, injected store failures (a failing port call is one that did nothing), the clock, fresh ids. The
clock never runs backwards.

## Findings

Each names a promise the code does not keep, a run or an input that shows it, and the exact condition under
which it does hold.

- *Every received event gets settled.* A delivery that stops between its claim and its commit strands its
  event (`EventStranding.AnyDeliveryMayStrand`, from any world, for any admissible event with a free slot). The
  event stays `received` for ever, with nothing staged: retries skip it and redeliveries are duplicates
  (`StrandedForEver`). A received event can still be settled if and only if the call that claimed it has not
  ended (`SettlesUnlessStranded`).
- *Distinct dedup slots have distinct effects.* The slot is per connector, but the idempotency key forwarded
  to the target is the business key alone: two admissible events of different connectors can end as one record
  (`EventKeys.TwoSlotsOneRecord`). With a target that answers a repeated key alike and never gives one
  reference under two keys, two mapped events share a record if and only if they share a business key
  (`OneRecordPerKey`).
- *Any rejection of a completion leaves zero writes*, as its documentation has it. For every builtin provider
  and every identity that passes there is a run in which the rejection follows the store write
  (`LateRejection.RejectionAfterTheStoreWrite`). A completion has written if and only if it reached its last
  statement, and otherwise changed nothing (`AccountResults.ZeroWritesExactly`); from there, database
  permitting, it is turned away exactly when its row is no longer pending (`TurnedAwayExactly`).
- *A disconnect that answers Ok has revoked the credential.* In the same run it leaves a live one, and a second
  disconnect, with nothing else running, leaves it too (`LateRejection.SecondDisconnectChangesNothing`). After a
  revocation the scope is live if and only if a completion issued it since with no revocation after that
  (`Withdrawals.AfterWithdrawal`, and `DisconnectLeavesLive` for every Ok). It never is if no completion of the
  account is in flight at the revocation and none begins later (`DisconnectHolds`); and while none begins later
  it can become so if and only if one in flight may still issue, which its stage, its row and its account's
  address decide (`Reissues.DisconnectHoldsExactly`).
- *Job and service refresh alike.* They agree exactly under `RefreshAgreement.SameConditions`. Among the cases
  where they part: a credential that is still fresh, which the job exchanges and rotates again where the
  service only mirrors it, and a client with a blank id, which the job uses and the service refuses
  (`FreshCredentialParts`, `BlankClientParts`).
- *A service sweep refreshes every due account.* It keeps no list of what it has attempted, so from any world in
  which it stands before its claims its oldest account may take every turn of the batch
  (`ServiceSweep.OneAccountTakesTheBatch`). It reaches all a job run would when none of its attempts leaves its
  account due (`ServiceSweepCovers`).
- *A reconnection carries the prior refresh token forward.* Over a credential past its expiry it does not: the
  read answers expired, and the rotation replaces the credential by one without a refresh token
  (`Reconnects.ReconnectMayLoseTheToken`). What a completion leaves live has one if and only if the provider
  handed one out or the store let the completion read one (`TokenKeptExactly`).

## Model

| member | source | states |
|---|---|---|
| EventTables.HistoriesAfter | src/application/service/integrations_write_service.rs:325-344 | one staged row appends one notice to its own event's history and to no other |
| EventInvariants.StepKeeps | src/application/service/integrations_write_service.rs:126-311 | every step, of any call, keeps the invariant: unique slots, row shapes, histories that agree with rows, ownership of received rows by their claimers, honest call outcomes; and rows only move forward |
| EventInvariants.SettleMatches | src/application/service/integrations_write_service.rs:183-226 | a receive call about to commit still owns a received row |
| EventInvariants.RedrivenTables | src/application/service/integrations_write_service.rs:269-310 | a retry commit keeps table and outbox in agreement whatever became of the event since it was fetched |
| EventInvariants.ClaimKeeps | src/infrastructure/persistence/integration_event_repository.rs:92-110 | won, lost or colliding, a claim keeps the invariant |
| EventTarget.AsksKeep | src/application/service/integrations_write_service.rs:177-181 | only the owner of a slot asks the target on receipt, once; retries ask about failed events under the same key |
| EventTarget.AnswersKeep | src/application/service/integrations_write_service.rs:177-301 | every reference a mapped row stores was given by the target for that event |
| EventCounts.CountsKeep | src/application/service/integrations_write_service.rs:269-310 | each retry run's counter equals the failed→mapped transitions it has committed |
| EventCounts.RecoveriesKeep | src/application/service/integrations_write_service.rs:282-301 | the recovered events are exactly those staged as failed and then mapped, each once |
| EventResults.RunSound | src/application/service/integrations_write_service.rs:126-311 | all of the above hold in every world of every run |
| EventResults.RowsOverTime | src/infrastructure/persistence/integration_event_repository.rs:138-288 | over any stretch of a run rows keep their identity and move only received→mapped, ignored or failed and failed→mapped or ignored |
| EventResults.FinalRowsFrozen | src/infrastructure/persistence/integration_event_repository.rs:230-288 | mapped and ignored rows never change again |
| EventResults.OutboxMatchesRow | src/application/service/integrations_write_service.rs:183-310 | each event's outbox history is [], [Mapped], [Ignored], [Failed] or [Failed, Mapped] and matches its row: [] exactly when received, ending in its own mapped notice exactly when mapped, [Failed] exactly when failed or ignored by a retry |
| EventResults.OneClaimPerSlot | src/application/service/integrations_write_service.rs:152-181 | over any number of deliveries at most one receive call per (connector, business key) asks the target, and once |
| EventResults.DeliveriesAgree | src/application/service/integrations_write_service.rs:152-226 | deliveries of one key that return Ok return the same event id, at most one of them not as a duplicate |
| EventResults.RereadFinds | src/infrastructure/persistence/integration_event_repository.rs:114-132 | the re-read after a lost claim always finds a row |
| EventResults.MarksNeverMiss | src/infrastructure/persistence/integration_event_repository.rs:138-190 | the first marks always hit, although nobody looks at the rows affected |
| EventResults.RetryCountsAddUp | src/application/service/integrations_write_service.rs:269-310 | the counts of any completed retry runs sum to the transitions those runs committed; no event is recovered or staged as mapped twice |
| EventResults.MappedRowsHoldTheEffect | src/application/service/integrations_write_service.rs:177-301 | with a target that answers a repeated key alike, the target has exactly one effect per mapped business key, and the row stores it |
| EventAnswers.AdmitDecides | src/application/service/integrations_write_service.rs:132-151 | a delivery is turned away as invalid, as of an unknown or deleted connector, or of one not active, each exactly then and in that order, and otherwise let in with the connector's kind |
| EventAnswers.ClaimWrites | src/infrastructure/persistence/integration_event_repository.rs:92-110 | a claim loses exactly to a row with the same connector and business key, and otherwise, for a new id, inserts one received row with the delivery's columns and nothing else |
| EventAnswers.EveryAskIsLawful | src/application/service/integrations_write_service.rs:132-281 | every question ever put to the target carries the event's own columns and the kind of its connector as the gate of that call read it: active for a first question, known for a retry; only received events are asked about first, only once failed ones again |
| EventAnswers.AnswerWasGiven | src/application/service/integrations_write_service.rs:183-308 | what a call commits is the answer the target gave this very call about this very event |
| EventAnswers.SettleWrites | src/application/service/integrations_write_service.rs:183-226 | a receive commit turns its row, and no other, into mapped with the answered reference, ignored with the reason, or failed with the message, stages exactly the one record of it, and answers with that row's status and reference |
| EventAnswers.RereadAnswers | src/application/service/integrations_write_service.rs:166-175 | a duplicate is answered with the status and reference of its slot's row as it stands, and writes nothing |
| EventAnswers.AnswerIsTheRow | src/application/service/integrations_write_service.rs:152-226 | every Ok of a delivery carries the status and the reference its event's row had at the step that ended the call: the row it wrote, or for a duplicate the row it read |
| EventAnswers.AdmitRetryDecides | src/application/service/integrations_write_service.rs:262-267 | a retry is turned away exactly when its connector does not exist |
| EventAnswers.SettleRetryWrites | src/application/service/integrations_write_service.rs:280-308 | a retry commit leaves any row that is no longer failed; a failed one becomes mapped with the answered reference and no error, ignored with the reason, or stays failed with the message; a record is staged and the event counted exactly in the first case |
| EventAnswers.EveryFailedIsRedriven | src/application/service/integrations_write_service.rs:269-310 | a retry run that answers Ok fetched exactly the connector's failed events, each once, and committed an answer for every one of them |
| EventStranding.OnlyTheClaimerMoves | src/infrastructure/persistence/integration_event_repository.rs:138-190 | a received row is moved by nobody but the call that claimed it |
| EventStranding.StrandedForEver | src/application/service/integrations_write_service.rs:152-311 | an event whose claimer ended without settling stays received with an empty history in every later world |
| EventStranding.AnyDeliveryMayStrand | src/application/service/integrations_write_service.rs:126-181 | from any world of any run, any admissible event whose slot is free may become such an event |
| EventStranding.EveryReceivedIsClaimed | src/application/service/integrations_write_service.rs:152-226 | in every world of every run each received row has a claimer that owns it, has its answer, or has ended |
| EventStranding.SettlesUnlessStranded | src/application/service/integrations_write_service.rs:152-311 | a received event can leave that status in some continuation of the run if and only if its claimer has not ended |
| EventKeys.KeysCrossConnectors | src/application/service/integrations_write_service.rs:177-181 | under a target that answers a repeated key alike, mapped events of different connectors sharing a business key store one reference |
| EventKeys.OneRecordPerKey | src/application/service/integrations_write_service.rs:177-301 | if the target also separates keys, two mapped events store one reference if and only if their business keys are equal |
| EventKeys.TwoSlotsOneRecord | src/application/service/integrations_write_service.rs:126-226 | for any two admissible events of different connectors with one business key there is a run, with a target that keeps its word, mapping both to one reference |
| EventService.IntegrationsWriteService.ReceiveEvent | src/application/service/integrations_write_service.rs:126-226 | under any interference a path of the lane ending in the returned result; an Ok reports the row of its slot as it stands, status and reference, and a first delivery has staged exactly one record; each error only for its reason, the database's only when it gave no answer or the new id was taken |
| EventService.IntegrationsWriteService.RetryFailed | src/application/service/integrations_write_service.rs:253-311 | under any interference a path of the lane ending in the returned count, which is the number of failed→mapped transitions this run committed; an error only for an unanswering database or an unknown connector |
| EventService.IntegrationsWriteService.FetchFailedEvents | src/infrastructure/persistence/integration_event_repository.rs:197-222 | exactly the connector's failed events, each once |
| EventService.IntegrationsWriteService.FetchByBusinessKey | src/infrastructure/persistence/integration_event_repository.rs:114-132 | a row of the slot, or none exactly when the slot is free |
| EventService.IntegrationsWriteService.RetryMarkMapped | src/infrastructure/persistence/integration_event_repository.rs:230-246 | the guarded update, reporting one row exactly when it hit a failed one |
| EventService.IntegrationsWriteService.SettleOne | src/application/service/integrations_write_service.rs:282-308 | mark, stage and count of one retried event: the failed row takes the target's answer column by column, any other row stays, and one record is staged and counted exactly when a failed row has been mapped |
| AccountInvariants.StepKeeps | src/application/service/integrations_oauth.rs:498-1056 | every step keeps the invariant: a refreshing call holds its row's lock and the row active and unchanged in identity; row shapes; what each completion has verified so far; at most one completed call per account |
| AccountInvariants.RowsAfterStep | src/application/service/integrations_oauth.rs:498-805 | per step an id appears only fresh and pending, a pending row becomes active or revoked, an active one expired or revoked, and expired or revoked rows do not change |
| AccountInvariants.SettledMoves | src/infrastructure/jobs/refresh_oauth_credentials.rs:432-482 | a settling refresh hits its row, active, and leaves it active or expired |
| AccountInvariants.LockedStands | src/application/service/integrations_oauth.rs:836-902 | a locked row does not change until its holder settles |
| AccountResults.LifecycleOverTime | src/application/service/integrations_oauth.rs:498-805 | between any two worlds of any run each account id only moved forward, expired and revoked rows are frozen to the letter, deleted ids never return; verifiers exist only while pending, and active or expired rows have both times |
| AccountResults.LifecycleByStep | src/application/service/integrations_oauth.rs:735-805 | one step at a time: no other change of status |
| AccountResults.HoldDisjointAccounts | src/infrastructure/jobs/refresh_oauth_credentials.rs:162-209 | overlapping sweeps and on-use refreshes never hold the same account |
| AccountResults.LockReplacesGuard | src/infrastructure/jobs/refresh_oauth_credentials.rs:432-482 | with a status guard and a verifier reset in every one of its statements no refresh would write or count anything else |
| AccountResults.OkMeans | src/application/service/integrations_oauth.rs:596-766 | an Ok passed audience, nonce and e-mail as held against the nonce of the state and the client id and bypass of the configuration it began with; one expiry, later than its clock reading, went first into the store under the account's own provider and reference, then onto the row, then to the caller |
| AccountResults.OkNames | src/application/service/integrations_oauth.rs:1105-1179 | an Ok means the provider named that client and that nonce, each at least once and never otherwise, and the account's own mailbox, or any under the bypass |
| AccountResults.OneOkPerAccount | src/application/service/integrations_oauth.rs:735-756 | at most one completion per account ever answers Ok |
| AccountResults.RejectedBeforeStore | src/application/service/integrations_oauth.rs:596-733 | a completion whose credential never reached the store has touched no account, lock or credential in any of its steps |
| AccountResults.ZeroWritesExactly | src/application/service/integrations_oauth.rs:596-766 | a completion has had a store verb accepted if and only if it reached its last statement, its bundle then being live in its scope; otherwise none of its steps changed anything |
| AccountResults.TurnedAwayExactly | src/application/service/integrations_oauth.rs:735-756 | at its last statement, database permitting, it is rejected exactly when its row is no longer pending |
| AccountResults.LeftAloneMeans | src/application/service/integrations_oauth.rs:868-902 | an on-use call that refreshed nothing found the account not due, or not active, or held by another refresh |
| CompletionOrigins.VerifierFrom | src/application/service/integrations_oauth.rs:598-640 | the provider is asked for an account found pending and of the state's provider, with the verifier of that row, not empty, if the provider uses PKCE, and with none otherwise |
| CompletionOrigins.BundleFrom | src/application/service/integrations_oauth.rs:642-733 | the bundle a completion carries, rotates in or has in the store is made of its own response: access token and lifetime are the response's, the scope too or else the provider's defaults, the refresh token too or else that of the live, unexpired credential its scope held, or else none |
| CompletionOrigins.CompletedFrom | src/application/service/integrations_oauth.rs:642-766 | behind every Ok there is one such response: its row was left active with the response's scope, the reported expiry, the clock reading and no verifier |
| CompletionOrigins.InsteadDecides | src/application/service/integrations_oauth.rs:711-731 | the rotation of a reconnection replaces a live credential by the bundle, and ends the completion in any other case |
| AccountSteps.AuthorizeWrites | src/application/service/integrations_oauth.rs:498-520 | an authorization removes exactly the rows of its account that it sees, waiting for whoever holds one, and adds one new pending row with its scopes and verifier |
| AccountSteps.ClaimedFrom | src/infrastructure/jobs/refresh_oauth_credentials.rs:170-204 | whatever a call refreshes it claimed unlocked and active: in a sweep as the one that expires first of all that are due, free and, for the job, not yet attempted; on use by its id |
| AccountSteps.SweepEnds | src/application/service/integrations_oauth.rs:838-860 | a sweep ends only with its batch spent, or when no account is due and free |
| AccountSteps.DisconnectedFrom | src/application/service/integrations_oauth.rs:775-805 | an Ok of a disconnect found its account revoked, or withdrew the credential of the account it found and then revoked the row if that was still pending or active |
| LateRejection.RejectionAfterTheStoreWrite | src/application/service/integrations_oauth.rs:596-805 | for every builtin provider, every account with its verifier and every identity that passes there is a run in which the completion is rejected after its store write, the disconnect answers Ok, and a live credential remains |
| LateRejection.EveryAccountMayBeLeftLive | src/application/service/integrations_oauth.rs:596-805 | for every builtin provider and account address there is such a run with the bypass off |
| LateRejection.SecondDisconnectChangesNothing | src/application/service/integrations_oauth.rs:775-782 | after that run, and with no step of any other call, a second disconnect answers Ok and leaves rows, store and the two finished calls exactly as they were, the credential live |
| Withdrawals.LiveExactly | src/application/service/integrations_oauth.rs:693-788 | between any two worlds of any path a scope is live exactly when it was and has not been revoked since, or a completion issued it since with no revocation after |
| Withdrawals.AfterWithdrawal | src/application/service/integrations_oauth.rs:783-788 | after a revocation a scope is live if and only if a completion issued it later with no further revocation after that |
| Withdrawals.DisconnectLeavesLive | src/application/service/integrations_oauth.rs:775-805 | every disconnect that answered Ok found the account revoked or had its scope withdrawn at some step, and from there liveness is decided exactly as above |
| Withdrawals.DisconnectHolds | src/application/service/integrations_oauth.rs:775-805 | with no completion of the account in flight at the revocation and none begun later the scope is never live again |
| Reissues.DeadForGoodExactly | src/application/service/integrations_oauth.rs:596-733 | a scope that is not live has a continuation, beginning no completion of it, in which it is, if and only if a completion in flight may still issue |
| Reissues.DisconnectHoldsExactly | src/application/service/integrations_oauth.rs:775-805 | so it is right after a revocation |
| Reissues.PassableExactly | src/application/service/integrations_oauth.rs:1105-1179 | some identity passes for an account if and only if its address has no outer white space, or the bypass is on |
| Reconnects.TokenKeptExactly | src/application/service/integrations_oauth.rs:680-733 | the credential a completion leaves live has a refresh token if and only if the response had one or the store let it read one |
| Reconnects.ReconnectMayLoseTheToken | src/application/service/integrations_oauth.rs:680-733 | for every builtin provider, account and passing identity there is a run that answers Ok and replaces an expired credential with a refresh token by one without |
| RefreshResults.RefreshTokenIsNeverLost | src/infrastructure/jobs/refresh_oauth_credentials.rs:321-408 | along any path of refreshes a scope that once has a refresh token keeps one, and no sweep expires its account for lack of one |
| RefreshResults.SuccessorsAreSound | src/application/service/integrations_oauth.rs:988-1041 | in any run what a refresh rotates in carries a refresh token and expires after a clock reading taken since the claim; no other scope changes |
| RefreshResults.EveryCommitMirrors | src/application/service/integrations_oauth.rs:946-1055 | with one account per scope and refreshes as the only store writers, every refreshed or resynced commit leaves the row's expiry equal to the live credential's |
| RefreshResults.AllKnowKept | src/application/service/integrations_oauth.rs:917-1041 | under those conditions a refresh's idea of its scope's credential stays true between its steps |
| RefreshOrigins.SuccessorFrom | src/application/service/integrations_oauth.rs:917-1031 | whatever successor a refresh holds was granted to it for the credential it had read in its own scope: access token and lifetime are the response's, refresh token and scope too unless it leaves them out, and then that credential's; the expiry is the clock reading plus the lifetime, read before asking by the job and after by the service |
| RefreshOrigins.StoredFrom | src/application/service/integrations_oauth.rs:988-1041 | and what it has stored is that successor, in the place of a live credential of its scope |
| RefreshOrigins.ReadDecides | src/infrastructure/jobs/refresh_oauth_credentials.rs:253-342 | what the read decides, for the job and for the service: which configuration, which failure and which credential leaves the account due, expires it, only mirrors it, or goes on to the provider |
| RefreshOrigins.SettleCommits | src/infrastructure/jobs/refresh_oauth_credentials.rs:432-482 | a refresh commits its own row, found active, with exactly the columns its outcome calls for, counts that outcome, and releases its lock; nothing else moves |
| SweepCoverage.EveryDueAccountIsAttempted | src/infrastructure/jobs/refresh_oauth_credentials.rs:161-209 | any overlapping sweeps, any stopping anywhere: once one job run with room for all accounts due at the start has finished, each of them has been attempted by some run |
| SweepCoverage.EveryDueAccountIsCovered | src/infrastructure/jobs/refresh_oauth_credentials.rs:161-209 | the same for any sweep, of job or service, that attempted no account twice |
| SweepCoverage.AttemptedOnceByRun | src/infrastructure/jobs/refresh_oauth_credentials.rs:163-204 | one job run attempts no account twice, whatever overlaps |
| ServiceSweep.OneAccountTakesTheBatch | src/application/service/integrations_oauth.rs:836-862 | from any world in which a service sweep stands before its claims there is a path on which its oldest account takes every turn, nothing else changes, and the sweep finishes |
| ServiceSweep.ServiceSweepCovers | src/application/service/integrations_oauth.rs:836-862 | a finished service sweep with room for every account due at the start, none of whose attempts left its account due, means each of them has been attempted |
| SweepCoverage.OldestWasDue | src/infrastructure/jobs/refresh_oauth_credentials.rs:174-191 | while a due account is unclaimed no sweep claims an account that was not due at the start |
| SweepCoverage.MissedKept | src/infrastructure/jobs/refresh_oauth_credentials.rs:161-209 | while nobody claims a due account, it and all accounts not due stand untouched, and no long enough job run finishes |
| SweepOnce.EachDueAccountRefreshedOnce | src/infrastructure/jobs/refresh_oauth_credentials.rs:161-464 | if every attempt succeeds for longer than the runs last, each account due at the start is claimed and rotated exactly once over all runs, and no account more often |
| SweepAlone.ReportAddsUp | src/infrastructure/jobs/refresh_oauth_credentials.rs:242-464 | in any run a sweep's counters add up to the accounts it attempted, and the job never resyncs |
| SweepAlone.LoneRunTakesOldest | src/infrastructure/jobs/refresh_oauth_credentials.rs:161-209 | with no other writer and a fixed clock a finished job run attempted exactly the first min(batch, n) of the n due accounts in expiry order, none twice, and reported each |
| RefreshAgreement.RefreshersAgreeExactly | src/infrastructure/jobs/refresh_oauth_credentials.rs:242-482 | under a fixed clock, each with its own test of the configuration, job and service reach the same ending, row (scopes aside) and store entry if and only if `SameConditions` holds |
| RefreshAgreement.RefreshersAgreeOnAnyRow | src/infrastructure/jobs/refresh_oauth_credentials.rs:242-482 | for any active row, even with a verifier left on it, they agree if and only if `SameConditions` holds and an expiring row has no verifier |
| RefreshAgreement.BlankClientParts | src/application/service/integrations_oauth.rs:438-450 | with a blank client id the job refreshes where the service leaves the account due |
| RefreshAgreement.FreshCredentialParts | src/application/service/integrations_oauth.rs:946-960 | over a fresh credential the job has replaced it where the service has kept it and mirrored its expiry |
| RefreshDrive.DriveIsRefresh | src/application/service/integrations_oauth.rs:908-1056 | an uninterrupted refresh, step by step under its lock, changes row, store, report and lock as the one-piece refresh says, and nothing else |
| RefreshDrive.RefreshersAgreeOnTheLane | src/application/service/integrations_oauth.rs:908-1056 | from any claim in a world that keeps the invariant, job and service run to their commit leave the same table (the account's scopes aside), store and count if and only if those conditions hold |
| RefreshDrive.FreshIsOnlyMirrored | src/application/service/integrations_oauth.rs:946-960 | in any world that keeps the invariant a service refresh that finds its credential fresh writes that expiry to the row and nothing anywhere else |
| CrashRepair.LostExpiryIsRestored | src/application/service/integrations_oauth.rs:946-1055 | after a crash between rotation and commit, on any path on which nobody else writes the scope, the next uninterrupted service refresh that finds the credential fresh gives the row the lost expiry and does nothing else |
| CrashRepair.CrashIsRepairedOnce | src/application/service/integrations_oauth.rs:946-1055 | and on any path from there a further one changes no row and no credential |
| CrashRepair.CrashRollsBack | src/application/service/integrations_oauth.rs:1018-1041 | the crash frees the row's lock and leaves the table as it was |
| OAuthDatabase.Database.ReadToken | src/application/service/integrations_oauth_ports.rs:228-238 | answers for the scope's entry at the clock, or with the port's own failure |
| OAuthDatabase.Database.OldestDue | src/infrastructure/jobs/refresh_oauth_credentials.rs:171-191 | a due, unlocked, not excluded account with the least expiry, or none exactly when there is none |
| OAuthDatabase.Database.ClaimOldest | src/application/service/integrations_oauth.rs:838-861 | the claim transaction of a sweep is its lane step |
| OAuthDatabase.Database.ReplaceAccount | src/application/service/integrations_oauth.rs:500-520 | of all rows of the account one is left, new and pending with the given scopes and verifier; every other row is as it was |
| OAuthDatabase.Database.Activate | src/application/service/integrations_oauth.rs:739-756 | the guarded update, reporting one row exactly when it hit a pending one |
| OAuthService.IntegrationsOauthService.Authorize | src/application/service/integrations_oauth.rs:498-520 | Ok leaves of all the account's rows one, new and pending, and every other row as it was; an error changes nothing and means an unanswering database or a held row; the store is not touched |
| OAuthService.IntegrationsOauthService.Complete | src/application/service/integrations_oauth.rs:591-766 | nothing happens for a state that does not verify; otherwise, under any interference, a path of the lane; an Ok is for a well-signed unexpired state and a configured provider, passed the checks against that state's nonce and this provider's client, and leaves the row as reported; an error names the step that ended it |
| OAuthService.IntegrationsOauthService.Disconnect | src/application/service/integrations_oauth.rs:775-805 | under any interference a path of the lane; an Ok is a finished disconnect, so that `Withdrawals.DisconnectLeavesLive` says what the store holds, and leaves the account neither pending nor active |
| OAuthService.IntegrationsOauthService.RefreshClaimed | src/application/service/integrations_oauth.rs:908-1056 | under any interference a path of the lane that read the credential under this service's own configuration of the provider, back in its sweep with the outcome counted, or ended because database or store gave up; what it stores and commits is `RefreshOrigins` |
| OAuthService.IntegrationsOauthService.RefreshDue | src/application/service/integrations_oauth.rs:836-862 | under any interference a path of the lane that began a service sweep with this service's window and whole batch; an Ok has spent that batch or found nothing more due, counts every attempt, and has covered everybody due at its start under the conditions of `ServiceSweepCovers`; an error only if database or store gave up |
| OAuthService.IntegrationsOauthService.EnsureFresh | src/application/service/integrations_oauth.rs:868-902 | under any interference a path of the lane; an Ok returns the row as it stands, of an account that had nothing to refresh within this service's window when looked at, or that this call refreshed, once; each error only for its reason |
| RefreshJob.RefreshOne | src/infrastructure/jobs/refresh_oauth_credentials.rs:242-464 | under any interference a path of the lane, back in its sweep with the outcome counted, or ended because the database gave no answer; what it stores and commits is `RefreshOrigins` |
| RefreshJob.ExpireAccount | src/infrastructure/jobs/refresh_oauth_credentials.rs:468-482 | the unguarded expiry is the settling step of its refresh, lock and all |
| RefreshJob.RefreshOauthCredentials | src/infrastructure/jobs/refresh_oauth_credentials.rs:152-209 | a job sweep of the given window and batch, none for a negative one; attempts no account twice, reports every attempt, and alone takes exactly the oldest due accounts its batch allows; an error only if the database gave no answer |
| IdentityChecks.AcceptedNames | src/application/service/integrations_oauth.rs:1105-1126 | accepted exactly when client and nonce are each named, by the identity to the letter or else by the token, and never contradicted |
| IdentityChecks.AcceptedAddresses | src/application/service/integrations_oauth.rs:1131-1163 | accepted exactly when not reported unverified and, between any white space, the account's own address, letter case aside, or any at all under the bypass |
| IdentityChecks.TrimExactly | src/application/service/integrations_oauth.rs:1137-1142 | trimming leaves nothing of blank text and of any other exactly what lies between its outer letters |
| IdentityChecks.EqIgnoreCaseExactly | src/application/service/integrations_oauth.rs:1146 | addresses and claims are compared letter by letter, ASCII case aside |
| CredentialStore.FakeStore.ActiveRowIndex | tests/common/mod.rs:237-247 | the last live row of the scope, or none exactly when there is none |
| CredentialStore.FakeStore.Issue | tests/common/mod.rs:252-286 | a live row of the scope refuses; otherwise one live row with the given expiry is appended; nothing happens to any other scope, and no row is lost |
| CredentialStore.FakeStore.ReadToken | tests/common/mod.rs:288-323 | not found for a scope never issued, not active for one withdrawn, expired or the bundle for its live row |
| CredentialStore.FakeStore.Rotate | tests/common/mod.rs:325-360 | the live row of its scope is revoked in place and the successor appended, or not found without one; no other scope changes |
| CredentialStore.FakeStore.Revoke | tests/common/mod.rs:362-387 | every row of its scope is revoked and every other row as it was; not found exactly for a scope never issued |
| CredentialStore.ListStandsForMap | tests/common/mod.rs:237-387 | after any verbs at most one live row per scope, each scope's entry is what its own verbs make of it, and no revoked row comes back |
| Base64Url.RoundTrip | src/application/service/integrations_oauth.rs:182-202 | decoding undoes encoding on all byte strings |
| Base64Url.Canonical | src/application/service/integrations_oauth.rs:197-209 | only canonical text decodes |
| Base64Url.UrlSafe | src/application/service/integrations_oauth.rs:182-202 | the alphabet is the URL-safe one, and known encodings come out |
| StateToken.MintedVerifies | src/application/service/integrations_oauth.rs:182-222 | a minted state verifies to itself before its expiry and is refused as expired from then on |
| StateToken.AcceptedExactly | src/application/service/integrations_oauth.rs:197-222 | exactly the well-signed canonical tokens of unexpired states are accepted |
| FormParser.PercentDecode | src/presentation/http/oauth_handler.rs:298-338 | the index loop computes the recursive decoding on every input, in bounds |
| FormParser.HexPairExactly | src/presentation/http/oauth_handler.rs:327-338 | a pair is a byte exactly when both are hex digits of either case, the first the higher |
| FormParser.PlainIsItself | src/presentation/http/oauth_handler.rs:298-325 | text with neither plus nor percent sign decodes to itself |
| FormParser.ParseFormComplete | src/presentation/http/oauth_handler.rs:280-296 | the loop over pairs computes the last code and state, or nothing |
| FormParser.LastFieldsMean | src/presentation/http/oauth_handler.rs:284-292 | of a field posted more than once the last one counts, and a pair without an equals sign fails the whole body |
| FormParser.ValueRoundTrip | src/presentation/http/oauth_handler.rs:298-338 | any text survives serializer and decoder |
| FormParser.FormRoundTrip | src/presentation/http/oauth_handler.rs:280-338 | the parser reads back a serialized form of any non-empty code and state |
| CallbackPage.EscapeIsSimultaneous | src/application/service/integrations_oauth.rs:1255-1261 | five replacements in turn are one simultaneous substitution |
| CallbackPage.EscapeUndone | src/application/service/integrations_oauth.rs:1255-1261 | decoding the references undoes the escaping |
| CallbackPage.PageReadsBack | src/application/service/integrations_oauth.rs:1238-1253 | the rendered page contains exactly the given fields, whatever is in them |
| CallbackPage.PageSubmitsTo | src/application/service/integrations_oauth.rs:1238-1253 | the page's form posts to the action it was rendered with |
| CallbackPage.CallbackRoundTrip | src/application/service/integrations_oauth.rs:571-578 | a page is rendered for exactly the verified states with a code that is not blank; its form posts to the completion route, where code and state arrive as they left the provider |
| EndpointGuard.HostRuleIsOnLabels | src/infrastructure/http/endpoint_guard.rs:246-298 | a host matches an allowlist entry exactly when its labels end with the entry's, ASCII case aside |
| EndpointGuard.HostRuleIsOnLetters | src/infrastructure/http/endpoint_guard.rs:246-298 | and letter by letter: it is the entry, or ends in a dot and the entry, ASCII case aside |
| EndpointGuard.AcceptedExactly | src/infrastructure/http/endpoint_guard.rs:246-298 | validation accepts exactly the acceptable URLs, as parsed |
| EndpointGuard.ResolvesExactly | src/infrastructure/http/endpoint_guard.rs:383-409 | each of the three endpoints is the deployment's text for it, or else the adapter's, parsed; all three must be acceptable, and a refusal names the first that is not |
| EndpointGuard.ResolvedRevalidates | src/infrastructure/http/endpoint_guard.rs:330-409 | what resolved passes revalidation against every registry that agrees on the provider |
| EndpointGuard.DriftIsRefused | src/infrastructure/http/endpoint_guard.rs:330-344 | each of the three resolved endpoints passes a registry exactly when that registry has the provider and its allowlist covers the endpoint's host |
| EndpointGuard.ProviderRegistry.WithBuiltin | src/infrastructure/http/endpoint_guard.rs:188-205 | the four builtin providers, each under its own key |

## Left out

- EventTables.HistoriesAfter: a `stage` that fails to serialize or to bind a company aborts its transaction, which is the lane's `Fail`; the failure itself is not in this contract.
- EventService.IntegrationsWriteService.FetchFailedEvents: creation times are not modelled, so the report's order is any order, and its error and payload columns are not carried.
- Event payloads, `raw` documents and `events.publish`: carried along, they decide nothing.
- The connector's own lifecycle: connectors are edited at any time by an unrelated step; registering one is not modelled.
- `fetch_for_retry` is a plain look-up by id, as in the code: it looks at neither the connector's status nor its deletion mark.
- Org and company scope binding, row-level security and tenancy: one scope; both sweeps are keyed by it.
- Uniqueness per (provider, account): two overlapping authorizations may both insert, so the theorems that need one account per scope say so.
- Statement snapshots: a claim query and a guarded UPDATE are one step each; the moment between a `SKIP LOCKED` scan and the lock it takes is not split, nor is an authorization's transaction between its DELETE and its commit, except that the DELETE may have missed rows.
- Waiting for a lock: a body that would wait either gets the row or gives up with an error; starvation is not modelled.
- OAuthService.IntegrationsOauthService.Authorize: request validation, nonce and URL assembly are left out; it starts at its transaction.
- OAuthService.IntegrationsOauthService.Complete: the client's secret and the redirect address of the code form are left out, and why a state does not verify is one error.
- OAuthService.IntegrationsOauthService.RefreshDue: whether the database or the store ended a sweep, or a refresh on use, is one error here.
- A store failure injected into a rotation precedes any effect, as in the fake store; an acknowledgement lost after the fact is not modelled.
- The fake store's log of calls and its read counter.
- HMAC, JSON, URL parsing and the IP-literal rule are parameters with the laws stated where they are used; DNS and the HTTP client are not part of this model.
- Integer widths: times are unbounded integers, so chrono's range errors do not occur.
- Character references and input elements beyond those the callback page uses, and a browser's newline normalisation.
- Generic CRUD services and handlers: excluded as writers, they copy fields or delegate to code that is not part of this model.
