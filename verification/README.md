# A verified model of session revocation

This repository is a single sign-on system: an Auth Provider with its administration, outbox and second factors, a
Sync Worker that delivers revocation events, and two relying applications. This project models what happens between
"this user may no longer be logged in" and "no session of this user works anywhere", and the authorization state that
this protects, and proves properties of that model with Dafny 4.11. `dafny verify dfyconfig.toml` checks everything.

## How the model is built

Every database transaction, and every statement or remote call outside one, is a total function from state to state.
A guarded `updateMany` is a function that gives the new row or `None`. A run is any sequence of steps of any number of
processes, so all interleavings are covered; a process that crashes takes no further step. A call may be executed and its
answer lost. Time is a natural number that does not decrease. On top of these functions, the services that the source
writes as objects are classes whose methods work statement by statement; their postconditions tie the new tables to the
functions. Where a method waits, parameters say what other processes have made of the tables by then (`World`,
`Sending`, `Race`, `meanwhile`), so nothing depends on the method being alone.

| file | part of the system |
|---|---|
| `Json`, `JsonReader`, `JsonCanonical`, `JsonEncoding`, `Utf8` | JSON values, `JSON.stringify`, `JSON.parse` and `canonicalJson` on UTF-16 code units; UTF-8 |
| `EventContract`, `EventIdentity`, `MessageSize` | validation, fingerprint, producers, broker message and its size, comparison with the outbox record |
| `Backoff` | the retry delay of publisher and worker |
| `LocalSessions`, `RelyingApplication` | local sessions and back-channel logout of a relying application; App A and App B share this code |
| `DeliveryRows`, `DeliveryOutcomes`, `DeliveryService` | one delivery row, one call of the worker, the worker over the whole table |
| `OutboxPublisher`, `Consumer` | one publishing cycle; settlement of broker messages |
| `Pipeline` | publishers, broker, consumers, retry passes and applications as one transition system |
| `PublisherInvariant`, `DeliveryInvariant`, `PipelineSafety`, `PendingRows` | what each step keeps |
| `Naming`, `EndToEnd` | identifiers and their texts; the Auth Provider and the pipeline as one system |
| `PipelineTheorems`, `DeadLetterRace` | what holds in every reachable state and between any two |
| `AccessState`, `AccessEffects`, `AccessSafety`, `AccessTheorems`, `AuthProvider` | users, groups, policies, sessions, codes, tokens, challenges, outbox |
| `LoginChallenges`, `MfaState`, `MfaSafety`, `MfaServices`, `MfaEffects` | enrolment, login challenges, recovery codes |
| `Sequences`, `Vocabulary` | shared words |

## Main results

- **From a central logout to the local sessions** (`RevokedSessionsHaveOneRow`, `AnnouncementReachesLocalSessions`,
  `RevocationReachesLocalSessions`): every announced revocation has its row, which is under way or handled everywhere; where it
  was delivered, every local session is over that existed before the application processed it. A session inserted later by a
  callback under way survives: `LateSessionSurvives` is such a run, `UsableExactlyIfLater` the exact condition. And no others: a
  delivery leaves alone every session that no announcement concerns (`NoticeEndsExactly`, `UnconcernedIsLeftAlone`).
- **No revocation is lost** (`NothingLost`, `PendingIsNeverOrphaned`, `EveryOpenDeliveryIsTakenUp`): a committed event is
  always waiting somewhere or handled everywhere, and every row that is not final has something that will take it up.
- **Delivered means revoked** (`SuccessMeansRevoked`, `ExecutedRequestRevokes`, `FailureMeansDeadLetter`): SUCCEEDED and
  FAILED mean what they say, for good. The converse of the second is false: `DeadLetteredYetSucceeded` is a run in which the
  dead letter is stored and the delivery succeeds, because a dead-letter claim does not raise the attempt number;
  `ConfirmedDeadLetterFails` is the exact condition. Over all runs, a dead letter belongs to the last attempt of its delivery
  unless a redelivered message made another one (`DeadLetterIsLastAttempt`).
- **Fencing, bounds, termination** (`AttemptsWonOnce`, `StalePublisherIsFencedForever`, `StaleTaskIsFencedForever`,
  `AttemptsBounded`, `NeverAnsweredFailsExactly`), **exact waits** (`FailureIsDue`, `WaitsAddUp`, `LeaseKeepsOthersOut`).
- **Event identity** (`CanonicalUnambiguous`, `FingerprintIdentifies`, `WorkerAcceptsOwnEvent`,
  `PublishedEventsAccepted`): the worker never rejects an event of its own producers (`ProducedEventsAccepted`).
- **Policy safety** (`ActiveTokenMeansAccess`), **exact access diff** (`ExactAccessDiff`), **no revival**
  (`NothingIsRevived`, `PendingRequestYieldsNothing`), **single-use codes** (`CodesAreSingleUse`), **outbox conservation** (`SessionsAnnouncedExactly`).
  A deactivation voids the tokens of an application if and only if its read before the transaction saw the application
  active (`DeactivatedApplicationVoidsTokens`, `StaleReadKeepsTokens`).
- **One-time factors** (`FactorsAreOneTime`, `AcceptedIsRefused`, `CompleteAllOrNothing`, `RegenerationVoidsOldCodes`,
  `DisablingVoidsFactors`). A code is verified against the secret read before the transaction, but the updates name only the
  user. Two properties that one would expect are therefore false. A code can be accepted again after a new enrolment, by a
  claim (`StepAcceptedTwice`) and by a confirmation (`StepConfirmedTwice`); `AcceptedAgainExactly` is the exact condition for
  every entry point. And a confirmation can enable a secret for which nobody showed a code (`StepConfirmedTwice`);
  `UnprovenExactly` is the exact condition, and without it enabled means proven (`EnabledMeansProven`). Logins are not
  affected (`LoginClaimsVerifiedSecret`).
- **No guessing** (`CounterCountsRefusals`, `ExhaustedChallengeIsRefused`): every refused login of an open challenge counts, and
  at the limit no code completes it any more.
- **Exact effects** (`AccessEffects`, `MfaEffects`): for each transaction, exactly when it acts and exactly which rows it changes,
  among them `ExchangeExactly`, `CodeIssuedExactly`, `ProfileExactly`, `RevocationExactly`.
- **Idempotent local logout** (`ReplaysErased`, `MatchedStayDead`, `EndingsNumberEndedSessions`).

## Assumptions

- Secrets (session tokens, codes, access tokens, challenge tokens, recovery codes) are represented by the identifier of the
  row their unique hash selects; new identifiers are new. SHA-256 stands for an injective function, the PKCE method for an
  arbitrary one, timestamps and numbers for their text with an abstract normaliser.
- Transactions are atomic. `deleteGroup` and `removeGroupMembership` read before their transaction; reads and transaction are
  one step here. The status that `updateApplication`, `updateStatus` and the check for another administrator read before
  their transactions is a parameter, so it may be stale.
- Claims and saves of a delivery or of an outbox row take effect at the time of their own step, where the source uses a clock
  read a little earlier in the same call.
- An application computes the payload hash from the event it received, so the hash it compares belongs to that event.
- The clocks of the Auth Provider, of the Sync Worker and of each application are separate.
- A broker confirmation means a durable copy; an unsettled copy returns to the queue.
- Rows of users, applications, sessions, events and deliveries are never deleted, as in the source.
- A password login checks the user before the transaction that issues the session, so a session may be issued to a user
  deactivated in between. The model allows it: no claim is made about sessions issued after a revocation.
- The targets of an event without an application are those registered when the worker resolves them.
- Identifiers of users, sessions, applications and events that reach a producer are UUIDs in normal form, and the time it
  fills in has the 24 characters of an ISO 8601 time in UTC.

## Model

| member | source | states |
|---|---|---|
| `JsonReader.ReadPrint` | `auth-provider/sync-worker/src/event-processing/revocation-message.ts:21-27` | reading back the printed text of any JSON value, at any nesting and before any following text, gives exactly that value and leaves the rest |
| `Json.LessIsLexicographic` | `packages/shared/src/index.ts:165-168` | keys are ordered as in a dictionary of code units: by the first difference, a prefix first |
| `JsonCanonical.CanonicalPrintsSorted` | `packages/shared/src/index.ts:154-169` | the canonical printer prints a value as the plain printer prints the value with the keys of all its objects sorted |
| `JsonCanonical.SortingKeepsMeaning` | `packages/shared/src/index.ts:165-168` | sorting the keys at every level changes nothing but key order |
| `JsonCanonical.MeaningDecides` | `packages/shared/src/index.ts:154-169` | two key-sorted values that are equal up to key order are identical |
| `JsonCanonical.ReadCanonical` | `packages/shared/src/index.ts:154-169` | parsing canonical text recovers the key-sorted value |
| `JsonCanonical.CanonicalUnambiguous` | `packages/shared/src/index.ts:154-169` | two JSON values have the same canonical text if and only if they are equal up to object key order, at any nesting |
| `JsonEncoding.CanonicalPaired` | `packages/shared/src/index.ts:171-173` | canonical text never contains an unpaired surrogate, so its UTF-8 encoding, which is what is hashed, determines it |
| `Utf8.DecodeEncode` | `auth-provider/sync-worker/src/event-processing/revocation-message.ts:21-27` | decoding the UTF-8 encoding of a text gives the text back, if it has no unpaired surrogate |
| `Utf8.EncodeLength` | `auth-provider/sync-worker/src/event-processing/revocation-message.ts:17-18` | UTF-8 needs at most three bytes for each UTF-16 code unit |
| `EventContract.JsonValueIsShallow` | `packages/shared/src/index.ts:50-72` | `isJsonValue` accepts exactly the values made of JSON and nested at most 10 deep |
| `EventContract.ValidEventsParse` | `packages/shared/src/index.ts:103-152` | every valid event is accepted by `parseRevocationEvent`, unchanged |
| `EventContract.ParsedEventsValid` | `packages/shared/src/index.ts:103-152` | whatever `parseRevocationEvent` returns is a valid event in normal form |
| `EventContract.LowerCaseExactly` | `packages/shared/src/index.ts:75-84` | lower-casing a UUID moves its letters from A-F to a-f and keeps everything else |
| `EventContract.ParsingIdempotent` | `packages/shared/src/index.ts:103-152` | parsing the JSON of a parsed event gives the same event again |
| `EventContract.ParsesExactly` | `packages/shared/src/index.ts:103-152` | `parseRevocationEvent` accepts an event exactly if its identifiers are UUIDs in any case and those its type carries, its reason has the right shape, its time is readable and its metadata is an object of JSON at most 10 deep; identifiers come out in lower case and the time normal |
| `EventIdentity.JsonValueByMeaning` | `packages/shared/src/index.ts:50-72` | acceptance of metadata does not depend on key order |
| `EventIdentity.ReorderedCopyParses` | `packages/shared/src/index.ts:103-152` | any copy of a valid event whose keys were reordered, at any nesting, is read as that event |
| `EventIdentity.FingerprintIdentifies` | `packages/shared/src/index.ts:171-173` | two events have equal fingerprints (the UTF-8 bytes that are hashed) if and only if they are the same event up to key order in the metadata |
| `EventIdentity.WorkerAcceptsOwnEvent` | `auth-provider/sync-worker/src/event-processing/revocation-delivery.service.ts:148-172` | however the database and the broker reorder keys, the worker accepts the queued copy of a stored valid event |
| `EventIdentity.AcceptedMeansSame` | `auth-provider/sync-worker/src/event-processing/revocation-delivery.service.ts:148-172` | the worker accepts a queued event only if it denotes the stored one |
| `EventIdentity.ProducedEventsValid` | `auth-provider/server/src/event-processing/outbox-event.service.ts:37-46` | every event that logout, deactivation, password change or access loss can enqueue is valid |
| `EventIdentity.ParsePublished` | `auth-provider/sync-worker/src/event-processing/revocation-message.ts:12-51` | the message of a stored event is read as the event its payload denotes exactly when the UTF-8 encoding of the payload is within the limit, and is rejected as non-retryable otherwise |
| `EventIdentity.PrintedTextArrives` | `auth-provider/sync-worker/src/event-processing/revocation-message.ts:21-27` | a printed object survives UTF-8 encoding, decoding and parsing |
| `EventIdentity.TrailingTextRejected` | `auth-provider/sync-worker/src/event-processing/revocation-message.ts:23-27` | a text with anything but white space after a printed value is no JSON |
| `EventIdentity.MessageReadExactly` | `auth-provider/sync-worker/src/event-processing/revocation-message.ts:12-51` | a message is read as an event exactly if it is declared as JSON, has a body of 1 to 16384 bytes that is UTF-8 of that event, and its properties name identifier and type of it |
| `EventIdentity.PublishedEventsAccepted` | `auth-provider/sync-worker/src/event-processing/revocation-message.ts:12-51` | the message of a valid event, stored with any key order, passes envelope check, parser, property check and the comparison with its outbox record if and only if its UTF-8 encoding is within the limit |
| `MessageSize.ProducedMessageFits` | `auth-provider/sync-worker/src/event-processing/revocation-message.ts:17-18` | the message of every event that a producer can enqueue is within the size limit, whatever the key order of the stored copy |
| `MessageSize.ProducedEventsAccepted` | `auth-provider/sync-worker/src/event-processing/revocation-message.ts:12-51` | the message of every event that a producer can enqueue passes every check of the worker: envelope, size, parser, properties and the comparison with the outbox record |
| `Backoff.DelayMonotone` | `auth-provider/server/src/event-processing/outbox-publisher.service.ts:209-213` | the retry delay is non-decreasing in the attempt number and never above the cap |
| `Backoff.DelayDoubles` | `auth-provider/server/src/event-processing/outbox-publisher.service.ts:209-213` | the delay is min(base*2^(n-1), max) for every n within reach of the exponent clamp |
| `Backoff.ClampInvisible` | `auth-provider/sync-worker/src/event-processing/revocation-delivery.service.ts:409-413` | the exponent clamp is invisible at every attempt if and only if max <= base*2^30 |
| `Backoff.TotalWaitBounded` | `auth-provider/sync-worker/src/event-processing/revocation-delivery.service.ts:249-252` | the waits scheduled between k attempts sum to at most base*(2^(k-1)-1) |
| `LocalSessions.InspectStep` | `applications/app-a/src/lib/auth/local-session.ts:84-139` | an inspection keeps the invariant; an elapsed session still marked active is expired with one log entry, an active one is touched, and nothing else changes |
| `LocalSessions.LogOutStep` | `applications/app-a/src/lib/auth/local-session.ts:261-292` | a local logout keeps the invariant; it ends exactly a session that is usable, with one log entry, and changes nothing else |
| `LocalSessions.LogInStep` | `applications/app-a/src/lib/auth/local-session.ts:173-232` | a login keeps the invariant; it adds one session of this user and central session with its three entries, usable exactly during its lifetime, and changes no other |
| `LocalSessions.NoticeEndsExactly` | `applications/app-a/src/lib/internal/logout-processor.ts:74-88` | the first delivery of an event revokes exactly the usable sessions of its user, and of its central session if it revokes one, for the reason of its type and with one log entry each; no other session changes |
| `LocalSessions.AnswerExactly` | `applications/app-a/src/lib/internal/logout-processor.ts:54-62` | the answer is "processed" exactly for a new identifier, and a conflict exactly for another type or another recorded payload hash |
| `LocalSessions.NoticeIsRecorded` | `applications/app-a/src/lib/internal/logout-processor.ts:64-112` | the recorded row carries type, payload hash and the number of sessions ended |
| `LocalSessions.ProcessKillsMatched` | `applications/app-a/src/lib/internal/logout-processor.ts:74-88` | every session the plan matches is expired or revoked once the event is processed |
| `LocalSessions.ProcessKeepsInv` | `applications/app-a/src/lib/internal/logout-processor.ts:64-113` | the first processing of an event keeps the invariant and changes no session that was over, elapsed ones included, and none its plan does not match |
| `LocalSessions.ApplyStep` | `applications/app-a/src/lib/auth/local-session.ts:46-296` | every transaction of a relying application keeps the invariant and undoes nothing that is final |
| `LocalSessions.RunEvolves` | `applications/app-a/src/lib/auth/local-session.ts:46-296` | so does every run |
| `LocalSessions.LeavesActiveOnce` | `applications/app-a/src/lib/auth/local-session-state.ts:9-26` | a session that has left ACTIVE never changes again |
| `LocalSessions.DeadIsRefused` | `applications/app-a/src/lib/auth/local-session.ts:84-114` | an expired or revoked session is refused by inspection and by logout |
| `LocalSessions.MatchedStayDead` | `applications/app-a/src/lib/internal/logout-processor.ts:44-132` | after an event is processed, no session its plan matched at that moment is usable in any later run |
| `LocalSessions.UsableExactlyIfLater` | `applications/app-a/src/lib/internal/logout-processor.ts:74-88` | a session that the plan of a processed event matches, and that nothing else ends, is usable during its lifetime if and only if it was inserted after the processing |
| `LocalSessions.LateSessionSurvives` | `applications/app-a/src/lib/auth/local-session.ts:162-235` | such a run: a callback inserts its session after the event, and the session survives every repetition of the event |
| `LocalSessions.EndingsNumberEndedSessions` | `applications/app-a/src/lib/internal/logout-processor.ts:90-106` | over any run the log entries that record an ending number exactly the sessions that are not ACTIVE |
| `LocalSessions.ReplaysErased` | `applications/app-a/src/lib/internal/logout-processor.ts:54-62` | deleting every repeated delivery of an event from any run leaves the same session table, log and processed-event table |
| `LocalSessions.ErasedDeliversOnce` | `applications/app-a/src/lib/internal/logout-processor.ts:54-62` | what is left after that deletion delivers no event twice |
| `LocalSessions.SecondDelivery` | `applications/app-a/src/lib/internal/logout-processor.ts:115-131` | a second delivery of an identifier changes nothing and is a conflict exactly when type or payload differ |
| `RelyingApplication.LocalDatabase.ResolveLocalSession` | `applications/app-a/src/lib/auth/local-session.ts:46-160` | the new tables and the answer are those of the specified inspection |
| `RelyingApplication.LocalDatabase.IssueLocalSession` | `applications/app-a/src/lib/auth/local-session.ts:162-235` | the new tables are those of the specified login; the session is active exactly if its lifetime is positive |
| `RelyingApplication.LocalDatabase.RevokeLocalSession` | `applications/app-a/src/lib/auth/local-session.ts:237-296` | the new tables and the answer are those of the specified logout |
| `RelyingApplication.LocalDatabase.ProcessInternalLogoutEvent` | `applications/app-a/src/lib/internal/logout-processor.ts:44-132` | the new tables and the answer are those of the specified delivery, also when a concurrent delivery commits between the read and the insert |
| `DeliveryRows.EveryUpdateKeepsBooks` | `auth-provider/sync-worker/src/event-processing/revocation-delivery.service.ts:195-407` | every guarded update keeps: nextRetryAt set exactly in RETRYING, lastAttemptAt set in PROCESSING, attemptCount 0 exactly in PENDING, processedAt set exactly in SUCCEEDED; and only adds attempts, never returns to PENDING, and leaves final rows alone |
| `DeliveryRows.AttemptGrantedExactly` | `auth-provider/sync-worker/src/event-processing/revocation-delivery.service.ts:207-240` | an attempt is granted exactly on a row that is as it was read, PENDING or due for a retry; it is the next attempt and starts now |
| `DeliveryRows.DeadLetteringGrantedExactly` | `auth-provider/sync-worker/src/event-processing/revocation-delivery.service.ts:334-350` | a row is taken for dead-lettering exactly while it waits under the count that was read and is due; that is no new attempt |
| `DeliveryRows.OutcomeSavedExactly` | `auth-provider/sync-worker/src/event-processing/revocation-delivery.service.ts:266-298` | success, failure and release are saved exactly while the row is being processed under the attempt number of who saves |
| `DeliveryRows.RecoveredExactly` | `auth-provider/sync-worker/src/event-processing/revocation-delivery.service.ts:305-320` | a row is taken from its worker exactly 30 seconds after its attempt began, and is due at once |
| `DeliveryRows.NeverStranded` | `auth-provider/sync-worker/src/event-processing/revocation-delivery.service.ts:305-320` | a RETRYING or PROCESSING row is eligible for a retry pass, after recovery, if and only if a computable time has come |
| `DeliveryRows.WaitBounded` | `auth-provider/sync-worker/src/event-processing/revocation-delivery.service.ts:248-264` | that time is at most the cap after a failure, the retry base after a failed dead-letter publish, and exactly the lease after a claim |
| `DeliveryRows.FailureIsDue` | `auth-provider/sync-worker/src/event-processing/revocation-delivery.service.ts:242-264` | a failed attempt n is saved exactly while the row is at that attempt; the row is then due at once if no attempt is left, else after min(base*2^min(n-1,30), max) |
| `DeliveryOutcomes.DeliverLeavesPending` | `auth-provider/sync-worker/src/event-processing/revocation-delivery.service.ts:195-303` | whatever other workers do meanwhile, a delivery leaves its row past PENDING with its books in order and sends at most one request |
| `DeliveryOutcomes.DeliverThrowsOnlyWhenOvertaken` | `auth-provider/sync-worker/src/event-processing/revocation-delivery.service.ts:266-290` | a delivery reports an error only after its request was sent and somebody else then took the row |
| `DeliveryOutcomes.DeliveryExactly` | `auth-provider/sync-worker/src/event-processing/revocation-delivery.service.ts:195-303` | one request is sent exactly if the row is as it was read and due; its outcome is saved as answered exactly if the row is still held under the attempt number, else the delivery throws and leaves the row alone |
| `DeliveryOutcomes.DeadLetteringExactly` | `auth-provider/sync-worker/src/event-processing/revocation-delivery.service.ts:322-407` | a dead letter is published exactly if the row waits as it was read and is due; the row then fails if it was confirmed and still held, waits again if not confirmed, and else the call throws |
| `DeliveryOutcomes.CandidateExactly` | `auth-provider/sync-worker/src/event-processing/revocation-delivery.service.ts:123-138` | a candidate that cannot be read counts as a failure and stays; at the attempt limit no request is sent, below it no dead letter |
| `DeliveryOutcomes.SmallBatchTakesAll` | `auth-provider/sync-worker/src/event-processing/revocation-delivery.service.ts:102-125` | a pass takes every due row if there are at most 50 |
| `DeliveryOutcomes.HandledIsPastPending` | `auth-provider/sync-worker/src/event-processing/revocation-delivery.service.ts:51-97` | a message that was handled has a row past PENDING for every target |
| `DeliveryOutcomes.EachRowExactly` | `auth-provider/sync-worker/src/event-processing/revocation-delivery.service.ts:51-146` | a pass recovers a row exactly after 30 seconds, handles it on its own exactly if it is in the batch, and touches no other; a message delivers to each target on its own, with missing rows new, and touches no other |
| `DeliveryOutcomes.RoundProgress` | `auth-provider/sync-worker/src/event-processing/revocation-delivery.service.ts:99-146` | for a delivery whose requests are not answered, whatever becomes of the others, a pass that finds its row due decreases the rounds it still needs by exactly one, and any other pass changes nothing of it |
| `DeliveryOutcomes.RoundsCountDown` | `auth-provider/sync-worker/src/event-processing/revocation-delivery.service.ts:99-146` | so the measure counts down to zero over any sequence of passes |
| `DeliveryOutcomes.NeverAnsweredFailsExactly` | `auth-provider/sync-worker/src/event-processing/revocation-delivery.service.ts:99-146` | after one message and n passes that each come when the row is due, the delivery to a target that never answers waits with n+1 requests made or, from n = maxAttempts on, has failed after exactly maxAttempts requests and one dead letter, whatever becomes of all other targets and deliveries |
| `DeliveryOutcomes.WaitsAddUp` | `auth-provider/sync-worker/src/event-processing/revocation-delivery.service.ts:246-264` | between any two attempts that may still be repeated lies exactly the sum of the waits scheduled between them and of the time by which answers came later than the row was due; never less than the waits |
| `DeliveryService.DeliverTakesSteps` | `auth-provider/sync-worker/src/event-processing/revocation-delivery.service.ts:195-303` | one call of `deliver`, with any interference, does to the row exactly what the claim, request and save steps of the pipeline do |
| `DeliveryService.MoveToDeadLetterTakesSteps` | `auth-provider/sync-worker/src/event-processing/revocation-delivery.service.ts:322-407` | so does one call of `moveToDeadLetter` |
| `DeliveryService.RevocationDeliveryService.UpdateMany` | `auth-provider/sync-worker/src/event-processing/revocation-delivery.service.ts:220-236` | a guarded update changes the one row it matches and its count says whether it did |
| `DeliveryService.RevocationDeliveryService.Deliver` | `auth-provider/sync-worker/src/event-processing/revocation-delivery.service.ts:195-303` | the new row, the requests sent and the error are those of the specified delivery; no other row changes |
| `DeliveryService.RevocationDeliveryService.MoveToDeadLetter` | `auth-provider/sync-worker/src/event-processing/revocation-delivery.service.ts:322-407` | the new row, the dead letters confirmed and the error are those of the specified dead-lettering; no other row changes |
| `DeliveryService.RevocationDeliveryService.RecoverOrphanedDeliveries` | `auth-provider/sync-worker/src/event-processing/revocation-delivery.service.ts:305-320` | exactly the PROCESSING rows whose lease has run out become RETRYING, due at once |
| `DeliveryService.RevocationDeliveryService.Process` | `auth-provider/sync-worker/src/event-processing/revocation-delivery.service.ts:51-97` | the event is non-retryable exactly when the outbox record does not hold the same event up to key order, or its target does not exist, and then nothing changes; otherwise every target has a row and each was delivered to on its own; it is requeued exactly when some delivery threw |
| `DeliveryService.RevocationDeliveryService.AssertStoredEvent` | `auth-provider/sync-worker/src/event-processing/revocation-delivery.service.ts:148-172` | comparing fingerprints decides whether the outbox record holds the same event up to key order |
| `DeliveryService.RevocationDeliveryService.ResolveTargets` | `auth-provider/sync-worker/src/event-processing/revocation-delivery.service.ts:174-193` | the targets are the event's own application, if it exists, or all of them |
| `DeliveryService.RevocationDeliveryService.CreateMany` | `auth-provider/sync-worker/src/event-processing/revocation-delivery.service.ts:59-66` | missing rows are created PENDING, existing ones are left alone |
| `DeliveryService.RevocationDeliveryService.ProcessDueRetries` | `auth-provider/sync-worker/src/event-processing/revocation-delivery.service.ts:99-146` | orphans are recovered, every candidate is delivered or dead-lettered on its own, all other rows are left alone; it throws exactly when some candidate threw |
| `DeliveryService.RevocationDeliveryService.HandleCandidates` | `auth-provider/sync-worker/src/event-processing/revocation-delivery.service.ts:82-96` | all candidates are handled even if some fail, with a result that does not depend on their order |
| `DeliveryService.RevocationDeliveryService.HandleCandidate` | `auth-provider/sync-worker/src/event-processing/revocation-delivery.service.ts:126-138` | a candidate at the attempt limit is dead-lettered, any other is delivered to |
| `OutboxPublisher.PublishTakesSteps` | `auth-provider/server/src/event-processing/outbox-publisher.service.ts:92-183` | handling one candidate does to the outbox exactly what the claim, send and settle steps of the pipeline do |
| `OutboxPublisher.LeaseKeepsOthersOut` | `auth-provider/server/src/event-processing/outbox-publisher.service.ts:92-116` | a publish claim is granted exactly on a pending row that is due and has the attempts that were read, and then no other claim is until the lease has run out |
| `OutboxPublisher.FailureIsDue` | `auth-provider/server/src/event-processing/outbox-publisher.service.ts:150-167` | a failed publish attempt n makes the row due after min(base*2^min(n-1,30), max); an overtaken publisher postpones nothing |
| `OutboxPublisher.CandidateExactly` | `auth-provider/server/src/event-processing/outbox-publisher.service.ts:92-183` | one candidate is sent exactly under a granted claim, counted exactly if the broker confirmed and nobody published or claimed it meanwhile, and stops the cycle exactly at a broker failure |
| `OutboxPublisher.OneIsAccountedFor` | `auth-provider/server/src/event-processing/outbox-publisher.service.ts:129-177` | a candidate that ends up published was published by this call with the broker's confirmation, or by another publisher |
| `OutboxPublisher.CycleCountsOwn` | `auth-provider/server/src/event-processing/outbox-publisher.service.ts:72-186` | the rows a cycle counts are exactly those it published itself, each once; it touches no row but its candidates |
| `OutboxPublisher.CycleHandlesAll` | `auth-provider/server/src/event-processing/outbox-publisher.service.ts:72-186` | a cycle handles every candidate up to the first broker failure, each on its own, and leaves those after it as they are |
| `OutboxPublisher.OutboxPublisherService.PublishCandidate` | `auth-provider/server/src/event-processing/outbox-publisher.service.ts:92-183` | the row changes as specified for one candidate, and the count is one exactly if this call published it |
| `OutboxPublisher.OutboxPublisherService.PublishPendingBatch` | `auth-provider/server/src/event-processing/outbox-publisher.service.ts:72-186` | the outbox changes as specified for the whole cycle, which ends at the first broker failure, and the result is the number of rows this call published |
| `Consumer.RabbitMqConsumer.Receive` | `auth-provider/sync-worker/src/event-processing/rabbitmq-consumer.service.ts:276-290` | a new message is in flight and unsettled |
| `Consumer.RabbitMqConsumer.Settle` | `auth-provider/sync-worker/src/event-processing/rabbitmq-consumer.service.ts:386-399` | a message is settled by the first call only; later calls reach the broker no more |
| `Consumer.RabbitMqConsumer.ProcessMessage` | `auth-provider/sync-worker/src/event-processing/rabbitmq-consumer.service.ts:171-211` | after processing, the message is settled exactly once: as the outcome demands, or earlier by the shutdown; a failed acknowledgement is not followed by a rejection |
| `Consumer.RabbitMqConsumer.RequeueInFlight` | `auth-provider/sync-worker/src/event-processing/rabbitmq-consumer.service.ts:142-164` | after the deadline every message in flight that nobody had settled is requeued, the others are untouched, and the count is the number of rejections that worked |
| `PublisherInvariant.ClaimPublishStep` | `auth-provider/server/src/event-processing/outbox-publisher.service.ts:92-116` | a publish claim keeps: no attempt number granted twice, published rows accepted by the broker |
| `PublisherInvariant.SettlePublishStep` | `auth-provider/server/src/event-processing/outbox-publisher.service.ts:136-167` | so does a settlement, and a published row never changes |
| `PublisherInvariant.StalePublisherIsFenced` | `auth-provider/server/src/event-processing/outbox-publisher.service.ts:136-167` | a publisher whose attempt number was overtaken changes neither row nor grants |
| `DeliveryInvariant.RecoverStep` | `auth-provider/sync-worker/src/event-processing/revocation-delivery.service.ts:305-320` | recovering an orphan keeps the invariant of the delivery table |
| `DeliveryInvariant.CreateRowsStep` | `auth-provider/sync-worker/src/event-processing/revocation-delivery.service.ts:59-66` | creating rows keeps it, and afterwards every target has a row |
| `DeliveryInvariant.PickRetryStep` | `auth-provider/sync-worker/src/event-processing/revocation-delivery.service.ts:102-138` | picking a candidate keeps it |
| `DeliveryInvariant.ClaimDeadLetterStep` | `auth-provider/sync-worker/src/event-processing/revocation-delivery.service.ts:334-350` | a dead-letter claim keeps it without raising the attempt number |
| `DeliveryInvariant.WonClaimStep` | `auth-provider/sync-worker/src/event-processing/revocation-delivery.service.ts:207-236` | a granted delivery claim keeps it: its attempt number is higher than every number granted before for the row, and within the bound |
| `DeliveryInvariant.LostClaim` | `auth-provider/sync-worker/src/event-processing/revocation-delivery.service.ts:238-240` | a claim is lost only if the row is past PENDING |
| `DeliveryInvariant.ClaimStep` | `auth-provider/sync-worker/src/event-processing/revocation-delivery.service.ts:206-240` | every claim, granted or lost, keeps the invariant |
| `DeliveryInvariant.SaveStep` | `auth-provider/sync-worker/src/event-processing/revocation-delivery.service.ts:242-298` | saving the outcome keeps it |
| `DeliveryInvariant.PublishDeadLetterStep` | `auth-provider/sync-worker/src/event-processing/revocation-delivery.service.ts:361-364` | publishing a dead letter keeps it, whether or not the broker stored or confirmed it |
| `PipelineSafety.CommitStep` | `auth-provider/server/src/event-processing/outbox-event.service.ts:33-60` | committing an event keeps the invariant of the whole system |
| `PipelineSafety.SendStep` | `auth-provider/server/src/event-processing/outbox-publisher.service.ts:133-134` | sending keeps it, with any combination of stored copy and lost confirmation |
| `PipelineSafety.RejectStep` | `auth-provider/sync-worker/src/event-processing/revocation-message.ts:12-51` | no message of a committed event is ever rejected as non-retryable, by envelope, parser, fingerprint or missing target |
| `PipelineSafety.ResolveKeeps` | `auth-provider/sync-worker/src/event-processing/revocation-delivery.service.ts:174-193` | resolving targets keeps it |
| `PipelineSafety.CreateRowsKeeps` | `auth-provider/sync-worker/src/event-processing/revocation-delivery.service.ts:59-66` | creating the rows of a message keeps it |
| `PipelineSafety.AckKeeps` | `auth-provider/sync-worker/src/event-processing/rabbitmq-consumer.service.ts:177-184` | when a message is acknowledged, every row of it is past PENDING |
| `PipelineSafety.RequeueKeeps` | `auth-provider/sync-worker/src/event-processing/rabbitmq-consumer.service.ts:203-210` | a copy that returns to the queue loses nothing |
| `PipelineSafety.ExecuteStep` | `applications/app-a/src/lib/internal/logout-processor.ts:44-132` | an application that answers with success has recorded the event |
| `PipelineSafety.RequestStep` | `auth-provider/sync-worker/src/event-processing/revocation-delivery.service.ts:246-247` | a request keeps the invariant, with any combination of execution and lost answer |
| `PipelineSafety.StepKeeps` | `auth-provider/sync-worker/src/event-processing/revocation-delivery.service.ts:51-407` | every step of every publisher, consumer, retry pass and application keeps the invariant and undoes nothing that is final |
| `PipelineSafety.RunKeeps` | `auth-provider/sync-worker/src/event-processing/revocation-delivery.service.ts:51-407` | so does every run |
| `PipelineTheorems.NothingLost` | `auth-provider/sync-worker/src/event-processing/revocation-delivery.service.ts:51-97` | in every reachable state a committed event is PENDING in the outbox, or has an unsettled broker copy, or an acknowledged copy with rows past PENDING for all its targets, which include all applications known when it was received |
| `PipelineTheorems.PublishedIsFinal` | `auth-provider/server/src/event-processing/outbox-publisher.service.ts:136-148` | a PUBLISHED row has a durable broker copy and never changes again |
| `PipelineTheorems.SuccessMeansRevoked` | `auth-provider/sync-worker/src/event-processing/revocation-delivery.service.ts:281-294` | a SUCCEEDED delivery was processed by its application with this payload, stays SUCCEEDED, and no session its plan matched is usable in any later state |
| `PipelineTheorems.SuccessEndsEarlierSessions` | `applications/app-a/src/lib/internal/logout-processor.ts:74-88` | a SUCCEEDED delivery has ended every session its event concerns that existed, in any earlier state of the run, before the application processed the event |
| `PipelineTheorems.ExecutedRequestRevokes` | `applications/app-a/src/lib/internal/logout-processor.ts:74-88` | the first request that reaches an application ends every session its plan matches, in every later state, even if the answer is lost |
| `PipelineTheorems.FailureMeansDeadLetter` | `auth-provider/sync-worker/src/event-processing/revocation-delivery.service.ts:387-400` | a FAILED delivery has at least maxAttempts attempts, a stored dead letter with that count, and stays FAILED |
| `PipelineTheorems.AttemptsBounded` | `auth-provider/sync-worker/src/event-processing/revocation-delivery.service.ts:206-236` | attemptCount never exceeds maxAttempts plus the number of claims that redelivered messages made on RETRYING rows |
| `PipelineTheorems.DeadLetterIsLastAttempt` | `auth-provider/sync-worker/src/event-processing/revocation-delivery.service.ts:334-400` | a stored dead letter, confirmed or not, has a count of at least maxAttempts, and that is the attemptCount of its row, in every state, unless a redelivered message claimed the row |
| `PipelineTheorems.EveryOpenDeliveryIsTakenUp` | `auth-provider/sync-worker/src/event-processing/revocation-delivery.service.ts:102-108` | every reachable RETRYING or PROCESSING row is eligible for a pass if and only if its computable due time has come |
| `PipelineTheorems.AttemptsWonOnce` | `auth-provider/sync-worker/src/event-processing/revocation-delivery.service.ts:212-240` | no publish attempt number and no delivery attempt number is ever granted to two workers |
| `PipelineTheorems.StalePublisherIsFencedForever` | `auth-provider/server/src/event-processing/outbox-publisher.service.ts:92-167` | a publisher whose lease was taken over never changes the outbox again, in any later run |
| `PipelineTheorems.StaleTaskIsFenced` | `auth-provider/sync-worker/src/event-processing/revocation-delivery.service.ts:220-290` | a worker whose attempt number was overtaken changes no row |
| `PipelineTheorems.StaleTaskIsFencedForever` | `auth-provider/sync-worker/src/event-processing/revocation-delivery.service.ts:220-290` | nor does it in any later run |
| `Naming.SameDigestSameEvent` | `packages/shared/src/index.ts:171-173` | two notices with one payload hash are of one event and end the same sessions |
| `EndToEnd.RowIsGenuine` | `auth-provider/server/src/event-processing/outbox-event.service.ts:37-56` | the row written for an announcement names its user, session and application, with its type and reason, and is one the worker accepts: for logouts, deactivations, password changes and losses of access |
| `EndToEnd.LogoutCommitsRow` | `auth-provider/server/src/auth/auth.service.ts:223-259` | a logout of an active session revokes it and commits the row that announces it, in one step |
| `EndToEnd.PasswordChangeCommitsRow` | `auth-provider/server/src/admin/admin-users.service.ts:237-247` | a password change announces itself once and commits the row, in one step |
| `EndToEnd.RunKeeps` | `auth-provider/server/src/event-processing/outbox-event.service.ts:33-60` | every run keeps: the rows of the outbox announce exactly what transactions announced, and no central session has two rows |
| `EndToEnd.RevokedSessionsHaveOneRow` | `auth-provider/server/src/event-processing/outbox-event.service.ts:33-60` | a central session has a row in the outbox if and only if a logout or a deactivation revoked it; then it has exactly one, which names it, its user and the reason |
| `EndToEnd.AnnouncementReachesLocalSessions` | `auth-provider/sync-worker/src/event-processing/revocation-delivery.service.ts:51-97` | every announcement has a row that is pending, on its way, or handled for all its targets; where its delivery succeeded, every local session it concerns is over that existed, in any earlier state, before the application processed it |
| `EndToEnd.RevocationReachesLocalSessions` | `auth-provider/sync-worker/src/event-processing/revocation-delivery.service.ts:51-97` | the same for the one row of a central session that a logout or a deactivation revoked |
| `EndToEnd.UnconcernedIsLeftAlone` | `applications/app-a/src/lib/internal/logout-processor.ts:74-88` | in every reachable state a delivery leaves alone every local session that no announcement concerns: of other users, of other central sessions of the same user, of applications the user may still use |
| `PendingRows.AckCovers` | `auth-provider/sync-worker/src/event-processing/rabbitmq-consumer.service.ts:177-184` | a message is acknowledged only when no row it covers is PENDING, so every PENDING row keeps its cover |
| `PendingRows.PendingIsNeverOrphaned` | `auth-provider/sync-worker/src/event-processing/revocation-delivery.service.ts:51-97` | in every reachable state each PENDING delivery is covered by a message that will be processed again |
| `DeadLetterRace.DeadLetteredYetSucceeded` | `auth-provider/sync-worker/src/event-processing/revocation-delivery.service.ts:334-400` | a run in which the dead letter of a produced event is stored and confirmed and the delivery ends SUCCEEDED: a dead letter does not imply FAILED |
| `DeadLetterRace.ConfirmedDeadLetterFails` | `auth-provider/sync-worker/src/event-processing/revocation-delivery.service.ts:387-400` | a confirmed dead letter leads to FAILED if and only if the row is still PROCESSING under the attempt number that was claimed |
| `AccessSafety.OutboxKept` | `auth-provider/server/src/event-processing/outbox-event.service.ts:33-60` | the outbox invariant survives every step whose events announce exactly the sessions that became announced |
| `AccessSafety.RevocationKeeps` | `auth-provider/server/src/admin/admin-revocation.service.ts:131-176` | revoking users keeps the invariant if nobody else lost a path or was deactivated |
| `AccessSafety.AnnouncedRevocation` | `auth-provider/server/src/admin/admin-revocation.service.ts:19-43` | a deactivation announces exactly the sessions it ended, each once |
| `AccessSafety.SilentRevocation` | `auth-provider/server/src/admin/admin-revocation.service.ts:45-74` | password change and access loss announce no session |
| `AccessSafety.LostAccessKeeps` | `auth-provider/server/src/admin/admin-revocation.service.ts:76-129` | removing access keeps the invariant if the candidates cover the pairs that lost their path |
| `AccessSafety.DeleteGroupKeeps` | `auth-provider/server/src/admin/admin-groups.service.ts:205-218` | deleting a group keeps the invariant |
| `AccessSafety.RemoveMembershipKeeps` | `auth-provider/server/src/admin/admin-users.service.ts:363-371` | removing a membership keeps it |
| `AccessSafety.RemovePolicyKeeps` | `auth-provider/server/src/admin/admin-applications.service.ts:511-569` | removing a policy keeps it |
| `AccessSafety.CurrentSessionKeeps` | `auth-provider/server/src/auth/auth.service.ts:125-172` | reading a session keeps it |
| `AccessSafety.TouchSessionKeeps` | `auth-provider/server/src/auth/auth.service.ts:174-186` | its guarded touch keeps it |
| `AccessSafety.IssueSessionKeeps` | `auth-provider/server/src/auth/central-session.service.ts:21-68` | issuing a session keeps it |
| `AccessSafety.LogoutKeeps` | `auth-provider/server/src/auth/auth.service.ts:208-273` | a logout keeps it |
| `AccessSafety.LogoutClosesTokens` | `auth-provider/server/src/auth/auth.service.ts:223-259` | a logout leaves the session no active token, unless the session had expired before: then it changes nothing |
| `AccessSafety.StartChallengeKeeps` | `auth-provider/server/src/mfa/mfa-challenge.service.ts:58-72` | starting a login challenge keeps it |
| `AccessSafety.CompleteChallengeKeeps` | `auth-provider/server/src/mfa/mfa-challenge.service.ts:211-257` | completing one keeps it |
| `AccessSafety.AuthorizeKeeps` | `auth-provider/server/src/authorization/authorization.service.ts:54-81` | the first reads of an authorization request keep it |
| `AccessSafety.IdentifyKeeps` | `auth-provider/server/src/authorization/authorization.service.ts:121-138` | its session check keeps it |
| `AccessSafety.CheckKeeps` | `auth-provider/server/src/authorization/authorization.service.ts:140-176` | its policy check keeps it |
| `AccessSafety.InsertCodeKeeps` | `auth-provider/server/src/authorization/authorization.service.ts:178-209` | its insertion of the code keeps it, however much later it happens |
| `AccessSafety.RedeemedTokenOk` | `auth-provider/server/src/authorization/token.service.ts:126-185` | an accepted code gives a token with a current path, an active user and an unrevoked session, although no policy is read |
| `AccessSafety.ExchangeKeeps` | `auth-provider/server/src/authorization/token.service.ts:106-201` | the exchange keeps the invariant |
| `AccessSafety.GetProfileKeeps` | `auth-provider/server/src/authorization/userinfo.service.ts:36-178` | reading a profile keeps it |
| `AccessSafety.UpdateStatusKeeps` | `auth-provider/server/src/admin/admin-users.service.ts:185-198` | changing a status keeps it |
| `AccessSafety.UpdatePasswordKeeps` | `auth-provider/server/src/admin/admin-users.service.ts:237-247` | changing a password keeps it |
| `AccessSafety.UpdateApplicationKeeps` | `auth-provider/server/src/admin/admin-applications.service.ts:166-190` | changing an application keeps it |
| `AccessSafety.RemoveRedirectUriKeeps` | `auth-provider/server/src/admin/admin-applications.service.ts:337-400` | removing a redirect URI keeps it |
| `AccessSafety.StepKeeps` | `auth-provider/server/src/authorization/token.service.ts:106-201` | every transaction keeps the invariant and revives no session, code, token or challenge |
| `AccessSafety.RunKeeps` | `auth-provider/server/src/authorization/token.service.ts:106-201` | so does every run, in any interleaving |
| `AccessTheorems.ActiveTokenMeansAccess` | `auth-provider/server/src/authorization/token.service.ts:126-185` | in every reachable state an ACTIVE token implies a current ALLOW path of its user to its application, an active user, and a session of that user that is not REVOKED |
| `AccessTheorems.ProfilePolicyCheckIsImplied` | `auth-provider/server/src/authorization/userinfo.service.ts:84-134` | the profile reader answers exactly when the checks before its policy check pass: the policy check never refuses |
| `AccessTheorems.CodesAreSingleUse` | `auth-provider/server/src/authorization/token.service.ts:106-185` | at most one token is ever issued per code, carrying its user, application and session, only after redirect URI and PKCE verifier matched; a redeemed code is refused from then on (section 4.1.2 of RFC 6749, section 4.6 of RFC 7636) |
| `AccessTheorems.RemovedUriVoidsCodes` | `auth-provider/server/src/admin/admin-applications.service.ts:389-400` | a code issued for a redirect URI before its removal is never redeemed, even if the URI is added again |
| `AccessTheorems.DeactivatedApplicationVoidsTokens` | `auth-provider/server/src/admin/admin-applications.service.ts:178-190` | if the read before the transaction saw the application active, a token issued before its deactivation is refused in every later state, even if the application is active again |
| `AccessTheorems.StaleReadKeepsTokens` | `auth-provider/server/src/admin/admin-applications.service.ts:136-190` | and only then: a token accepted before is refused after a reactivation if and only if that read saw the application active |
| `AccessTheorems.DeactivationCloses` | `auth-provider/server/src/admin/admin-revocation.service.ts:19-43` | a deactivation closes every session, token and challenge of the user |
| `AccessTheorems.PasswordChangeCloses` | `auth-provider/server/src/admin/admin-revocation.service.ts:45-74` | so does a password change |
| `AccessTheorems.AccessLossCloses` | `auth-provider/server/src/admin/admin-revocation.service.ts:76-129` | so does losing the path to any application |
| `AccessTheorems.NothingIsRevived` | `auth-provider/server/src/admin/admin-revocation.service.ts:131-176` | nothing of the user that existed then is accepted in any later run: no session, token, code or challenge, reactivation and restored policies included |
| `AccessTheorems.PendingRequestYieldsNothing` | `auth-provider/server/src/authorization/authorization.service.ts:140-197` | nor does a request of the user that was identified before ever yield a code that can be redeemed, however much later it inserts it |
| `AccessTheorems.DroppedGroupDiff` | `auth-provider/server/src/admin/admin-groups.service.ts:199-218` | the candidates of a group deletion without a policy are exactly the pairs that lost their path |
| `AccessTheorems.LeftGroupDiff` | `auth-provider/server/src/admin/admin-users.service.ts:353-371` | the same for a removed membership |
| `AccessTheorems.DisallowedDiff` | `auth-provider/server/src/admin/admin-applications.service.ts:556-569` | the same for a removed policy |
| `AccessTheorems.ExactAccessDiff` | `auth-provider/server/src/admin/admin-revocation.service.ts:82-128` | the pairs announced are exactly those with an ALLOW path before and none after, each once; exactly the users of those pairs are revoked, and nothing else changes |
| `AccessTheorems.EachLostPairOnce` | `auth-provider/server/src/admin/admin-revocation.service.ts:113-126` | the number of AccessPolicyChanged events for a pair grows by one if it lost its last path, and by none otherwise |
| `AccessTheorems.SessionsAnnouncedExactly` | `auth-provider/server/src/auth/auth.service.ts:223-259` | over any run a central session is in at most one SessionRevoked event, and in one exactly when it was revoked with reason sso_logout or user_deactivated |
| `AccessEffects.SessionReadExactly` | `auth-provider/server/src/auth/auth.service.ts:125-172` | a session cookie is accepted exactly for an active, unrevoked, unexpired session of an active user; reading changes exactly an elapsed one still marked active |
| `AccessEffects.TouchExactly` | `auth-provider/server/src/auth/auth.service.ts:174-186` | a touch finds exactly a session that is active, unrevoked and unexpired, and writes the time |
| `AccessEffects.OpenedExactly` | `auth-provider/server/src/auth/central-session.service.ts:21-68` | a session is issued to an existing user for its lifetime from now; a login challenge likewise, closing the open ones of the user and no others |
| `AccessEffects.LoginExactly` | `auth-provider/server/src/mfa/mfa-challenge.service.ts:211-257` | a challenge issues one session exactly if it is unused and unexpired, its user is active and the factor was claimed |
| `AccessEffects.CodeIssuedExactly` | `auth-provider/server/src/authorization/authorization.service.ts:54-209` | an undisturbed request inserts a code exactly if its application is active and has the redirect URI, its session is in use and a policy allows its user; the code carries all of that |
| `AccessEffects.ExchangeExactly` | `auth-provider/server/src/authorization/token.service.ts:106-201` | an exchange changes anything exactly if the code is unused and unexpired, was issued to the application that authenticated, for this redirect URI and a challenge the verifier meets, and user, application and session are in use; it creates one token of that application |
| `AccessEffects.ProfileExactly` | `auth-provider/server/src/authorization/userinfo.service.ts:36-178` | the profile is answered exactly for an active, unrevoked, unexpired token whose user, application and session are in use, whose scopes hold profile, and whose user has a path |
| `AccessEffects.ElapsedTokenIsMarked` | `auth-provider/server/src/authorization/userinfo.service.ts:93-112` | a refused reading changes exactly an elapsed token still marked active |
| `AccessEffects.RevocationExactly` | `auth-provider/server/src/admin/admin-revocation.service.ts:131-176` | a revocation of users changes exactly their open sessions, tokens and challenges, with time and reason, and nothing else |
| `AccessEffects.PasswordChangeAnnounces` | `auth-provider/server/src/admin/admin-users.service.ts:220-260` | a password change of an existing user adds exactly one PasswordChanged event and revokes the user |
| `AccessEffects.EachUserAnnouncedOnce` | `auth-provider/server/src/admin/admin-revocation.service.ts:45-74` | for a list of users one event is added for each of them, however often it is named, and none for others |
| `AccessEffects.StatusChangeExactly` | `auth-provider/server/src/admin/admin-users.service.ts:157-218` | a status change is refused exactly for a missing user, the status read before, or the last administrator; a deactivation also revokes the user and announces each session it ends, once, and nothing else |
| `AccessEffects.GroupDeletedExactly` | `auth-provider/server/src/admin/admin-groups.service.ts:179-236` | a group is deleted with its memberships and policies and no others, unless it is the administrator group |
| `AccessEffects.RemovedExactly` | `auth-provider/server/src/admin/admin-users.service.ts:325-390` | exactly one membership, or policy, is removed; the last administrator stays one |
| `AccessEffects.LogoutExactly` | `auth-provider/server/src/auth/auth.service.ts:208-273` | a logout changes anything exactly for an active session: it revokes it and its active tokens, and no others, and announces it once |
| `AccessEffects.ApplicationChangeExactly` | `auth-provider/server/src/admin/admin-applications.service.ts:166-190` | a change of an application revokes its active tokens exactly if it deactivates it and the read before saw it active |
| `AccessEffects.RedirectUrisExactly` | `auth-provider/server/src/admin/admin-applications.service.ts:337-400` | a redirect URI is removed exactly if it is there and not the last, together with the unused codes issued for it |
| `AuthProvider.Database.EnqueueMany` | `auth-provider/server/src/event-processing/outbox-event.service.ts:33-60` | the events are appended to the outbox |
| `AuthProvider.Database.RevokeSecurityState` | `auth-provider/server/src/admin/admin-revocation.service.ts:131-176` | exactly the open sessions, tokens and challenges of the users are closed, and exactly the sessions closed are returned, each once |
| `AuthProvider.Database.RevokeUsersForDeactivation` | `auth-provider/server/src/admin/admin-revocation.service.ts:19-43` | the tables change as specified, with one event for each session ended |
| `AuthProvider.Database.RevokeUsersForPasswordChange` | `auth-provider/server/src/admin/admin-revocation.service.ts:45-74` | the tables change as specified, with one event for each user of the list; an empty list changes nothing |
| `AuthProvider.Database.FindLostAccess` | `auth-provider/server/src/admin/admin-revocation.service.ts:82-108` | the nested loops find exactly the candidate pairs without a path, each once |
| `AuthProvider.Database.RevokeUsersWhoLostAccess` | `auth-provider/server/src/admin/admin-revocation.service.ts:76-129` | the tables change as specified, with one event for each lost pair; the users returned are those of the lost pairs |
| `AuthProvider.Database.DeleteGroup` | `auth-provider/server/src/admin/admin-groups.service.ts:179-236` | the tables change as specified; it is refused exactly for a missing group and the administrator group |
| `AuthProvider.Database.RemoveGroupMembership` | `auth-provider/server/src/admin/admin-users.service.ts:325-390` | the tables change as specified; access was lost exactly if some application of the group is out of reach afterwards |
| `AuthProvider.Database.RemovePolicy` | `auth-provider/server/src/admin/admin-applications.service.ts:504-591` | the tables change as specified; it is refused exactly for a missing application or policy |
| `AuthProvider.Database.UpdateStatus` | `auth-provider/server/src/admin/admin-users.service.ts:157-218` | the tables change as specified |
| `AuthProvider.Database.UpdatePassword` | `auth-provider/server/src/admin/admin-users.service.ts:220-260` | the tables change as specified |
| `AuthProvider.Database.GetCurrentSession` | `auth-provider/server/src/auth/auth.service.ts:125-206` | the session is accepted or expired as specified; it is accepted only if the guarded touch still finds it usable after any changes by others |
| `AuthProvider.Database.ReadCurrentSession` | `auth-provider/server/src/auth/auth.service.ts:125-172` | the first reads accept or expire the session as specified |
| `AuthProvider.Database.Logout` | `auth-provider/server/src/auth/auth.service.ts:208-273` | the session, its tokens and the outbox change together, or nothing changes |
| `AuthProvider.Database.FindApplication` | `auth-provider/server/src/authorization/authorization.service.ts:54-81` | a request begins only for an active application with this redirect URI |
| `AuthProvider.Database.ReadSession` | `auth-provider/server/src/authorization/authorization.service.ts:121-138` | it continues only with an accepted session |
| `AuthProvider.Database.TouchSessionOf` | `auth-provider/server/src/auth/auth.service.ts:174-186` | the request continues only if its session is still usable |
| `AuthProvider.Database.TouchSession` | `auth-provider/server/src/auth/auth.service.ts:174-186` | only a usable session is touched, and the count says whether it was |
| `AuthProvider.Database.FindPolicy` | `auth-provider/server/src/authorization/authorization.service.ts:140-176` | it continues only with an ALLOW path |
| `AuthProvider.Database.CreateCode` | `auth-provider/server/src/authorization/authorization.service.ts:185-197` | the code is inserted unused |
| `AuthProvider.Database.ClaimCode` | `auth-provider/server/src/authorization/token.service.ts:162-174` | the guarded update uses up the code, and its count says whether it did |
| `AuthProvider.Database.Authorize` | `auth-provider/server/src/authorization/authorization.service.ts:54-217` | the tables change as the steps of one authorization request do, with any changes by others before each of them |
| `AuthProvider.Database.Exchange` | `auth-provider/server/src/authorization/token.service.ts:106-201` | session touched, code used and one token created together, exactly if the code is accepted; the two guarded updates then always match |
| `AuthProvider.Database.GetProfile` | `auth-provider/server/src/authorization/userinfo.service.ts:24-183` | the answer is that of the specified reader, scope check included; its session is touched, and an elapsed token is marked expired |
| `AuthProvider.Database.ConfirmToken` | `auth-provider/server/src/authorization/userinfo.service.ts:150-166` | the guarded update that writes ACTIVE over ACTIVE changes nothing; its count says whether the token is still valid |
| `MfaSafety.ClaimIsFirst` | `auth-provider/server/src/mfa/mfa-management.service.ts:193-228` | a claim succeeds only for a time step not yet accepted while the row held its present secret, or a recovery code never accepted before |
| `MfaSafety.StartEnrolmentKeeps` | `auth-provider/server/src/mfa/mfa-enrollment.service.ts:61-86` | starting an enrolment keeps the invariant |
| `MfaSafety.ConfirmKeeps` | `auth-provider/server/src/mfa/mfa-enrollment.service.ts:148-167` | confirming one keeps it, also when the secret was replaced meanwhile |
| `MfaSafety.StartChallengeKeeps` | `auth-provider/server/src/mfa/mfa-challenge.service.ts:58-72` | a new challenge is open and is the only open one of its user |
| `MfaSafety.CompleteAllOrNothing` | `auth-provider/server/src/mfa/mfa-challenge.service.ts:191-280` | a login uses its challenge, consumes one new factor and creates one session, or does nothing at all |
| `MfaSafety.RegenerateKeeps` | `auth-provider/server/src/mfa/mfa-management.service.ts:40-56` | regenerating recovery codes keeps the invariant |
| `MfaSafety.DisableKeeps` | `auth-provider/server/src/mfa/mfa-management.service.ts:80-107` | disabling the second factor keeps it |
| `MfaSafety.StepKeeps` | `auth-provider/server/src/mfa/mfa-challenge.service.ts:191-280` | every transaction keeps it |
| `MfaSafety.RunKeeps` | `auth-provider/server/src/mfa/mfa-challenge.service.ts:191-280` | so does every run |
| `MfaSafety.FactorsAreOneTime` | `auth-provider/server/src/mfa/mfa-management.service.ts:193-228` | over any run no time step is accepted twice under one secret of the row (section 5.2 of RFC 6238) and no recovery code twice; a user has at most one unused challenge; no challenge counts more failures than the limit |
| `MfaSafety.AcceptedIsRefused` | `auth-provider/server/src/mfa/mfa-management.service.ts:193-228` | a step accepted once is refused, by every claim and by every confirmation of an enrolment, in every later state in which the row still holds the secret it was accepted under; a recovery code accepted once is refused in every later state |
| `MfaSafety.AcceptedAgainExactly` | `auth-provider/server/src/mfa/mfa-management.service.ts:193-228` | an accepted code is accepted again by a regeneration, a removal or a login with an open challenge if and only if the row now is enabled under another secret and has not reached its step, and by a confirmation if and only if an enrolment is pending, which then is of another secret: the updates name only the user |
| `MfaSafety.StepAcceptedTwice` | `auth-provider/server/src/mfa/mfa-management.service.ts:36-56` | a run that does it: regeneration, removal, new enrolment, and a regeneration that verified the code before all this |
| `MfaSafety.StepConfirmedTwice` | `auth-provider/server/src/mfa/mfa-enrollment.service.ts:107-155` | a run in which a confirmation accepts a code a second time, after removal and a new start, and enables a secret for which nobody showed a code |
| `MfaSafety.UnprovenExactly` | `auth-provider/server/src/mfa/mfa-enrollment.service.ts:107-155` | a confirmation enables a secret that nobody verified if and only if the pending row holds another secret than the one its code was verified for |
| `MfaSafety.EnabledMeansProven` | `auth-provider/server/src/mfa/mfa-enrollment.service.ts:107-155` | in every run without such a confirmation, whoever has the second factor enabled has shown a code for that secret |
| `MfaSafety.LoginClaimsVerifiedSecret` | `auth-provider/server/src/mfa/mfa-challenge.service.ts:211-250` | a login is not affected: if it succeeds, the row still holds the secret its code was verified for |
| `MfaSafety.UsedChallengeForever` | `auth-provider/server/src/mfa/mfa-challenge.service.ts:211-224` | a used challenge never changes again |
| `MfaSafety.RegenerationVoidsOldCodes` | `auth-provider/server/src/mfa/mfa-management.service.ts:40-46` | after a regeneration the user has exactly the new codes, all unused, and every older code of the user is refused in every later state |
| `MfaSafety.DisablingVoidsFactors` | `auth-provider/server/src/mfa/mfa-management.service.ts:80-95` | after disabling, in every later state the secret belongs to no user, and every recovery code and every challenge of the user is refused |
| `MfaEffects.ClaimExactly` | `auth-provider/server/src/mfa/mfa-management.service.ts:193-228` | a factor is claimed exactly for a later time step than the last one or an unused recovery code of the user; the row remembers the step, or the code is used |
| `MfaEffects.RecognisedExactly` | `auth-provider/server/src/mfa/mfa-challenge.service.ts:138-181` | the reads before the transaction recognise exactly a later time step or an unused recovery code of the user |
| `MfaEffects.LoginExactly` | `auth-provider/server/src/mfa/mfa-challenge.service.ts:77-286` | an undisturbed login succeeds exactly for an unused, unexpired challenge with tries left and an allowed intent, an active user who may administer if it is for that, an enabled factor and a good code |
| `MfaEffects.ChallengeExactly` | `auth-provider/server/src/mfa/mfa-challenge.service.ts:58-72` | a new challenge is of this user, intent and lifetime with no attempts; it closes the open ones of the user and no others |
| `MfaEffects.EnrolmentExactly` | `auth-provider/server/src/mfa/mfa-enrollment.service.ts:61-86` | an enrolment starts exactly if the second factor is not enabled, and is then pending with the new secret |
| `MfaEffects.ConfirmExactly` | `auth-provider/server/src/mfa/mfa-enrollment.service.ts:148-167` | a confirmation succeeds exactly for a pending enrolment; it enables it, remembers the step and replaces the recovery codes of the user, and of no other |
| `MfaEffects.RegenerationExactly` | `auth-provider/server/src/mfa/mfa-management.service.ts:40-56` | a regeneration succeeds exactly with a good factor, consumes it and replaces the codes of the user, and of no other |
| `MfaEffects.DisablingExactly` | `auth-provider/server/src/mfa/mfa-management.service.ts:80-107` | the second factor is disabled exactly with a good factor while enabled; row, codes and open challenges of the user are gone, those of others stay |
| `MfaServices.RefusedLoginCountsOnce` | `auth-provider/server/src/mfa/mfa-challenge.service.ts:288-325` | a refused login of a challenge that was open when read counts exactly one attempt, if the challenge is still unused and below the limit; any other refused login changes nothing; an accepted one passed every check made before the transaction and carried it out |
| `MfaServices.LoginTakesStep` | `auth-provider/server/src/mfa/mfa-challenge.service.ts:77-286` | one call of `complete`, with any interference, is one step of a run: a login or a counted refusal |
| `MfaServices.CounterCountsRefusals` | `auth-provider/server/src/mfa/mfa-challenge.service.ts:288-325` | over any run the counter of an unused challenge is the number of its refused logins, up to the limit |
| `MfaServices.ExhaustedChallengeIsRefused` | `auth-provider/server/src/mfa/mfa-challenge.service.ts:120-132` | once as many logins of a challenge were refused as the limit allows, no code completes it in any later state |
| `MfaServices.FactorDatabase.ClaimFactor` | `auth-provider/server/src/mfa/mfa-management.service.ts:193-228` | the guarded update consumes the factor as specified, and its count says whether it did |
| `MfaServices.FactorDatabase.ClaimChallenge` | `auth-provider/server/src/mfa/mfa-challenge.service.ts:211-224` | the guarded update uses the challenge as specified, and its count says whether it did |
| `MfaServices.FactorDatabase.Rollback` | `auth-provider/server/src/mfa/mfa-challenge.service.ts:252-254` | a transaction that throws leaves every table as it was |
| `MfaServices.FactorDatabase.Start` | `auth-provider/server/src/mfa/mfa-challenge.service.ts:46-75` | the tables change as specified |
| `MfaServices.FactorDatabase.CompleteTransaction` | `auth-provider/server/src/mfa/mfa-challenge.service.ts:192-280` | challenge, factor and session change together or not at all |
| `MfaServices.FactorDatabase.RecordFailure` | `auth-provider/server/src/mfa/mfa-challenge.service.ts:288-325` | the counter of an open challenge below the limit grows by one, nothing else changes |
| `MfaServices.FactorDatabase.Recognise` | `auth-provider/server/src/mfa/mfa-challenge.service.ts:138-181` | the factor found by the reads before the transaction is the one specified |
| `MfaServices.FactorDatabase.ReadAttempt` | `auth-provider/server/src/mfa/mfa-challenge.service.ts:77-181` | the reads before the transaction recognise a factor only of a challenge that may be tried |
| `MfaServices.FactorDatabase.Complete` | `auth-provider/server/src/mfa/mfa-challenge.service.ts:77-286` | the result and the tables are those of the specified login, with any changes by others between the reads and the transaction |
| `MfaServices.FactorDatabase.StartEnrolment` | `auth-provider/server/src/mfa/mfa-enrollment.service.ts:54-99` | an enrolment starts exactly if the second factor is not enabled |
| `MfaServices.FactorDatabase.ConfirmEnrolment` | `auth-provider/server/src/mfa/mfa-enrollment.service.ts:148-182` | the tables change as specified, or not at all |
| `MfaServices.FactorDatabase.ReplaceCodes` | `auth-provider/server/src/mfa/mfa-enrollment.service.ts:161-167` | the old recovery codes of the user are gone and the new ones unused |
| `MfaServices.FactorDatabase.RegenerateRecoveryCodes` | `auth-provider/server/src/mfa/mfa-management.service.ts:40-56` | the factor is consumed and the codes replaced together, or nothing changes |
| `MfaServices.FactorDatabase.Disable` | `auth-provider/server/src/mfa/mfa-management.service.ts:80-107` | the factor is consumed and everything removed together, or nothing changes |

## Left out

- Broker connections, topology, heartbeats, reconnecting, prefetch and the waiting of the shutdown for in-flight work: library I/O.
- HTTP requests, URL parsing, cookies, controllers, input validation of OAuth parameters, pages and server actions: plumbing.
- Cryptography: password hashing, encryption of TOTP secrets, the TOTP algorithm, SHA-256, random generation.
- Date and time parsing in detail: an abstract normaliser that is idempotent on its results.
- Metrics, health checks, audit rows, texts of log messages and the `lastError` columns.
- Row locks and isolation levels inside a transaction.
- The shutdown coordinators and `ShutdownState`: a counter of active requests, easy next to the rest.
- Generation and formatting of recovery codes, parsing of Basic and Bearer headers: pure text handling of few lines.
- The profile cache of the relying applications, read only for display.
- Creation and renaming of users, groups and applications beyond the rows they add, and rotation of client secrets: no revocation depends on them.
- EventIdentity.MessageReadExactly: the reader of JSON text knows the notation that `JSON.stringify` writes, and no white space, other escapes or repeated keys, because every message is written by the publisher.
- The order of outbox candidates by creation time; the model takes any list of due rows.
- Polling timers and the guard against overlapping cycles (`triggerCycle`): overlapping cycles are allowed in the model.
- DeliveryService.RevocationDeliveryService.HandleCandidates: the source starts all candidates at once; here they are handled one after the other with arbitrary interference on each row, which gives the same rows because each handling touches only its own.
