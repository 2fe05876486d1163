# Mail worker protocols in Dafny

A model of the stateful protocols of the UniMailbox worker and of the algorithms under them, with proofs of what
they keep in every interleaving. `dafny verify dfyconfig.toml` checks the project.

| area | modules | what is shown |
|---|---|---|
| Drafts: update, send, schedule, cancel against the dispatcher | `DraftTables` (rows and batches), `DraftCalls` (one call), `DraftProtocol` (interleaving), `DraftFrames`, `DraftInvariant`, `DraftSerial`, `DraftIsolation`, `DraftTheorems`, `DraftAnswers` and `DraftAcceptance` (what an accepted call leaves, and when it is accepted), `DraftDispatch`, `DraftDelivery`, `DraftProgress`, `DraftWitnesses` and `DraftSlips` (runs), `DraftBatches` (the SQL statements one by one) | serializability, what each answer means, at-most-once send, replay, safety of dispatched jobs, when an enqueued job is due, what a delivery leaves, where all-or-nothing ends |
| Attachment catalog | `Catalog` (steps), `CatalogSafety` (calm steps and invariant), `CatalogSteps`, `CatalogExact`, `CatalogOrder`, `CatalogTheorems`, `CatalogUploads`, `CatalogEffects`, `CatalogWitnesses` (runs) | what each operation gets done; in calm runs no attachment ever loses its bytes, and it has the size it was promised with; calm is exact, and timely inserts are calm |
| Streaming MD5 and body comparison | `Words`, `Blocks`, `Md5Spec`, `Md5`, `Bodies` | the code on JavaScript numbers refines RFC 1321 |
| Message send | `MessageSend` | exactly once per life of a key, and a retry is answered |
| Canonical hashing input | `JsonText`, `JsonReader`, `CanonicalJson`, `CanonicalTies` | reads back; exact for a value if and only if it has no ties |
| Signature HTML | `SignatureAttributes`, `Signature`, `SignatureKept`, `SignatureLinks`, `SignatureForm` | what is kept, what a link is judged by, normal form, and when a second pass changes nothing |
| Scheduled times | `Calendar`, `Timestamps`, `Schedule` | text order is time order, round trip, window, date check |
| Listing, storage, provider status, rate limit, heartbeat | `Pagination`, `AttachmentStore`, `ProviderStatus` and `ProviderOverlap`, `RateLimit`, `Heartbeat` | completeness, refinement, convergence and when overlap ends it, bounds, freshness |

Protocols are state machines: an operation is cut at its awaits, a database statement or batch is one atomic step, and
steps of any number of operations interleave freely. What else writes the same tables (dispatcher, queue, clocks,
record cleanup, removal, folder moves, arriving and sent messages, provider reports, the trash) is a set of steps that
may happen whenever their statements let them. Versions, ids and object keys come from a fresh supply. SHA-256 is taken
not to collide on the hashed inputs; HMAC, providers and the queue appear only by their effect on rows.

## Where the code and its documentation disagree

The model follows the code.

- `drafts.ts` says cancel and schedule cannot succeed in part. Their job statements (660-669, 838-841) do not look at
  the draft's version, so they can: `DraftTheorems.ScheduleAllOrNothing` and `CancelAllOrNothing` say exactly when, and
  `DraftWitnesses` gives runs. A refused schedule has even recorded its success.
- `outbound-mail/index.ts` marks a job enqueued without looking at its due time again (74-80):
  `DraftDispatch.DueIffNeverLate`, and a run in `DraftWitnesses.RescheduledJobIsEnqueued`.
- `docs/rebuild-blueprint.md` (1094-1096) says provider success sets `sent` and terminal failure `failed`. The code
  (`outbound-mail/index.ts` 327-333, 395-401) writes them only over `draft`, so a message that was sent with a job stays
  queued until a provider reports on it: `DraftWitnesses.DeliveredMailStaysQueued` and `FailedMailStaysQueued` are runs,
  and `DraftDelivery.ClaimedIsSentIff`, `DeliveredIsSentIff` and `GivenUpIsFailedIff` say exactly when it does not.
- An update does not look at the draft's job, so a draft can be changed while it is delivered:
  `DraftDelivery.DeliveredIsKept`, and a run in `DraftWitnesses.EditedWhileDelivered`.
- `messages/index.ts` `move` (529-557) can move a draft's link without a new version, so an update or a send that
  read before it can commit where a fresh call would find no draft. `DraftSerial.CleanIsExact` says exactly when an
  accepted call of any kind did what it does alone, and `DraftSlips` has a run for each way it does not.
- The attachment code can lose content: by a cancel or an expiry that saw no file and finds one by then, by a second PUT
  to one upload, by an insert under a key that is about to be deleted, and by an insert a day after its put.
  `CatalogExact.CalmIsExact` gives the exact guard of each step for the invariant, `RetireLosesIffNotCalm` that of a
  cancel for the content itself, and `CatalogWitnesses` a run for each, calm but for one step.
- `email-core` promises one hash for one object; `localeCompare` calls some distinct keys equal, and those keep the
  order they came in. `CanonicalTies.ExactIffTieFree` says for which values the promise holds.
- `bodiesEqual` tells an empty buffer from an empty stream: `Bodies.BodiesEqual`.
- Sanitizing a signature twice escapes an ampersand in a link twice: `SignatureForm.IdempotentIffHrefsArePlain`.
- `schedule.ts` says text order is time order; that holds among stored values, but `CURRENT_TIMESTAMP` has no fraction,
  so a job is due one second later than its text. The window ends just under a second beyond 30 days.
- The contract's instant check refuses real instants whose offset moves the UTC date, and years below 100.
- `rate-limit.ts` says the counter's lifetime is computed from the window start; it is a constant from now on, which
  only makes counters live longer: `RateLimit.SecondHitExtends`, `RateLimit.CounterIsExact`.
- `heartbeat.ts` says an absent record counts as a recovery; the code only looks for a degraded one:
  `Heartbeat.AbsentStaysAbsent`. And a trigger that falls silent after a failed tick reads as alive for two days:
  `Heartbeat.SilentAfterFailure`.
- `reconcileMessage` writes without looking again at what it compared, so overlapping calls can leave an older event
  behind: `ProviderOverlap.EndsGreatestIffRaised` says exactly when the greatest is stored in the end.

## Model

| member | source | states |
|---|---|---|
| DraftAcceptance.SerialCallsLeaveWhatTheyAsk | apps/worker/src/modules/messages/drafts.ts:217-530 | Serializability: after any interleaving of any number of updates and sends, with the dispatcher and the rest of the worker running, the tables are the initial ones changed by one committed call or outside event after another, and each committed call changed them exactly as its own request asks (what that is, is said of the tables in `UpdateLeaves` and `SendLeaves`) |
| DraftIsolation.UpdatesAndSendsAreSerial | apps/worker/src/modules/messages/drafts.ts:217-530 | The same tables are those the committed calls leave when each runs alone in commit order, with the same answers; each committed If-Match is the version the previous write left. What a call does alone is `DraftAcceptance.UpdateAlone` and `SendAlone` |
| DraftAnswers.UpdateAnswered | apps/worker/src/modules/messages/drafts.ts:257-321 | In every run, an accepted update found the user's draft at the version and in the mailbox it names, and leaves there its own subject, HTML, text and recipients under a version nothing carried before; of the draft's attachments those it names, and one for each upload it names, with that upload's file; those uploads were the user's, complete and in time, and are consumed; nothing else in any table has changed |
| DraftAnswers.SendAnswered | apps/worker/src/modules/messages/drafts.ts:405-530 | In every run, an answered send found the user's draft at the version it names and a To recipient. It answers queued if and only if a recipient of any kind has no active mailbox here: then the domain has a connection, which the row names, and there is one new job, pending, unlocked and due now; otherwise the message is sent, without a connection and without a job. The sender's link went from drafts to sent, each active mailbox addressed has the message in its inbox, the answer is on record under a key that had none, and nothing else has changed |
| DraftAnswers.ScheduleAnswered | apps/worker/src/modules/messages/drafts.ts:601-716 | In every run, an answered schedule found the user's draft at the version it names, a To recipient, an instant within the window, and no job or a pending one, which is now pending at that instant; the row names the domain's connection if and only if a recipient of any kind has no active mailbox here, and there is one then; the answer names the instant and the new version and is on record, and nothing else has changed |
| DraftAnswers.CancelAnswered | apps/worker/src/modules/messages/drafts.ts:790-897 | In every run, a cancel answered with a cancellation found the user's draft at the version it names and a pending or enqueued job, and leaves no job and a new version; one answered otherwise has changed no job and no message; the answer is on record, and nothing else has changed |
| DraftAnswers.RetryAnswered | apps/worker/src/modules/messages/drafts.ts:361-385 | From the answer to a send, schedule or cancel on, while its record lives, a call of the same user and operation under the same key gets that answer if and only if it names the same draft, If-Match and instant, and is refused as a reused key otherwise |
| DraftAcceptance.UpdateAlone | apps/worker/src/modules/messages/drafts.ts:217-256 | Alone, an update is accepted if and only if the draft is the user's, in drafts, at the version named, in the mailbox named, the user may send from it, and every id it names is an attachment of the draft or an upload of the user, complete and in time; a refusal says what is wrong and changes nothing |
| DraftAcceptance.SendAlone | apps/worker/src/modules/messages/drafts.ts:352-530 | The same of a send, which needs a To recipient, a connection if somebody is outside, no job under way and none at all if it needs one, and a free key |
| DraftAcceptance.ScheduleAlone | apps/worker/src/modules/messages/drafts.ts:557-716 | The same of a schedule, which needs no job or a pending one and an instant within the window |
| DraftAcceptance.CancelAlone | apps/worker/src/modules/messages/drafts.ts:747-897 | The same of a cancel, which needs no job or a pending or enqueued one, and says it cancelled if and only if there was one |
| DraftAcceptance.ReadyIsAcceptedIff | apps/worker/src/modules/messages/drafts.ts:256-321 | In every run, the batch of a call of any kind that has read everything is accepted if and only if it still finds the draft at its version, its key free, and its uploads or the job as it needs them |
| DraftSerial.RunIsSerial | apps/worker/src/modules/messages/drafts.ts:217-897 | The same with schedules, cancels and folder moves mixed in: the tables are what the log says, and a commit that is not a call run alone is named in the log as a slip |
| DraftSerial.CleanIsExact | apps/worker/src/modules/messages/drafts.ts:217-897 | An accepted call of any kind did what it does alone if and only if, at its commit, the sender link is still in drafts, an internal send finds no live job, and a cancel that found no job still finds the same row and no job |
| DraftSerial.RefusedChangesNothing | apps/worker/src/modules/messages/drafts.ts:257-321 | The batch of an update or a send that is not accepted changes no table; an accepted one matched the row |
| DraftSerial.CommitVersions | apps/worker/src/modules/messages/drafts.ts:256-321 | A batch writes no row but its own draft, only if that still is the version it read, and leaves its own fresh version there; every acceptance but that of the no-job cancel is such a write |
| DraftTheorems.AcceptedIsLogged | apps/worker/src/modules/messages/drafts.ts:315-321 | Every accepted commit adds exactly one event to the log, and a refused update or send adds none |
| DraftInvariant.StepKeepsInv | apps/worker/src/modules/messages/drafts.ts:217-897 | Every step of every call and of everything else keeps: while a row carries the version a call read, the mailbox, recipients and attachments it read are still the current ones, and no two calls hold the same fresh version |
| DraftInvariant.RunKeepsInv | apps/worker/src/modules/messages/drafts.ts:217-897 | That invariant in every state of every run from any tables |
| DraftFrames.CommitFrame | apps/worker/src/modules/messages/drafts.ts:217-897 | No batch of any call disturbs a draft whose version it does not change, changes or deletes a message that has left draft, or rewrites an idempotency record |
| DraftFrames.EffectFrame | apps/worker/src/modules/outbound-mail/index.ts:326-403 | The same of everything else that writes these tables: creation, removal, arrival and sending of messages, provider reports, emptying and purge of the trash, moves, the dispatcher, lock recovery and cleanup |
| DraftBatches.Database.Update | apps/worker/src/modules/messages/drafts.ts:267-314 | The guarded statements of the update batch, one by one, add up to one compare-and-swap of row, recipients, attachments and uploads, or roll back as a whole |
| DraftBatches.Database.ReplaceRecipients | apps/worker/src/modules/messages/drafts.ts:283-295 | The DELETE and the INSERTs replace the recipients, in order, exactly if the row carries this batch's version |
| DraftBatches.Database.DeleteAttachments | apps/worker/src/modules/messages/drafts.ts:296-312 | Exactly the removed attachments of this draft go, exactly if the row carries this batch's version |
| DraftBatches.Database.InsertAttachments | apps/worker/src/modules/messages/drafts.ts:1064-1095 | One row per upload and every upload consumed, or failure if the trigger finds any upload invalid |
| DraftBatches.Database.Send | apps/worker/src/modules/messages/drafts.ts:428-508 | The statements of the send batch add up to one step: status, version, links, job and record together, or nothing |
| DraftBatches.Database.MoveLinks | apps/worker/src/modules/messages/drafts.ts:445-473 | The sender link moves from drafts to sent and each internal mailbox gets an inbox link |
| DraftBatches.Database.InsertRecord | apps/worker/src/modules/messages/drafts.ts:486-507 | The record is written exactly if the row carries the new version; the batch fails exactly if its key is then already taken |
| DraftBatches.Database.Schedule | apps/worker/src/modules/messages/drafts.ts:647-692 | The statements of the schedule batch, including that the job upsert does not look at the version |
| DraftBatches.Database.UpsertJob | apps/worker/src/modules/messages/drafts.ts:660-669 | A job is inserted if there is none and re-timed only if it is pending |
| DraftBatches.Database.Cancel | apps/worker/src/modules/messages/drafts.ts:837-873 | The statements of the cancel batch, including that the DELETE does not look at the version |
| DraftBatches.Database.DeleteJob | apps/worker/src/modules/messages/drafts.ts:838-841 | The job goes exactly if it is pending or enqueued |
| DraftBatches.Database.BumpRow | apps/worker/src/modules/messages/drafts.ts:842-850 | The row takes the new version exactly if the old one matches and no job blocks it |
| DraftTheorems.SentIsFinal | apps/worker/src/modules/messages/drafts.ts:331-350 | In every run, a message that is no longer a draft keeps its row as it is, but for a provider report on it and its purge: no update, send, schedule, cancel, remove or dispatcher step changes or deletes it |
| DraftTheorems.NeverADraftAgain | apps/worker/src/modules/messages/drafts.ts:331-350 | In every run, provider reports and purges included, it keeps its content, owner and mailbox for as long as it is there, and is never a draft again |
| DraftTheorems.DraftIsSentAtMostOnce | apps/worker/src/modules/messages/drafts.ts:352-530 | In every run at most one send of a draft commits, and no call writes the message after it |
| DraftTheorems.SendLeavesOneJob | apps/worker/src/modules/messages/drafts.ts:474-485 | Of the batch alone: with an external recipient it leaves exactly one new job, pending and due now; an internal one leaves the jobs alone |
| DraftTheorems.AcceptedIsRecorded | apps/worker/src/modules/messages/drafts.ts:486-507 | The batch of every accepted send, schedule and cancel leaves the answer it returned under its key, which was free |
| DraftTheorems.RecordLives | apps/worker/src/platform/schema.ts:46-67 | In every run a record stays word for word what it was until it expires |
| DraftTheorems.SameKeySameAnswer | apps/worker/src/modules/messages/drafts.ts:365-385 | While a record lives, every later call under its key is answered from it, or refused if the request differs, and changes no table; and no call that began before it can be accepted |
| DraftTheorems.DispatchedJobsAreSafe | apps/worker/src/modules/messages/drafts.ts:601-715 | No batch of any call, accepted or not, deletes or re-times a job that is being processed or is finished |
| DraftTheorems.TakenJobStays | apps/worker/src/modules/outbound-mail/index.ts:243-254 | In every run, whatever happens to other jobs, such a job keeps its row, due time and lock until its own holder settles it, its own lock is recovered after it expired, or its message is removed |
| DraftTheorems.ScheduleTookEffect | apps/worker/src/modules/messages/drafts.ts:693-716 | Of the batch alone: it found no job or a pending one, and leaves one pending at the instant asked for, and no other job changed |
| DraftTheorems.CancelTookEffect | apps/worker/src/modules/messages/drafts.ts:874-896 | Of the batch alone: a cancellation found a pending or enqueued job and leaves none; nothing to cancel means no job and no message changed |
| DraftTheorems.ScheduleAllOrNothing | apps/worker/src/modules/messages/drafts.ts:693-715 | A schedule batch is all or nothing if and only if its row guard and its job guard agree, or the row is stale and the pending job already is as the stale call wants it |
| DraftTheorems.CancelAllOrNothing | apps/worker/src/modules/messages/drafts.ts:874-895 | The same for cancel: if and only if the DELETE and the row guard agree |
| DraftWitnesses.StaleCancelLosesQueuedMail | apps/worker/src/modules/messages/drafts.ts:837-895 | A reachable run: a cancel refused with a version conflict has deleted the job of a message sent meanwhile, and in no run from there on does that queued message ever have a job again |
| DraftDelivery.LostForEver | apps/worker/src/modules/messages/drafts.ts:655-669 | In every run, a message that has left draft and has no job never gets one, if no schedule of it that has read it is still under way |
| DraftWitnesses.RefusedScheduleIsReplayedAsSuccess | apps/worker/src/modules/messages/drafts.ts:670-715 | A reachable run: a schedule refused as already dispatched has bumped the version and recorded success, and its retry is told so |
| DraftDispatch.StepKeepsDue | apps/worker/src/modules/outbound-mail/index.ts:61-81 | Every step, the dispatcher's SELECT and UPDATE included, keeps enqueued jobs due if and only if it is not an UPDATE that finds the job it selected pending and no longer due |
| DraftDispatch.DueIffNeverLate | apps/worker/src/modules/outbound-mail/index.ts:61-81 | In a run enqueued jobs are due throughout if and only if every such UPDATE finds its job still due |
| DraftDispatch.LateWasRetimed | apps/worker/src/modules/outbound-mail/index.ts:61-81 | If one does not, a schedule of that draft committed, or its delivery failed and was put off, after the SELECT |
| DraftDispatch.EnqueuedIsClaimable | apps/worker/src/modules/outbound-mail/index.ts:234-254 | In every run the consumer can claim an enqueued job if and only if the job is due |
| DraftWitnesses.RescheduledJobIsEnqueued | apps/worker/src/modules/outbound-mail/index.ts:61-81 | A reachable run with such an UPDATE: a job re-timed between SELECT and UPDATE is enqueued before it is due, and cannot be claimed when the queue delivers it |
| DraftDelivery.RunKeepsJobsOk | apps/worker/src/modules/messages/drafts.ts:474-485 | In every run a job has its message, and the message of a job that no schedule made is queued or as a provider reported it, never a draft |
| DraftDelivery.DeliveredIsSentIff | apps/worker/src/modules/outbound-mail/index.ts:326-351 | In every run, the success of a job's holder settles the job and leaves the message sent if and only if it found it a draft or sent; any other message, so that of every job no schedule made, stays as it is |
| DraftDelivery.GivenUpIsFailedIff | apps/worker/src/modules/outbound-mail/index.ts:365-403 | The same of a failure: without a retry the job is abandoned and the message failed if and only if it was a draft or failed; with one the job is pending at the retry time and the message as it was |
| DraftDelivery.ClaimedIsSentIff | apps/worker/src/modules/outbound-mail/index.ts:240-351 | Over every delivery, whatever calls and consumers run between claim and success: the message ends sent if and only if it was a draft or sent at the claim, and otherwise exactly as it was then |
| DraftWitnesses.DeliveredMailStaysQueued | docs/rebuild-blueprint.md:1096 | A reachable run: a message is sent, claimed and taken by the provider, its job succeeds, and it is still queued |
| DraftWitnesses.FailedMailStaysQueued | docs/rebuild-blueprint.md:1094 | A reachable run: the provider refuses it for good, its job is abandoned, and it is still queued |
| DraftDelivery.LiveLockIsExclusive | apps/worker/src/modules/outbound-mail/index.ts:240-254 | In every run a job whose lock has not expired keeps that lock until its holder releases it or its message is removed, and no other consumer can claim it |
| DraftDelivery.DeliveredIsKept | apps/worker/src/modules/messages/drafts.ts:256-295 | In every run, content and recipients kept at the end of a delivery are those the consumer read, unless an update of that draft committed in between |
| DraftProgress.DueJobIsDelivered | apps/worker/src/modules/outbound-mail/index.ts:61-351 | From every state, a job that is pending, due and unlocked gets through: selected, marked, claimed and delivered, it is done, a draft is sent now, every link in drafts is in sent, each internal mailbox given has an inbox link, and nothing else has changed |
| DraftProgress.NoJobIsStranded | apps/worker/src/modules/maintenance/scheduled.ts:59-71 | A job given back for a retry can be claimed once its time has come, and one whose holder is never heard of again once its lock has expired and been recovered; nothing else changes |
| DraftProgress.ClaimsIff | apps/worker/src/modules/outbound-mail/index.ts:243-254 | A consumer gets the job if and only if it waits, is due, and nobody holds it under a lock that has not expired |
| DraftProgress.RecoversIff | apps/worker/src/modules/maintenance/scheduled.ts:62-71 | Exactly the jobs being processed under an expired lock are pending and unlocked again |
| DraftProgress.CreateLeaves | apps/worker/src/modules/messages/drafts.ts:127-163 | A new draft has exactly the content, recipients and uploads given, in drafts, those uploads consumed; or, if one may not be attached, nothing is changed |
| DraftProgress.RemoveLeaves | apps/worker/src/modules/messages/drafts.ts:331-350 | The user's draft goes with its recipients, attachments, links and job; what is no draft or another user's stays, and nothing else changes |
| DraftProgress.RemoveUndoesCreate | apps/worker/src/modules/messages/drafts.ts:102-350 | A draft made and removed leaves every table as it was, but for the uploads it consumed |
| DraftProgress.ArrivalLeaves | apps/worker/src/modules/messages/index.ts:276-396 | A message sent without a draft, or received, is there with its recipients, files and links, and queued with one job due now or without any; or nothing is changed |
| DraftProgress.ReportsIff | apps/worker/src/modules/administration/index.ts:1489-1493 | A provider report is written on a message exactly if it is no draft, and on nothing else |
| DraftProgress.TrashIsPurged | apps/worker/src/modules/maintenance/scheduled.ts:137-180 | Emptying the trash and the purge after it remove a message with all that belongs to it if and only if no other mailbox shows it |
| DraftWitnesses.EditedWhileDelivered | apps/worker/src/modules/outbound-mail/index.ts:258-351 | A reachable run with such an update: the message is kept as sent with content other than what was read for delivery |
| DraftSlips.MovedDraftIsUpdated | apps/worker/src/modules/messages/index.ts:529-557 | A reachable run: a draft moved to the trash between an update's read and its commit is updated there |
| DraftSlips.InternalSendKeepsJob | apps/worker/src/modules/messages/drafts.ts:660-669 | A reachable run: a refused schedule leaves a job to a draft that is then sent internally, and the sent message keeps a live job |
| DraftSlips.CancelMissesJob | apps/worker/src/modules/messages/drafts.ts:790-829 | A reachable run: a cancel answers that there is nothing to cancel while there is a pending job |
| DraftSlips.CancelMissesUpdate | apps/worker/src/modules/messages/drafts.ts:790-829 | A reachable run: a cancel answers with a version that is no longer the draft's |
| CatalogExact.CalmIsExact | apps/worker/src/modules/attachments/file-catalog.ts:217-438 | From the invariant, a step of any catalog operation keeps it if and only if the step is calm: the exact guard of a PUT, of an insert and of a cancel or expiry; every other step always keeps it |
| CatalogExact.RetireLosesIffNotCalm | apps/worker/src/modules/attachments/index.ts:286-311 | A cancel or an expiry and the delete it may start keep every file row's object if and only if the step is calm, or there is no object |
| CatalogOrder.InTimeIsCalm | apps/worker/src/modules/attachments/file-catalog.ts:275-313 | Content whose row is inserted within 24 hours of its put finds its object there and nobody about to delete it |
| CatalogOrder.OrderlyIsExact | apps/worker/src/modules/attachments/file-catalog.ts:217-438 | Every calm step keeps that so if and only if it is orderly: no PUT under a key about to be deleted, no cancel that deletes what is being registered |
| CatalogOrder.PromptRunIsCalm | apps/worker/src/modules/attachments/file-catalog.ts:217-438 | A run whose inserts are in time and whose PUTs and cancels meet their guards is calm throughout |
| CatalogOrder.SweepSparesNewContent | apps/worker/src/modules/maintenance/orphan-policy.ts:1-12 | The sweep takes no object that came less than a day ago, so nothing can still be about to insert a row for one in time |
| CatalogOrder.DropsSpareNewContent | apps/worker/src/modules/maintenance/scheduled.ts:199-221 | In such a run, if a body is still being registered under a key about to be deleted, its 24 hours are over |
| CatalogExact.IdleRetireIsCalm | apps/worker/src/modules/attachments/index.ts:286-311 | A cancel or an expiry that read its upload while no row owned its key is calm, unless content put under that key has been registered since |
| CatalogSteps.StepKeeps | apps/worker/src/modules/attachments/file-catalog.ts:217-438 | Every calm step of every catalog operation keeps the invariant of CatalogSafety |
| CatalogSteps.RunKeeps | apps/worker/src/modules/attachments/file-catalog.ts:217-438 | That invariant over every run of any number of operations, interleaved at every await |
| CatalogSteps.InsertKeeps | apps/worker/src/modules/attachments/file-catalog.ts:275-313 | Both inserts, with the fallback dedupe key, keep it, for an object that is there and that nobody is about to delete |
| CatalogSteps.AttachKeeps | migrations/0007_attachment_file_catalog.sql:32-50 | The upload trigger lets only live files be attached |
| CatalogSteps.RetireRowKeeps | apps/worker/src/modules/attachments/index.ts:286-311 | Cancelling or expiring an upload is safe, busy or not, unless it drops a key that a file row owns |
| CatalogSteps.CollectRowKeeps | apps/worker/src/modules/attachments/file-catalog.ts:338-367 | Deleting a file nothing refers to is safe although its row was read earlier; when it is deleted is `CatalogEffects.CollectsIff` |
| CatalogSteps.MergeKeeps | apps/worker/src/modules/attachments/file-catalog.ts:384-405 | Moving every reference from one file to an identical one, and dropping the first, is safe although both were compared earlier |
| CatalogSteps.SweepCheckKeeps | apps/worker/src/modules/maintenance/scheduled.ts:199-221 | An object the sweep finds unreferenced is nobody's, also by the time it is deleted |
| CatalogTheorems.FilesAreStored | apps/worker/src/modules/attachments/file-catalog.ts:217-438 | In every state of every such run, from any rows as migration 0007 leaves them, each file row with an MD5 has its object, which hashes to it; and so has one without that is attached, or that a completed upload waits with |
| CatalogWitnesses.LegacyRowsAreInitial | migrations/0007_attachment_file_catalog.sql:52-78 | Such rows include a file row without MD5 and without object, of an upload that was never PUT |
| CatalogTheorems.AttachmentsSurvive | apps/worker/src/modules/attachments/index.ts:313-330 | An attachment that is not itself removed keeps pointing at a live file row with its own key, and downloads the bytes it was attached with |
| CatalogTheorems.DropsAreSafe | apps/worker/src/modules/maintenance/scheduled.ts:199-221 | Whatever object is about to be deleted belongs to no file row and no attachment |
| CatalogTheorems.DeduplicatedIsIdentical | apps/worker/src/modules/attachments/file-catalog.ts:250-315 | The file an operation was given, if still there, holds exactly the bytes it sent |
| CatalogWitnesses.CancelDuringUploadLosesAnother | apps/worker/src/modules/attachments/index.ts:286-311 | A reachable run, calm but for one step: a cancel during its own upload deletes the object of another user's attachment |
| CatalogWitnesses.OutdatedCancelLosesAnother | apps/worker/src/modules/attachments/index.ts:286-311 | The same of an idle upload that was linked to its file between the cancel's read and its delete |
| CatalogWitnesses.SecondPutOverwritesAnother | apps/worker/src/modules/attachments/index.ts:143-239 | A reachable run: a second PUT to an upload whose content is shared by then replaces the bytes of another attachment |
| CatalogWitnesses.PutBeforeDropIsLost | apps/worker/src/modules/attachments/file-catalog.ts:338-367 | A reachable run: a row inserted for a body put under a key that is about to be dropped is left without its object |
| CatalogWitnesses.LoserTakesAnother | apps/worker/src/modules/attachments/file-catalog.ts:233-249 | A reachable run: of two PUTs to one upload, the first found its content elsewhere and drops its copy, which is the second's by then |
| CatalogWitnesses.OverlappingPutsMix | apps/worker/src/modules/attachments/index.ts:143-239 | A reachable run: of two PUTs to one upload, the first is registered under its own MD5 over the second's object |
| CatalogWitnesses.LateInsertIsLost | apps/worker/src/modules/maintenance/scheduled.ts:199-221 | A reachable run, calm but for that insert: a row inserted a day after its put is attached without its object |
| CatalogUploads.AttachedAsPromised | apps/worker/src/modules/attachments/index.ts:241-284 | What `complete` checked, and wrote later, still holds when the upload is attached: the attached bytes have exactly the size the upload was created with, whatever happened to its file between the check, the UPDATE and the attaching |
| CatalogUploads.ConsumedIsFinal | migrations/0001_initial.sql:290-297 | In every run a consumed upload stays consumed, so it is attached at most once |
| CatalogEffects.CollectsIff | apps/worker/src/modules/attachments/file-catalog.ts:350-366 | The row is deleted if and only if no attachment has the file and no upload that is pending or uploaded waits with it; then no upload, consumed or expired, is linked to it any more, its object is deleted next, and nothing else has changed; otherwise nothing changes and nothing is deleted |
| CatalogEffects.CollectionFreesItsObject | apps/worker/src/modules/attachments/file-catalog.ts:350-366 | In every calm run, the deleted row takes its own object with it and every other row keeps its own |
| CatalogEffects.UnneededIsFreed | apps/worker/src/modules/attachments/file-catalog.ts:338-367 | A collection that nothing interrupts frees the row and its object if and only if nobody needs them in that sense |
| CatalogEffects.BackfillsIff | apps/worker/src/modules/attachments/file-catalog.ts:384-438 | With an identical file found, every attachment and upload of the row moves there and the row and its object go, unless that file is gone and something would have to move; without one, the row gets its MD5, and the content key or, if that is taken, one of its own |
| CatalogEffects.BackfillEnds | apps/worker/src/modules/attachments/file-catalog.ts:369-438 | In every calm run, when a backfill ends its row has the MD5 of its object, or is gone with nothing referring to it, or the batch failed, which it does if and only if the identical file is gone and something refers to the row |
| CatalogEffects.MissingDigestIsFilledIn | apps/worker/src/modules/attachments/file-catalog.ts:406-437 | A backfill that nothing interrupts and that finds no identical file leaves the row with the MD5 of its object and nothing else changed |
| CatalogEffects.ContentIsRegistered | apps/worker/src/modules/attachments/file-catalog.ts:250-286 | New content is stored once, under one new row with its digest, size and content key |
| CatalogEffects.ContentIsDeduplicated | apps/worker/src/modules/attachments/file-catalog.ts:256-270 | Content that is there already leaves store and rows as they were, and its file is the one found |
| CatalogEffects.CollisionIsRegistered | apps/worker/src/modules/attachments/file-catalog.ts:287-313 | Content whose digest and size another row has, but that no file is identical to, gets a row and an object of its own |
| CatalogEffects.RacedContentIsDeduplicated | apps/worker/src/modules/attachments/file-catalog.ts:287-303 | Content that lost the race to insert its row drops its own object and has the winner's file, if that is identical |
| CatalogEffects.UploadRoundTrip | apps/worker/src/modules/attachments/index.ts:143-330 | What is uploaded, completed and attached downloads as the bytes that were sent, and the store has grown by that object alone |
| CatalogEffects.CopyRoundTrip | apps/worker/src/modules/attachments/index.ts:143-330 | So does content that is there already, and the store has not grown |
| CatalogEffects.ReceiptRoundTrip | apps/worker/src/modules/attachments/file-catalog.ts:317-336 | And what a received message carries |
| CatalogEffects.LinksIff | apps/worker/src/modules/attachments/index.ts:221-239 | Content is linked to its upload if and only if that still waits for it and the file is still there |
| CatalogEffects.CompletesIff | apps/worker/src/modules/attachments/index.ts:241-284 | `complete` marks the upload if and only if it is pending and its file's object has the promised size |
| CatalogEffects.AttachesIff | migrations/0007_attachment_file_catalog.sql:32-50 | An upload is attached, with its file and key, and consumed if and only if it is uploaded and its file is there |
| CatalogEffects.RetiresIff | apps/worker/src/modules/attachments/index.ts:286-311 | A cancel takes away exactly an upload that is not consumed, an expiry marks exactly one that is pending or uploaded, and the object goes with it if and only if the upload had no file |
| CatalogEffects.SweepsIff | apps/worker/src/modules/maintenance/scheduled.ts:199-221 | The sweep deletes an object if and only if it is a day old and no attachment, no upload but an expired one and no file row has its key |
| Words.ToUint32IsModulo | apps/worker/src/modules/attachments/file-catalog.ts:101-141 | `>>> 0` is reduction modulo 2^32 |
| Words.AddIsModular | apps/worker/src/modules/attachments/file-catalog.ts:127-140 | Exact addition followed by `>>> 0` is addition of words |
| Words.RotateLeftIsCircular | apps/worker/src/modules/attachments/file-catalog.ts:36-38 | The two shifts and the OR are a circular shift by any amount up to 32 |
| Md5.WordIndexFormula | apps/worker/src/modules/attachments/file-catalog.ts:111-123 | The index formulas give the word order of section 3.4 of RFC 1321 |
| Md5.JsStepIsStep | apps/worker/src/modules/attachments/file-catalog.ts:127-134 | One pass of the loop on JavaScript numbers is one operation of section 3.4 of RFC 1321 on words |
| Md5.RenamedStep | apps/worker/src/modules/attachments/file-catalog.ts:124-135 | Renaming the four variables is what listing the registers in turn is |
| Md5.Rounds | apps/worker/src/modules/attachments/file-catalog.ts:107-140 | The loop and the final additions are the compression function |
| Md5.Md5.Transform | apps/worker/src/modules/attachments/file-catalog.ts:101-141 | The buffer moves by one application of the compression function |
| Md5.Md5.Update | apps/worker/src/modules/attachments/file-catalog.ts:50-71 | Whatever the size of the piece, everything passed in so far has been absorbed, in order; refused after `hex` |
| Md5.PaddingCompletes | apps/worker/src/modules/attachments/file-catalog.ts:75-88 | In both padding cases the bytes appended are those of sections 3.1 and 3.2 of RFC 1321 |
| Md5.LengthInTwoWords | apps/worker/src/modules/attachments/file-catalog.ts:83-88 | The two 32-bit writes are the 64-bit little-endian bit length, below 2^53 |
| Md5.Md5.HexDigest | apps/worker/src/modules/attachments/file-catalog.ts:73-99 | The result is the digest of RFC 1321 of everything passed in |
| Md5Spec.DigestSpellsRegisters | apps/worker/src/modules/attachments/file-catalog.ts:89-98 | The digest is thirty-two lower-case digits that spell the four registers, each from its low-order byte |
| Bodies.Md5Hex | apps/worker/src/modules/attachments/file-catalog.ts:144-173 | However a body is cut into chunks, the digest is that of its content |
| Bodies.ConcatNonEmpty | apps/worker/src/modules/attachments/file-catalog.ts:157-163 | Skipping empty stream chunks loses no byte and leaves no empty chunk |
| Bodies.ChunksEqual | apps/worker/src/modules/attachments/file-catalog.ts:175-215 | True if and only if the concatenations are equal and equally many empty chunks end both lists; terminates |
| Bodies.BodiesEqual | apps/worker/src/modules/attachments/file-catalog.ts:175-215 | For the bodies there are: true if and only if the bytes are equal, an empty buffer and an empty stream excepted |
| MessageSend.StepKeeps | apps/worker/src/modules/messages/index.ts:103-120 | Every step of every call, and expiry and cleanup of records, keeps the balance of batches and records |
| MessageSend.CommitsAreConserved | apps/worker/src/platform/schema.ts:60-64 | Over every run the batches committed under a key are the records cleaned away plus the one there is |
| MessageSend.ExactlyOnce | apps/worker/src/modules/messages/index.ts:397-413 | Between two cleanups of its key, any number of which have gone before, exactly one batch commits under the key as soon as one call is answered; every answer given by a call that was not done before is that batch's; a call with another request hash is not answered and creates nothing. When a retry is answered is `RetryIsAnswered` |
| MessageSend.RetryIsAnswered | apps/worker/src/modules/messages/index.ts:109-124 | From the commit of a batch on, while its record has not expired, every call under its key that begins, or that looks again after its own batch failed, is answered with that batch's response if it has that batch's request, and as a reused key otherwise; and no call under the key commits anything |
| MessageSend.CommitsIff | apps/worker/src/modules/messages/index.ts:276-413 | In every run, a prepared call whose batch nothing else refuses commits it if and only if no record is under its key; then exactly its own new message is made, with a job if and only if it is queued, and it is answered with that; otherwise it has made nothing |
| MessageSend.FirstIsAnswered | apps/worker/src/modules/messages/index.ts:109-425 | A call under a key without a record that nothing refuses is answered with a new message of its own |
| MessageSend.ExpiredKeyIsDead | apps/worker/src/modules/messages/index.ts:397-404 | From expiry to cleanup nothing can be sent under the key: the lookups ignore the record and the unique index does not |
| JsonText.BodyReads | packages/email-core/src/index.ts:126 | Escaped string text, up to its closing quote, determines the string, surrogates and all (section 25.5.2 of ECMA-262) |
| JsonText.PrintReads | packages/email-core/src/index.ts:126 | Printed JSON determines the value, whatever follows it: the printer is injective |
| JsonReader.StringReadsBack | packages/email-core/src/index.ts:126 | A JSON reader (section 9 of ECMA-404, every escape of it) gets back every string unit by unit, halves of surrogate pairs included |
| JsonReader.PrintedReadsBack | packages/email-core/src/index.ts:126 | And every value that is printed, whatever follows it |
| CanonicalJson.ArrangeOrders | packages/email-core/src/index.ts:117-121 | Sorted and rebuilt entries without ties among them enumerate in one strict order, array-index keys first |
| CanonicalJson.IndexIsDecimal | packages/email-core/src/index.ts:117-121 | An array-index key is the decimal text of a number below 2^32 - 1 (section 6.1.7 of ECMA-262), and nothing else is |
| CanonicalJson.OrderIsUnique | packages/email-core/src/index.ts:117-121 | There is only one such list of given members |
| CanonicalJson.NormalizeKeepsMeaning | packages/email-core/src/index.ts:112-124 | Normalising changes nothing but key order, at any depth, whatever the comparator |
| CanonicalJson.MeaningDecidesNormalForm | packages/email-core/src/index.ts:112-124 | Values equal up to key order have one normal form, if no object in the value holds two keys that compare equal |
| CanonicalJson.CanonicalIsSound | packages/email-core/src/index.ts:111-127 | Equal hashing inputs come only from values equal up to key order, whatever the comparator |
| CanonicalTies.CanonicalIsExact | packages/email-core/src/index.ts:111-127 | For a value in which no object holds two keys that compare equal: another value has the same hashing input if and only if it is equal up to key order, array order kept |
| CanonicalTies.CanonicalReadsBack | packages/email-core/src/index.ts:111-127 | A JSON reader gets from the hashing input a value equal, up to key order, to what was hashed, and nothing is left over |
| CanonicalTies.ExactIffTieFree | packages/email-core/src/index.ts:111-127 | And only for such a value: its hashing input is shared by exactly the values equal up to key order if and only if, at every depth, no object of it holds two distinct non-index keys that compare equal; the same among values whose keys are listed as JavaScript enumerates them |
| CanonicalTies.ArrangeIsStable | packages/email-core/src/index.ts:117-121 | Keys that compare equal stay in the order they came in |
| CanonicalTies.TieBreaksCanonical | packages/email-core/src/index.ts:119 | Two keys that compare equal give one object two hashing inputs |
| CanonicalTies.ExactIffNoTies | packages/email-core/src/index.ts:111-127 | The hashing input is exact for all values if and only if no two distinct non-index keys compare equal |
| Signature.SanitizeSignatureHtml | apps/worker/src/modules/signatures/index.ts:52-99 | The loop computes the specification that the results below are about, including when it throws; what it keeps is `SignatureKept.KeepsExactly` |
| SignatureKept.KeepsExactly | apps/worker/src/modules/signatures/index.ts:52-99 | What is emitted is, in order, exactly the text and the allowed tags outside every element whose content is dropped, nesting being counted on the tokens alone; it throws if and only if a link there has a reference out of range |
| SignatureKept.ElementIsDropped | apps/worker/src/modules/signatures/index.ts:63-81 | From its opening tag to the tag that closes it such an element contributes nothing, whatever is in it |
| SignatureKept.DroppedElementIsNothing | apps/worker/src/modules/signatures/index.ts:14-20 | A script, style, form, iframe or object, written in either case and with any attributes and blanks, goes with all the text in it |
| SignatureKept.TextIsTrimmed | apps/worker/src/modules/signatures/index.ts:93-98 | Input without `<` comes back, less the white space around it |
| SignatureKept.OpeningTagStands | apps/worker/src/modules/signatures/index.ts:61-75 | Any other opening tag becomes its bare lower-case form, a link with its href, if it is one of the ten allowed, and nothing otherwise; what follows it is emitted as it would be alone |
| SignatureKept.ClosingTagStands | apps/worker/src/modules/signatures/index.ts:77-91 | The same of closing tags, `br` excepted |
| SignatureKept.SchemeIsSpelled | apps/worker/src/modules/signatures/index.ts:48 | The schemes let through are http, https and mailto, in either case |
| SignatureLinks.HrefIsFound | apps/worker/src/modules/signatures/index.ts:44-47 | The href of a link is the value of its attribute, in quotes of either kind or in none, with any blanks and in either case |
| SignatureLinks.ReferencesAreSeenThrough | apps/worker/src/modules/signatures/index.ts:22-33 | A value written in decimal or hexadecimal character references decodes as the same value written plainly |
| SignatureLinks.ColonIsSeenThrough | apps/worker/src/modules/signatures/index.ts:22-33 | And `&colon;`, in either case, as a colon |
| SignatureLinks.LinkIsJudged | apps/worker/src/modules/signatures/index.ts:43-50 | However it is written in these ways, a link keeps its value, without control units and outer white space, if and only if that has one of the three schemes |
| SignatureLinks.WrittenLinkReads | apps/worker/src/modules/signatures/index.ts:35-41 | The link that is written holds, between quotes, a value without quotes that reads as its href |
| SignatureLinks.EscapesAreNamed | apps/worker/src/modules/signatures/index.ts:35-41 | The references it is read by are `&amp;`, `&quot;`, `&lt;` and `&gt;` |
| SignatureAttributes.SafeHrefIsEmittable | apps/worker/src/modules/signatures/index.ts:43-50 | A returned href has an allowed scheme, no control unit and no outer white space |
| SignatureAttributes.EscapeKeepsEmittable | apps/worker/src/modules/signatures/index.ts:35-41 | An escaped href decodes to itself and is still allowed |
| SignatureAttributes.EmittedHrefIsFound | apps/worker/src/modules/signatures/index.ts:44-47 | The attribute of an emitted link is found whole |
| SignatureForm.TokenizeFlatten | apps/worker/src/modules/signatures/index.ts:53 | Tokenizing what was emitted gives back exactly the tags and the text, neighbouring text joined |
| SignatureForm.OutputIsNormal | apps/worker/src/modules/signatures/index.ts:52-99 | Everything in the output is a canonical allowed tag that was emitted, in order, or text without `<` |
| SignatureForm.EmittedTagIsClosed | apps/worker/src/modules/signatures/index.ts:70-72 | An emitted tag has its only `<` first and its only `>` last |
| SignatureForm.OutputSanitized | apps/worker/src/modules/signatures/index.ts:52-99 | Sanitizing the output renders the same pieces with every href escaped once more |
| SignatureForm.IdempotentIffHrefsArePlain | apps/worker/src/modules/signatures/index.ts:52-99 | Idempotent if and only if no emitted href holds `&`, `"`, `<` or `>`; the second pass never throws |
| SignatureForm.AmpersandIsEscapedAgain | apps/worker/src/modules/signatures/index.ts:35-41 | An input on which it is not idempotent |
| Calendar.FormulaCountsDays | apps/worker/src/modules/messages/schedule.ts:62-64 | The closed day formula of section 21.4.1 of ECMA-262 counts the days of the years |
| Calendar.CivilIsReal | apps/worker/src/modules/messages/schedule.ts:63-65 | A day's date is real and belongs to that day only |
| Calendar.RealIsCivil | packages/contracts/src/api/drafts.ts:57-72 | A real date comes back from its day number |
| Calendar.CivilIsOrdered | apps/worker/src/modules/messages/schedule.ts:63-65 | Later days have later dates |
| Schedule.TextOrderIsTimeOrder | apps/worker/src/modules/messages/schedule.ts:55-71 | For years of four digits the stored text compares exactly as the instants do |
| Schedule.DueFromTheNextSecond | apps/worker/src/modules/outbound-mail/index.ts:83-92 | Against CURRENT_TIMESTAMP, which has no fraction, a stored instant is due exactly from the next second on |
| Schedule.StoredInstantReadsBack | apps/worker/src/modules/messages/schedule.ts:83-88 | What is read back is the stored instant floored to the second |
| Schedule.StoredTextReadsBack | apps/worker/src/modules/messages/schedule.ts:73-89 | And its ISO text is that of the floored instant |
| Schedule.ScheduleWindow | apps/worker/src/modules/messages/schedule.ts:127-144 | An instant is accepted exactly from 90 000 up to but not including 2 592 001 000 ms ahead, and its job is never due within 90 seconds |
| Schedule.AcceptsExactly | packages/contracts/src/api/drafts.ts:39-73 | The refinement accepts exactly the real dates from the year 100 on whose local day is their UTC day, for all two-digit fields |
| Schedule.ZedAcceptsRealDates | packages/contracts/src/api/drafts.ts:39-73 | For `Z` and times within the day it accepts exactly the real dates |
| Schedule.RealInstantRefused | packages/contracts/src/api/drafts.ts:67-72 | A real instant whose offset moves the UTC date is refused |
| Pagination.NextContinues | apps/worker/src/modules/messages/index.ts:453-457 | The rows after any row shown are the rest of the listing |
| Pagination.PagesAreComplete | apps/worker/src/modules/messages/index.ts:427-486 | Over a fixed table following nextCursor to null shows every row once, newest first, in just enough pages |
| Pagination.PageAdvances | apps/worker/src/modules/messages/index.ts:453-485 | A page shows only rows after its cursor, leaves none out before its own, and its cursor never goes back |
| Pagination.NoRowTwice | apps/worker/src/modules/messages/index.ts:427-486 | With any changes between pages, no two pages show the same row |
| Pagination.NoRowMissed | apps/worker/src/modules/messages/index.ts:427-486 | A row that matches throughout is shown by the time the cursor is null |
| AttachmentStore.ToBytes | apps/worker/src/platform/attachment-store.ts:77-101 | A stream is read into one buffer holding its pieces in order |
| AttachmentStore.KvAttachmentStore.Put | apps/worker/src/platform/attachment-store.ts:253-285 | A put shows at its key whatever sidecar was left there, inline or, exactly if the metadata does not fit, overflowing into a sidecar; or it is refused by size and changes nothing visible |
| AttachmentStore.KvAttachmentStore.Get | apps/worker/src/platform/attachment-store.ts:287-322 | A get answers from the one map the store stands for |
| AttachmentStore.KvAttachmentStore.Delete | apps/worker/src/platform/attachment-store.ts:341-349 | A delete takes the key and its sidecar out |
| AttachmentStore.R2WithKvFallback.Put | apps/worker/src/platform/attachment-store.ts:414-420 | The composite behaves as one map too |
| AttachmentStore.R2WithKvFallback.Get | apps/worker/src/platform/attachment-store.ts:422-424 | R2 shadows KV |
| AttachmentStore.R2WithKvFallback.Delete | apps/worker/src/platform/attachment-store.ts:430-432 | A deleted legacy object does not reappear from KV |
| AttachmentStore.RunComposite | apps/worker/src/platform/attachment-store.ts:406-437 | Over every history, from any legacy KV content, every get answers as one map does |
| AttachmentStore.RunKv | apps/worker/src/platform/attachment-store.ts:248-349 | The same of KV alone, puts it refuses left out |
| AttachmentStore.PlayKeepsLast | apps/worker/src/platform/attachment-store.ts:253-349 | In that map a key holds the last put that was not deleted since |
| AttachmentStore.OverflowsIff | apps/worker/src/platform/attachment-store.ts:226-246 | Metadata is kept inline, with its time, if and only if neither the time alone nor time and record together are longer than 1024 as JSON text; otherwise the slot is the overflow marker without a time |
| AttachmentStore.OverflowIsNeverSwept | apps/worker/src/platform/attachment-store.ts:202-246 | An object that was put is eligible for the orphan sweep if and only if its metadata fits in that sense and its time is 24 hours back |
| ProviderStatus.Message.ReconcileMessage | apps/worker/src/modules/administration/index.ts:1475-1512 | One event is applied exactly if it is newer, or as new and not lower |
| ProviderStatus.StoresTheMaximum | apps/worker/src/modules/provider-sync/index.ts:6-16 | After any events the stored time and rank are the lexicographic maximum, and the status is that of the last greatest event |
| ProviderStatus.SettlesOnTheHighest | packages/contracts/src/domain/index.ts:155-166 | The status is that of an event such that every other is older, or as old and not above it in the order draft, queued, sending, sent, delayed, delivered, bounced or failed, complained, received |
| ProviderStatus.OrderDoesNotMatter | packages/contracts/src/domain/index.ts:155-166 | Order and repetition do not matter to time, rank and status, unless a bounce and a failure tie at the top |
| ProviderStatus.LastOfTiedWins | apps/worker/src/modules/provider-sync/index.ts:11-14 | There the last one applied wins |
| ProviderOverlap.InStepIffNeverLowers | apps/worker/src/modules/administration/index.ts:1459-1511 | However any number of reads and writes overlap, the row is at every moment what the finished calls, one after another, would have left, if and only if no write lowers the row it finds |
| ProviderOverlap.EndsGreatestIffRaised | apps/worker/src/modules/administration/index.ts:1459-1511 | Once all calls are done the stored time and rank are the maximum of all events if and only if every write that lowered the row was followed by a write of a greatest event |
| ProviderOverlap.OverlapConverges | apps/worker/src/modules/administration/index.ts:1459-1511 | So overlapping calls none of whose writes lowers the row converge as calls one after another do |
| ProviderOverlap.TwoCallsExactly | apps/worker/src/modules/administration/index.ts:1459-1511 | Two calls that both read before either writes end as one after the other does, if and only if the second decided not to write or would still decide to |
| ProviderOverlap.OverlappingReconcilesRegress | apps/worker/src/modules/administration/index.ts:1459-1511 | Of two that both decide to write the older event is left behind if it writes last |
| RateLimit.Limiter.EnforceRateLimit | apps/worker/src/platform/rate-limit.ts:102-123 | A hit is accepted exactly if fewer than `limit` are visible, and a rejected one writes nothing |
| RateLimit.CounterIsExact | apps/worker/src/platform/rate-limit.ts:84-123 | A counter holds exactly the hits accepted and outlives its window, in whatever order hits come |
| RateLimit.CountedTogetherIff | apps/worker/src/platform/rate-limit.ts:84-91 | Two hits under rules of one width share a counter if and only if scope and subject are the same and no end of a window lies between them |
| RateLimit.SecondHitExtends | apps/worker/src/platform/rate-limit.ts:114-123 | A second hit in a window moves the end of its counter, which lies a window and a minute after the hit |
| RateLimit.WindowIsBounded | apps/worker/src/platform/rate-limit.ts:108-113 | Each window accepts exactly its first `limit` hits |
| RateLimit.AnyIntervalIsBounded | apps/worker/src/platform/rate-limit.ts:89-113 | Any half-open interval of windowSeconds accepts at most twice the limit |
| Heartbeat.Trigger.RunWithHeartbeat | apps/worker/src/modules/maintenance/heartbeat.ts:107-137 | What one tick leaves in KV, failing or not |
| Heartbeat.RecordIsCurrent | apps/worker/src/modules/maintenance/heartbeat.ts:86-99 | A record that is there carries the newest tick's status |
| Heartbeat.RecordIsFromThisHour | apps/worker/src/modules/maintenance/heartbeat.ts:91-98 | Once a minute-0 tick has run the record is from this hour, at most 59 minutes old |
| Heartbeat.LiveTriggerIsHealthy | apps/worker/src/modules/maintenance/index.ts:57-110 | While the newest tick is at most 11 minutes old, `check` reports the trigger healthy and alerts exactly if that tick failed |
| Heartbeat.SilentTriggerIsStale | apps/worker/src/modules/maintenance/index.ts:75-82 | Eleven minutes is exact: a millisecond later a healthy hour that fell silent is stale |
| Heartbeat.SilentAfterFailure | apps/worker/src/modules/maintenance/index.ts:69-74 | A trigger that falls silent after a failed tick is reported stale if and only if two days have passed and the deployment is known to be older than the start-up window |
| Heartbeat.SilentAfterSuccess | apps/worker/src/modules/maintenance/index.ts:75-82 | After a tick that did not fail it is reported stale from 70 minutes after that tick at the latest |
| Heartbeat.AbsentStaysAbsent | apps/worker/src/modules/maintenance/heartbeat.ts:92-98 | An absent record is no recovery: healthy ticks write none before the next one on the hour |
| Heartbeat.MalformedIsNotRepaired | apps/worker/src/modules/maintenance/heartbeat.ts:94-98 | A healthy tick within the hour leaves an unreadable value alone |

## Left out

- DraftIsolation.UpdatesAndSendsAreSerial: leaves out schedules, cancels and moves of drafts between folders, because with them it is false; DraftSerial.RunIsSerial and DraftSerial.CleanIsExact say what holds instead. It starts from tables in which only jobs in processing carry a lock, as every statement of the code leaves them.
- CatalogSteps.RunKeeps: holds for calm runs, which is exact step by step for the invariant (CatalogExact.CalmIsExact) and not implied by the code; the one part of a guard without a run of its own is an insert under the key of a file whose MD5 is being filled in, which needs a key to be used twice.
- CatalogExact.CalmIsExact: exact for the invariant, not for the loss of content; an insert that is not calm loses content only if whoever is about to delete its object goes on to.
- CatalogTheorems.FilesAreStored: starts from rows in which what is attached, and what a completed upload waits with, has its object, as the code before migration 0007 left them.
- CatalogUploads.AttachedAsPromised: `complete`'s read of its row and its look at the object are one step, its UPDATE is another; uploads that were completed before the run are taken to have their size, and an upload's random id is taken not to be drawn again while a `complete` of it is under way.
- MessageSend.CommitsIff: whether a message is queued is given with the call; how `messages/index.ts` (157-277) decides it from the recipients is not modelled there, the same rule for drafts is in DraftAnswers.SendAnswered. The refusals before the batch are one step without their reasons.
- JsonReader.PrintedReadsBack: the reader takes no insignificant white space, which the printer never writes, and reads a number as its text.
- A search for an identical file, with its comparison of the bodies, is one step, and so is the read of a file whose MD5 is filled in later.
- The catalog and message send are modelled on values, one record of tables per state, because their point is the interleaving; update in place and aliasing are not captured there.
- In the draft protocol the mailbox, domain and provider tables stand still during a run, and the reads after requireDraft are one step, as in the catalog are the pending-row check and the put of an upload. The purge of a message looks at its links and deletes it in one step. Columns no call reads are not modelled: the file columns a backfill rewrites on attachments, a message's domain, raw content and errors.
- Attachments without a file_id, raw message objects, the md5 columns of uploads and attachments, and a worker that dies between the insert of a file row and the link to it.
- Schedule.StoredTextReadsBack: values with a `T` in them and years outside 1000 to 9999 are not modelled; neither is the form of scheduledAt without seconds, which the code's own rebuilt text makes unparseable.
- CanonicalTies.CanonicalIsExact: numbers are known by their text, and undefined and values with their own toJSON are not JSON values here.
- Pagination.PagesAreComplete: the cursor codec is taken to be a bijection on (created_at, id).
- AttachmentStore.RunComposite: KV and R2 are sequential maps, the etag and R2's choice of header fields are not modelled, and R2 is listed alone, so legacy KV objects are not swept.
- Md5.Md5.HexDigest: bodies of 2^53 bits or more.
- Md5.JsStepIsStep: that the constants the code computes with `Math.sin` (`file-catalog.ts` 31-34) are those of the table in section 3.4 of RFC 1321 is assumed; both sides read the same table here.
- ProviderOverlap.EndsGreatestIffRaised: starts from a message no event has been stored for, and calls that have read but never write leave it without a statement.
- ProviderStatus.StoresTheMaximum: the insert of a message seen for the first time and events without a valid time.
- Eventual consistency of KV, failures of D1 other than a batch that fails as a whole, retries of the queue and the backoff of a failed job.
- The web interface, request schemas, provider clients, MIME parsing, cryptography, roles, mailbox and administration records: other properties, or easier ones of the same kind.
