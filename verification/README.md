# Verified model of the meeting platform's protocols and text algorithms

This project models the parts of the repository that carry state across processes or do index arithmetic, and
proves what they keep. Every module follows one source file, or a few that work together.

**Protocols.** `job_queue.dfy` is the leased job queue of the video ingester, and `job_outcomes.dfy` what becomes of a
job. `retry_policy.dfy` is the AMQP retry policy in both its forms, and `pipeline.dfy` the three external stages
(antivirus, transcoding, hand-over to the internal zone) that run on it, with crashes between any two effects;
`pipeline_rows.dfy` says what a delivery leaves and why each row has its status, and `pipeline_progress.dfy` bounds what
the stages do. `watchdog.dfy` is the multi-pod watchdog with stale scans, claims, capped resumes and the passes and
reprocessings users ask for, and `watchdog_rows.dfy` what it leaves in the rows and when it looks at them again. Each has
a step machine (`Apply`/`Next` and `Exec`), a class whose methods are proved to make those steps, and theorems about every
run.

**Trust authority.** `enrolment.dfy` is device enrolment, validation, revocation and purge, `enrolment_rows.dfy` the life
of a device row, and `enrolment_purge.dfy` what becomes of a device whose QR token the internal zone has purged;
`meeting_link.dfy` is the doubly stored link between audio files and meetings, and `meeting_rows.dfy` what each event leaves
of it; `device_token.dfy` the signed token and its base64url codec (section 5 of RFC 4648), and `token_decoding.dfy` what
its decoder makes of any text; `device_claim.dfy` the first-device-wins claim of the upload PWA, interleaved at the level of
single SQL statements. An authority handler is one atomic step.

**Text and time.** `chunking.dfy` (overlapping time chunks), `chunk_text.dfy` (overlapping text chunks),
`meeting_search.dfy` (snippets with UTF-16 offsets, section 2.1 of RFC 2781), `transcript_formats.dfy` and
`transcript_kinds.dfy` (Markdown block reader and printer), `external_source.dfy` and `sentence_align.dfy` (word and
sentence timings over exact reals), `rate_limit.dfy` (sliding-window limiter). `text.dfy`, `numbers.dfy` and `wrappers.dfy`
hold the shared string methods, minima and result types.

Loops and updated objects of the source are methods and classes here, each proved equal to a specification
function; the lemmas are about those functions. Where a promise of the source's documentation does not hold of its
code, the model follows the code, one lemma gives an input that shows it, and another gives the exact condition.

What the code does and its documentation or evident intent does not say:

- A zombie worker's `retry` puts a finished job back to pending (`ZombieRetryRevives`); a finished job stays finished exactly if
  nobody retries it (`FinishedForeverIff`).
- A JSON body that is not an object raises outside the `try` and stays at the head of its queue for good (`DrainRaises`,
  `PoisonBlocksQueue`).
- A heartbeat is not refused once another worker has taken the job over: it prolongs that worker's lease
  (`HeartbeatAsDocumentedIff`, `HeartbeatAfterTakeover`).
- N pods can resume one row up to MAX_AUTO_RETRIES - 1 + N times by themselves, one resume after the other; the bound is
  reached (`BoundIsTight`).
- Once a QR token is purged, 90 days after its end, its code can be issued again, and the new owner's deletion of the session
  takes the first user's device with it (`DeleteSparesOthersIff`, `ReissuedCodeTakesStranger`).
- Rebinding a device rotates its key, but the old holder's token does not carry the key and goes on validating
  (`OldTokenSurvivesRebind`, `OldTokenValidates`; comment at lines 474-478 of the authority's main.py).
- Device keys over 255 characters are cut when stored but not when compared, so they repeat (`KeyLimitIsExact`). The docstring
  of `enroll_device` does not mention the rebind step of lines 449-487, which the model has.
- Renewing a QR token does not reach a client whose own token has already expired (`RenewalReachesClientIff`,
  `RenewalComesTooLate`).
- The PWA claim is exclusive exactly if its re-read sees the committed row (`ExclusiveExactlyIfFresh`); with
  `expire_on_commit=False` (libs/shared/app/database.py:19) the ORM may answer from its identity map, and then exactly the
  requests that read the session while it was free pass (`CachedPassesIff`).
- The link of a meeting to its audio file is not mirrored once a linked file is given to another meeting (`MirroredIff`,
  `MirrorCanBreak`).
- A segment that straddles the bound the next chunk restarts from is not in both chunks (`RepeatedIff`,
  `StraddlersAreNotRepeated`, `StraddlerIsDropped`).
- Chunks "never empty" can have an empty text (`NoTextIff`); `_chunk_text` loses text for a size below one or a negative
  overlap (`RebuiltIff`); "never cutting a highlighted term" fails when max_chars ends inside one (`CutsATermIff`).
- Words are "sorted by s" only if the segments are in order (`WordsAscendIff`) and free of overlaps only if the segments are
  (`WordsApartIff`); a segment without a duration is not skipped (`SkippedAsDocumentedIff`); a part of a long sentence can
  last more than 20 seconds (`PartIsShortIff`, `PartCanStayLong`); sentences can start after they end (`PartsInOrderIff`);
  repeats are compared with the last sentence kept, not with sentence N-1, which can keep more or less than documented
  (`ThirdRepeatStays`, `ThirdRepeatGoes`, `KeptAsDocumentedIff`).
- "One blank line between the blocks" is guaranteed before headings and speaker lines only: other blocks on successive lines
  stay so (`BlocksSeparatedIff`, `ParagraphsRunTogether`).
- The limiter's bound needs a clock that does not go back or a limit of one (`BoundHoldsIff`), and one caller passes
  wall-clock time; with a clock that goes back by at most s it holds for windows shorter by s (`ShorterWindowsHold`).

## Model

| member | source | states |
|---|---|---|
| JobQueue.JobStore.Enqueue | services/video_ingest/app/jobs.py:31-54 | adds one fresh pending row with an unused id, and touches no other row |
| JobQueue.JobStore.ClaimNext | services/video_ingest/app/jobs.py:57-104 | takes the oldest claimable row nobody has locked, reports nothing exactly when there is none, and returns the attempt number it wrote |
| JobQueue.JobStore.ExtendLease | services/video_ingest/app/jobs.py:107-120 | moves the lease of a running row, whoever claimed it, and says whether there was one |
| JobQueue.JobStore.Complete | services/video_ingest/app/jobs.py:123-144 | finishes the row whatever its state and owner |
| JobQueue.JobStore.Fail | services/video_ingest/app/jobs.py:147-160 | fails the row whatever its state and owner, error cut at 2000 characters |
| JobQueue.JobStore.Retry | services/video_ingest/app/jobs.py:163-187 | puts the row back to pending with a due date, whatever its state and owner |
| JobQueue.JobStore.ResetOrphans | services/video_ingest/app/jobs.py:190-208 | resets exactly the running rows whose lease is over, and counts them |
| JobQueue.NextExists | services/video_ingest/app/jobs.py:72-83 | whenever some unlocked row is claimable there is an oldest one, so a claim never comes back empty-handed for want of an order |
| JobQueue.AfterClaim | services/video_ingest/app/jobs.py:69-97 | until a retry, a claimed row keeps the last lease written, or lost it by expiry, or is finished |
| JobQueue.LeaseExclusive | services/video_ingest/app/jobs.py:69-120 | over every run, between two successive claims of a job there is a retry, or the second comes strictly after the last lease |
| JobQueue.RunningUntilEnded | services/video_ingest/app/jobs.py:69-208 | over every run, from its last claim on a job is running, in the hands of that claimer, exactly until somebody finishes or retries it or a reset finds it expired |
| JobQueue.HeartbeatAsDocumentedIff | services/video_ingest/app/jobs.py:107-120 | a worker's heartbeat gets the documented answer, False after a takeover, if and only if nobody took the job over or that claim has ended too |
| JobQueue.HeartbeatAfterTakeover | services/video_ingest/app/jobs.py:107-120 | a run in which the first worker's heartbeat is answered True and prolongs the second one's lease |
| JobQueue.AfterRetry | services/video_ingest/app/jobs.py:163-187 | until the next retry, a row that is pending again keeps the due date, whatever other workers do |
| JobQueue.BackoffRespected | services/video_ingest/app/jobs.py:163-187 | a job retried at t with delay d is never claimed before t + d |
| JobQueue.AttemptsCountClaims | services/video_ingest/app/jobs.py:84-93 | over every run, attempts equals its initial value plus the number of claims, and the request never changes |
| JobQueue.RunningIsSettled | services/video_ingest/app/jobs.py:69-97 | invariant of every run: a running row has a lease, and its due date is null or past |
| JobQueue.ResetChangesRow | services/video_ingest/app/jobs.py:196-208 | the reset changes when a row can be claimed if and only if it is expired with a due date to come |
| JobQueue.ResetKeepsClaimable | services/video_ingest/app/jobs.py:190-208 | in every run from an empty table, the reset never changes which jobs are claimable, then or later |
| JobQueue.StaysFinished | services/video_ingest/app/jobs.py:123-160 | a job once done or failed stays so over any run without a retry of it |
| JobQueue.FinishedForeverIff | services/video_ingest/app/jobs.py:123-187 | a finished job is finished after every later transaction of a run if and only if none of them retries it |
| JobQueue.ClaimedAfterFinishNeedsRetry | services/video_ingest/app/jobs.py:75-78 | a finished job is claimed again only if someone retried it in between |
| JobQueue.ZombieRetryRevives | services/video_ingest/app/jobs.py:174-187 | a run in which a worker that lost its lease revives a job its successor completed |
| JobOutcomes.EndsAsFinished | services/video_ingest/app/jobs.py:123-160 | over every run, a job that was completed is done, with that source and flag, no error and that end, and one that was failed is failed, with the first 2000 characters of that error, until somebody retries or finishes it again |
| JobOutcomes.EndedWasFinished | services/video_ingest/app/jobs.py:123-160 | over every run from an empty table, a job that is done or failed has been completed or failed by somebody |
| JobOutcomes.WaitsUntilClaimed | services/video_ingest/app/jobs.py:31-54 | from its enqueuing or a retry on, a job waits with the request, or the error and due date, that left it, until somebody claims, retries or finishes it |
| JobOutcomes.KeepsItsPlace | services/video_ingest/app/jobs.py:31-54 | a job keeps its request and its creation date over every run |
| JobOutcomes.ClaimIsOldest | services/video_ingest/app/jobs.py:72-83 | after every run, a claim takes a job enqueued no later than any other unlocked claimable one |
| JobOutcomes.ClaimedIfRunning | services/video_ingest/app/jobs.py:84-97 | over every run a running job has a worker, a pending one has none, and an ended one has an end |
| JobOutcomes.ChangeIsStamped | services/video_ingest/app/jobs.py:123-208 | a transaction stamps the row it changes, and leaves alone the jobs it does not name and the rows a reset does not find expired |
| RetryPolicy.NextRetryDecision | libs/shared/app/queue_helper.py:27-43 | retries exactly below the budget, counts one more, and keeps every other header; an unreadable count is 0 |
| RetryPolicy.Channel.RepublishOrDrop | libs/shared/app/queue_helper.py:147-177 | performs the failure effects of a delivery, in order |
| RetryPolicy.Channel.OnMessage | libs/shared/app/queue_helper.py:179-196 | the push path has the effects of a delivery, or raises without acking exactly for JSON that is not an object |
| RetryPolicy.Channel.DrainQueueOnce | libs/shared/app/queue_helper.py:203-283 | the pull path, with the policy inlined, has the same effect per delivery, and its loop terminates |
| RetryPolicy.DeliveredView | libs/shared/app/queue_helper.py:147-196 | what one delivery leaves: a success or garbage is gone, a failure is at the tail with its count, or given up once |
| RetryPolicy.CrashKeepsMessage | libs/shared/app/queue_helper.py:151-163 | a crash after any prefix of the effects keeps a failed message with budget queued; only the crash between publish and ack doubles it |
| RetryPolicy.DeliveryUsesWork | libs/shared/app/queue_helper.py:27-43 | each delivery lowers the summed remaining budget of the queue by at least one, although failures are republished into it |
| RetryPolicy.DrainBound | libs/shared/app/queue_helper.py:227-283 | a drain handles at most the sum over the messages of max(0, max_retries - count) + 1 deliveries |
| RetryPolicy.DrainBoundReached | libs/shared/app/queue_helper.py:227-283 | with equality when everything parses and the callback always fails |
| RetryPolicy.DeliveryConserves | libs/shared/app/queue_helper.py:234-276 | one delivery moves its message to the tail, to the give-ups or to the successes, and loses or doubles nothing |
| RetryPolicy.DrainConserves | libs/shared/app/queue_helper.py:227-283 | over a whole drain every parseable message is acked after a success or given up, exactly once, and given up with its whole budget spent |
| RetryPolicy.DrainRaises | libs/shared/app/queue_helper.py:236-242 | a drain raises if and only if the queue holds JSON that is not an object, and leaves one at the head |
| RetryPolicy.PoisonBlocksQueue | libs/shared/app/queue_helper.py:236-242 | from then on every drain handles that message alone and nothing behind it moves |
| Pipeline.StageWorker.ProcessAvScan | services/clamav-scanner/app/main.py:64-134 | performs exactly the commits and the publication of its stage, up to an exception at any point |
| Pipeline.StageWorker.ProcessTranscode | services/audio-normalizer/app/main.py:410-513 | stores, commits and then publishes, up to an exception at any point |
| Pipeline.StageWorker.ProcessFileReady | services/dmz-to-internal-bridge/app/main.py:147-224 | commits, publishes to internal_pull and commits, up to an exception at any point |
| Pipeline.StageWorker.Deliver | libs/shared/app/queue_helper.py:179-196 | a delivery is its stage's handler followed by the retry policy |
| Pipeline.PlanOk | services/clamav-scanner/app/main.py:91-132 | every delivery, however interrupted, acks only after something else carries the file on |
| Pipeline.StepKeepsInv | libs/shared/app/queue_helper.py:147-196 | the invariant survives every single effect and every crash between two effects, for any number of workers |
| Pipeline.RunKeepsInv | libs/shared/app/queue_helper.py:147-196 | ... hence holds in every reachable world |
| Pipeline.NoLostFile | services/audio-normalizer/app/main.py:450-513 | in every run, an announced file without a queued or unacked message is quarantined and infected, or transcode-failed, or in internal_pull with its object stored, or dropped after more failures than the budget |
| Pipeline.ScanGate | services/clamav-scanner/app/main.py:108-126 | in every run, every message past the scan, redelivered or doubled, is about a clean file |
| Pipeline.NamedObjectsAreStored | services/audio-normalizer/app/main.py:461-502 | in every run, the object a file_ready or internal_pull message names is already stored |
| Pipeline.BudgetBeforeDrop | libs/shared/app/queue_helper.py:164-177 | a stage drops a file only after failing on it more than QUEUE_MAX_RETRIES times |
| PipelineRows.DeliveryLeaves | services/clamav-scanner/app/main.py:64-134 | an uninterrupted delivery leaves the row Error exactly if the scanner raised, ScanClean or Quarantined by its verdict, Transcoded or TranscodeFailed by ffmpeg, ReadyForTransfer or Transferring by the pull; sends the next stage exactly one message after a success; and after a failure one copy with one more retry, or a spent budget |
| PipelineRows.StatusIsExplained | services/audio-normalizer/app/main.py:410-513 | over every run, cut and crashed deliveries included, a row's status was written by a delivery of its file whose scanner, ffmpeg or pull decided so |
| PipelineRows.RowsPastScanAreClean | services/clamav-scanner/app/main.py:91-126 | over every run, a row that is ScanClean or any later status belongs to a clean file, and a quarantined one to an infected one |
| PipelineRows.PulledNamesAreAnnounced | services/dmz-to-internal-bridge/app/main.py:147-224 | over every run, what reaches internal_pull carries a name its file was announced under, the object made from it and the scanner's mark |
| PipelineRows.OutputNameIs | services/audio-normalizer/app/main.py:447 | the object is the name without its directory, the last extension replaced by .mp4, or .mp4 added if there is none or nothing before it |
| PipelineProgress.WorkIsBounded | libs/shared/app/queue_helper.py:147-196 | over every run, deliveries, actions at any price and what the messages left may still cost are at most one fixed price for each announced file and each crash |
| PipelineProgress.DeliveriesAreBounded | services/clamav-scanner/app/main.py:64-134 | with n = QUEUE_MAX_RETRIES + 1 each announcement or crash leads to at most n + n^2 + n^3 deliveries, although failures are republished and may have sent the file on |
| PipelineProgress.BusyCanAdvance | libs/shared/app/queue_helper.py:179-196 | as long as a message of a file is queued or unacked, a delivery or an action is possible: a run that cannot go on has settled every file |
| Watchdog.Store.TryClaim | services/dmz-to-internal-bridge/app/pipeline_watchdog.py:165-192 | the conditional update wins exactly if the claim is free or over, and does not look at the version |
| Watchdog.Store.ResumeMcrImport | services/dmz-to-internal-bridge/app/pipeline_watchdog.py:236-313 | a committed reset counts the version, records the previous status and keeps the last five, whether or not the publication after it succeeds; a failed reset changes nothing; both failures are a 500 |
| Watchdog.Store.MarkCappedAsFailed | services/dmz-to-internal-bridge/app/pipeline_watchdog.py:352-387 | fails exactly the stale unfinished rows at the cap, frees their claims and counts them |
| Watchdog.Store.ClaimAndResume | services/dmz-to-internal-bridge/app/pipeline_watchdog.py:329-343 | one candidate is claimed and resumed, or skipped and left alone |
| Watchdog.ScanFindsFreeRows | services/dmz-to-internal-bridge/app/pipeline_watchdog.py:112-160 | every scan, automatic or manual, returns distinct rows whose claim is free |
| Watchdog.Store.ScanAndResume | services/dmz-to-internal-bridge/app/pipeline_watchdog.py:316-349 | on the candidates of a scan, automatic or manual, undisturbed, every one is claimed, those that do not raise are reported in order, and resumed plus skipped are all of them |
| Watchdog.PassHandlesEach | services/dmz-to-internal-bridge/app/pipeline_watchdog.py:329-349 | a pass handles each candidate once, on the row its scan saw, and counts at most one resume for it |
| Watchdog.PassLeaves | services/dmz-to-internal-bridge/app/pipeline_watchdog.py:329-349 | ... and leaves every other row as it was |
| Watchdog.SurvivorsExact | services/dmz-to-internal-bridge/app/pipeline_watchdog.py:337-349 | the reported rows are exactly the candidates whose resumption did not raise |
| Watchdog.StepKeepsInv | services/dmz-to-internal-bridge/app/pipeline_watchdog.py:112-192 | the bound below is inductive: no scan, claim, resume, restart, reprocessing or foreign write breaks it |
| Watchdog.ResumesAreBounded | services/dmz-to-internal-bridge/app/pipeline_watchdog.py:84-192 | for any settings and over every run of N pods, resumes plus pods still holding the row from a capped scan are at most MAX_AUTO_RETRIES - 1 + N plus the resumes users asked for, by a scan with include_failed or by a reprocessing |
| Watchdog.OnePodKeepsCap | services/dmz-to-internal-bridge/app/pipeline_watchdog.py:275-281 | one pod never passes the cap but by resumes users asked for |
| Watchdog.BoundIsTight | services/dmz-to-internal-bridge/app/pipeline_watchdog.py:165-192 | for every N and every number of resumes asked for, some run of N pods reaches the bound, so the cap alone does not hold from two pods on |
| Watchdog.ClaimsAreApart | services/dmz-to-internal-bridge/app/pipeline_watchdog.py:165-192 | two claims of one row are won more than a lease apart, whichever pods win them and whatever the lease is set to |
| Watchdog.HistoryFollowsVersion | services/dmz-to-internal-bridge/app/pipeline_watchdog.py:275-300 | over every run the recorded history is the last five resumes, numbered in step with the version |
| WatchdogRows.PassLeavesRow | services/dmz-to-internal-bridge/app/pipeline_watchdog.py:236-313 | a pass leaves every candidate whose reset was committed McrImportPending, active and claimed at its claim time, one version on, with its old version and status last in a history of five, and all else as it was; of the others it writes the claim alone |
| WatchdogRows.StepLeavesRow | services/dmz-to-internal-bridge/app/pipeline_watchdog.py:165-387 | everything a step of any pod can do to a row: start it over, claim it, fail it at the cap, or leave it |
| WatchdogRows.ScanFindsDue | services/dmz-to-internal-bridge/app/pipeline_watchdog.py:84-160 | an automatic scan finds rows that are unfinished, idle for longer than the stale delay, younger than the age limit, below the cap, retryable and unclaimed or past their lease; and all of them, or a full batch of the longest idle |
| WatchdogRows.ManualScanFindsWanted | services/dmz-to-internal-bridge/app/pipeline_watchdog.py:84-160 | a manual scan looks at failed rows too, at neither the stale delay nor the cap, and only at the rows of its user |
| WatchdogRows.ResumedRowRests | services/dmz-to-internal-bridge/app/pipeline_watchdog.py:274-281 | over every run, no automatic scan has a resumed row again before the stale delay is over, if nobody else writes it |
| WatchdogRows.RestartedIsUnfinished | services/dmz-to-internal-bridge/app/pipeline_watchdog.py:274-281 | a failed row a user has resumed is unfinished again |
| WatchdogRows.CappedRowIsLeft | services/dmz-to-internal-bridge/app/pipeline_watchdog.py:352-387 | over every run, a row failed at the cap is in no automatic scan until somebody resumes or rewrites it |
| WatchdogRows.CappedRowCanBeWanted | services/dmz-to-internal-bridge/app/pipeline_watchdog.py:43-49 | ... and is in reach of a user's scan at once, exactly while it is young enough |
| Enrolment.Authority.PurgeExpiredPending | services/device-token-authority/app/main.py:82-96 | deletes exactly the pending rows whose purge date is past |
| Enrolment.Authority.FindRow | services/device-token-authority/app/main.py:418-487 | same key first, then the latest fusible row, then a rebindable one, and nothing only if there is none of the three |
| Enrolment.Authority.EnrollDevice | services/device-token-authority/app/main.py:406-539 | purge, lookup and enrolment leave the specified tables and answer; bad input changes nothing |
| Enrolment.Authority.ValidateDeviceToken | services/device-token-authority/app/main.py:591-658 | activates, touches or refuses as specified, and refreshes a stale retention |
| Enrolment.Authority.Revoke | services/device-token-authority/app/main.py:751-771 | revokes the user's own device and nothing else |
| Enrolment.Authority.RevokeAllOf | services/device-token-authority/app/main.py:1035-1061 | revokes and counts exactly the active devices of the user, or of all users |
| Enrolment.Authority.DeleteSessionByCode | services/device-token-authority/app/main.py:776-822 | deletes the tokens of the code and every device of the session, and says whether the user owned one |
| Enrolment.Authority.ExtendToken | services/device-token-authority/app/main.py:304-343 | extends the owner's token from now or its old date, whichever is later, and the retention of exactly its active devices |
| Enrolment.Authority.RenameDevice | services/device-token-authority/app/main.py:729-748 | renames the user's own device, name cut to the column |
| Enrolment.Authority.DeleteDevice | services/device-token-authority/app/main.py:1000-1031 | deletes the user's own device and nothing else |
| Enrolment.Authority.PurgeTokenRows | services/dmz-to-internal-bridge/app/puller.py:1779-1812 | deletes exactly the QR tokens that ended more than 90 days ago, or more than a day ago with no device on their code, and no device |
| Enrolment.RenewalReachesClientIff | services/device-token-authority/app/main.py:325-339 | within the renewed dates a client of an active device gets through if and only if the retention date in the token it holds is absent or not past |
| EnrolmentPurge.RenewalComesTooLate | services/device-token-authority/app/main.py:304-343 | a token and device renewed for a day whose client is refused because of the date it holds |
| Enrolment.LatestExists | services/device-token-authority/app/main.py:431-447 | if any row is fusible there is a latest one |
| Enrolment.EnrolKeepsInv | services/device-token-authority/app/main.py:418-539 | enrolling never gives a token a second confirmed device nor a row of another user or code |
| Enrolment.ValidateKeepsInv | services/device-token-authority/app/main.py:602-639 | a pending device becomes the owner only when there is none |
| Enrolment.StepKeepsInv | services/device-token-authority/app/main.py:751-822 | every handler, revocations, deletions and extensions included, and the purge of the internal zone keep the enrolment invariant |
| Enrolment.OneDevicePerToken | services/device-token-authority/app/main.py:418-639 | over every run each QR token has at most one confirmed active device, and every device matches a live token's user and code or a purge deleted its token more than 90 days after its end |
| Enrolment.DeviceHasTokenOrIsOrphaned | services/dmz-to-internal-bridge/app/puller.py:1779-1812 | only that purge leaves a device without its token: no handler does, over any run |
| EnrolmentPurge.PurgeChangesNoAnswer | services/dmz-to-internal-bridge/app/puller.py:1782-1784 | the purge leaves every device and every later answer of the validation as they were |
| EnrolmentPurge.DeleteSparesOthersIff | services/device-token-authority/app/main.py:776-822 | after every run a user's deletion of a session removes devices of that user alone if and only if no device of another user, its token purged, bears the code |
| EnrolmentPurge.ReissuedCodeTakesStranger | services/device-token-authority/app/main.py:165-199 | a run in which a purged code is issued again and the new owner's deletion removes the first user's device |
| EnrolmentPurge.OldTokenSurvivesRebind | services/device-token-authority/app/main.py:449-487 | after a rebind and any run, the old holder's token, within its own dates, passes exactly when the new one does, against the comment |
| EnrolmentPurge.OldTokenValidates | services/device-token-authority/app/main.py:449-487 | ... and it does pass within the life of the QR token, over any run that does not touch the row |
| Enrolment.OwnedTokenGetsNoRow | services/device-token-authority/app/main.py:489-539 | no handler adds a row to a token that has a confirmed device, and only enrolment adds rows |
| Enrolment.RevokedIsAbsorbing | services/device-token-authority/app/main.py:418-430 | a revoked row stays revoked, with its key and retention, over any run until it is deleted |
| EnrolmentRows.RevokedByIff | services/device-token-authority/app/main.py:751-771 | from any database a step revokes a row if and only if its own user asks for it, or a revocation of all selects it while active; it writes status and date alone |
| EnrolmentRows.RevocationHolds | services/device-token-authority/app/main.py:418-430 | after every run since a revocation, until the row is deleted, every validation of the device is refused, and enrolling again with its key and a live QR token answers device_revoked |
| EnrolmentRows.RevokedIsRefused | services/device-token-authority/app/main.py:602-608 | a revoked device is refused whatever token is shown, as revoked unless the token is empty or past its own date |
| Enrolment.ValidateRefreshesRetention | services/device-token-authority/app/main.py:649-658 | after a successful validation the client's token, refreshed or not, carries the stored retention and is otherwise its own |
| EnrolmentRows.ValidIff | services/device-token-authority/app/main.py:591-658 | a validation succeeds if and only if all three dates are not past, the token is the row's and the device is active, or pending on a session nobody owns; it writes nothing otherwise |
| EnrolmentRows.RefusalTells | services/device-token-authority/app/main.py:591-640 | each refusal names something that is wrong |
| EnrolmentRows.ConfirmedByIff | services/device-token-authority/app/main.py:626-640 | in one step a pending device becomes active if and only if it shows a token that passes on a session without an owner |
| EnrolmentRows.EnrolAnswers | services/device-token-authority/app/main.py:406-520 | when each answer of an enrolment is given; only a success writes |
| EnrolmentRows.EnrolWrites | services/device-token-authority/app/main.py:489-539 | what a first and a repeated enrolment write, field by field, and the token they hand out |
| EnrolmentRows.FoundIs | services/device-token-authority/app/main.py:418-487 | an enrolment takes up a row with its key before any other, then the newest with its fingerprint within the window, then a confirmed one with it |
| EnrolmentRows.DeletedByIff | services/device-token-authority/app/main.py:1000-1031 | a row is deleted if and only if its user does, or the code's owner deletes the session, or it was not confirmed in time when a purge runs |
| EnrolmentRows.OthersWrite | services/device-token-authority/app/main.py:304-343 | every other event writes a row's retention or name, if it is asked to, and nothing else |
| EnrolmentRows.TokensAfter | services/device-token-authority/app/main.py:304-343 | what each event does to the QR tokens |
| Enrolment.EnrolledDeviceValidates | services/device-token-authority/app/main.py:591-658 | the token an enrolment hands out is accepted at any time within its retention and the life of the QR token, over any run that does not touch the row, unless it was pending and another device has been confirmed since |
| Enrolment.UntouchedStays | services/device-token-authority/app/main.py:751-822 | a run of events that do not name or reach a row, nor delete or purge its QR token, leaves the row as it is, and its QR token lives at least as long |
| Enrolment.KeysStayUnique | services/device-token-authority/app/main.py:418-430 | over every run (qr_token, device_key) is unique if all keys fit the column |
| Enrolment.LongKeyRepeats | services/device-token-authority/app/main.py:418-430 | for every longer key some database gets two rows with one stored key |
| Enrolment.KeyLimitIsExact | services/device-token-authority/app/main.py:418-430 | enrolling with a key keeps the pair unique in every database if and only if it has at most 255 characters |
| DeviceClaim.SessionStore.ClaimDevice | services/mobile-upload-pwa/app/main.py:825-867 | undisturbed, the claim goes to the first device, stays there, and clears the failure counter |
| DeviceClaim.OkMeansOneDevice | services/mobile-upload-pwa/app/main.py:836-866 | however read, update and re-read of any requests interleave, all that end with ok carry the device on the row |
| DeviceClaim.ClaimNeverChanges | services/mobile-upload-pwa/app/main.py:836-866 | a claimed device id never changes, whatever the re-read sees |
| DeviceClaim.CachedRereadShares | services/mobile-upload-pwa/app/main.py:850-866 | with a re-read from the cache two devices both end with ok |
| DeviceClaim.ExclusiveExactlyIfFresh | libs/shared/app/database.py:19 | one device per session in every run if and only if the re-read sees the committed row |
| DeviceClaim.CachedPassesIff | services/mobile-upload-pwa/app/main.py:836-866 | with a re-read from the cache, a request of a device without the claim that ended without an exception ended with ok if and only if it had read the session while it was free |
| DeviceClaim.CounterCountsFromReset | services/mobile-upload-pwa/app/main.py:857-860 | over every run the failure counter is the number of failed codes since the last successful claim |
| DeviceClaim.ErrorLetsThrough | services/mobile-upload-pwa/app/main.py:862-865 | an exception lets the upload through and writes nothing |
| MeetingLink.Registry.CreateMeeting | services/device-token-authority/app/main.py:2075-2136 | creates and links exactly if user, audio, preparation and job allow it; otherwise changes nothing, and reuses a live meeting of the same job |
| MeetingLink.Registry.LinkMeetingToAudio | services/device-token-authority/app/main.py:2541-2575 | unlinks the old audio if it still points back, links the new one, and reports the old |
| MeetingLink.Registry.LinkMeetingToPreparation | services/device-token-authority/app/main.py:2478-2523 | sets the preparation exactly for the user's own live rows |
| MeetingLink.Registry.LinkAudioToPreparation | services/device-token-authority/app/main.py:2619-2661 | finds the meeting of the audio or creates one, and sets its preparation |
| MeetingLink.Registry.SetTrashed | services/device-token-authority/app/main.py:2388-2442 | moves the user's own meeting into the trash or out of it |
| MeetingLink.Registry.HardDeleteMeeting | services/device-token-authority/app/main.py:2448-2475 | deletes a trashed meeting, and its audio loses the link |
| MeetingLink.StepKeepsInv | services/device-token-authority/app/main.py:2541-2575 | every handler and every deletion with ON DELETE SET NULL keeps: audio.meeting_id = m implies m.user_audio_file_id is that audio, of the same owner; references never cross users |
| MeetingLink.RunKeepsInv | migrations/internal/012_split_briefs.sql:159-185 | ... over every run |
| MeetingLink.NoSharedMeeting | services/device-token-authority/app/main.py:2619-2661 | over every run no two audio files point at one meeting |
| MeetingLink.MirroredIff | services/device-token-authority/app/main.py:2117-2136 | the audio of every meeting points back at it after a step if and only if the step does not give an audio that has a meeting to another one |
| MeetingLink.MirrorCanBreak | services/device-token-authority/app/main.py:2117-2136 | two meetings created for one audio file both name it, and it names the second |
| MeetingLink.CreateIsIdempotent | services/device-token-authority/app/main.py:2097-2115 | asking again for the meeting of a video job changes nothing |
| MeetingLink.LinkToPrepIsReused | services/device-token-authority/app/main.py:2640-2657 | the meeting made for an audio file is found again: a second call adds no meeting |
| MeetingRows.MeetingAppearsIff | services/device-token-authority/app/main.py:2075-2136 | a meeting appears exactly when a user makes one with an audio file and preparation of theirs, none of the same job being alive, or links an audio file without one of theirs to a preparation; its row is as asked |
| MeetingRows.MeetingGoesIff | services/device-token-authority/app/main.py:2448-2475 | a meeting goes exactly when its user deletes it out of the trash |
| MeetingRows.MeetingAfter | services/device-token-authority/app/main.py:2619-2661 | what each event leaves of a meeting: the audio, preparation or trash mark it sets, a reference it clears, or all as it was |
| MeetingRows.AudioAfter | services/device-token-authority/app/main.py:2541-2575 | what each event leaves of an audio file's link |
| DeviceToken.EncodeShape | libs/shared/app/device_token.py:13-14 | encodings consist of the 64 URL-safe digits, four for three bytes and no padding, so they hold no dot |
| DeviceToken.DecodeUndoesEncode | libs/shared/app/device_token.py:13-19 | decode(encode(x)) = x for all bytes, through the lenient decoder |
| DeviceToken.DigitsDecodeIff | libs/shared/app/device_token.py:17-19 | a text of digits decodes if and only if its length is not one more than a multiple of four |
| TokenDecoding.AlphabetIs | libs/shared/app/device_token.py:13-14 | the digits are the letters, the numerals, minus and underscore, in this order |
| TokenDecoding.GroupIsNumber | libs/shared/app/device_token.py:13-14 | a group of digits in base 64 is the number its bytes are in base 256 |
| TokenDecoding.DecodeSkipsForeign | libs/shared/app/device_token.py:17-19 | a character outside ASCII is an error, other foreign characters are skipped, and the standard alphabet is read too |
| TokenDecoding.PaddingCounts | libs/shared/app/device_token.py:17-19 | padding ends the text where it completes a group, and is skipped elsewhere |
| DeviceToken.VerifyUndoesCreate | libs/shared/app/device_token.py:22-54 | verify(create(p, s), s) = p, if the JSON encoding can be undone |
| DeviceToken.VerifyElsewhere | libs/shared/app/device_token.py:32-46 | under another secret the token verifies if and only if the two MACs of the payload agree |
| DeviceToken.VerifiedIsSigned | libs/shared/app/device_token.py:32-54 | whatever verifies is two parts split at the first dot, the second decoding to the MAC of the first |
| TokenDecoding.RefusalIs | libs/shared/app/device_token.py:32-54 | a token is refused for its format, its signature or its payload, exactly if it is no two parts that decode, the second is not the MAC, or the first is no JSON object |
| Chunking.SortIsStable | services/video_ingest/app/chunking.py:46 | the sort orders by start, keeps the segments, and leaves equal starts in their order |
| Chunking.ChunkSegments | services/video_ingest/app/chunking.py:24-95 | the chunks are those of the windows of the sorted segments; the loop terminates |
| Chunking.WindowsFormChain | services/video_ingest/app/chunking.py:54-93 | windows [i, j): i strictly increases, j never decreases, next i is at most the previous j, the last j is n, there are at most n, several segments span at most the target, a back-step overlaps at most overlap_seconds; the guard against an endless loop is never taken |
| Chunking.OnlyOneChain | services/video_ingest/app/chunking.py:54-93 | these rules leave no choice: any chain of windows that meets them is the one computed |
| Chunking.EverySegmentIsCovered | services/video_ingest/app/chunking.py:39-42 | every segment is in a chunk |
| Chunking.ChunksAreOrdered | services/video_ingest/app/chunking.py:39-42 | chunks are ordered by start, and a chunk of several segments lasts at most the target |
| Chunking.RepeatedIff | services/video_ingest/app/chunking.py:76-94 | a segment of a chunk is in the next one too if and only if it starts at or after end - overlap and is not the first of its chunk |
| Chunking.StraddlersAreNotRepeated | services/video_ingest/app/chunking.py:33-41 | for any input no segment that straddles that bound is in both chunks, against the documentation |
| Chunking.StraddlerIsDropped | services/video_ingest/app/chunking.py:33-41 | three segments of which the second straddles the bound and is in one chunk only |
| Chunking.NoTextIff | services/video_ingest/app/chunking.py:43 | a chunk has no text if and only if all its segments are blank, although the documentation excludes empty chunks |
| Chunking.BlankSegmentGivesBlankChunk | services/video_ingest/app/chunking.py:69-73 | one blank segment gives one chunk with an empty text |
| Chunking.TextAppears | services/video_ingest/app/chunking.py:72 | the stripped text of each of its segments is in the text of a chunk |
| Chunking.TextsJoin | services/video_ingest/app/chunking.py:72 | the text of a chunk is the stripped texts of its segments in order, with one blank between those that are not empty |
| Chunking.ChunkIs | services/video_ingest/app/chunking.py:69-73 | a chunk runs from the start of its first segment to the end of its last, and its text is made of theirs in order |
| ChunkText.Chunk | services/dmz-to-internal-bridge/app/meeting_intelligence.py:72-98 | the chunks are the slices of the specified spans; the loop terminates for all settings, negative ones included |
| ChunkText.FindCut | services/dmz-to-internal-bridge/app/meeting_intelligence.py:84-93 | the cut is the one the five separators give in order |
| ChunkText.ChunksEndNaturally | services/dmz-to-internal-bridge/app/meeting_intelligence.py:75-78 | a chunk that is not the last ends with a separator, or there is none in its last 2000 characters |
| ChunkText.CutIsLast | services/dmz-to-internal-bridge/app/meeting_intelligence.py:84-93 | the cut is where the last occurrence of a separator in those characters ends; separators before it in order all begin earlier, and no other begins past it |
| ChunkText.SpansFormChain | services/dmz-to-internal-bridge/app/meeting_intelligence.py:82-97 | for a positive size and no negative overlap, each chunk starts later than the one before but no later than that one ends, is at most size long, and the last ends with the text |
| ChunkText.PiecesAreShort | services/dmz-to-internal-bridge/app/meeting_intelligence.py:82-97 | no chunk is longer than the size, whatever the overlap |
| ChunkText.FewChunks | services/dmz-to-internal-bridge/app/meeting_intelligence.py:86-97 | when size > 2000 + overlap there are at most 1 + n / (size - 2000 - overlap) chunks, however the separators fall |
| ChunkText.RebuiltIff | services/dmz-to-internal-bridge/app/meeting_intelligence.py:72-98 | gluing the chunks without their overlaps gives the text back if and only if it fits one chunk or is empty, or size >= 1 and overlap >= 0 |
| MeetingSearch.CleanTextIsUnmarked | services/dmz-to-internal-bridge/app/meeting_search.py:96-98 | a cleaned text is on one line with single spaces, and holds neither highlight mark |
| MeetingSearch.CleanTextOfWord | services/dmz-to-internal-bridge/app/meeting_search.py:96-98 | a cleaned text is its words in order with one space between them |
| MeetingSearch.ParseMarked | services/dmz-to-internal-bridge/app/meeting_search.py:131-148 | for any input the text is free of marks and the spans are ordered, disjoint and not empty |
| MeetingSearch.ParseUndoesMark | services/dmz-to-internal-bridge/app/meeting_search.py:131-148 | marking any unmarked text with ordered disjoint spans and parsing it gives text and spans back |
| MeetingSearch.BuildSnippet | services/dmz-to-internal-bridge/app/meeting_search.py:151-189 | the snippet is the excerpt of the specified window, with one highlight for each span inside it, in order |
| MeetingSearch.CutEdges | services/dmz-to-internal-bridge/app/meeting_search.py:158-173 | the window of the source's two cuts, empty where its bounds cross |
| MeetingSearch.LocateSpans | services/dmz-to-internal-bridge/app/meeting_search.py:180-188 | keeps exactly the spans inside the window |
| MeetingSearch.InsideExact | services/dmz-to-internal-bridge/app/meeting_search.py:182-184 | a span is highlighted if and only if it lies within the trimmed window |
| MeetingSearch.HighlightsCutTheirTerms | services/dmz-to-internal-bridge/app/meeting_search.py:180-188 | each highlight cut out of the UTF-16 encoding of the snippet is exactly the encoding of its term in the original text |
| MeetingSearch.EncodeIs | services/dmz-to-internal-bridge/app/meeting_search.py:91-93 | a character of the basic plane is one unit, any other a high and a low surrogate that give it back |
| MeetingSearch.SnippetIsExcerpt | services/dmz-to-internal-bridge/app/meeting_search.py:151-189 | the snippet is a slice of the text of at most max_chars characters, with an ellipsis exactly at its cut edges |
| MeetingSearch.TrimKeeps | services/dmz-to-internal-bridge/app/meeting_search.py:174-176 | trimming the window loses blanks only |
| MeetingSearch.ExcerptIs | services/dmz-to-internal-bridge/app/meeting_search.py:158-173 | the left edge follows the first blank before the first term, the right edge is the last blank after the terms that start before it, and an edge stays where there is no blank or the text ends |
| MeetingSearch.FirstTermIsHighlighted | services/dmz-to-internal-bridge/app/meeting_search.py:161-173 | a first term of at most max_chars - 80 characters without edge blanks is always highlighted whole |
| MeetingSearch.CutsATermIff | services/dmz-to-internal-bridge/app/meeting_search.py:165-173 | an edge of the excerpt goes through a term if and only if the max_chars allowed already end inside one: moving edges to blanks never cuts one |
| MeetingSearch.LaterTermCanBeCut | services/dmz-to-internal-bridge/app/meeting_search.py:165-173 | a text and two terms of which the second is cut, against the comment |
| TranscriptFormats.TextToMdString | services/mesreunions-web/app/transcript_formats.py:680-718 | computes the normalised text; its second loop, which removes doubled blank lines, never finds any |
| TranscriptFormats.Collapse | services/mesreunions-web/app/transcript_formats.py:706-715 | on what the first loop writes, that loop is the identity |
| TranscriptFormats.SplitUndoesJoin | services/mesreunions-web/app/transcript_formats.py:454 | splitlines undoes joining lines that hold no line boundary |
| TranscriptFormats.LineReadsBack | services/mesreunions-web/app/transcript_formats.py:402-471 | the line a block is printed as is read back as that block, for every kind, level and content |
| TranscriptKinds.KindIsShape | services/mesreunions-web/app/transcript_formats.py:402-471 | the kind, level and content of every line by its shape, both ways: hashes and a blank, a mark and a blank, a ">", "**name**" with or without "_(times)_"; the shapes exclude each other, and any other line is blank or a paragraph |
| TranscriptKinds.SpeakerIff | services/mesreunions-web/app/transcript_formats.py:405 | a line is a speaker line if and only if it is a name without asterisks between double asterisks, then blanks, or times without a closing bracket in _( )_ between blanks |
| TranscriptKinds.SectionsStandApart | services/mesreunions-web/app/transcript_formats.py:681-683 | in a normalised text every line shaped as a heading or a speaker line, but the first, has a blank line before it |
| TranscriptKinds.LineEndsAtBreak | services/mesreunions-web/app/transcript_formats.py:454 | a line ends at its first break, and a return with a line feed after it is one break |
| TranscriptFormats.NormalisedKeepsBlocks | services/mesreunions-web/app/transcript_formats.py:680-718 | the non-blank blocks of the output are exactly those of the input, in order |
| TranscriptFormats.NormalisedIsFixed | services/mesreunions-web/app/transcript_formats.py:680-718 | normalising twice is normalising once |
| TranscriptFormats.NormalisedLayout | services/mesreunions-web/app/transcript_formats.py:681-683 | no doubled blank line, a blank before every heading and speaker line but the first line, and a leading blank only for a text without blocks |
| TranscriptFormats.GapExactly | services/mesreunions-web/app/transcript_formats.py:685-704 | between two blocks there is one blank line if and only if the source had some there or the second opens a section |
| TranscriptFormats.BlocksSeparatedIff | services/mesreunions-web/app/transcript_formats.py:680-718 | a text gets a blank line between all its blocks, as documented, if and only if of any two blocks on successive lines the second is a heading or a speaker line |
| TranscriptFormats.ParagraphsRunTogether | services/mesreunions-web/app/transcript_formats.py:680-718 | two paragraphs on successive lines come out as they are |
| ExternalSource.FlattenSegments | services/dmz-to-internal-bridge/app/external_source.py:40-69 | computes the specified words; segments without numbers or words give none |
| ExternalSource.SplitWordsOf | services/dmz-to-internal-bridge/app/external_source.py:53 | the words of a text are what its blanks leave between them |
| ExternalSource.WordsTile | services/dmz-to-internal-bridge/app/external_source.py:60-68 | the words of a segment of positive length tile it: first start, each end the next start, last end, durations proportional and positive |
| ExternalSource.CursorIsProportional | services/dmz-to-internal-bridge/app/external_source.py:60-68 | the cursor is where the characters before it say, so the min with the end never bites |
| ExternalSource.WordsAreKept | services/dmz-to-internal-bridge/app/external_source.py:40-69 | every word of a usable segment is timed once, in order |
| ExternalSource.WordsAscendIff | services/dmz-to-internal-bridge/app/external_source.py:33-37 | the words come by ascending start if and only if each segment starts no earlier than the last word of the one before |
| ExternalSource.WordsCanDescend | services/dmz-to-internal-bridge/app/external_source.py:33-37 | two segments whose words do not ascend |
| ExternalSource.WordsApartIff | services/dmz-to-internal-bridge/app/external_source.py:33-37 | no word ends after the next one starts, as documented, if and only if each segment with words starts no earlier than the one before ends |
| ExternalSource.SkippedIff | services/dmz-to-internal-bridge/app/external_source.py:40-59 | exactly the segments without numbers or words give no words; one without a duration gives all of its own, at its start |
| ExternalSource.SkippedAsDocumentedIff | services/dmz-to-internal-bridge/app/external_source.py:28-31 | ... so skipping is as documented if and only if the segment has a duration or no words |
| ExternalSource.WordsCanOverlap | services/dmz-to-internal-bridge/app/external_source.py:33-37 | two segments whose words overlap, and one without a duration that is not skipped |
| SentenceAlign.SentenceAlignSegments | services/dmz-to-internal-bridge/app/external_source.py:103-135 | computes the placed, cut and deduplicated sentences |
| SentenceAlign.SplitLongPhrase | services/dmz-to-internal-bridge/app/external_source.py:138-170 | computes the parts of a long sentence, or the sentence itself |
| SentenceAlign.SplitAtMark | services/dmz-to-internal-bridge/app/external_source.py:116 | a part ends with the first mark that blanks follow, which are dropped |
| SentenceAlign.Marks | services/dmz-to-internal-bridge/app/external_source.py:72-74 | a sentence ends with one of . ! ? and the ellipsis, a soft part with one of , ; : |
| SentenceAlign.GroupAt | services/dmz-to-internal-bridge/app/external_source.py:148-156 | a long sentence without soft marks is cut into groups of as many words, the last one perhaps fewer |
| SentenceAlign.EnoughGroups | services/dmz-to-internal-bridge/app/external_source.py:148-156 | there are at least as many groups as times 15 seconds in it, if it has the words |
| SentenceAlign.JoinedWordsReadBack | services/dmz-to-internal-bridge/app/external_source.py:155 | the words of a group are joined with single blanks and can be read back |
| SentenceAlign.SentencesAreNeat | services/dmz-to-internal-bridge/app/external_source.py:116 | the sentences of a chunk are not empty, have no edge blanks, and together hold all its other characters in order |
| SentenceAlign.PartsFollow | services/dmz-to-internal-bridge/app/external_source.py:116-131 | sentences start and end with their chunk, end_k = min(chunk end, start_{k+1}), starts increase, and start_k <= end_k exactly while the cursor is within the text |
| SentenceAlign.PartsInOrderIff | services/dmz-to-internal-bridge/app/external_source.py:117-125 | all sentences of a chunk start no later than they end if and only if the last has at least as many characters as there are sentences before it |
| SentenceAlign.FourLettersOverflow | services/dmz-to-internal-bridge/app/external_source.py:117-125 | in "A. B. C. D" the last sentence starts after it ends |
| SentenceAlign.LongPhraseIsCovered | services/dmz-to-internal-bridge/app/external_source.py:138-170 | the parts of a long sentence start and end with it and hold its characters |
| SentenceAlign.OnlyLongAreCut | services/dmz-to-internal-bridge/app/external_source.py:131-134 | exactly the sentences of more than 20 seconds are cut again |
| SentenceAlign.PartIsShortIff | services/dmz-to-internal-bridge/app/external_source.py:138-170 | a part of a long sentence lasts at most 20 seconds if and only if the characters it is timed by are at most that share of the sentence's; nothing is cut a third time |
| SentenceAlign.PartCanStayLong | services/dmz-to-internal-bridge/app/external_source.py:138-156 | a sentence of 30 seconds whose first part keeps all of them, although it has a blank to cut at |
| SentenceAlign.ChunkTextIsKept | services/dmz-to-internal-bridge/app/external_source.py:103-134 | before deduplication, no character of a chunk but blanks is lost or moved |
| SentenceAlign.DedupeOverlap | services/dmz-to-internal-bridge/app/external_source.py:173-187 | computes the specified deduplication |
| SentenceAlign.RepeatIs | services/dmz-to-internal-bridge/app/external_source.py:181-183 | a repeat has the same stripped text and starts less than 20 seconds before or after |
| SentenceAlign.DedupeKeepsTexts | services/dmz-to-internal-bridge/app/external_source.py:173-187 | what is removed repeats something kept less than 20 seconds away |
| SentenceAlign.DedupeIsFixed | services/dmz-to-internal-bridge/app/external_source.py:173-187 | deduplicating twice changes nothing |
| SentenceAlign.DedupeSelects | services/dmz-to-internal-bridge/app/external_source.py:179-187 | what is kept stands at the indices `KeptIndices` gives |
| SentenceAlign.KeptAsDocumentedIff | services/dmz-to-internal-bridge/app/external_source.py:174-187 | the code keeps the sentences the documentation keeps if and only if each repeats the one before it exactly when it repeats the first of that one's run of repeats |
| SentenceAlign.KeptAsDocumentedThroughoutIff | services/dmz-to-internal-bridge/app/external_source.py:174-187 | ... and under the same condition the two agree at every prefix |
| SentenceAlign.ThirdRepeatGoes | services/dmz-to-internal-bridge/app/external_source.py:174-176 | of three equal sentences at 10, 0 and 25 seconds the third goes, against the documentation |
| SentenceAlign.DedupeLeavesNoRepeats | services/dmz-to-internal-bridge/app/external_source.py:173-187 | no sentence left repeats the one before it within 20 seconds |
| SentenceAlign.ThirdRepeatStays | services/dmz-to-internal-bridge/app/external_source.py:174-176 | of three equal sentences at 0, 15 and 30 seconds the third stays, against the documentation |
| RateLimit.SlidingWindowLimiter.constructor | libs/shared/app/rate_limit.py:46-52 | the limit is at least one event |
| RateLimit.SlidingWindowLimiter.AllowEvent | libs/shared/app/rate_limit.py:54-66 | prunes, answers and records as specified; an empty key is always allowed and never recorded |
| RateLimit.SlidingWindowLimiter.ResetKey | libs/shared/app/rate_limit.py:68-72 | forgets one key or all of them |
| RateLimit.LimiterRefinesHistory | libs/shared/app/rate_limit.py:54-72 | over every run with a clock that does not go back, the answers are those of the rule that keeps the full history, and each deque is the matching end of it |
| RateLimit.DequeEndsAllowed | libs/shared/app/rate_limit.py:60-66 | whatever the clock does, each deque is the end of what the limiter has allowed, and the rest has left the window of some call |
| RateLimit.ShorterWindowsHold | libs/shared/app/rate_limit.py:60-66 | with a clock that goes back by at most s, any closed window shorter by s holds at most max_events allowed events of a key |
| RateLimit.NoWindowExceedsLimit | libs/shared/app/rate_limit.py:35-41 | each key has at most max_events allowed events in any closed window of that length, if the clock does not go back, or under any clock for a limit of one |
| RateLimit.LateCallExceeds | libs/shared/app/rate_limit.py:60-66 | for any other limit and any skew, a run of that skew that exceeds the limit |
| RateLimit.BoundHoldsIff | libs/shared/app/rate_limit.py:35-41 | no run of a given skew exceeds the limit if and only if the skew is zero or the limit is one |
| RateLimit.AllowedIsRecorded | libs/shared/app/rate_limit.py:54-66 | with a clock that does not go back, what the limiter allows is what the full-history rule records |
| RateLimit.RefusedExactlyWhenFull | libs/shared/app/rate_limit.py:54-66 | a call is refused if and only if its key is not empty and max_events allowed events lie in [now - window, now] |
| RateLimit.KeysAreIndependent | libs/shared/app/rate_limit.py:60 | what is kept for a key depends on the calls for that key alone |
| RateLimit.LateClockExceedsLimit | libs/shared/app/rate_limit.py:60-66 | with a clock that goes back, three events are allowed in a window that permits two |

## Left out

- HTTP routing, JSON parsing, S3, SMTP, WebSocket notifications and all HTTP clients: replaced by parameters or by a step that may succeed or fail.
- ffmpeg, ClamAV and audio quality: only "clean or not" and "transcodes or not" are kept.
- SQL full-text search and ts_headline: only what is done with their answer.
- The strength of HMAC, Fernet and JWT: the MAC is an arbitrary function.
- Watchdog.ResumesAreBounded: a resume is one step; the source reads reprocess_version and writes it plus one later, so two overlapping resumes of a row can lose a count, and a pod stalled in between for longer than the lease can put an old version back. The bound is for resumes of a row that do not overlap.
- The kevent resume path (`_reset_and_resubmit_kevent_pipeline`): not part of this model, and neither are its resumes or the version the trust authority is told to write (main.py:2704); other writers of a watchdog row are any write that does not count a resume, and a user's reprocessing, which counts one.
- Negative watchdog settings: the environment could hold them; the model's are natural numbers.
- Floating-point rounding, infinities and NaN, and the rounding of timings to two or three decimals: seconds are exact reals or integers.
- PipelineRows.OutputNameIs: not for stored names that end with a slash, which `Path` drops.
- Row purges while a file is in the pipeline: `Pipeline` assumes the row of an announced file exists; the purge is not part of this model.
- SQL snapshots: a transaction of the job queue is one step stamped with its start; claims, heartbeats and resets are stamped in the order they commit, `complete`, `fail` and `retry` may carry any stamp.
- Fingerprint and user-agent metadata of a device, its labels, and the administrator's listings: they decide nothing.
- Concurrent `validate_device` calls and upload quotas: the code does not serialise them and no bound is claimed.
- The `claim_error_ignored` path of the PWA claim: an exception there lets the upload through without a claim.
- Writes of the internal puller to `meeting_id` and `user_audio_file_id`: the puller is not part of this model.
- Titles, summaries, contents, folders and dates of meetings and preparations: no link depends on them.
- DeviceToken.VerifyUndoesCreate: assumes that `json.loads` undoes `json.dumps` on the payload; the JSON encoding is a parameter.
- ExternalSource.WordsTile: over exact reals, before the source rounds to three decimals.
- SentenceAlign.PartsFollow: over exact reals, before the source rounds to two decimals, which can also move a sentence across the 20-second thresholds.
- `client_ip`, `concat_segments_text`, `derive_source_type` and the other pure helpers beside the modelled functions: easy members.
- DOCX and ODT writers, inline emphasis, the front end, glossaries and configuration: tables, or one branch each.
