# Notification delivery and campaign scheduling: a verified model

The service delivers notification jobs that arrive on a Kafka topic. One row of `notification_delivery` per job,
a dead-letter topic (DLQ) and a committed offset are all it remembers. A second process, the campaign scheduler,
polls campaigns against cron schedules. This project models both and proves what they keep in every run.

**Delivery.** `WorkerProtocol.Act` is one worker handling one message at a time: each step is one SQL statement,
one send, one publish or one clock reading, and every statement may raise without effect. Two systems run it:

- `MultiWorker`: any number of workers on one table, any interleaving, a crash at any step, arbitrary clocks, any
  messages in any number of copies. Here live the row and column invariants, the spacing of claims, the attempt
  budget, the linearization of the two-statement claim (`Linearization`), and exactly when SENT and the stored
  attempts are safe from other workers (`SharedJobs`).
- `SingleConsumer`: one worker behind a log with a position and a committed offset, to which every restart
  returns; this is the deployment with one partition. Here live absorption of terminal statuses, conservation of
  attempts, sends and DLQ entries, idempotence, and at-least-once delivery (`AtLeastOnce`, `LostJobs`).
  `SingleConsumer.ConsumerIsOneWorker` makes it an instance of the first system.

The modules `Delivery`, `RetryEngine`, `JobProcessor` and `SchedulerTick` hold the same code as it is written: classes
whose fields are updated in place and loops. `Environment.World` fixes what every statement, send, publish and commit
of a process meets, and `Environment.Reaches` says that a run obeys it and ends where the process halts, so the run is
determined, up to its length and the clock readings. Each method returns such a run, and its `ensures` tie its
outcome, the table, the sender's calls, the DLQ, the clock and the history to the world: when the claim is won, when
the call raises, how often and when the sender is called, what is stored and published. A kill at any step is a
`Crash` of the protocol. Every theorem about runs is therefore about the methods. `RetryEngine.AttemptWithRetries`
does this whatever fails, and `CrashResume` proves that a job interrupted by any crashes stores the writes of that
loop.

**Campaigns.** `CampaignScheduler` runs any number of schedulers over stale snapshots of one campaign; a cron
schedule is a set of fire instants, of which the croniter computes the next. `SchedulerTick` is the tick as it is
written, and any sequence of ticks is a run of one scheduler.

**Settings.** `RetryDelays` is the tokenising of the list of retry delays.

The results hold for all inputs that their rows name: every run, log, number of workers and copies, every environment.
Three name a condition on the environment: `SendWindow.NeverLateIff` a program that takes no time of its own,
`CampaignScheduler.CronBound` and `SchedulerTick.TicksBounded` a tick clock that is not ahead of the database, and
`AtLeastOnce.ProcessSettles` failure writes that succeed and no PROCESSING row left by an earlier process. Where the
program itself needs it, `maxAttempts >= 1` is assumed; the setting is 3. Instants and delays are integers.

## Where the documents promise more than the code keeps

- docs/DELIVERY_SEMANTICS.md promises at-least-once delivery. A job whose worker crashed and that comes back while
  its 300 s lease runs is refused and committed. `AtLeastOnce.AtLeastOnceIff` says exactly when nothing is lost,
  `AtLeastOnce.OnlyAbandonedJobsAreLost` that only an interrupted worker loses a job, `LostJobs.RedeliveredWithinLease`
  gives the losing run.
- The same document sends exhausted jobs to the DLQ. `SingleConsumer.FailedIsPublishedIff` says exactly when a FAILED
  job is there, `LostJobs.FailedWithoutDlq` gives a run in which it is not, for every budget.
- It says that expired jobs are not delivered. Expiry is checked once, before the wait and before all attempts:
  `SendWindow.LateDelivery` is a call that sends a job 5 s after its expiry and stores SENT, `SendWindow.NeverLateIff`
  says exactly when no attempt comes late.
- docs/WORKER_DESIGN.md says that idempotence makes parallel processing safe. A worker asleep between two attempts
  leaves a RETRYING row that another worker may claim, and writes over what that worker stored.
  `SharedJobs.SentAbsorbingIff` says exactly when SENT is safe, `SharedJobs.AttemptsMonotoneIff` that stored attempts
  are monotone only for a single worker.
- docs/DELIVERY_SEMANTICS.md speaks of state stored before and after each attempt; the code stores a claim once before
  the first attempt and a result after each.

## Model

| member | source | states |
|---|---|---|
| Delivery.NotificationDeliveryRepository.TryClaimJob | src/notifications/worker/repositories/notification_delivery_repo.py:50-102 | Uninterrupted, INSERT then UPDATE is one compare-and-set, won exactly for a new job, a RETRYING row, or a PROCESSING row whose lease is missing or too old; a new row has the job's user and channel, a stored row changes in status and lease only; other rows stay |
| Delivery.NotificationDeliveryRepository.SaveStatus | src/notifications/worker/repositories/notification_delivery_repo.py:104-154 | The upsert replaces the status columns and releases the lease; a stored row keeps its user and channel, a new one gets the job's; other rows stay |
| MultiWorker.RowInvariant | src/notifications/worker/repositories/notification_delivery_repo.py:62-142 | In every multi-worker run: FAILED has all attempts, RETRYING 1 up to the budget, PROCESSING and EXPIRED less than the budget, SENT 1 up to all; lease, sent_at and error are set exactly for their statuses |
| MultiWorker.RunKeepsRows | src/notifications/worker/processor/status_writer.py:58-120 | From any good state the row invariant survives every run, no row is deleted, and user and channel never change |
| MultiWorker.RowsCarryTheirJob | src/notifications/worker/repositories/notification_delivery_repo.py:62-142 | In every multi-worker run whose received jobs of one id agree on user and channel, every stored row carries those of its job |
| MultiWorker.NullLeaseNeverClaims | src/notifications/worker/repositories/notification_delivery_repo.py:82-94 | In every reachable state the IS NULL disjunct of the claim admits no extra row |
| MultiWorker.LoopReturnsAfterTerminalSave | src/notifications/worker/processor/retry_engine.py:33-56 | Every won claim enters the loop, and a loop that returns normally has SENT or FAILED as its worker's last save |
| MultiWorker.AttemptBudget | src/notifications/worker/processor/job_processor.py:53-88 | Over any workers and interleaving, calls for a job are at most what its won claims grant, at most the budget times the claims, and the INSERT wins at most once ever |
| MultiWorker.ClaimSpacing | src/notifications/worker/repositories/notification_delivery_repo.py:58-102 | Claims of a job with no save between them: k of them span more than k-1 leases, whatever the workers' clocks do |
| Linearization.ClaimLinearizable | src/notifications/worker/repositories/notification_delivery_repo.py:58-102 | Every interleaving of two-statement claims has the table, the results and the history of a run whose claims are one atomic compare-and-set each, inside the call |
| Linearization.AtomicRunSplit | src/notifications/worker/repositories/notification_delivery_repo.py:58-102 | Conversely every run with atomic claims is a run of the two-statement claim |
| SharedJobs.SentAbsorbingIff | src/notifications/worker/processor/retry_engine.py:46-66 | A SENT row stays SENT in every continuation if and only if no worker is past its skip check with the power to write it |
| SharedJobs.SentIsOverwritten | src/notifications/worker/processor/retry_engine.py:46-66 | From each such place the worker has a run that overwrites SENT |
| SharedJobs.AttemptsMonotoneIff | src/notifications/worker/processor/job_processor.py:53-79 | Stored attempts never fall in any run of n workers if and only if n is at most 1 |
| SharedJobs.StaleSnapshotRun | src/notifications/worker/processor/timing.py:31-38 | A run in which a stale snapshot turns SENT with 1 attempt into EXPIRED with 0 |
| SingleConsumer.ConsumerIsOneWorker | src/notifications/kafka_init.py:80-94 | Each consumer step is a step of the one-worker system |
| SingleConsumer.RunKeepsInvariant | src/notifications/worker/consumer/kafka_consumer.py:52-76 | In every run the rows are good, the worker's count is the stored one, the position is the committed offset or one past it, and a handled message is settled |
| SingleConsumer.TerminalAbsorbs | src/notifications/worker/processor/job_processor.py:53-77 | Once SENT, FAILED or EXPIRED, a row keeps status and attempts through every continuation, and no further send for it starts |
| SingleConsumer.TerminalForever | src/notifications/worker/processor/timing.py:22-39 | The same for every reachable state, with crashes, copies and clocks that may even go back |
| SingleConsumer.AttemptsConserved | src/notifications/worker/processor/retry_engine.py:33-52 | Calls equal stored attempts plus lost windows plus the one in flight, so they exceed the budget by at most the lost windows |
| SingleConsumer.StoredAttemptsGrow | src/notifications/worker/processor/job_processor.py:79-88 | Stored attempts never fall in a single consumer's run |
| SingleConsumer.SendsBounded | src/notifications/worker/processor/retry_engine.py:35-40 | Successful sends are at most 1 plus those whose SENT was never stored, with equality exactly for SENT rows |
| SingleConsumer.Idempotence | src/notifications/worker/processor/job_processor.py:93-115 | Without crashes and save errors, over any log with any copies, a job is sent at most once, and once exactly when its row is SENT |
| SingleConsumer.FailedIsPublishedIff | src/notifications/worker/processor/retry_engine.py:46-56 | A FAILED job has exactly one DLQ entry of its own if and only if the worker was not stopped between the two writes |
| AtLeastOnce.CommittedOffset | src/notifications/worker/consumer/kafka_consumer.py:58-66 | The committed offset never falls and moves only past the message just handled |
| AtLeastOnce.CommitSettles | src/notifications/worker/consumer/kafka_consumer.py:58-66 | A step keeps everything below the committed offset settled if and only if it does not commit a refused claim of a PROCESSING job that is not in the DLQ; the step behind the next line |
| AtLeastOnce.AtLeastOnceIff | src/notifications/worker/repositories/notification_delivery_repo.py:81-102 | Along a run every message below the committed offset is always in the DLQ or terminal if and only if no UPDATE that meets a running lease, of a job not in the DLQ, is followed by a commit |
| AtLeastOnce.ConditionalAtLeastOnce | src/notifications/worker/processor/job_processor.py:70-77 | It is so whenever no claim meets a lease that is still running |
| AtLeastOnce.OnlyAbandonedJobsAreLost | src/notifications/worker/processor/retry_engine.py:33-52 | It is so whenever no worker stops, or fails to store a failure, between its claim and its status write |
| AtLeastOnce.ProcessSettles | src/notifications/worker/consumer/kafka_consumer.py:52-76 | A process that starts with every committed message settled and no PROCESSING row left by an earlier process, and whose failure writes succeed, ends with both, whatever its sender, other statements and publishes do; so any sequence of such processes loses nothing |
| LostJobs.RedeliveredWithinLease | src/notifications/worker/processor/job_processor.py:75-77 | A run with one crash that commits a job neither delivered, nor failed, nor in the DLQ |
| LostJobs.FailedWithoutDlq | src/notifications/worker/processor/retry_engine.py:46-56 | For every budget, a run with one crash that commits a FAILED job without a DLQ entry |
| RetryEngine.GetRetryDelay | src/notifications/worker/processor/retry_engine.py:69-74 | The delay is taken from the list: the one for the attempt, or the last |
| RetryEngine.CallsAreReal | src/notifications/worker/processor/retry_engine.py:35-38 | What the theorems on runs count as calls of a job is how often the sender object was called for it |
| RetryEngine.Stop | src/notifications/worker/processor/retry_engine.py:35-56 | The loop stops on the first attempt after e that does not end in a stored RETRYING |
| RetryEngine.WritesWhenUp | src/notifications/worker/processor/retry_engine.py:35-56 | When saves and publishes succeed, that is the first success or the last attempt; the writes are RETRYING with consecutive counts and one SENT, or one FAILED exactly when every attempt failed |
| RetryEngine.AttemptOnce | src/notifications/worker/processor/retry_engine.py:36-56 | One turn is the run its errors prescribe: one call of the sender, the verdict in terms of the errors met, every column of the stored row, the DLQ entry, the time it takes |
| RetryEngine.AttemptWithRetries | src/notifications/worker/processor/retry_engine.py:17-66 | Whatever fails, the loop is the run its errors prescribe, and history, table, sender, DLQ and clock hold exactly its writes, calls, entry and instants; it raises exactly when a failure cannot be stored or a stored FAILED not published; between two calls it waits for the delay the settings give the first, or the last of a short list; the row shows the last write |
| CrashResume.WritesAreRecorded | src/notifications/worker/processor/status_writer.py:58-120 | In every run with any crashes, copies, errors and clocks, the writes of a job are RETRYING 1, 2, up to the stored count, followed as the row's status says by nothing, one SENT, one FAILED, or EXPIRED with that count |
| CrashResume.ResumeComposes | src/notifications/worker/processor/job_processor.py:79-88 | If attempt n is answered the same whenever it is made, a job that ends SENT or FAILED after any crashes and restarts has stored exactly the writes of one uninterrupted loop, and one that has not ended a proper prefix |
| CrashResume.ResumePublishes | src/notifications/worker/processor/retry_engine.py:46-56 | Under the same hypotheses, unless a publish is pending or was given up, such a job has its one DLQ entry exactly when it has ended and the uninterrupted loop gives up |
| CrashResume.CrashThenResume | src/notifications/worker/processor/job_processor.py:51-88 | A worker that stops between claim and status write, in any reachable state, is back in the loop with the stored count after one redelivery if and only if the row is RETRYING or its lease has run out; else the claim is refused |
| JobProcessor.WaitSendAfter | src/notifications/worker/processor/timing.py:42-65 | The clock ends at the smaller of send_after and now plus the largest delay, or stays if that is past |
| JobProcessor.PreparationExact | src/notifications/worker/processor/job_processor.py:53-77 | In the fields of job, row and clock: which jobs are skipped, which expire, which raise, and that the claim is won exactly for an unexpired job whose statements succeed and whose row is absent, RETRYING, or PROCESSING with a missing or old lease when the wait ends |
| JobProcessor.JobProcessor.PrepareAndClaim | src/notifications/worker/processor/job_processor.py:53-77 | Read, skip, expire, wait and claim are the run the world prescribes, with the outcome, table, writes and instant of that preparation; a late job is never claimed, and is stored EXPIRED with its count and text unless a statement fails or its row is final; no other row changes |
| JobProcessor.JobProcessor.HandleJob | src/notifications/worker/processor/job_processor.py:51-88 | The whole call is the run the world prescribes; it raises, sends, stores, publishes and ends exactly as row, instants and errors come to; the sender is called exactly when the claim is won with budget left, first after the bounded wait and the claim; an expired job is never sent and is stored EXPIRED, a delivered one is left alone, no other row changes |
| JobProcessor.JobProcessor.HandleMessage | src/notifications/worker/consumer/kafka_consumer.py:102-154 | A message stays unhandled exactly when its DLQ publish raises; an undecodable message or a raised job adds exactly one DLQ entry; table, sender and clock are those of the job's call |
| JobProcessor.KafkaNotificationConsumer.Start | src/notifications/worker/consumer/kafka_consumer.py:35-100 | The loop is the run the world prescribes, and table, DLQ and sender hold exactly its rows, entries and calls: it commits every message up to the stop flag, a DLQ publish of the handler that raises, or a commit that raises, and does nothing after those; it takes no longer than its jobs do, keeps the invariant, leaves terminal rows alone, and with failure writes that succeed loses nothing unless an earlier process left a PROCESSING row |
| SendWindow.FirstCallWindow | src/notifications/worker/processor/timing.py:22-65 | The first attempt starts no earlier than the smaller of send_after and arrival plus the largest delay, and no later than the expiry plus that delay and the claim's time |
| SendWindow.NeverLateIff | src/notifications/worker/processor/timing.py:22-65 | For a program that takes no time of its own and a job unexpired at the check: no sender makes an attempt start after the expiry if and only if the first start plus the delays of the whole budget fit before it; the first start is late exactly when send_after and arrival plus the largest delay both lie past the expiry |
| SendWindow.LateDelivery | src/notifications/worker/processor/job_processor.py:51-88 | A call of the program that sends a job at 10 whose expiry is 5, and stores SENT |
| SendWindow.LaterCallWindow | src/notifications/worker/processor/retry_engine.py:58-74 | Attempt i after the first adds its calls' time and at most i times the largest delay |
| CampaignScheduler.DueIff | src/notifications/campaign_scheduler/service/scheduler_service.py:28-56 | Due exactly when the cap leaves a run and a fire lies between the last trigger and now, or none was triggered yet |
| CampaignScheduler.CatchUpOnce | src/notifications/campaign_scheduler/service/scheduler_service.py:39-56 | After a trigger the campaign rests until the next fire, however many fires it had missed |
| CampaignScheduler.RunCap | src/notifications/campaign_scheduler/service/scheduler_service.py:36-37 | k schedulers over stale snapshots exceed the cap by at most k-1; one scheduler never does |
| CampaignScheduler.RunCapReached | src/notifications/campaign_scheduler/service/scheduler_service.py:81-140 | For every k and cap some run exceeds the cap by exactly k-1 |
| CampaignScheduler.TriggersCounted | src/notifications/campaign_scheduler/repositories/campaigns_repo.py:73-85 | In every run of any schedulers runs_count counts the recorded triggers, and after a trigger the campaign is inactive exactly when its cap is reached |
| CampaignScheduler.StaysInactive | src/notifications/campaign_scheduler/repositories/campaigns_repo.py:73-85 | A campaign deactivated by its cap never becomes active again |
| CampaignScheduler.CronBound | src/notifications/campaign_scheduler/service/scheduler_service.py:39-56 | With one scheduler, its clock not ahead of the database, triggers in any window are at most 1 plus the cron fires in it |
| CampaignScheduler.AheadClockRepeats | src/notifications/campaign_scheduler/repositories/campaigns_repo.py:73-85 | The bound needs that clock: for every lead of the tick clock over the database, a run of one scheduler that records lead + 1 triggers in a window with one fire |
| SchedulerTick.CampaignRepository.GetActiveCampaigns | src/notifications/campaign_scheduler/repositories/campaigns_repo.py:32-64 | Exactly the active rows, each once, in the order of created_at |
| SchedulerTick.CampaignRepository.MarkCampaignTriggered | src/notifications/campaign_scheduler/repositories/campaigns_repo.py:66-87 | The UPDATE of one campaign, if it exists: one more run, the database's instant, active exactly while the cap leaves a run, nothing else |
| SchedulerTick.TickStoredExact | src/notifications/campaign_scheduler/service/scheduler_service.py:81-140 | A stored row is counted once exactly when the snapshot's cap leaves a run, a fire has come since its last trigger, the API accepted the event and the UPDATE succeeded; else it stays as it is |
| SchedulerTick.ProcessCampaign | src/notifications/campaign_scheduler/service/scheduler_service.py:81-140 | Any snapshot, fresh or stale, decides; a due campaign is posted exactly once; the stored row is counted when the event was accepted and the UPDATE succeeded, and no row changes otherwise |
| SchedulerTick.PostedOnceIff | src/notifications/campaign_scheduler/service/scheduler_service.py:143-168 | A tick posts each active campaign that is due once, and no other |
| SchedulerTick.ProcessTick | src/notifications/campaign_scheduler/service/scheduler_service.py:143-168 | Every row is treated once, as if alone; the due campaigns are posted in the order of created_at; no row is counted without an accepted event; nothing changes when the fetch fails |
| SchedulerTick.TicksAreRun | src/notifications/campaign_scheduler/service/scheduler_service.py:143-195 | Any sequence of ticks is a run of one scheduler |
| SchedulerTick.TicksBounded | src/notifications/campaign_scheduler/service/scheduler_service.py:143-195 | Over any ticks of one scheduler every trigger is counted, the cap is exact and the cron bound holds |
| RetryDelays.TokensInvertPrinting | src/notifications/common/config.py:56-60 | Tokens joined by commas, with any white space and blank segments, are read back exactly |
| RetryDelays.EverySettingIsPrinted | src/notifications/common/config.py:56-60 | Every setting is such a printing, so the previous line covers all settings |
| RetryDelays.ParseExact | src/notifications/common/config.py:56-65 | The numbers come out in the order of the tokens, and one bad token rejects them all |
| RetryDelays.AcceptedDelays | src/notifications/common/config.py:56-69 | A setting is accepted exactly when it has a token and every token is a number, and its delays are then the numbers of its tokens in their order; every token is nonblank, unpadded and comma-free |

## Left out

- Kafka, PostgreSQL, SMTP and HTTP clients, pools and start-up retries; a statement is atomic, a publish appends, the committed offset survives a restart.
- A save that raised although it took effect: a statement that raises has no effect here.
- Rendering, templates, contacts and channel dispatch of one attempt: an attempt succeeds or raises; the unsupported `sms` channel is one that always raises.
- The error texts that DLQ entries carry, and the payload of campaign events: an entry names its job or its raw message, an event its campaign.
- JSON decoding and validation: a message is a valid job or an invalid one.
- Fallbacks of `_ensure_channel` for a missing or unknown channel: a validated job carries one of the four channels, for which both normalisers agree.
- Columns error_code (always null), created_at and updated_at.
- Rebalancing, consumers without a committed offset, operators who edit rows, settings that change during a run, and budgets below 1.
- A crash while the sender is running counts as a call without a known result; a send counts as successful when it returned.
- The log a process reads is finite; logging is not modelled.
- The sleep between ticks, croniter's arithmetic and time zones: the croniter is any function that computes the least later fire.
- API routes, template management, event mapping and the degraded publisher: thin wrappers.
- Float parsing: any function from tokens to numbers that may reject.
