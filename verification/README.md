# FeedPulse: a Dafny model of its state protocols

FeedPulse is a multi-process feed monitor. Its hard parts are protocols over shared rows and
counters: jobs, replicas, retries and crashes are steps, a SQL statement or a Redis command is one
atomic step. This project models those protocols and a few dense kernels, and proves what holds in
every run.

`dafny verify dfyconfig.toml` checks the whole project. Each module is one file. Code that updates
state in place is a class whose methods are tied to functions on values; lemmas about those
functions, and about runs built from them, carry the promises.

| modules | subject |
|---|---|
| AlertUpsert, AlertBatch, AlertsRepository, AlertHistory, StoredRule | one alert per article: in-memory collapse, bulk upsert, runs of batches |
| FeedClaims, FeedSchedule, FeedProtocol, FeedPause, FeedJobs, FeedFailure | claiming, queueing, sweeping, reporting and pausing feeds; failure backoff |
| AlertDelivery, DeliveryOutcome, DeliveryRace, EmailQuota, TelegramDigest, DigestOutcome | one alert over three channels, the daily email quota, digest sweeps |
| Migrations, MigrationProtocol, MigrationChecksums | one migration run, and several processes over one table |
| XmlEntities, OpmlTags, OpmlImports, OpmlJobs, OpmlApply, OpmlStore | OPML: entities, tag loop, duplicate classification, the three jobs |
| CanonicalQuery, CanonicalLink | the dedupe key of an article link |
| RateLimiter, KeywordMatch, TenantSecrets | the fixed-window limiter, the memoised matcher, lazy re-encryption |
| Common, Text | shared vocabulary |

## Where code and intention part

The model follows the code. These are proved, with the exact condition where there is one.

- Email quota: a send whose `markChannelDelivered` fails gives its slot back although the email
  left, so a day can carry as many emails over the limit as there are such lost marks
  (`EmailQuota.QuotaSafety`, `EmailQuota.LostMarksOverrun`).
- Delivery: an attempt that dies after its last channel mark and before `markSent` leaves an alert
  that is reported disabled for good; `AlertDelivery.CrashIsHealedIff` says for every crash point
  when the next attempt still completes the alert. Attempts that overlap can send a message twice
  (`DeliveryRace.MarkRepeatsIffOverlapped`), and each such email takes a quota slot of its own.
- Digests: a channel can be `sent` while an item waits, through a delivery that queues a chat after
  a sweep converged the alert, or through a switch to instant delivery, and in no other way
  (`TelegramDigest.SoundThroughoutIff`).
- Alerts: the raw `rule_id` of a collapsed batch can differ from the one-by-one form, exactly as
  `StoredRule.StoredRulesAgreeIff` says; the effective rule cannot (`AlertUpsert.BulkRefinesOneByOne`).
  A link that spells `entry:<id>` shares the alert of the entry of that id that has no link
  (`AlertBatch.DedupeTextsEqualIff`).
- Feeds: an operator pause is lost to a report in flight, or, over an auto-pause, at once or to a
  sweep (`FeedPause.PausedFeedIsClaimedAgainIff`); a claim deduplicated against a retained failed job
  waits for a sweep (`FeedJobs.DeduplicatedClaimEnds`).
- Limiter: one window length admits up to 2 * limit - 1 requests, and no more
  (`RateLimiter.SpanAdmitsAtMost`, `RateLimiter.SpanBoundAttained`).
- OPML tags: a feed written with an end tag makes the whole import fail
  (`OpmlTags.ImportsExactlyImportableForests`).
- OPML jobs: when queueing the new feeds throws after the commit, 'failed' is written over
  'completed'; every other status write follows the table (`OpmlJobs.RunFollowsTableIff`).
- Links: the form without the URL parser is not idempotent; `CanonicalLink.LinkIsStableIff` says when it is.
- Migrations: with the lock bypassed, a changed legacy file can go unnoticed in the checksum
  backfill, exactly in the race of `MigrationChecksums.BackfillLostIffRaced`.

## Model

| member | source | states |
|---|---|---|
| AlertUpsert.CollapseDistinct | src/modules/alerts/alerts.repository.ts:262-298 | After the in-memory collapse each (tenant, dedupe key) is proposed at most once, each with at least one rule |
| AlertUpsert.UpsertOneVisible | src/modules/alerts/alerts.repository.ts:331-344 | One conflict upsert as readers see it: an existing row keeps its entry and link and unites its rules, a missing one appears with the least rule as effective rule |
| AlertUpsert.KeysAfterUpsert | src/modules/alerts/alerts.repository.ts:337-340 | An upsert never re-keys, moves or removes a row; it appends exactly the missing key |
| AlertUpsert.UpsertsCommute | src/modules/alerts/alerts.repository.ts:331-344 | Updating an existing row commutes with an upsert under any other key |
| AlertUpsert.UpsertsAbsorb | src/modules/alerts/alerts.repository.ts:331-344 | Two upserts under one key equal one upsert with the united rules |
| AlertUpsert.MergeIntoPending | src/modules/alerts/alerts.repository.ts:285-290 | Growing a pending proposal equals upserting the newcomer after the whole batch |
| AlertUpsert.CollapseVisible | src/modules/alerts/alerts.repository.ts:262-344 | Writing the collapsed batch leaves what writing the uncollapsed one leaves |
| AlertUpsert.BulkRefinesOneByOne | src/modules/alerts/alerts.repository.ts:244-354 | The batch form refines the one-by-one form row for row, in entry, link, matched rules and effective rule, whatever ids are drawn |
| AlertBatch.BatchByArticle | src/modules/alerts/alerts.repository.ts:240-355 | One batch over the entries themselves: each matched entry has exactly one alert of its article, with its old rules and those of all matched entries of the article; a new one stands for the first of them and has its canonical link; no other alert is added or changed |
| AlertBatch.MatchedProposalsPropose | src/modules/alerts/alerts.repository.ts:244-278 | One proposal per entry with a matching rule, in id order, under its own tenant and canonical link |
| AlertBatch.CollapseIsExact | src/modules/alerts/alerts.repository.ts:262-298 | Each collapsed proposal is the first proposal of its key, with the rules of all of them |
| AlertBatch.UpsertAllIsExact | src/modules/alerts/alerts.repository.ts:331-344 | The statement row by row: a row is extended exactly by the value row of its key, each new row is a value row whose key was missing, ids ascend, keys stay distinct |
| AlertBatch.DedupeTextsEqualIff | src/modules/alerts/alerts.repository.ts:337 | Two rows share a dedupe text by their link, by being the same linkless entry, or by a link that spells one |
| StoredRule.StoredRulesAgreeIff | src/modules/alerts/alerts.repository.ts:312-341 | For every table and batch the two forms store the same raw rule_id in every old row, and in a new row exactly when the first proposal of its key already carries the least rule proposed for it |
| StoredRule.CollapsedRules | src/modules/alerts/alerts.repository.ts:285-297 | The collapsed proposal of a key carries all rules proposed for it |
| StoredRule.StoredRuleMayDiffer | src/modules/alerts/alerts.repository.ts:312-341 | A concrete batch on which the two forms store different ones |
| AlertsRepository.CreatedAreAppended | src/modules/alerts/alerts.repository.ts:341-354 | created is exactly what was appended behind the old rows, whose keys stay in place |
| AlertsRepository.ExtendedWerePresent | src/modules/alerts/alerts.repository.ts:341-354 | ruleSetExtended is one row per proposed key that existed before the statement, and no other |
| AlertsRepository.ExtendedByArticle | src/modules/alerts/alerts.repository.ts:346-354 | The rows reported as extended are exactly those under the article of a matched entry, each once |
| AlertsRepository.MemoryKeyFaithful | src/modules/alerts/alerts.repository.ts:279-283 | With separator-free tenant ids the concatenated in-memory key identifies (tenant, dedupe text) |
| AlertsRepository.MemoryStep | src/modules/alerts/alerts.repository.ts:271-298 | One turn of the loop over the entries moves the insertion-ordered map exactly as the collapse moves |
| AlertsRepository.BatchEffect | src/modules/alerts/alerts.repository.ts:240-355 | Table, created and ruleSetExtended after one collapsed batch, and that no row is touched twice |
| AlertsRepository.Repository.InsertOnConflict | src/modules/alerts/alerts.repository.ts:331-344 | The statement is rejected exactly when it would touch a row twice; otherwise table and returned rows are the one-after-another ones |
| AlertsRepository.Repository.CollapseInMemory | src/modules/alerts/alerts.repository.ts:266-298 | The loop over matched entries computes the collapse |
| AlertsRepository.Repository.FillParameters | src/modules/alerts/alerts.repository.ts:304-329 | The five parallel arrays unnest to the value rows of the pending proposals, rules ascending |
| AlertsRepository.Repository.CreateForEntryWithRules | src/modules/alerts/alerts.repository.ts:240-355 | The whole method, over entries, matched rules and canonical links: never rejected; what AlertBatch.BatchByArticle says of the table; created lists exactly the new alerts, ruleSetExtended exactly the old ones of matched articles, once each; and the table is that of one-by-one upserts |
| AlertHistory.RunVisible | src/modules/alerts/alerts.repository.ts:240-355 | Over a run of batches, batching is invisible |
| AlertHistory.OneAlertPerArticle | src/modules/alerts/alerts.repository.ts:240-355 | Over any run from an empty table there is exactly one alert per key ever matched, its matched rules strictly increasing and equal to all rules ever matched |
| AlertHistory.CreatedExactlyOnce | src/modules/alerts/alerts.repository.ts:341-354 | Over any run each key is reported in created exactly once |
| EmailQuota.EmailRateLimitService.Reserve | src/modules/notifications/infrastructure/email-rate-limit.service.ts:85-113 | Granted exactly below the limit of this tenant and day; a grant takes one slot, a refusal leaves every counter as it was |
| EmailQuota.KeysOfTenantsDiffer | src/modules/notifications/infrastructure/email-rate-limit.service.ts:165-169 | With days of ten characters a counter belongs to one tenant and one day, whatever the tenant is called |
| EmailQuota.GrantedIffBelowLimit | src/modules/notifications/infrastructure/email-rate-limit.service.ts:85-126 | After any calls for any tenants and days, a reservation is granted exactly while the grants of its own tenant and day, less those given back, are below the limit |
| EmailQuota.OthersDoNotMatter | src/modules/notifications/infrastructure/email-rate-limit.service.ts:29-37 | Over any run, what a tenant is answered on a day is what it would be answered had nobody else called |
| EmailQuota.StepConserves | src/modules/notifications/infrastructure/email-rate-limit.service.ts:85-126 | Every atomic step of every worker keeps: counter = held slots + pending give-backs + increments stranded by crashes, and held slots never pass the limit |
| EmailQuota.QuotaSafety | src/modules/notifications/infrastructure/email-rate-limit.service.ts:85-162 | Under a positive limit, in every interleaving the counter is accounted for to the last unit, and emails sent are at most the limit plus those whose slot was given back after they left |
| EmailQuota.QuiescentCounter | src/modules/notifications/infrastructure/email-rate-limit.service.ts:85-126 | With all workers idle, no crash and no lost mark, the counter is the number of emails sent and at most the limit |
| EmailQuota.RefusedIffFull | src/modules/notifications/infrastructure/email-rate-limit.service.ts:95-106 | A reservation overshoots exactly when held slots and pending overshoots reach the limit |
| EmailQuota.LostMarksOverrun | src/modules/alerts/application/process-alert-delivery.use-case.ts:130-140 | For every positive limit and every number of lost marks a run exists that sends limit + lost emails, so the bound is tight and "never more than the limit" fails exactly through marks lost after the send |
| AlertDelivery.AlertStore.AttemptChannels | src/modules/alerts/application/process-alert-delivery.use-case.ts:101-169 | The stages of one attempt: the columns, retryable and terminal errors they leave, and where a throwing statement outside the channels stops them |
| AlertDelivery.AlertStore.Execute | src/modules/alerts/application/process-alert-delivery.use-case.ts:43-217 | One delivery attempt, throwing statements included: the row it leaves, when it makes the queue retry, when all digests are queued |
| AlertDelivery.ChatErrorsAreRefusals | src/modules/alerts/application/process-alert-delivery.use-case.ts:144-160 | One error per refusing chat, with its reason, in the order of the chats; none exactly when every chat accepts |
| DeliveryOutcome.SkippedIffNothingOpen | src/modules/alerts/application/process-alert-delivery.use-case.ts:67-92 | Nothing is attempted and the alert reported disabled exactly without a notifier or without a channel that is configured, reachable and not sent |
| DeliveryOutcome.ChannelsAfterAttempt | src/modules/alerts/application/process-alert-delivery.use-case.ts:101-160 | The three channel columns after an attempt: each turns sent exactly when it was open and its send and mark went through, Telegram only when every chat accepted; an exhausted quota fails the email |
| DeliveryOutcome.FailureIsReported | src/modules/alerts/application/process-alert-delivery.use-case.ts:171-189 | What is reported, in order, and that the queue retries exactly when a send failed or lost its mark |
| DeliveryOutcome.CompletedIff | src/modules/alerts/application/process-alert-delivery.use-case.ts:191-206 | The alert turns sent exactly when nothing failed and every configured channel ends sent, digests apart; what the other outcomes leave |
| DeliveryOutcome.BrokenAttempt | src/modules/alerts/application/process-alert-delivery.use-case.ts:207-216 | A throwing statement outside the channels is reported and retried and never completes the alert; one that is not reached changes nothing |
| DeliveryOutcome.MessagesCounted | src/modules/alerts/application/process-alert-delivery.use-case.ts:101-142 | Which webhooks and emails count as having left, and which as having lost their mark |
| AlertDelivery.ApplyAccounts | src/modules/alerts/application/process-alert-delivery.use-case.ts:67-216 | Every operation, a dying attempt included, keeps: messages that left = lost marks + 1 if the channel is sent |
| AlertDelivery.AtMostOncePerChannel | src/modules/alerts/application/process-alert-delivery.use-case.ts:67-216 | Over any serial run, with attempts dying between their channel stages, a webhook and an email leave at most once per alert, plus once per lost mark |
| AlertDelivery.NothingIsUndone | src/modules/alerts/alerts.repository.ts:491-648 | Over any run a sent channel stays sent, sent stays true and delivery_attempts never decreases |
| AlertDelivery.SentNeedsEveryRequiredChannel | src/modules/alerts/application/process-alert-delivery.use-case.ts:191-206 | sent becomes true only in an attempt that leaves every channel its settings require sent |
| AlertDelivery.CleanAttemptMarksSentIff | src/modules/alerts/application/process-alert-delivery.use-case.ts:67-206 | An attempt in which nothing goes wrong completes the alert exactly when a channel in use is still open and no required channel lacks a transport |
| AlertDelivery.CrashIsHealedIff | src/modules/alerts/application/process-alert-delivery.use-case.ts:85-206 | For every point between the channel stages at which an attempt dies, the next clean attempt under the same settings completes the alert exactly when a channel in use was still open; with instant Telegram, when a required one was |
| AlertDelivery.StrandedForGood | src/modules/alerts/application/process-alert-delivery.use-case.ts:85-92 | Once every configured channel is sent, each further attempt reports the alert disabled and never marks it sent |
| AlertDelivery.StrandedAfterCrash | src/modules/alerts/application/process-alert-delivery.use-case.ts:85-92 | From a new alert: an attempt in which everything goes through but that dies before markSent strands the alert for every later attempt under its settings |
| DeliveryRace.MessagesAccountedFor | src/modules/alerts/application/process-alert-delivery.use-case.ts:101-142 | With attempts interleaved, a message that left is the recorded one, on its way to its mark, repeated, or its mark is lost |
| DeliveryRace.MarkRepeatsIffOverlapped | src/modules/alerts/application/process-alert-delivery.use-case.ts:101-142 | A message is repeated exactly when another attempt recorded the channel between this attempt reading the row and marking it |
| DeliveryRace.SerialNeverRepeats | src/modules/alerts/application/process-alert-delivery.use-case.ts:101-142 | Attempts that never overlap never repeat a message |
| DeliveryRace.TwoAttemptsSendTwice | src/modules/alerts/application/process-alert-delivery.use-case.ts:101-142 | Two attempts that read the open row before either marks it send twice |
| TelegramDigest.ApplySoundIff | src/modules/alerts/alerts.repository.ts:650-829 | From a store without an unsent item under a sent channel, a statement leads to one exactly when it inserts after the channel turned sent or an instant delivery marks over waiting items |
| TelegramDigest.SoundThroughoutIff | src/modules/alerts/alerts.repository.ts:650-829 | Statement by statement, over every run: no moment has an unsent item under a sent channel exactly when neither of the two ever happens |
| TelegramDigest.RunLateExact | src/modules/alerts/alerts.repository.ts:650-829 | Over every run the unsent items under sent channels are exactly the unsent late ones |
| TelegramDigest.SentTooEarlyIff | src/modules/alerts/alerts.repository.ts:650-829 | A sent channel has an unsent item exactly when a late one waits |
| TelegramDigest.ReconcileConverges | src/modules/alerts/alerts.repository.ts:815-829 | After any run one reconciliation leaves an alert with items sent exactly when all its items are sent or a late one waits |
| TelegramDigest.LateInsertIsARace | src/modules/alerts/application/process-alert-delivery.use-case.ts:44-83 | Behind every late item is a delivery that read the channel open, and a later statement that turned it sent before the insert |
| TelegramDigest.SweepBetweenInserts | src/modules/alerts/alerts.repository.ts:650-665 | A run in which a sweep flushes the first chat before a delivery queues the second |
| TelegramDigest.InstantOverQueuedItem | src/modules/alerts/application/process-alert-delivery.use-case.ts:73-83 | A run in which the tenant switches to instant delivery while an item waits |
| TelegramDigest.QueueKeepsSoundIff | src/modules/alerts/application/process-alert-delivery.use-case.ts:79-83 | The gate in front of queueing is exact: a new item breaks the invariant if and only if the channel is already sent |
| TelegramDigest.ReconcileTouchesDigestsOnly | src/modules/alerts/alerts.repository.ts:810-825 | An alert without digest items is never promoted |
| TelegramDigest.ConvergeEffect | src/modules/alerts/alerts.repository.ts:776-796 | Converging touches channels only, and exactly those of listed alerts without unsent items |
| TelegramDigest.CrashAfterMarksInvisible | src/modules/alerts/alerts.repository.ts:757-829 | A crash anywhere among the channel updates of a flush is invisible after the next reconciliation |
| TelegramDigest.FlushConvergesGroup | src/modules/alerts/alerts.repository.ts:757-799 | An uninterrupted flush leaves each of its alerts sent exactly when it was before or no item of it waits |
| TelegramDigest.FlushIsExact | src/modules/alerts/alerts.repository.ts:760-796 | A flush marks exactly the listed items and turns sent exactly the listed alerts of which no item waits |
| DigestOutcome.OneItemPerChat | src/modules/alerts/alerts.repository.ts:656-664 | In every run no alert is queued twice for one chat |
| DigestOutcome.QueueingIsExact | src/modules/alerts/alerts.repository.ts:650-665 | Queueing gives every chat that has none an unsent item of the alert, no other, and leaves the old ones alone |
| DigestOutcome.SweepMarks | src/modules/alerts/application/process-telegram-digests.use-case.ts:24-90 | A sweep sends exactly the items of the groups it flushed, and of a flush that threw those marked before it did |
| DigestOutcome.SweepChannels | src/modules/alerts/application/process-telegram-digests.use-case.ts:24-90 | After a sweep without a throwing flush a channel is sent exactly when it was, or the repair found the alert complete, or a flushed group held it and none of its items waits |
| DigestOutcome.SentItemsAreListed | src/modules/alerts/application/process-telegram-digests.use-case.ts:24-90 | The reported number of items is the number of items the flushed groups list |
| TelegramDigest.DigestRepository.MarkTelegramDigestGroupSent | src/modules/alerts/alerts.repository.ts:757-799 | Runs the statements of a flush and returns, without repetition, exactly the alerts that turned sent |
| TelegramDigest.DigestRepository.Sweep | src/modules/alerts/application/process-telegram-digests.use-case.ts:24-90 | Repair if it goes through, then each group refused, flushed or broken off; the reported number is the number of alerts that turned sent but for those in flushes that threw |
| TelegramDigest.NothingUnreported | src/modules/alerts/application/process-telegram-digests.use-case.ts:60-87 | Without such flushes nothing is left out of the report |
| FeedClaims.MaxJitter | src/modules/feeds/feeds.repository.ts:177-182 | The largest claim jitter is the poll interval divided by five, rounded to the nearest second, and at most 300 |
| FeedClaims.TakeBest | src/modules/feeds/feeds.repository.ts:194-200 | The n best keys, best first, none left out outranking a chosen one |
| FeedClaims.FeedsRepository.SelectForUpdate | src/modules/feeds/feeds.repository.ts:185-202 | The selected rows are due, unclaimed, not paused by an operator and unlocked, at most limit, all of them when fewer, and none left out outranks a chosen one |
| FeedClaims.FeedsRepository.ClaimDueFeeds | src/modules/feeds/feeds.repository.ts:169-214 | On the columns: every claimed feed was due, unclaimed, unlocked and not paused by an operator, a short batch misses none, active feeds go before failing before auto-paused ones and the longest due first; returned by (priority, id); exactly those rows are marked and put off by their poll interval and its jitter |
| FeedClaims.TopBatchIsFair | src/modules/feeds/feeds.repository.ts:185-202 | A top batch by rank is such a batch |
| FeedClaims.FeedsRepository.ReleaseStuckFeeds | src/modules/feeds/feeds.repository.ts:225-244 | Releases and makes due exactly the claims older than the threshold, and counts them |
| FeedSchedule.JobIdsIdentifyFeeds | src/infrastructure/queue/fetch-feed.queue.ts:56-60 | A scheduler job id determines its feed and no manual job can take it |
| FeedSchedule.FetchFeedQueue.Enqueue | src/infrastructure/queue/fetch-feed.queue.ts:38-54 | A scheduler job whose id is taken is dropped and reported; otherwise one job is added under its id |
| FeedSchedule.ScheduleDueFeeds | src/modules/ingestion/application/schedule-due-feeds.use-case.ts:16-37 | One tick: every claimed feed has a job under its own id afterwards, no other job changes, and scheduled and deduplicated are the exact counts |
| FeedProtocol.NextKeeps | src/modules/feeds/feeds.repository.ts:169-400 | Every step of schedulers, workers, sweeps and operator keeps: open claims hold disjoint unclaimed feeds, and every claim marker matches the last event of its feed |
| FeedProtocol.ClaimIsSelectAndCommit | src/modules/feeds/feeds.repository.ts:174-206 | An uninterrupted claim statement is a locking select and a commit with the row effect of ClaimDueFeeds |
| FeedProtocol.ConcurrentClaimsAreDisjoint | src/modules/feeds/feeds.repository.ts:154-168 | In every run claims in flight at the same time are disjoint and hold only unclaimed feeds |
| FeedProtocol.ClaimsAreSeparated | src/modules/feeds/feeds.repository.ts:162-165 | In every run two claims of one feed are separated by a report or a sweep of that feed |
| FeedProtocol.OnlyDueFeedsAreClaimed | src/modules/feeds/feeds.repository.ts:185-202 | In every run each logged claim was committed over a row that was due at its time and not paused by an operator |
| FeedProtocol.AbortUndoesSelect | src/modules/feeds/feeds.repository.ts:186-202 | A scheduler that dies in mid-statement leaves nothing behind |
| FeedProtocol.OnlyAbandonedClaimsAreSwept | src/modules/feeds/feeds.repository.ts:216-244 | In every run a swept feed had been claimed longer ago than the threshold with no event since |
| FeedProtocol.SweepRecovers | src/modules/feeds/feeds.repository.ts:225-244 | After any run a sweep makes exactly the claims older than the threshold unclaimed and due, and leaves every other row alone |
| FeedFailure.BackoffMonotone | src/modules/ingestion/application/process-feed-job.use-case.ts:268-274 | The deterministic part of the delay never shrinks with more errors |
| FeedFailure.BackoffBounds | src/modules/ingestion/application/process-feed-job.use-case.ts:268-274 | The delay is at least the poll interval capped at 6 h and below 6 h 15 min |
| FeedFailure.BackoffDoubles | src/modules/ingestion/application/process-feed-job.use-case.ts:268-274 | The delay doubles with each failure up to the sixth, from the poll interval on, and stops at six hours |
| FeedFailure.RowAfterSuccess | src/modules/ingestion/application/process-feed-job.use-case.ts:205-215 | A success clears failures, error and claim; the feed is due after its poll interval |
| FeedFailure.RowAfterFailure | src/modules/ingestion/application/process-feed-job.use-case.ts:245-369 | The row after a failure, by its message and the failures in a row: status, stored error and the window of the next check |
| FeedFailure.CaseDoesNotMatter | src/modules/ingestion/application/process-feed-job.use-case.ts:327-328 | The case of a message never decides what becomes of the feed |
| FeedFailure.UnresolvedRun | src/modules/ingestion/application/process-feed-job.use-case.ts:245-377 | An unbroken run of unresolved hosts: error twice, auto-paused from the third on, claimable throughout |
| FeedFailure.DelayBands | src/modules/ingestion/application/process-feed-job.use-case.ts:281-325 | Every failure delay lies in the band of its category |
| FeedFailure.ErrorCountIsTheFailureRun | src/modules/ingestion/application/process-feed-job.use-case.ts:245-257 | error_count is the number of failures since the last success |
| FeedFailure.ForbiddenRun | src/modules/ingestion/application/process-feed-job.use-case.ts:245-369 | An unbroken run of 403 failures is in error below the fifth, auto-paused from it on, and claimable throughout |
| FeedFailure.TerminalPauseClaimableIff | src/modules/ingestion/application/process-feed-job.use-case.ts:308-316 | A terminal pause is claimable exactly when the recorded message itself begins with the auto-pause prefix |
| FeedPause.PausedFeedIsClaimedAgainIff | src/modules/feeds/feeds.repository.ts:185-400 | After any run and for every continuation without another edit, a paused feed can be claimed again exactly when a later report leaves it claimable, or its last error was an auto-pause at the edit and it carried no claim or is swept |
| FeedPause.TakeableIffEventuallyEligible | src/modules/feeds/feeds.repository.ts:188-193 | Being claimable and unclaimed is being selected by the claim query after some waiting time |
| FeedPause.NoClaimWhileHeld | src/modules/feeds/feeds.repository.ts:169-214 | While the feed cannot be claimed again, no claim of it is made |
| FeedPause.PauseHolds | src/modules/feeds/feeds.repository.ts:314-400 | With no report outstanding and no auto-pause as last error, a paused feed stays paused and is never claimed |
| FeedPause.SweptPauseIsLost | src/modules/feeds/feeds.repository.ts:225-244 | A run that loses a pause to a sweep |
| FeedPause.ReportedPauseIsLost | src/modules/feeds/feeds.repository.ts:359-388 | A run that loses a pause to the report of a fetch in flight |
| FeedJobs.DeduplicatedClaimEnds | src/modules/ingestion/application/schedule-due-feeds.use-case.ts:32-36 | A claim whose enqueue is deduplicated lasts until the job that was there reports or a sweep takes it; against a retained failed job, until a sweep takes it |
| FeedJobs.JobIsLostOnlyBy | src/infrastructure/queue/fetch-feed.queue.ts:30-51 | A job leaves its id only by reporting for good or, once failed, by eviction |
| FeedJobs.FailedJobStrandsNextClaim | src/infrastructure/queue/fetch-feed.queue.ts:30-51 | The order in which a claim meets the retained job of a failed fetch |
| RateLimiter.MemoryRateLimitStore.Consume | src/shared/http/throttler.module.ts:262-274 | The hit count and reset time answered, and the store left behind |
| RateLimiter.EvictionIsInvisible | src/shared/http/throttler.module.ts:285-291 | With a monotone clock every answer equals that of a store that never evicts |
| RateLimiter.SpanInvariant | src/shared/http/throttler.module.ts:262-274 | What every call keeps about admissions in a span, by where the current window starts |
| RateLimiter.SpanAdmitsAtMost | src/shared/http/throttler.module.ts:257-292 | Any half-open span of one window length admits at most 2 * limit - 1 requests of a key |
| RateLimiter.SpanBoundAttained | src/shared/http/throttler.module.ts:257-292 | For every limit and every window of at least two ticks some run attains that bound |
| RateLimiter.CanActivate | src/shared/http/throttler.module.ts:385-429 | A request is admitted exactly when its hit count is within the limit; a limit of zero or less and an unavailable store admit without counting |
| Migrations.CheckoutIsUndone | src/infrastructure/persistence/migrations.ts:74-80 | The hash of a CR LF checkout is taken over exactly the checked-in text, for every text |
| Migrations.AcquireAdvisoryLock | src/infrastructure/persistence/migrations.ts:94-127 | Acquired, timed out or still waiting, each exactly when the first deciding attempt says so |
| Migrations.RecordAllRow | src/infrastructure/persistence/migrations.ts:167-193 | What the run leaves for each file: its row, backfilled or inserted, never overwritten |
| Migrations.Schema.ApplyMigration | src/infrastructure/persistence/migrations.ts:158-201 | One transaction: fails exactly on a changed checksum or on failing SQL of an unrecorded file and then leaves nothing; otherwise the row and effect it leaves |
| Migrations.Schema.ApplyMigrations | src/infrastructure/persistence/migrations.ts:212-262 | A whole run: what Migrations.RunOutcomeHolds says, the versions returned, and the error naming the file it stopped at |
| Migrations.RunOutcomeHolds | src/infrastructure/persistence/migrations.ts:233-252 | A run file by file: it stops at the first file that is recorded under another checksum or unrecorded and broken; those before it are recorded, those without a row took effect, in file order, and no other row changed |
| Migrations.BrokenFileStops | src/infrastructure/persistence/migrations.ts:194-200 | An unrecorded file whose SQL does not work is never recorded, never takes effect, and nothing after it is looked at |
| Migrations.CompletedRunRecordsAll | src/infrastructure/persistence/migrations.ts:237-252 | A completed run leaves every file recorded under its own checksum |
| Migrations.NextRunAppliesNothing | src/infrastructure/persistence/migrations.ts:175-193 | A following run over unchanged files goes through and neither applies nor writes anything |
| MigrationProtocol.StepKeeps | src/infrastructure/persistence/migrations.ts:158-201 | Every step of every process keeps rows, claims, order and reports consistent |
| MigrationProtocol.EffectsAtMostOnce | src/infrastructure/persistence/migrations.ts:147-157 | With any processes, crashes and rollbacks, lock held or bypassed, each file takes effect at most once, and a row is there exactly when it was initially or its SQL took effect |
| MigrationProtocol.ReturnMeansRecorded | src/infrastructure/persistence/migrations.ts:237-252 | A process that returns left every file recorded and reports exactly its own effects in order |
| MigrationChecksums.RecordedUnlessBackfillLost | src/infrastructure/persistence/migrations.ts:173-193 | In every run a file a process has gone past is recorded under its checksum exactly when it did not lose its backfill |
| MigrationChecksums.BackfillLostIffRaced | src/infrastructure/persistence/migrations.ts:173-186 | A process loses its backfill exactly when, since it read the row without a checksum, another process backfilled that row with a different one |
| MigrationChecksums.ReturnMeansOwnChecksums | src/infrastructure/persistence/migrations.ts:158-201 | A process that returns has every file recorded under its own checksum, as long as nobody bypassed the lock or no initial row of its files lacked one |
| MigrationProtocol.EarlierFilesFirst | src/infrastructure/persistence/migrations.ts:237-250 | No file takes effect before every earlier file of its run is recorded |
| MigrationProtocol.MismatchStops | src/infrastructure/persistence/migrations.ts:175-193 | A file whose recorded checksum differs when a process starts stops that process there: neither it nor a later file of that run ever takes effect |
| MigrationProtocol.LockExcludes | src/infrastructure/persistence/migrations.ts:203-211 | While nobody bypasses the lock at most one process works on files |
| MigrationProtocol.LockIsFreed | src/infrastructure/persistence/migrations.ts:253-261 | In every run the lock is held by a process at work or by nobody |
| MigrationProtocol.CrashRollsBack | src/infrastructure/persistence/migrations.ts:197-200 | A process lost before it is done changes no row, blocks no other process and has freed the lock |
| MigrationProtocol.BrokenFileIsNeverRecorded | src/infrastructure/persistence/migrations.ts:194-200 | In every run a version that works in no process is never newly recorded, never takes effect, and no process that has it returns |
| MigrationProtocol.BackfillRaceHidesAChange | src/infrastructure/persistence/migrations.ts:181-186 | A run without the lock in which two processes with different contents of one legacy file both complete |
| XmlEntities.ReplacementExtendsPass | src/modules/opml-imports/domain/opml-parser.ts:15-22 | Replacing one more entity, other than after the ampersand, is one more entity known to a single pass |
| XmlEntities.DecodeIsOnePass | src/modules/opml-imports/domain/opml-parser.ts:15-22 | The five replacements decode every text exactly as a single left-to-right pass |
| XmlEntities.DecodeUndoesEncode | src/modules/opml-imports/domain/opml-parser.ts:15-22 | Decoding undoes escaping of the five predefined entities (section 4.6 of XML 1.0) for every text |
| XmlEntities.AmpersandMustComeLast | src/modules/opml-imports/domain/opml-parser.ts:15-22 | A concrete text that decodes wrongly when the ampersand is replaced earlier |
| OpmlTags.LastAttributeWins | src/modules/opml-imports/domain/opml-parser.ts:29-42 | The value kept for a name is the trimmed and decoded value of its last occurrence |
| OpmlTags.TitleBeforeText | src/modules/opml-imports/domain/opml-parser.ts:94 | The title is what title holds, even when empty; only without a title, what text holds |
| OpmlTags.XmlUrlSpellings | src/modules/opml-imports/domain/opml-parser.ts:95 | An outline is a feed by its xmlUrl; the spelling xmlurl counts only without it |
| OpmlTags.ExtractOpmlItems | src/modules/opml-imports/domain/opml-parser.ts:50-116 | On a text already split into tags: the checks in order and the tag loop, giving the items or the first error |
| OpmlTags.AcceptedIffBalanced | src/modules/opml-imports/domain/opml-parser.ts:76-116 | Any tag sequence is accepted exactly when no prefix pops more than it pushed and everything pushed is popped |
| OpmlTags.JoinTrimmed | src/modules/opml-imports/domain/opml-parser.ts:97-103 | A joined path of titles is trimmed already, so the final trim only affects the empty path |
| OpmlTags.ScanReadsFeeds | src/modules/opml-imports/domain/opml-parser.ts:76-116 | Over an importable outline forest the loop reads exactly the feeds in document order, each with its folders as path, and leaves the stack as it was |
| OpmlTags.ImportsExactlyImportableForests | src/modules/opml-imports/domain/opml-parser.ts:76-116 | A document is accepted exactly when every outline with an end tag is a titled folder and not a feed, and then gives its feeds |
| OpmlTags.EndTagDecides | src/modules/opml-imports/domain/opml-parser.ts:95-115 | The same feed is imported as an empty-element tag and makes the import fail when written with an end tag |
| OpmlImports.ClassifyLocally | src/modules/opml-imports/application/process-opml-parse-job.use-case.ts:62-79 | An item is a duplicate exactly when an earlier item has its hash, invalid exactly when its URL does not normalize |
| OpmlImports.ResolveAll | src/modules/opml-imports/application/process-opml-parse-job.use-case.ts:80-115 | The preview of the whole file, item by item as OpmlImports.ItemIsPreviewed says, or the error of a stored URL that no longer normalizes |
| OpmlImports.ItemIsPreviewed | src/modules/opml-imports/application/process-opml-parse-job.use-case.ts:62-115 | Each item from the file and the stored feeds: invalid when its URL does not normalize, duplicate when its hash stood before, existing exactly when the feed stored under its hash has its URL, invalid with the collision message exactly when that feed has another, new exactly when no feed has the hash |
| OpmlImports.TransitionsIff | src/modules/opml-imports/domain/opml-import-status.ts:13-33 | A change of status is one stage forward, a failed validation before the preview, or a failure after it |
| OpmlImports.PreviewIsInsertable | db/migrations/0005_opml_duplicate_index_compatibility.sql:3-5 | A preview always satisfies the check constraint and the partial unique index |
| OpmlImports.PreviewCountersAddUp | src/modules/opml-imports/application/process-opml-parse-job.use-case.ts:117-123 | total = new + existing + duplicate + invalid |
| OpmlImports.FirstOfEachHashStays | src/modules/opml-imports/application/process-opml-parse-job.use-case.ts:62-115 | Every duplicate has an earlier item of its hash that is not one, invalid only by a collision with a stored feed |
| OpmlJobs.JobFollowsUnlessOverwriting | src/modules/opml-imports/domain/opml-import-status.ts:13-33 | The status writes of one job follow the table unless it writes failed over completed |
| OpmlJobs.RunFollowsTableIff | src/modules/opml-imports/domain/opml-import-status.ts:13-39 | The status writes of any run follow the table exactly when no apply job loses its queue after committing a completed import |
| OpmlJobs.QueueFailureOverwritesCompleted | src/modules/opml-imports/application/process-opml-apply-job.use-case.ts:111-129 | A concrete run that writes completed and then failed |
| OpmlJobs.TerminalIsAbsorbing | src/modules/opml-imports/domain/opml-import-status.ts:13-21 | Once a job has ended in a terminal status no later job writes |
| OpmlJobs.ConflictingFeed | src/modules/opml-imports/application/process-opml-apply-job.use-case.ts:157-168 | The conflicting row: one with the hash before one with only the URL, none exactly when the insert goes through |
| OpmlJobs.ApplyItemsOutcome | src/modules/opml-imports/application/process-opml-apply-job.use-case.ts:54-87 | The candidate loop settles exactly its candidates and counts each once |
| OpmlJobs.ApplySettlesEveryNewItem | src/modules/opml-imports/application/process-opml-apply-job.use-case.ts:50-91 | Every new item becomes imported, linked to a feed with its URL, or failed; the rest is untouched; none failed exactly when all were imported; feeds only grow and each new one is reported |
| OpmlJobs.ReportedTalliesAreRowCounts | src/modules/opml-imports/application/process-opml-apply-job.use-case.ts:89-108 | The reported tallies are the numbers of imported and of failed rows |
| OpmlApply.CandidateDecided | src/modules/opml-imports/application/process-opml-apply-job.use-case.ts:54-87 | A candidate is rejected exactly without a URL or when the conflicting feed, one with its hash before one with its URL, has a URL that does not normalize to its own, each with its message; otherwise it is imported on that feed, or on one feed appended for it |
| OpmlApply.ImportDecided | src/modules/opml-imports/application/process-opml-apply-job.use-case.ts:50-87 | The same for every item of a whole import, from the feeds there were before the job |
| OpmlApply.PreviewHasDistinctTargets | src/modules/opml-imports/application/process-opml-parse-job.use-case.ts:62-79 | The new items of a preview never compete for a feed |
| OpmlStore.TalliesCount | src/modules/opml-imports/application/process-opml-apply-job.use-case.ts:89-108 | The stored tallies are the numbers of new items that became imported, and failed |
| OpmlStore.RefusalIsNamed | src/modules/opml-imports/domain/opml-parser.ts:50-116 | The message stored for a refused file names the check that refused it |
| OpmlStore.ImportStore.ReplaceImportItems | src/modules/opml-imports/opml-imports.repository.ts:301-329 | All rows are stored, or the insert fails, exactly as check and partial unique index decide |
| OpmlStore.ImportStore.ParseJob | src/modules/opml-imports/application/process-opml-parse-job.use-case.ts:29-151 | The parse job: no-op; or the stored preview, item by item as OpmlImports.ItemIsPreviewed says, with counters that are the numbers of its rows; or rollback and failed validation with the parse error or the error of the stored URL |
| OpmlStore.ImportStore.ConfirmImport | src/modules/opml-imports/application/confirm-opml-import.use-case.ts:12-37 | Confirms exactly a ready preview, once |
| OpmlStore.ImportStore.ApplyCandidates | src/modules/opml-imports/application/process-opml-apply-job.use-case.ts:54-87 | The candidate loop computes the candidates one after the other, each as OpmlApply.CandidateDecided says, up to the statement that fails |
| OpmlStore.ImportStore.ApplyJob | src/modules/opml-imports/application/process-opml-apply-job.use-case.ts:31-133 | The whole apply job: what becomes of every item from the feeds and items found, counters and tallies as numbers of rows, completed exactly when every new item was imported and the queue took the new feeds, the stored message, the feeds queued in order; nothing changed when it rolls back, dies or throws |
| CanonicalQuery.KeyReadsBack | src/modules/alerts/domain/canonical-article-link.ts:81-92 | A query key reads back as its own surviving pairs, in order |
| CanonicalQuery.KeysEqualIffSamePairs | src/modules/alerts/domain/canonical-article-link.ts:81-92 | Two raw queries have the same key exactly when their surviving pairs are equal as multisets |
| CanonicalQuery.KeyIsIdempotent | src/modules/alerts/domain/canonical-article-link.ts:81-92 | Canonicalizing a key changes nothing |
| CanonicalQuery.EscapedSurvives | src/modules/alerts/domain/canonical-article-link.ts:35-53 | Escaping a plus never turns a surviving pair into a tracking one |
| CanonicalQuery.OrderDoesNotMatter | src/modules/alerts/domain/canonical-article-link.ts:81-92 | Reordering parameters never changes the key |
| CanonicalQuery.CampaignParametersDoNotMatter | src/modules/alerts/domain/canonical-article-link.ts:86-88 | Appending a tracking or empty parameter never changes the key |
| CanonicalQuery.DroppedIff | src/modules/alerts/domain/canonical-article-link.ts:23-38 | A parameter is dropped exactly when it is empty or the text before its first = begins with utm_ or is one of nine names, in any case |
| CanonicalQuery.FilterCounts | src/modules/alerts/domain/canonical-article-link.ts:86-88 | Every other parameter is kept as often as it stands in the query |
| CanonicalQuery.SpacesJoin | src/modules/alerts/domain/canonical-article-link.ts:53 | Escaping writes %20 between the stretches a plus separates, and nothing else |
| CanonicalLink.PathIsNormalized | src/modules/alerts/domain/canonical-article-link.ts:94-97 | A normalized path has no doubled slash and ends in one only when it is the root |
| CanonicalLink.NormalPathStays | src/modules/alerts/domain/canonical-article-link.ts:94-97 | Normalizing such a path changes nothing |
| CanonicalLink.PartsReadBack | src/modules/alerts/domain/canonical-article-link.ts:120-147 | Canonical parts are read back unchanged, except that a default port may show again |
| CanonicalLink.LinkIsStableIff | src/modules/alerts/domain/canonical-article-link.ts:99-147 | A link canonicalized without the URL parser is a fixed point exactly when its authority does not end in the default port twice and its greatest surviving parameter, or else its path or authority, leaves no white space at the end; both read off the link |
| CanonicalLink.SpaceBeforeQueryIsUnstable | src/modules/alerts/domain/canonical-article-link.ts:120-147 | foo ?utm_x=1 keeps a trailing space that comes off the second time |
| CanonicalLink.RepeatedPortIsUnstable | src/modules/alerts/domain/canonical-article-link.ts:99-109 | http://h:80:80 loses its ports one at a time |
| KeywordMatch.EscapedIsLiteral | src/modules/ingestion/domain/keyword-match.ts:40-42 | An escaped phrase matches itself and nothing else, whatever syntax characters it has |
| KeywordMatch.Test | src/modules/ingestion/domain/keyword-match.ts:53-55 | A pattern is found exactly when its text stands somewhere with no letter or digit on either side |
| KeywordMatch.Matcher.PhrasePattern | src/modules/ingestion/domain/keyword-match.ts:44-64 | The memo answers what compiling again would, keeps at most 5000 entries, and is cleared when full |
| KeywordMatch.Matcher.KeywordMatches | src/modules/ingestion/domain/keyword-match.ts:72-75 | After any calls: true exactly when the non-empty normalized phrase stands as a whole word or expression |
| KeywordMatch.Matcher.RuleMatchesNormalizedText | src/modules/ingestion/domain/keyword-match.ts:88-96 | A rule matches exactly when some include and no exclude keyword hits |
| KeywordMatch.LongerWordsDoNotMatch | src/modules/ingestion/domain/keyword-match.ts:8-14 | A letter or digit added at either end of a phrase ends the match |
| KeywordMatch.FoundBetweenBoundaries | src/modules/ingestion/domain/keyword-match.ts:8-19 | Punctuation, space or the ends of the text around a phrase do not hide it |
| TenantSecrets.SettingsRepository.UpsertNotifierSettings | src/modules/settings/settings.repository.ts:105-181 | The token columns after set, clear and unchanged, on an existing row and on a missing one |
| TenantSecrets.SettingsRepository.UpgradeTelegramBotTokenKeyVersion | src/modules/settings/settings.repository.ts:193-221 | Rewrites all four columns exactly when ciphertext and key version are the expected ones |
| TenantSecrets.TelegramBotTokenResolver.ResolveDetailedForTenant | src/modules/settings/telegram-bot-token-resolver.service.ts:91-123 | The token and its source: never the global token while a tenant token is stored; which upgrade becomes pending |
| TenantSecrets.StepKeeps | src/modules/settings/settings.repository.ts:183-221 | Every step keeps: the row opens to the chosen token, and an old ciphertext is still the initial one |
| TenantSecrets.RowOpensToTheChosenToken | src/modules/settings/settings.repository.ts:105-221 | In every interleaving of reads, stale resolutions, upgrades and settings changes the row opens to exactly the token last chosen |
| TenantSecrets.AtMostOneUpgrade | src/modules/settings/telegram-bot-token-resolver.service.ts:133-171 | Over a whole run at most one upgrade rewrites the row |
| TenantSecrets.UndisturbedReadUpgrades | src/modules/settings/telegram-bot-token-resolver.service.ts:91-171 | Left alone, one read brings a ciphertext of any other key version to the current one, and leaves one of the current version as it is |
| TenantSecrets.FailedUpgradeIsRetried | src/modules/settings/telegram-bot-token-resolver.service.ts:133-171 | After an upgrade that failed, the next read schedules another, which goes through |
| TenantSecrets.SecretNeedsAllColumns | src/modules/settings/settings.repository.ts:54-67 | A row gives a secret exactly when all three token columns are filled, and then the stored one |

## Left out

- PostgreSQL, Redis, BullMQ: statements and commands are atomic steps; unique indexes, SKIP LOCKED, INCR/DECR and job-id deduplication are taken at their word, and rows have positions for ids where only identity matters.
- Redis failures, key expiry and the change of the UTC day in the email quota: `reserve` fails open on an error and `release` recomputes the day key, so counters of one day are not comparable across them; `getUsage` is a plain read.
- EmailQuota.QuotaSafety: does not say that emails never pass the limit, because with lost marks they do; the bound it states is attained.
- Reading the alert, its settings and its quota never throws in the model of a delivery attempt, and neither does recording its failure.
- AlertDelivery.AtMostOncePerChannel: says nothing about Telegram to several chats, which is not at-most-once per chat; an attempt dies between its channel stages there, while a process lost between a send and its mark is a lost mark in DeliveryRace.
- Selecting due digest groups, message texts, tenant bot tokens in the sweep: a sweep is given its groups and what became of each.
- FeedProtocol: fetching, ingestion and the queue are not steps of it; a report may come for any feed at any time, which covers retained failed jobs and jobs enqueued by imports. FeedJobs has the job of one feed without manual checks. That every due feed is eventually fetched does not hold and is not claimed.
- FeedJobs.DeduplicatedClaimEnds: for a tick whose enqueue is the only one outstanding; an earlier tick that enqueues late can add a job that reports in its stead.
- FeedClaims.FeedsRepository.Update: reads the row and writes it in one step; in the protocol an edit writes arbitrary values, which covers the gap between the two statements.
- FeedFailure.BackoffBounds: 15 per cent of the base are taken as exact integer division where the source multiplies by a binary fraction; both agree on the stated bounds.
- Response metadata in `updateAfterFetch` (etag, last-modified, response time) and fetch logs.
- The Redis script of the rate limiter; route and policy resolution; response headers.
- Migrations: creating the table, reading the directory, the suggested next version in the error message, and the SQL of the files, which either works or fails. SHA-256 stands for itself: equal checksums are equal strings.
- OpmlTags.ExtractOpmlItems: takes the text as already split into outline tags with raw attribute pairs; the regular expressions that do so, and the size, root and doctype tests, are its inputs.
- URL normalization and hashing in imports are parameters; that a hash identifies its URL is not assumed, collisions are a case. The random first check time of a new feed is dropped.
- OpmlStore.ImportStore.ApplyJob: serial with the other jobs of its import, as the queue runs them one by one; a statement that fails inside its transaction aborts it, so no single item is marked failed for it. Feeds inserted by others meanwhile are not a step.
- OpmlApply.ImportDecided: for imports whose new items have pairwise different hashes, as those of every preview do (`OpmlApply.PreviewHasDistinctTargets`); `OpmlApply.CandidateDecided` holds of any item, over the feeds its turn finds.
- EmailQuota.OthersDoNotMatter: for days written with ten characters, as ISO dates are up to the year 9999.
- The WHATWG URL parser, hence links it accepts: only the query, path and fallback stages written by hand are modelled. Its plpgsql counterpart, migration 0018, is not part of this model.
- Lower-casing beyond ASCII, in links and in error messages; Unicode normalization and letter classes of the keyword matcher are parameters.
- The AES-GCM cipher, the derived-key cache and the weak-key warning: encrypting is any value that decrypts to the token. One tenant, one master key. A downgrade to a build that writes old key versions is not a step.
- Create, list, preview and pagination queries, controllers, DTOs, metrics, logging, scheduling timers, API keys, SSRF host lists.
