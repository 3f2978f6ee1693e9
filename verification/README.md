# Feed polling, lease locks and the mail queue: a verified model

The repository polls feeds into an item log, guards its jobs with cache-backed leases, and sends mail from a
database queue. This project models those three protocols, and the algorithms inside them, as state machines and
imperative methods, and proves what each is for over every input, every run and every interleaving.

One file per component:

- `FeedLog`, `Sources`, `Polling`, `UrlChunks`, `RedditBatch`, `FeedCycle`: the imperative code of a poll, each
  method equal to a function of the old state. `BatchRefinement` proves the batched poll against one poll per source.
- `Coverage` and `Retention`: a source row under overlapping polls, seeks, removals and prunes, one statement per step.
- `Policy`, `Seek`, `Ulid`, `SlugMigration`: time bounds, the operator's seek, the prune's id cutoff, the slug merge.
- `Mailer` and `MailerRuns`: the queue's statements, and any number of drains, reapers and crashes over them.
- `Locks`, `LeaseRenewer`, `SingleFlight`, `TokenRotation`: the lease protocol with each cache call a step of its
  own, the renewing thread, the job that joins it before releasing, and refresh-token rotation as a client of the lock.

Instants are integers in microseconds, except in `LeaseRenewer`, where they are real seconds. A table is a map from
id to row. A run is a list of events; an event that the code could not issue changes nothing.

## Findings

- A connector skips only posts strictly older than `since` (`apps/core/sources/connectors/reddit/connector.py:301`),
  although `apps/core/feeds/services/polling.py:246-256` says posts dated at `since` are skipped. The model follows
  the code. With it the batch and the single polls agree exactly, ties included (`BatchRefinesSinglePolls`);
  `AgreeUpToTies` covers both readings, and there the two agree on everything but posts dated exactly at a mark.
- Coverage needs more than "nothing is published at or before a mark already reached": an item published while a
  poll is between its fetch and its advance must not be dated within what that poll is about to claim.
  `SafeIffTimely` gives the exact condition.
- A rewind is safe exactly until a prune passes the mark. A source that misses its first fetch after a seek to
  `oldest` records pruned items anew (`MissedFirstFetchResurrects`), unless the whole cycle was an outage.
- The count `record_items` returns is too high exactly when a key new to the log repeats within one chunk
  (`CountIsExactIff`, `RepeatsAreOverCounted`).
- Every chunk of the URL packer after the first counts one byte too many. The packing is never worse than the best
  one under a budget one smaller, and is the best under the budget itself unless some later chunk was closed on a
  slug that would have filled it exactly (`FewestUnlessClosedEarly`). Such a close can cost a request, at the real
  budget too (`ClosingEarlyCostsAChunk`, `FullRequestsCostAnother`); `FewestIff` says exactly when it does.
- A combined walk cut short by the request's depth does not leave every sub to the next cycle, as
  `apps/core/sources/connectors/reddit/connector.py:210-216` says: a sub with one post before the cut and an older
  unread one beyond it loses the older one (`CutStrandsIff`). A sub with no post before the cut loses nothing.
- `k` failed renewals in a row are always survived exactly while `k + 1` spacings stay under one lease
  (`ToleratesIff`, `ToleratesErrorsIff`). With renewals a third of a lease apart, one is survived while waits run
  late by less than a sixth of the lease, and two are not, on time or late (`ToleranceOfAThird`,
  `TwoFailuresLapse`). The comment at `apps/core/common/lease_renewer.py:41-45` promises room for two late renewals.
- A claimed email is stamped with the start of its pass, so a reaper may take it back at once
  (`FreshClaimMayLookStale`). The claiming statement does not look at the schedule again, so a row that failed
  since it was listed may be taken before its back-off ends (`BackoffIsSkippedIff`).
- A late write of a lease breaks exclusion exactly when another holder's key is live (`ExclusiveIffStillFree`).
- A SIGTERM outside the guarded body can leave a lock nobody holds: in `cache.add`, around the renewer's start,
  before the stop event is set, in the renewer's join, and in the release. `SigtermIsHarmlessIff` says, for every
  stage, exactly when it does not.
- A dry run of `set_sources` does not look at watermarks, so it may report a set that a real run rejects
  (`DryRunMisleadsIff`, `DryRunMisleads`).
- The canonical slug is not always a fixed point: `r/r/x` needs two runs (`CanonSettlesIff`). Whether a second run
  changes a table is decided by the table the first one left: it is idle exactly when every row there is canonical
  (`RunIsIdleIff`).

## Model

| member | source | states |
|---|---|---|
| BatchRefinement.BatchRefinesSinglePolls | apps/core/feeds/services/_reddit_batch.py:97-194 | One combined request over a newest-first listing leaves the same marks, the same log (labels and tags too) and the same counts as one single poll per source |
| BatchRefinement.GroupRefinesSinglePolls | apps/core/feeds/services/_reddit_batch.py:65-95 | However the sources are packed, a group of clean requests equals polling each source alone, in order, and credits every source |
| BatchRefinement.FailedGroupChangesNothing | apps/core/feeds/services/_reddit_batch.py:133-147 | A group whose requests all raise changes no mark and no log row, and credits nobody |
| BatchRefinement.CutStrandsIff | apps/core/sources/connectors/reddit/connector.py:203-216 | Of a combined walk cut short, a source's own post is lost for good if and only if it has no row, was not read before the cut, and a newer post of the same sub was |
| BatchRefinement.AgreeUpToTies | apps/core/feeds/services/_reddit_batch.py:97-194 | For any clean fetches in any order, both ways end at the same marks and at logs that differ at most in posts dated exactly at their sub's mark; where single polls skip those, the batch has at least their items |
| BatchRefinement.WideThenCut | apps/core/feeds/services/_reddit_batch.py:106-112 | Fetching from the earliest mark and cutting per sub gives the same posts in the same order as fetching narrow |
| BatchRefinement.ShareIsOwnStream | apps/core/feeds/services/_reddit_batch.py:151-158 | A source's share of the combined stream is what its own poll would have read |
| BatchRefinement.SinceIsEarliest | apps/core/feeds/services/_reddit_batch.py:124-132 | `since` is one of the present marks and none is earlier; it is absent only when every mark is |
| BatchRefinement.NewestFromMark | apps/core/feeds/services/_reddit_batch.py:176-181 | The batch's maximum and the single poll's running newest lead to the same compare-and-set |
| RedditBatch.ParsedPairsMeans | apps/core/feeds/services/_reddit_batch.py:197-220 | Every valid sub is covered once, by the first row that carries it in any casing, and nothing else is |
| RedditBatch.ParsedPairsKeepOrder | apps/core/feeds/services/_reddit_batch.py:197-220 | The pairs come in the order of the rows that yield them |
| RedditBatch.ParseReddit | apps/core/feeds/services/_reddit_batch.py:197-220 | The streaming loop with its `seen` set yields exactly those pairs |
| RedditBatch.Scatter | apps/core/feeds/services/_reddit_batch.py:133-138 | Each bucket holds its sub's posts in stream order, and every post is in a bucket |
| RedditBatch.BucketIsOfSub | apps/core/feeds/services/_reddit_batch.py:150-151 | Looking a sub up in the buckets, in any casing, gives its posts of the whole stream, or none |
| RedditBatch.PollShare | apps/core/feeds/services/_reddit_batch.py:150-186 | One source's turn: cut at its mark, record, count, and advance to its own newest if that is later |
| RedditBatch.MaxOccurred | apps/core/feeds/services/_reddit_batch.py:176 | The newest instant of a non-empty bucket |
| RedditBatch.PollChunk | apps/core/feeds/services/_reddit_batch.py:97-194 | A raising request leaves log and marks alone and credits nobody; a clean one settles every source of the chunk and credits all, and every post tagged with a row's slug in any casing, not from before its mark, has a row afterwards |
| RedditBatch.CleanChunkRecords | apps/core/feeds/services/_reddit_batch.py:133-163 | A clean request records exactly the posts of its rows' subs, in any casing, from each row's mark on (all when it has none), with that source's label and tags, and keeps every old row |
| RedditBatch.CleanChunkAdvances | apps/core/feeds/services/_reddit_batch.py:150-186 | Rows as they were read end at their own newest post, with or without a mark before, and no other row moves |
| RedditBatch.BatchOneCounts | apps/core/feeds/services/_reddit_batch.py:159-166 | Each source is observed and recorded once, in its own share, under its own label, with or without a mark |
| Common.FoldingIsExact | apps/core/feeds/services/_reddit_batch.py:138-151 | Two texts fold alike if and only if they differ in ASCII letter case alone |
| Common.FoldedHasNoCapital | apps/core/feeds/services/_reddit_batch.py:138-151 | A folded text has no capital, and keeps every character that is none |
| Common.StripMeans | apps/core/mailer/services/mailer.py:39 | Strip drops the spaces at both ends, all of them, and nothing else |
| RedditBatch.PollChunks | apps/core/feeds/services/_reddit_batch.py:82-95 | Chunks are polled in order under a held lease, and the loop stops early only because the lease is lost |
| RedditBatch.PollRedditGroup | apps/core/feeds/services/_reddit_batch.py:65-95 | Parse, pack greedily, poll: the chunks concatenate to the valid pairs, and log, marks and counts are those of the chunks done |
| UrlChunks.IterUrlBudgetChunks | apps/core/feeds/services/_reddit_batch.py:223-240 | The chunks concatenate to the input in order, none is empty, each was closed only by a slug that would overrun the running count, and all fit the budget when every slug does |
| UrlChunks.FitsWhenSlugsFit | apps/core/feeds/services/_reddit_batch.py:228-238 | When no slug exceeds the budget, no joined chunk does |
| UrlChunks.StaysAhead | apps/core/feeds/services/_reddit_batch.py:229-238 | Chunks closed for want of room under a limit: a contiguous partition under that limit that reaches past the start of the last one has at least as many parts |
| UrlChunks.FewestUnderBudgetMinusOne | apps/core/feeds/services/_reddit_batch.py:229-240 | No contiguous partition under budget - 1 has fewer chunks |
| UrlChunks.PackingIsUnique | apps/core/feeds/services/_reddit_batch.py:229-240 | Order, greedy closing and the running count determine the chunks |
| UrlChunks.GreedyIsTightIff | apps/core/feeds/services/_reddit_batch.py:233-238 | The packer leaves no room under the budget itself if and only if no chunk after the first was closed on a slug that would have filled it exactly |
| UrlChunks.FewestUnlessClosedEarly | apps/core/feeds/services/_reddit_batch.py:229-240 | Then no contiguous partition under the budget has fewer chunks |
| UrlChunks.FewestIff | apps/core/feeds/services/_reddit_batch.py:229-240 | The packing is the best under its own budget if and only if charging every later chunk one byte too many opens no more chunks than charging true lengths |
| UrlChunks.TrueChargeIsTight | apps/core/feeds/services/_reddit_batch.py:229-240 | Charging true lengths leaves no room under the budget and fits it when every slug does |
| UrlChunks.PackerChargesOneMore | apps/core/feeds/services/_reddit_batch.py:233-238 | The packer's chunks are the packing that charges every chunk but the first one byte too many |
| UrlChunks.ClosingEarlyCostsAChunk | apps/core/feeds/services/_reddit_batch.py:233-238 | At any budget, a second chunk that the next slug would have filled exactly makes three chunks where two fit |
| UrlChunks.ClosingEarlyCostsIff | apps/core/feeds/services/_reddit_batch.py:233-238 | There the early close costs a request if and only if nothing follows the slug that closed the chunk |
| RedditBatch.FullRequestsCostAnother | apps/core/feeds/services/_reddit_batch.py:228 | At the real budget: 706 slugs of twenty characters and one of twelve fill two requests and are packed into three |
| Polling.WalkIsFrom | apps/core/sources/connectors/reddit/connector.py:293-303 | On a newest-first listing, stopping at the first post older than `since` loses nothing |
| Polling.NewestMeans | apps/core/feeds/services/polling.py:84-90 | The running newest bounds every item and is the initial mark or some item's own instant |
| Polling.PollSource | apps/core/feeds/services/polling.py:246-288 | A clean poll records the stream and advances from the mark it read; a raising one leaves every mark and keeps only whole chunks of what flowed |
| Polling.CleanPollCatchesUp | apps/core/feeds/services/polling.py:246-288 | With no rival writer the row ends at the newest instant seen, nothing seen is missing from the log, and no other row moves |
| FeedCycle.PollOthers | apps/core/feeds/services/polling.py:167-213 | The second loop: a bad spec or a raising stream costs only its own source, and the loop stops early only when the lease is lost |
| FeedCycle.Run | apps/core/feeds/services/polling.py:131-244 | The cycle: subreddits (none without their connector), then the rest, each loop ended early only by a lost lease, then a prune at the cycle's start that a full outage skips; with its three counts |
| FeedCycle.NothingSucceededIff | apps/core/feeds/services/polling.py:211-222 | The cycle counts as a full outage if and only if every request with sources raised and every other source has a bad spec or raised; a quiet clean source is a success |
| FeedCycle.CycleRecordsAll | apps/core/feeds/services/polling.py:131-213 | Before the prune, a cycle has a row for every post of every clean request that is one of its rows', and for every item of every other clean source |
| FeedCycle.CycleNeverRerecords | apps/core/feeds/services/polling.py:224-243 | An item that had a row when the cycle began is never recorded anew by it, and loses the row only to the prune, by age at the cycle's start |
| FeedLog.InsertAllMeans | apps/core/feeds/services/feeds/_items.py:75-113 | Old rows stay as they were, every payload's key is there afterwards, and nothing else is |
| FeedLog.AbsentSuffices | apps/core/feeds/services/feeds/_items.py:87-113 | Leaving out the keys the SELECT found does not change what the insert leaves |
| FeedLog.CountIsExactIff | apps/core/feeds/services/feeds/_items.py:40-73 | The returned count is at least the rows gained, and equal to them if and only if no key new to the log repeats within a chunk |
| FeedLog.RepeatsAreOverCounted | apps/core/feeds/services/feeds/_items.py:106-113 | A key twice in one chunk is counted twice and gains one row |
| FeedLog.FeedItemService.RecordItems | apps/core/feeds/services/feeds/_items.py:40-73 | Chunked recording equals inserting one by one; when the stream raises, the chunk being filled is lost |
| FeedLog.FeedItemService.RecordWholeChunks | apps/core/feeds/services/feeds/_items.py:67-71 | The streaming loop flushes exactly the whole chunks and keeps the rest open |
| FeedLog.FeedItemService.RecordChunk | apps/core/feeds/services/feeds/_items.py:75-113 | One chunk: the payloads not found are inserted and counted |
| FeedLog.FeedItemService.PruneItems | apps/core/feeds/services/feeds/_items.py:115-137 | Exactly the rows whose millisecond is before the cutoff's go, and the count is theirs |
| FeedLog.OlderIsIdBelow | apps/core/feeds/services/feeds/_items.py:133-136 | A row is pruned if and only if an id drawn at its instant reads below the cutoff's |
| Coverage.RunsStayCovered | apps/core/feeds/services/polling.py:246-288 | In every interleaving of polls, failures, lost compare-and-sets, removals and seeks both ways, every item between where coverage starts and the mark was recorded, if every item was published in time |
| Coverage.SafeIffTimely | apps/core/feeds/services/polling.py:268-286 | The publishing condition is exact: a new item is safe in every continuation if and only if it is past the mark (or before coverage) and no fetched poll is about to carry the mark over it |
| Coverage.OvertakenItemIsLost | apps/core/feeds/services/polling.py:268-286 | From any reachable state, an item overtaken by a poll in flight is lost once the row is back at the mark that poll read |
| Coverage.FreshRunLosesAnItem | apps/core/feeds/services/polling.py:268-286 | A run from a fresh row, without a seek, loses an item dated past every mark the row had reached |
| Coverage.StepKeepsInv | apps/core/feeds/services/sources.py:164-188 | Every statement of every writer keeps the coverage invariant |
| Coverage.UndisturbedPoll | apps/core/feeds/services/polling.py:246-288 | A poll nobody disturbs records its items and leaves the row at its newest instant, and moves nothing else |
| Coverage.PollFetchesCleanly | apps/core/feeds/services/polling.py:84-90 | Reading everything published from the mark on, or past it, and keeping the running newest, is a clean fetch |
| Coverage.StalePollIsInert | apps/core/feeds/services/_sources_seek.py:92-96 | While nothing puts the row back on the mark a poll read, the row moves as if that poll never advanced it |
| Retention.NoResurrection | apps/core/feeds/policy.py:83-116 | In every run, the first fetch after any accepted seek, a failing one too, inserts no row for an item ever recorded before, however late items become visible |
| Retention.SafeIffNotPrunedPast | apps/core/feeds/policy.py:83-116 | Every fetch from a mark is safe, whatever the history, if and only if the latest prune's cutoff has not passed the mark |
| Retention.MissedFirstFetchResurrects | apps/core/feeds/services/polling.py:218-243 | A source whose poll fails in the first cycle after a seek to the floor, while another source keeps that cycle out of an outage, records a pruned item anew |
| Retention.StepKeepsInv | apps/core/feeds/services/polling.py:131-244 | Every event keeps: a row once recorded is there or older than the latest prune, cycles are in order, and a sought mark is inside the window of its seek |
| Retention.CyclesAreSteps | apps/core/feeds/services/polling.py:211-243 | A cycle ends in a prune at its start's cutoff unless it had sources and polled none; one that dies never prunes |
| Seek.OldestIsTheDeepest | apps/core/feeds/policy.py:75-116 | `oldest` is always accepted and is the deepest target; the retention spelled as a duration lands on it and any longer one is refused |
| Seek.KeywordsReachBack | packages/openmagpie-schema/src/openmagpie_schema/run_windows.py:102-131 | What each day keyword resolves to, and which retention accepts it |
| Seek.MondayMeans | packages/openmagpie-schema/src/openmagpie_schema/run_windows.py:121-122 | The week starts on a Monday, at midnight |
| Seek.InstantsAreTaken | apps/core/feeds/services/_sources_seek.py:45-77 | An instant within the window is taken as it is and otherwise refused for its reason; a duration counts back from now; anything else is malformed |
| Seek.GroupsPartition | apps/core/feeds/services/_sources_seek.py:98-118 | Advanced, rewound and unchanged rows sum to the rows in scope |
| Seek.SeekRows | apps/core/feeds/services/_sources_seek.py:79-119 | The counts are of the rows behind the target (or unmarked), ahead of it and at it before the seek; on a real run of those whose mark rose and fell; every row in scope ends at the target and no other row changes; a dry run writes nothing |
| Seek.SeekMeansAtTarget | apps/core/feeds/services/_sources_seek.py:79-119 | After a seek every row in scope is at the target and otherwise unchanged, no other row moved, and a repeat reports all unchanged |
| Seek.SeekFeed | apps/core/feeds/services/_sources_seek.py:121-132 | The whole feed of this account and nothing else, or the refusal (not curated, then the target) and no change |
| Seek.SeekById | apps/core/feeds/services/_sources_seek.py:134-166 | One row by id; unknown when it is absent, another account's or its feed vanished; then the feed's kind, then the target |
| Sources.FirstOccurrenceWins | apps/core/feeds/services/sources.py:237-253 | Every input spec is wanted, with the values of its first occurrence |
| Sources.SourceService.AdvanceWatermark | apps/core/feeds/services/sources.py:164-188 | Compare-and-set: one row moves, only off the mark that was read, forward from it or to a first mark; the count says whether it did |
| Sources.SourceService.SetSources | apps/core/feeds/services/sources.py:217-344 | Each refusal exactly when its guard fails, in order; a dry run or a refusal leaves the table; an applied run does what `SetTo` says, with the numbers of rows it made and removed, and counts what it wrote |
| Sources.ReconciledMeans | apps/core/feeds/services/sources.py:281-337 | A row whose spec is asked for keeps everything but meta and field map, its mark too; those are the first such item's. A new row is the first item of its spec, at its watermark or at now; a row nobody asks for goes; other feeds and accounts are untouched |
| Sources.CountsAreRows | apps/core/feeds/services/sources.py:339-344 | Added, removed and persisted are the numbers of rows made, gone and kept |
| Sources.SourceService.Replace | apps/core/feeds/services/sources.py:281-337 | The transaction's delete, insert and refresh keep the unique key and reach the reconciled table |
| Sources.SourceService.BuildRows | apps/core/feeds/services/sources.py:307-321 | One row per added spec with an accepted watermark, or the rejection |
| Sources.SourceService.RefreshRows | apps/core/feeds/services/sources.py:322-337 | Only rows whose meta or field map changed are updated, and their number is the number of updates |
| Sources.ReplacedIsOk | apps/core/feeds/services/sources.py:281-337 | No two rows of one account and feed share a spec afterwards |
| Sources.ReplacedIsReconciled | apps/core/feeds/services/sources.py:281-337 | Persisting rows keep id, spec and mark and take meta and field map from the input; other feeds are untouched |
| Sources.ReconciledIsExact | apps/core/feeds/services/sources.py:217-344 | Exactly the wanted specs have a row, and a second diff finds nothing to add, remove or refresh |
| Sources.RepeatedSetIsIdle | apps/core/feeds/services/sources.py:217-344 | Repeating a set leaves the table as it is, whatever the clock and the ids drawn |
| Sources.DiffAddsUp | apps/core/feeds/services/sources.py:262-269 | Added and persisted sum to the source count; removed and persisted to the rows found |
| Sources.DryRunMisleadsIff | apps/core/feeds/services/sources.py:255-274 | A dry run applies a set that the real run refuses if and only if a rival holds the lock or a new source's watermark is in the future; an applied run answers as its dry run did |
| Sources.DryRunMisleads | apps/core/feeds/services/sources.py:255-274 | One new source whose watermark is a microsecond ahead: the dry run reports one added, the real run refuses |
| SlugMigration.SourceTable.Migrate | apps/core/feeds/migrations/0002_lowercase_reddit_subreddit_slugs.py:45-73 | The loop, run in place: every slug left is canonical and once per feed; each old row has an heir under its canonical slug, come at least as far; each row left has its mark from an old one; other kinds are untouched |
| SlugMigration.SourceTable.NormalizeRedditSlugs | apps/core/feeds/migrations/0002_lowercase_reddit_subreddit_slugs.py:45-73 | Every turn of the loop is a skip, a merge into the canonical sibling, or a rewrite |
| SlugMigration.SourceTable.Visit | apps/core/feeds/migrations/0002_lowercase_reddit_subreddit_slugs.py:51-73 | One row: skipped when canonical, merged when a sibling holds its canonical hash, rewritten otherwise |
| SlugMigration.StepsAreReached | apps/core/feeds/migrations/0002_lowercase_reddit_subreddit_slugs.py:45-73 | Every table the loop passes through keeps uniqueness, loses no group's progress and makes up no mark |
| SlugMigration.MigrationMeans | apps/core/feeds/migrations/0002_lowercase_reddit_subreddit_slugs.py:45-73 | The table the loop ends at has one canonical row per group with that group's largest mark |
| SlugMigration.RunIsIdleIff | apps/core/feeds/migrations/0002_lowercase_reddit_subreddit_slugs.py:51-55 | A run leaves the table as it found it if and only if every row it visits is already canonical |
| SlugMigration.SecondRunIsIdle | apps/core/feeds/migrations/0002_lowercase_reddit_subreddit_slugs.py:45-73 | Where canonical forms settle, a second run changes nothing |
| SlugMigration.SecondRunIsIdleIff | apps/core/feeds/migrations/0002_lowercase_reddit_subreddit_slugs.py:45-73 | For a table of one row the second run is idle if and only if its canonical form is a fixed point; for a general table the exact statement is RunIsIdleIff on the table the first run left |
| Slugs.CanonMeans | apps/core/feeds/migrations/0002_lowercase_reddit_subreddit_slugs.py:30-37 | A canonical slug is the stripped text less one prefix in either case, with every letter small |
| Slugs.CanonSettlesIff | apps/core/feeds/migrations/0002_lowercase_reddit_subreddit_slugs.py:30-37 | Canonicalizing twice equals once if and only if the result carries no second prefix and no space the first was hiding |
| Slugs.DoublePrefixDoesNotSettle | apps/core/feeds/migrations/0002_lowercase_reddit_subreddit_slugs.py:30-37 | Only the outer prefix of a doubled one is dropped |
| Ulid.CutoffIsExact | apps/core/common/fields.py:24-33 | A valid id is string-below the cutoff if and only if its millisecond field is earlier |
| Ulid.CutoffIsLeastOfItsMillisecond | apps/core/common/fields.py:24-33 | The cutoff carries its own millisecond, and no id of that millisecond is below it |
| Ulid.OrderIsNumeric | apps/core/common/fields.py:8-21 | Equal-width Crockford texts compare as strings as their numbers do |
| Ulid.LessIsDictionary | apps/core/common/fields.py:24-33 | Id order is the dictionary order: a prefix first, or the smaller character where two texts part |
| Ulid.EncodeRoundTrips | apps/core/common/fields.py:24-33 | Decoding a fixed-width encoding gives the number back |
| MailerRuns.RunsKeepInv | apps/core/mailer/services/mailer.py:48-137 | In every run attempts equal claims and never pass the cap; PENDING is below it, FAILED at it; claims of a row are numbered apart |
| MailerRuns.StepKeepsInv | apps/core/mailer/services/mailer.py:66-137 | Every statement, whoever issues it and whatever its clock, keeps that invariant |
| MailerRuns.TerminalForever | apps/core/mailer/services/mailer.py:89-137 | SENT and FAILED rows never change again |
| MailerRuns.SentIffCompleted | apps/core/mailer/services/mailer.py:111-120 | In every run a row is SENT if and only if a completion of one of its claims settled it, and then bears that completion's clock |
| MailerRuns.StepMeans | apps/core/mailer/services/mailer.py:24-137 | What each statement does to each row, field by field, and to no other |
| MailerRuns.SoleHolder | apps/core/mailer/services/mailer.py:111-137 | While a claim holds its row, no other claim of it can complete or fail it, and the holder can |
| MailerRuns.SpentTicketIsInert | apps/core/mailer/services/mailer.py:111-137 | A claim that settled its row never changes anything again |
| MailerRuns.StepLowersMeasure | apps/core/mailer/services/mailer.py:66-137 | A statement leaves a row alone or strictly lowers its non-negative measure |
| MailerRuns.ChangesAreBounded | apps/core/mailer/services/mailer.py:66-137 | A row changes at most twice the cap times and is claimed at most cap times |
| MailerRuns.NeverStuck | apps/core/mailer/services/mailer.py:48-109 | A non-terminal row has, once the clock passes, a claim or reap that changes its state |
| MailerRuns.FairRunsFinish | apps/core/mailer/services/mailer.py:48-137 | Every row of every fair run ends in SENT or FAILED |
| MailerRuns.FreshClaimMayLookStale | apps/core/mailer/services/mailer.py:75-84 | A reaper takes a fresh claim back at once if and only if the pass is older than the stale window |
| MailerRuns.BackoffIsSkippedIff | apps/core/mailer/services/mailer.py:75-83 | A row listed as due is claimed before it is due, whatever ran in between, if and only if it is pending again after a failure whose back-off ends past the pass's clock |
| MailerRuns.ScheduleIsLastRetry | apps/core/mailer/services/mailer.py:122-137 | In every run only a failure that requeues a row moves its schedule, to that failure's clock plus the back-off |
| MailerRuns.BackoffMayBeSkipped | apps/core/mailer/services/mailer.py:81-83 | A run in which a drain with an old listing claims a row again before its back-off elapsed |
| Mailer.MailerQueue.Enqueue | apps/core/mailer/services/mailer.py:24-46 | A new key inserts one PENDING row, unclaimed and unsent, due from the given instant or now; a known one returns its row and changes nothing |
| Mailer.AddressMeans | apps/core/mailer/services/mailer.py:39 | A stored address has no capital and no space around it, and is otherwise what was given |
| Mailer.AddressIsSettled | apps/core/mailer/services/mailer.py:39 | A stored address is already in its stored form |
| Mailer.MailerQueue.IterDue | apps/core/mailer/services/mailer.py:48-64 | Every due row once, oldest schedule first |
| Mailer.MailerQueue.Drain | apps/core/mailer/services/mailer.py:66-87 | With no rival the first min(limit, due) rows are claimed, each with one attempt added and then settled; no other row changes |
| Mailer.MailerQueue.ReapStale | apps/core/mailer/services/mailer.py:89-109 | A row claimed longer ago than the stale window waits again under the cap and fails at it, with nothing else changed; every other row is as it was; the count is theirs and none is left |
| Mailer.MailerQueue.CompleteSent | apps/core/mailer/services/mailer.py:111-120 | The row is settled if and only if it still carries this claim |
| Mailer.MailerQueue.Fail | apps/core/mailer/services/mailer.py:122-137 | Retry with back-off below the cap, FAILED at it, and only while the row carries this claim |
| LockRuns.RunsAreExclusive | apps/core/common/locks.py:31-82 | If no renewal or release straddles the expiry of the key it read, at every instant at most one unreleased lease per name is fresh |
| LockRuns.StepKeepsInv | apps/core/common/locks.py:48-82 | Every cache call keeps: a live key is its fresh holder's, stamped when it says |
| LockRuns.RenewIsTwoSteps | apps/core/common/locks.py:48-63 | A renewal's read and its write, with anything in between, add up to what the method states |
| LockRuns.ReleaseIsTwoSteps | apps/core/common/locks.py:76-82 | So do a release's |
| LockRuns.WriterOwnsTheKey | apps/core/common/locks.py:48-82 | A set or delete that does not straddle touches only a key still carrying its own token |
| LockRuns.ExclusiveIffStillFree | apps/core/common/locks.py:48-82 | A write, straddling or not, leaves every later instant of every continuation exclusive if and only if a second read just before it would show its own token or nothing |
| LockRuns.WriteKeepsInvIff | apps/core/common/locks.py:48-82 | The same condition decides whether a write keeps the lease invariant |
| LockRuns.LostStaysLost | apps/core/common/locks.py:48-63 | A lease seen lost is never acquired or stamped again |
| LockRuns.StraddlingBreaksExclusion | apps/core/common/locks.py:56-63 | A renewal that stamps after the expiry it read past leaves two fresh holders |
| Locks.LockLease.Acquire | apps/core/common/locks.py:66-75 | The lease is held if and only if the key read as missing, and a held key is left alone |
| Locks.LockLease.Renew | apps/core/common/locks.py:48-63 | A renewal stamps if and only if the lease was held, the key read as ours and no call raised; a lost lease is marked lost and writes nothing; a raising call leaves the flag |
| Locks.LockLease.Release | apps/core/common/locks.py:76-82 | The key is deleted if and only if we took it and it reads as ours |
| LeaseRenewing.LeaseRenewer.Run | apps/core/common/lease_renewer.py:86-123 | No renewal begins at or after the maximum hold; an answer that the lease is gone ends the loop at once, one that it is ours never does, and an error ends it exactly when neither the start nor any success is younger than a window |
| LeaseRenewing.KeyNeverLapses | apps/core/common/lease_renewer.py:86-123 | While at most k ticks in a row fail and k + 1 spacings stay under one lease, earlier stamps keep the key live at every instant up to and including each renewal's own read |
| LeaseRenewing.ToleratesIff | apps/core/common/lease_renewer.py:86-123 | k failures in a row never cost the key, over all runs with that spacing, if and only if k + 1 spacings stay under one lease |
| LeaseRenewing.ToleratesErrorsIff | apps/core/common/lease_renewer.py:86-123 | The same bound is exact for renewals that raise or answer what the key shows |
| LeaseRenewing.SteadyRunsKeepTheLease | apps/core/common/lease_renewer.py:86-123 | Over the ticks the thread's loop answered, within that bound, every read finds the key and the loss rule never fires |
| LeaseRenewing.LossIsNeverPremature | apps/core/common/lease_renewer.py:98-118 | A lease given up after errors was no longer live |
| LeaseRenewing.ToleranceOfAThird | apps/core/common/lease_renewer.py:41-46 | With the production interval, one failure in a row never costs the key if and only if waits are late by less than a sixth of the lease; two sometimes do, at any lateness |
| LeaseRenewing.TwoFailuresLapse | apps/core/common/lease_renewer.py:41-46 | Two failures in a row let the key lapse even when every tick is on time |
| SingleFlight.JoinPrecedesRelease | apps/core/common/lease_renewer.py:130-136 | However the body ends, a SIGTERM in it included, the renewer has finished before the key is read for release, and on leaving the key is not ours |
| SingleFlight.FullPass | apps/core/common/commands.py:111-130 | A pass with one renewal runs from the lock to its release: the key is stamped anew, and gone at the end |
| SingleFlight.SigtermIsHarmlessIff | apps/core/common/commands.py:54-76 | A SIGTERM at any stage, from the key's being added to its being deleted, leaves no key in any continuation if and only if it is not exposed: in `cache.add` and in the release while the key is ours; around the renewer's start and before the stop event, while a renewal is in flight or could still come; in the join, while one is in flight |
| SingleFlight.SigtermInJoinIsHarmlessIff | apps/core/common/lease_renewer.py:89-103 | In the join it is harmless if and only if no renewal is past its wait, be it still to read a key that is ours or already past that read |
| SingleFlight.ExposedSigtermOrphansTheLock | apps/core/common/commands.py:54-76 | An exposed SIGTERM has a continuation that ends with a lock nobody holds |
| SingleFlight.Execute | apps/core/common/commands.py:111-130 | A job runs if and only if its key was free, and, when nothing cuts its exit short, leaves no key of its own behind |
| RotationRuns.RotationIsSafe | apps/core/auth_api/views.py:176-215 | In every run whose locks are not outlived, each refresh token has at most one successor of the same user, and is revoked if and only if it was exchanged or logged out |
| RotationRuns.ExchangedIsNeverAccepted | apps/core/auth_api/views.py:189-203 | An exchanged token stays revoked, and no later read of it is accepted |
| RotationRuns.OneHolder | apps/core/common/locks.py:176-188 | Two requests for one token never hold the lock together |
| RotationRuns.StepKeepsInv | apps/core/auth_api/views.py:176-215 | Every event inside its lease keeps the rotation invariant |
| RotationRuns.SectionIsTwoSteps | apps/core/auth_api/views.py:189-214 | The section's read and its commit, with anything in between, add up to what the view's method states |
| Tokens.TokenStore.Post | apps/core/auth_api/views.py:176-215 | Each answer exactly when its guard says; revoke and mint happen together or not at all |
| Tokens.TokenStore.MintPair | apps/core/auth_api/services/tokens.py:86-110 | One new pair for the user, or nothing when the application is missing |
| Tokens.TokenStore.Revoke | apps/core/auth_api/services/tokens.py:56-84 | The access token goes and its pair is revoked; an unknown one changes nothing |
| Tokens.LogoutRevokesThePair | apps/core/auth_api/services/tokens.py:56-110 | Logging out a minted access token revokes the refresh token minted with it, and none of another access token |

## Assumptions

- Each UPDATE and each cache call is one atomic step; `cache.add` is atomic and the cache evicts nothing early. The
  claiming UPDATE and the re-read after it are one step. A fetch is one atomic read of what is published.
- SHA-256 is injective; ids, lock tokens and refresh tokens are drawn fresh and come in as parameters, as do clock
  readings, what the upstream yields, the lease's answers and the order of the rows.
- `set_sources` reads the clock once. `SetSources` takes the specs' safety and connector checks and
  the feed's kind as given.
- `LockRuns` lets a lease's own renewal and release not overlap: the renewer is joined first (`JoinPrecedesRelease`).
  What a SIGTERM makes of that is `SigtermIsHarmlessIff`.
- `SingleFlight` has a stage for each statement of the source; a SIGTERM in a frame of the interpreter or its library
  between two of them counts as landing in one of the two. The job's process lives on until the renewer is done.
- `LeaseRenewer` dates a renewal's stamp at the clock read of its tick.
- Case folding, stripping and prefixes are ASCII. Slugs are letters, digits and underscores.
- `Retention` records an item at or after it occurred (it may become visible late), keeps the retention constant and
  runs cycles one at a time.
- `RotationRuns` assumes a section reads and commits while its lease is fresh, as the lock's timeout intends.

## Left out

- Ulid.MinUlidAt: takes whole microseconds and truncates exactly; the original multiplies a floating-point timestamp, whose rounding may fall a millisecond short.
- Polling.PollSource: demands a mark, as the policy promises; on a null one the original raises inside the poll.
- Sources.SourceService.SetSources: the insert's conflict belt for an outlived lock is not modelled.
- Mailer.MailerQueue.Drain: the due rows are listed once at the start; the original streams them, and a rival may act in between, which only `MailerRuns` covers.
- Mailer.MailerQueue.Enqueue: template, subject and properties are one opaque text.
- RedditBatch.PollRedditGroup: its refinement is stated for complete listings, and `CutStrandsIff` for cut ones; page counts and rate-limit waits are not modelled.
- FeedCycle.Run: an error that escapes the subreddit group after its first chunk, progress reports and the saved poll time.
- Tokens.TokenStore.Revoke: what the OAuth toolkit's own revocation does to access rows; only the refresh row's mark is kept.
- The other lock names and timeouts in `apps/core/common/locks.py`: thin wrappers over the same lock.
- HTTP fetching, feed parsing, DNS and SSRF checks, serializers, routing, settings, logging and the command line: input and output around the modelled logic.
- Watch runs, digests, chain edits, backfills, device sessions, telemetry and waitlists: other subsystems.
