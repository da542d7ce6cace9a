# Verified models of the job-hunt assistant's stateful cores

The application drafts letters, de-duplicates job postings, keeps a bank of career stories, mails
digests and watches the hosts it runs on. This project models the parts of it whose correctness
depends on order, on repetition or on exact arithmetic, and proves what they promise for every
input and every run. The modules follow the program's files.

**Connection pool** (`ConnectionPool`, `PoolProtocol`, `PoolSafety`, `PoolTheorems`). `Pool` has
one method per critical section of `_ConnectionPool`, each proved against a function on the pool's
fields. `PoolProtocol` uses these functions as the atomic steps of any number of threads with
program counters, together with dialling, validating, rolling back, closing, broken sockets, time
and timeouts. The theorems speak of every state that a run can reach.

**Rate limiter and logins** (`RateLimiter`, `RateLimiterTheorems`, `LoginProtocol`). The class with
its map of deques, a reference that keeps the whole history, and the guard / check / record
protocol of logins that overlap.

**Digest watermark** (`DigestProtocol`, `DigestTheorems`). Runs, refreshes, approvals, rejections,
deletions, claims, sends, released claims and crashes at any point, for one user.

**Cover letters** (`CoverLetterRun`, `LetterText`, `LetterScaffolding`, `LetterCleaning`,
`LetterRoundTrip`, with `Lines` for `splitlines`). The drafting, retry and gate loops with the model, the guards and the scorer as
arbitrary functions; the letter printer and its two readers.

**Sweeps over stored data** (`JobDedup`; `StoryRemediation`, `StoryHistory`; `Paraphrase`,
`StoryMerge`, `StoryUnmerge`, `StoryUnmergeTheorems`, `StorySweep`). Tables are maps of rows that
the methods change in loops, as the scripts do, and unique indexes can refuse a write.

**Small algorithms** (`LogTail`, `Wrap`, `Redaction`, `Porcelain`, `ProcessTree`). `Shared` has what
several modules need.

## Where the code and what it says of itself differ

The models follow the code. These statements of its documentation do not hold; each has a lemma
that shows it and, beside it, what does hold.

- `reset_pool` (apps/api/app/db.py:449-450) says leased connections close on release. They go back
  to the idle list of the retired pool: `PoolTheorems.ReleaseClosesExactlyWhen` says when a release
  closes, and `PoolTheorems.ResetPoolDoesNotCloseLeased` follows one that does not.
- `get_connection` (apps/api/app/db.py:467-468) says a process never holds more than its slice of
  connections. A slot is handed on before its socket is closed, so sockets are bounded by the
  maximum plus the closes in progress (`PoolTheorems.SlotsAndSocketsConserved`), and this bound is
  reached for every pool and every number of closes (`PoolTheorems.SocketsCanExceedMaxSize`).
- `_watermark` (apps/api/app/agents/notification_agent.py:255-268) means to suppress no item
  forever. `DigestTheorems.LostIffLate` says exactly when that fails: a new item can be lost if and
  only if its write becomes visible too late, when a recorded row, the watermark a run has read or
  an email to be queued that it has composed already reaches its stamp. Without such writes nothing is lost
  (`DigestTheorems.NoItemSuppressed`). A posting scored after it was passed is never reported
  (`DigestTheorems.PassedItemNeverListed`).
- `_restore` (apps/api/scripts/story_narrative_audit.py:373) says every row a batch touched comes
  back exactly. `StoryHistory.TouchedRowComesBack` gives the condition; a row that two batches
  touched does not come back (`StoryHistory.RetouchedRowStaysHalfway`).
- `dedup_cleanup` (apps/api/scripts/dedup_cleanup.py:284-288) is to leave no duplicate group. Where
  the unique index on active applications exists (apps/api/app/db.py:1413-1417), one group with two
  active applications of one user makes the whole run roll back and no group is cleaned:
  `JobDedup.Database.RunReal` commits if and only if there is none, and
  `JobDedup.OneClashStopsEverything` is the other case.
- The merge sweep (apps/api/app/services/story_dedup_migration.py:51-53) says a second run finds
  nothing. For stories with given texts that holds if and only if likeness is transitive on those
  texts (`StoryMerge.IdempotentIff`). The code's comparison of keyword sets is symmetric, but a title
  with too few keywords is not like itself (`Paraphrase.ShortTitleMatchesNothing`), and under both of
  its presets it is not transitive: `StoryMerge.SweepIsNotIdempotent` gives three stories of which
  the second run merges two more (`StoryMerge.SomeSweepIsNotIdempotent`: there are such stories).
- `_plan_digest` (apps/api/scripts/story_dedup_sweep.py:122-125) says the digest fixes the content
  the survivor ends up with. It fixes the merges up to order (`StorySweep.DigestIff`), and with them
  the wording of a survivor if and only if its youngest duplicates all leave it with one wording
  (`StorySweep.DigestFixesTheWordingIff`). Two duplicates of one age that are alike can be listed
  either way round; the two plans have one digest exactly when folding in either of them leaves the
  same content whether or not the other was folded in before (`StorySweep.DigestForgetsOrder`), and
  then the survivor keeps the content of the one or of the other. `StorySweep.SweepForgetsOrder` gives such stories under both presets.
- `strip_letter_scaffolding` (apps/api/app/agents/cover_letter_agent.py:1085-1089) is to remove the
  opening clause and nothing else. `LetterRoundTrip.ScaffoldingRoundTrip` says exactly when: no
  sentence mark may stand in the position, title or company, and a reason must end its sentence and
  hold the phrase "led me to the" in none. A reason without a full stop goes with the clause, and
  "Acme Inc." leaves a paragraph "." behind (`LetterCleaning.DottedCompanyLeavesItsRest`).
- `git` (ops/guardian/guardian.py:284-285 and 318-320) says environment files are never stashed or
  archived. `Porcelain.EnvFileMovesIff` gives the condition; an untracked directory is listed
  as one entry and takes its environment file along (`Porcelain.DirectoryHidesEnvFile`), and at the
  top of the worktree only two endings are protected (`Porcelain.AtTheTopOnlyTwoEndings`).

## Model

| member | source | states |
|---|---|---|
| `ConnectionPool.Pool.TryAcquire` | apps/api/app/db.py:319-334 | one pass through acquire's critical section: pop the youngest idle connection, else open a slot, else fail past the deadline, else queue; the pool's whole new state |
| `ConnectionPool.Pool.AbandonSlot` | apps/api/app/db.py:343-348 | a failed dial gives its slot back and wakes one waiter |
| `ConnectionPool.Pool.TakeBack` | apps/api/app/db.py:363-370 | release keeps the connection or frees its slot, and wakes one waiter either way |
| `ConnectionPool.Pool.TakeAllIdle` | apps/api/app/db.py:374-380 | close_all takes every idle connection, gives their slots back and wakes everybody |
| `PoolSafety.InvKept` | apps/api/app/db.py:314-380 | every step of every thread keeps all seven parts of the invariant |
| `PoolSafety.InvOnRuns` | apps/api/app/db.py:314-380 | so they hold after every run |
| `PoolSafety.CountedKept` | apps/api/app/db.py:276-281 | open = idle + leased, leased = threads with a slot, both within their limits, after every step |
| `PoolSafety.NoLostWakeUpKept` | apps/api/app/db.py:326-348 | if anyone waits, free slots are at most the notified threads that have yet to retry; barging, failed dials, timeouts and close_all included |
| `PoolSafety.QueuedKept` | apps/api/app/db.py:326-334 | the condition's queue is exactly the parked threads |
| `PoolSafety.ExclusiveKept` | apps/api/app/db.py:314-380 | no connection gets a second owner |
| `PoolSafety.NoLeakKept` | apps/api/app/db.py:337-372 | no socket loses its only owner |
| `PoolSafety.FreshKept` | apps/api/app/db.py:277-278 | the idle list stays sorted by release time |
| `PoolSafety.CleanKept` | apps/api/app/db.py:351-366 | nothing with an open transaction gets where it could be handed out |
| `PoolTheorems.SocketsHaveOneOwner` | apps/api/app/db.py:314-380 | in every reachable state each socket is owned by exactly one of the idle list, a thread with a slot, a thread closing it |
| `PoolTheorems.SlotsAndSocketsConserved` | apps/api/app/db.py:276-281 | the counts add up in every reachable state, and sockets number at most the maximum plus the closes in progress |
| `PoolTheorems.NoWakeUpIsLost` | apps/api/app/db.py:326-334 | while a thread waits un-notified every free slot is spoken for by a notified thread; with none, every slot is leased |
| `PoolTheorems.RefusalIsHonest` | apps/api/app/db.py:327-333 | a refusal comes after the deadline, with no slot free that is not promised, and leaks nothing |
| `PoolTheorems.NoWaitPastDeadline` | apps/api/app/db.py:327-334 | past its deadline a thread gets a slot or fails, and does not wait again |
| `PoolTheorems.HandOutIsClean` | apps/api/app/db.py:337-342 | what acquire returns is open, without a transaction, nobody else's, and fresh or young enough |
| `PoolTheorems.PopsTheFreshest` | apps/api/app/db.py:320-322 | the connection popped is the youngest, so an expired pop means all the rest have expired |
| `PoolTheorems.DoomedForever` | apps/api/app/db.py:339-372 | a connection on its way out is never handed out again in any run |
| `PoolTheorems.RejectedIsDoomed` | apps/api/app/db.py:351-362 | discarded, unusable, lost and un-rollback-able connections are on their way out |
| `PoolTheorems.ReleaseClosesExactlyWhen` | apps/api/app/db.py:350-372 | release closes if and only if discarded, closed, lost, not rolled back or the idle list is full |
| `PoolTheorems.ResetPoolDoesNotCloseLeased` | apps/api/app/db.py:446-456 | a connection leased across reset_pool is kept idle in the retired pool |
| `PoolTheorems.SocketsCanExceedMaxSize` | apps/api/app/db.py:363-372 | for every pool that may hold a connection and every k a reachable state has k closes in progress and maximum plus k sockets |
| `RateLimiter.PruneDropsExpiredPrefix` | apps/api/app/rate_limit.py:91-94 | pruning removes a prefix of expired hits and stops at one that is not |
| `RateLimiter.SlidingWindowRateLimiter.PruneKey` | apps/api/app/rate_limit.py:91-94 | the loop prunes one deque and touches no other key |
| `RateLimiter.SlidingWindowRateLimiter.IsBlockedNow` | apps/api/app/rate_limit.py:96-112 | the answer and the new deque of the key, every other key unchanged, no empty deque kept |
| `RateLimiter.SlidingWindowRateLimiter.RecordHit` | apps/api/app/rate_limit.py:114-124 | the same for record |
| `RateLimiter.SlidingWindowRateLimiter.AllowHit` | apps/api/app/rate_limit.py:126-144 | the same for allow |
| `RateLimiter.SlidingWindowRateLimiter.ResetKey` | apps/api/app/rate_limit.py:146-149 | the same for reset |
| `RateLimiter.SlidingWindowRateLimiter.RetryAfterNow` | apps/api/app/rate_limit.py:151-168 | the same for retry_after |
| `RateLimiter.KeysIndependent` | apps/api/app/rate_limit.py:96-149 | in every run a key's deque and answers are those of its own operations alone |
| `RateLimiterTheorems.DequeStaysTail` | apps/api/app/rate_limit.py:126-144 | the deque is always a tail of the admitted hits, and what left it had expired by some operation's clock |
| `RateLimiterTheorems.AdmittedAreSpread` | apps/api/app/rate_limit.py:126-144 | admitted hits maxCalls apart in lock order are a window minus the clock skew apart in time |
| `RateLimiterTheorems.WindowHoldsAtMostMaxCalls` | apps/api/app/rate_limit.py:91-144 | for every run of allow, is_blocked and retry_after with skew d, no half-open interval of length W - d holds more than max_calls admitted hits |
| `RateLimiterTheorems.WindowHoldsPerKey` | apps/api/app/rate_limit.py:91-144 | the same per key among all keys |
| `RateLimiterTheorems.TailOfLogHolds` | apps/api/app/rate_limit.py:91-149 | with times in order the deque is a tail of the full history whose missing part has expired |
| `RateLimiterTheorems.AnswersRefineLog` | apps/api/app/rate_limit.py:96-168 | with times in order every answer is the one a full history gives |
| `RateLimiterTheorems.AdmitsExactlyBelowCap` | apps/api/app/rate_limit.py:96-144 | allow says yes and is_blocked no exactly when fewer than max_calls hits since the last reset lie in the window |
| `RateLimiterTheorems.DeniedAndReadsDoNotMatter` | apps/api/app/rate_limit.py:129-131 | deleting all denied allow calls and all reads from a run changes no later answer |
| `RateLimiterTheorems.RetryAfterIsLeast` | apps/api/app/rate_limit.py:151-168 | with exactly max_calls hits in the window retry_after is the least whole second, at least 1, at which the key is free |
| `RateLimiterTheorems.OverfullFreesLater` | apps/api/app/rate_limit.py:151-168 | at or over the cap retry_after answers when the oldest hit in the window leaves it, rounded up, and the key is then still blocked exactly when the max_calls-th youngest hit is inside |
| `LoginProtocol.BoundedKept` | apps/api/app/rate_limit.py:260-297 | failures on record plus attempts in flight stay at most max - 1 + K |
| `LoginProtocol.FailuresBounded` | apps/api/app/rate_limit.py:260-297 | with at most K logins of an identifier in flight its bucket never exceeds max + K - 1 |
| `LoginProtocol.BoundIsReached` | apps/api/app/rate_limit.py:260-297 | and no smaller bound holds |
| `DigestProtocol.WatermarkIsLatestSent` | apps/api/app/agents/notification_agent.py:255-282 | the watermark is the greatest window end among rows whose approval was approved and completed, and absent if there is none |
| `DigestProtocol.Store.QueueEmail` | apps/api/app/repositories/approval.py:176-212 | queueing refreshes the newest pending request or inserts a new one, and nothing else |
| `DigestProtocol.Store.RecordDigest` | apps/api/app/agents/notification_agent.py:284-327 | the newest row of the request is rewritten, or one is added |
| `DigestTheorems.SentUpToItsEnd` | apps/api/app/agents/notification_agent.py:254-268 | a sent digest whose window starts where coverage ends extends coverage to its own end |
| `DigestTheorems.InvKept` | apps/api/app/agents/notification_agent.py:173-327 | every step keeps: windows of all requests start inside coverage, rows never run ahead of their request, completed means sent |
| `DigestTheorems.NoGap` | apps/api/app/agents/notification_agent.py:173-327 | in every run every instant up to the watermark lies in the window of a digest whose sending completed |
| `DigestTheorems.ItemSafeKept` | apps/api/app/agents/notification_agent.py:199-345 | once all that can reach an item's stamp accounts for it, every step keeps that, until the item is written again |
| `DigestTheorems.NoItemSuppressed` | apps/api/app/agents/notification_agent.py:255-268 | in every run whose writes are not late an item whose stamp the watermark has passed is accounted for by an email that was sent: listed, cut by the LIMIT or not reportable then |
| `DigestTheorems.LateCanBeLost` | apps/api/app/agents/notification_agent.py:255-268 | from every reachable state a late write of a new item has a continuation, which this builds, that loses it |
| `DigestTheorems.LostIffLate` | apps/api/app/agents/notification_agent.py:255-268 | in every reachable state some continuation moves the watermark past a new item that no sent email accounts for, if and only if its write was late |
| `DigestTheorems.NothingCutWithinCap` | apps/api/app/agents/notification_agent.py:68-70 | within the limits a digest lists everything eligible in its window |
| `DigestTheorems.PassedItemNeverListed` | apps/api/app/agents/notification_agent.py:363-404 | an item the watermark has passed is in no later digest |
| `DigestTheorems.LateWriteIsLost` | apps/api/app/agents/notification_agent.py:255-268 | a late state is reached: a run in which an item is lost |
| `CoverLetterRun.Correct` | apps/api/app/agents/cover_letter_agent.py:1962-2038 | the corrective loop: drafts again only after a violation, at most the clamped retries, records every pass |
| `CoverLetterRun.Improve` | apps/api/app/agents/cover_letter_agent.py:2058-2124 | the gate loop: passes only over a clean letter with a closable dimension, replaces it only by a clean, strictly better one |
| `CoverLetterRun.Adjudicate` | apps/api/app/agents/cover_letter_agent.py:2125-2213 | guards, clean-up, structural gate and the quality record, on the draft in hand |
| `CoverLetterRun.Refresh` | apps/api/app/agents/cover_letter_agent.py:2136-2150 | the letter stays the composition of the body through each filter |
| `CoverLetterRun.Run` | apps/api/app/agents/cover_letter_agent.py:1903-2216 | the outcome is the verdict on the draft in hand of a consistent record; at most 1 + clamped retries + gate passes drafts; a placeholder signer costs none |
| `CoverLetterRun.ConsistentAfter` | apps/api/app/agents/cover_letter_agent.py:1946-2119 | the record of passes stays consistent as it grows |
| `CoverLetterRun.InHandIsLastKept` | apps/api/app/agents/cover_letter_agent.py:2120-2124 | the letter in hand is the last draft kept |
| `CoverLetterRun.AcceptedScoresRise` | apps/api/app/agents/cover_letter_agent.py:167-178 | over a whole run accepted gate passes are clean and strictly better than everything accepted before |
| `CoverLetterRun.StaysInGates` | apps/api/app/agents/cover_letter_agent.py:2062-2124 | after a gate pass only gate passes follow |
| `CoverLetterRun.ShippedIsClean` | apps/api/app/agents/cover_letter_agent.py:2125-2213 | a shipped letter has no guard or claim flag and no structural issue, is the composition of the body that was scored, and records the first draft's score beside its own |
| `LogTail.SuffixSuffices` | ops/guardian/logstream.py:55-60 | a suffix with more than n line feeds has the file's last n lines, even when the cut falls inside a CR LF |
| `LogTail.TailFile` | ops/guardian/logstream.py:50-60 | for n >= 1, any content and any block size the result is the last n lines of the whole file and a line feed; the loop ends |
| `LogTail.ExactlyNIsTooFew` | ops/guardian/logstream.py:56 | with one line feed fewer a line can be lost |
| `Lines.SplitAfterLineFeed` | ops/guardian/logstream.py:60 | splitlines of a text that ends in a line feed does not depend on what follows |
| `Lines.AtLeastAsManyLines` | ops/guardian/logstream.py:59-60 | there are at least as many lines as line feeds |
| `LetterText.StoredSignOffName` | apps/api/app/agents/cover_letter_agent.py:1432-1450 | the upward scan finds the sign-off of the last closing line |
| `LetterText.StoredSignOffIs` | apps/api/app/agents/cover_letter_agent.py:1418-1450 | what is read back from any composed letter, for every one-line signer |
| `LetterText.SignerRoundTrip` | apps/api/app/agents/cover_letter_agent.py:1022-1033 | the signer is read back unchanged if and only if it is empty, or trimmed, of 1 to 8 words and no closing line |
| `LetterText.ReadCheckAgreesWithWriteCheck` | apps/api/app/agents/cover_letter_agent.py:1453-1458 | for such signers the placeholder check at reading agrees with the one at writing |
| `LetterScaffolding.StripLetterScaffolding` | apps/api/app/agents/cover_letter_agent.py:1052-1097 | the loop over paragraphs computes what the rules keep |
| `LetterScaffolding.Sift` | apps/api/app/agents/cover_letter_agent.py:1064-1096 | the paragraphs kept, up to the first sign-off |
| `LetterScaffolding.JoinedSplit` | apps/api/app/services/cover_letter_quality.py:108-114 | paragraphs joined by blank lines split into themselves |
| `LetterCleaning.CleanTwice` | apps/api/app/agents/cover_letter_agent.py:1089-1094 | substituting twice is substituting once |
| `LetterCleaning.AfterSentence` | apps/api/app/agents/cover_letter_agent.py:1089-1094 | a text that ends a sentence is cleaned on its own, whatever follows it |
| `LetterCleaning.StaysWholeIff` | apps/api/app/agents/cover_letter_agent.py:1089-1094 | a text is left as it is if and only if none of its sentences holds the phrase, and gets shorter otherwise |
| `LetterCleaning.OneLineStaysIff` | apps/api/app/agents/cover_letter_agent.py:1089-1094 | on one line that is: if and only if it does not hold the phrase |
| `LetterCleaning.ReasonComesBackIff` | apps/api/app/agents/cover_letter_agent.py:1085-1094 | a reason comes back from in front of any clause if and only if it ends its sentence, no sentence of it holds the phrase, and the clause goes as a whole |
| `LetterCleaning.ClauseLeaves` | apps/api/app/agents/cover_letter_agent.py:1013-1016 | what is left of the clause when the position has no sentence mark: what follows the first mark in title, company or the clause's own full stop |
| `LetterCleaning.ClauseGoesIff` | apps/api/app/agents/cover_letter_agent.py:1085-1094 | the clause goes as a whole if and only if position, title and company have no sentence mark |
| `LetterRoundTrip.AnswerIsSolid` | apps/api/app/services/cover_letter_quality.py:108-114 | the paragraphs of every text are trimmed, not empty and hold no blank line |
| `LetterRoundTrip.LetterParagraphs` | apps/api/app/agents/cover_letter_agent.py:1022-1033 | the paragraphs of a composed letter: date, addressee, salutation, body, sign-off, whatever marks title and company have |
| `LetterRoundTrip.LetterStripped` | apps/api/app/agents/cover_letter_agent.py:1052-1097 | of a composed letter exactly the body is left, its hook cleaned |
| `LetterRoundTrip.ScaffoldingRoundTrip` | apps/api/app/agents/cover_letter_agent.py:996-1097 | taking a composed letter apart gives the reason and the paragraphs of the model's answer back if and only if position, title and company have no sentence mark and the reason, if any, ends its sentence and holds the phrase in none |
| `LetterRoundTrip.ParagraphsComeBack` | apps/api/app/agents/cover_letter_agent.py:1013-1019 | without a reason the paragraphs of the answer come back if and only if position, title and company have no sentence mark, for every date and signer |
| `LetterCleaning.DottedCompanyLeavesItsRest` | apps/api/app/agents/cover_letter_agent.py:1085-1094 | a company name with a dot anywhere in it leaves what follows the dot, and the clause's own full stop, behind |
| `LetterScaffolding.TheListIsValid` | apps/api/app/agents/cover_letter_agent.py:1039-1049 | the code's list of closings has what the theorems ask of one |
| `JobDedup.RowsOf` | apps/api/scripts/dedup_cleanup.py:138-147 | the rows of a group: those, and only those, with its key |
| `JobDedup.Oldest` | apps/api/scripts/dedup_cleanup.py:104-107 | a member of the group no other is older than |
| `JobDedup.GroupByKey` | apps/api/scripts/dedup_cleanup.py:138-147 | the dictionary holds each key once, with exactly its rows |
| `JobDedup.FindGroups` | apps/api/scripts/dedup_cleanup.py:120-168 | exactly the groups of more than one row, once each |
| `JobDedup.Database.Relink` | apps/api/scripts/dedup_cleanup.py:186-203 | every application and resume of one job points at the other and no other row moves, or, exactly when that would give a user two active applications for one job under the index, nothing changes |
| `JobDedup.Database.DeleteJob` | apps/api/scripts/dedup_cleanup.py:206-209 | one job goes, with the schema's referential actions: applications and embeddings go, resumes stay without a job |
| `JobDedup.OneMoreReplaced` | apps/api/scripts/dedup_cleanup.py:303-314 | relinking and then deleting equals one replacement: nothing cascades away |
| `JobDedup.Database.CleanGroup` | apps/api/scripts/dedup_cleanup.py:303-330 | the inner loop removes everything but the kept row, or stops at an index that some group does not fit |
| `JobDedup.StagesFitIndex` | apps/api/app/db.py:1413-1417 | when no group holds two active applications of one user, no stage of the run clashes with the index |
| `JobDedup.FinishedFitsIndexIff` | apps/api/app/db.py:1413-1417 | and the finished run fits the index only then |
| `JobDedup.Database.RunReal` | apps/api/scripts/dedup_cleanup.py:267-352 | commits if and only if there is no index or no group holds two active applications of one user; then exactly the rows that are not their group's oldest are removed and their links moved; otherwise the tables are unchanged |
| `JobDedup.OneClashStopsEverything` | apps/api/scripts/dedup_cleanup.py:267-352 | under the index two active applications of one user in one group leave the whole database as it was |
| `JobDedup.KeepersAreOldest` | apps/api/scripts/dedup_cleanup.py:104-113 | the keeper is in the group, keeps itself, is shared by the group and the oldest of it |
| `JobDedup.OneJobPerKey` | apps/api/scripts/dedup_cleanup.py:120-125 | after a run that commits each user, title and company has exactly one job, the earliest, unchanged |
| `JobDedup.LinksStayInTheirGroup` | apps/api/scripts/dedup_cleanup.py:267-276 | after every run no application or resume is lost or dangles, each points into its own group, one that pointed at a kept job still does, and the index still holds |
| `JobDedup.SecondRunFindsNothing` | apps/api/scripts/dedup_cleanup.py:284-288 | after a run that commits a second one, whatever the order of the rows, finds no group |
| `StoryRemediation.StoryBank.Remediate` | apps/api/scripts/story_narrative_audit.py:294-369 | the table after the statements of all findings in order, and the counts |
| `StoryRemediation.StoryBank.Restore` | apps/api/scripts/story_narrative_audit.py:372-432 | exactly the unblocked rows of the batch come back, the blocked ones are reported, nothing else changes |
| `StoryRemediation.EveryWriteCanBeUndone` | apps/api/scripts/story_narrative_audit.py:352-366 | after every statement each row is untouched or holds its pre-image |
| `StoryRemediation.InterruptedRemediationIsUndone` | apps/api/scripts/story_narrative_audit.py:39-53 | a remediation cut short anywhere and then restored gives back text, metrics, tags, liveness and hash of every row; none is blocked |
| `StoryHistory.InvKept` | apps/api/scripts/story_narrative_audit.py:372-432 | inserts, edits, key stamps, deletions, archivings, other batches and restores keep: rows of a batch have pairwise different keys |
| `StoryHistory.RestoreNeverClashes` | apps/api/scripts/story_narrative_audit.py:401-411 | a restore makes no two live rows share a key although it reads the live keys only once |
| `StoryHistory.RestoreKeepsKeysUnique` | apps/api/app/db.py:1184-1195 | so in every run the unique index never refuses a restore |
| `StoryHistory.TouchedRowComesBack` | apps/api/scripts/story_narrative_audit.py:372-384 | a touched row comes back with the text the batch read, unless touched again, merged away, deleted or blocked |
| `StoryHistory.RetouchedRowStaysHalfway` | apps/api/scripts/story_narrative_audit.py:352-366 | a row two batches touched keeps the second's pre-image even when both are undone, newest first |
| `Paraphrase.MatchesEitherWay` | apps/api/app/services/story_paraphrase.py:181-201 | two stories match in either order |
| `Paraphrase.ShortTitleMatchesNothing` | apps/api/app/services/story_paraphrase.py:189-194 | a story whose title has fewer keywords than the floor matches nothing, not even itself |
| `Paraphrase.NeighboursMatch` | apps/api/app/services/story_paraphrase.py:113-201 | under both presets the first of three stories matches the second and the second the third, and the first does not match the third |
| `Paraphrase.FiveAndOneMatch` | apps/api/app/services/story_paraphrase.py:113-201 | under both presets titles of six keywords that share five match |
| `StoryMerge.PlanMerges` | apps/api/app/services/story_dedup_migration.py:114-166 | the plan the loop computes |
| `StoryMerge.PlanIsWellFormed` | apps/api/app/services/story_dedup_migration.py:124-128 | every row is kept or folded exactly once, into a survivor listed earlier that is itself kept |
| `StoryMerge.NothingIsDropped` | apps/api/app/services/story_dedup_migration.py:180-183 | every tag and metric name of every row is in the kept row that took it in |
| `StoryMerge.NothingToMergeIff` | apps/api/app/services/story_dedup_migration.py:131-140 | nothing is planned if and only if no two rows are alike, and then all are kept as they are |
| `StoryMerge.IdempotentIff` | apps/api/app/services/story_dedup_migration.py:51-54 | for every symmetric likeness and set of texts: a second run finds nothing over every list of stories with these texts, if and only if likeness is transitive on them |
| `StoryMerge.SecondRunFindsNothing` | apps/api/app/services/story_dedup_migration.py:51-54 | a second run over a list finds nothing when likeness is transitive on the texts listed |
| `StoryMerge.SecondRunMayMergeMore` | apps/api/app/services/story_dedup_migration.py:51-54 | whenever a story is like two that are not alike, and listed after them, the second run merges those two |
| `StoryMerge.SweepIsIdempotentIff` | apps/api/app/services/story_paraphrase.py:181-201 | under the code's comparison, at any thresholds: a second run finds nothing over every list of given stories, if and only if the comparison is transitive on them |
| `StoryMerge.SweepIsNotIdempotent` | apps/api/app/services/story_dedup_migration.py:51-54 | three stories for each preset of which the second run merges two more |
| `StoryMerge.SomeSweepIsNotIdempotent` | apps/api/app/services/story_dedup_migration.py:51-54 | there are such stories unless one letter six times is a stop word, which in the code it is not |
| `StoryUnmerge.StoryTable.MergeAll` | apps/api/app/services/story_dedup_migration.py:239-335 | all merges of the plan or, when a row is not live, none |
| `StoryUnmerge.StoryTable.RestoreMerged` | apps/api/app/services/story_dedup_migration.py:492-685 | refused, with nothing written, exactly when a selected row is blocked by an archived row that stays, with or without a capture; aborted exactly when one has no survivor to write; else the restorable ones are undone newest first |
| `StoryUnmerge.Sorted` | apps/api/app/services/story_dedup_migration.py:396-417 | a rearrangement of the rows, newest merge first |
| `StoryUnmergeTheorems.FoldedRows` | apps/api/app/services/story_dedup_migration.py:291-316 | the archived rows are those of the merges, once each, with the survivor's content before |
| `StoryUnmergeTheorems.WithoutOne` | apps/api/app/services/story_dedup_migration.py:460-477 | leaving out a merge that nothing followed into its survivor changes two rows only, and how |
| `StoryUnmergeTheorems.RestoreIsReplay` | apps/api/app/services/story_dedup_migration.py:420-477 | restoring any selection that is not refused, after any run of merges over any batches, leaves the table as if exactly those merges had never been made |
| `StoryUnmergeTheorems.RestoringAllUndoesAll` | apps/api/app/services/story_dedup_migration.py:466-477 | restoring everything is never refused and gives back the table before the first merge |
| `StoryUnmergeTheorems.BlockedRestoreWouldForget` | apps/api/app/services/story_dedup_migration.py:425-443 | what the refusal prevents: the survivor would lose the last wording while its row stays archived |
| `StoryUnmergeTheorems.PlanRuns` | apps/api/app/services/story_dedup_migration.py:120-128 | a plan made from the listed rows can be carried out and leaves exactly the kept rows, with the planned content |
| `StorySweep.AscendingUnique` | apps/api/scripts/story_dedup_sweep.py:126-133 | the sorted form of a plan does not depend on its order |
| `StorySweep.DigestIff` | apps/api/scripts/story_dedup_sweep.py:121-136 | two plans have one digest if and only if they hold the same merges, each as often |
| `StorySweep.DigestForgetsOrder` | apps/api/scripts/story_dedup_sweep.py:121-125 | for every likeness and three stories pairwise alike, the two later ones of one age: the plans of their two listings share a digest if and only if folding in either duplicate leaves the same content whether or not the other came before, and then the survivor ends with the content of the one or of the other |
| `StorySweep.SweepForgetsOrder` | apps/api/scripts/story_dedup_sweep.py:121-125 | three such stories under the code's comparison, for each of its two presets: one digest, and two different contents |
| `StorySweep.DigestFixesTheWordingIff` | apps/api/scripts/story_dedup_sweep.py:121-125 | for merges by age: every plan by age with the same merges leaves a survivor with the same wording, if and only if all its youngest duplicates do |
| `StorySweep.DigestFixesThePlan` | apps/api/scripts/story_dedup_sweep.py:121-136 | when creation times differ one digest means one plan, merge by merge |
| `StorySweep.RequireReviewedPlan` | apps/api/scripts/story_dedup_sweep.py:158-199 | the gates pass exactly for a signed merge plan of this user, named twice |
| `StorySweep.RunSweep` | apps/api/scripts/story_dedup_sweep.py:240-326 | exit code and table are those of the specification, whatever others write between the check, the plan, the transaction and the count |
| `StorySweep.ExitZeroRunsTheReviewedPlan` | apps/api/scripts/story_dedup_sweep.py:304-326 | a real sweep that exits 0 had a signed plan of this user, and what it ran holds the merges of every plan with that digest, each as often; the table is those merges made, and the counts reconcile |
| `StorySweep.ExitZeroRunsItInOrder` | apps/api/scripts/story_dedup_sweep.py:304-326 | when creation times differ it ran the plan that was read, merge by merge |
| `StorySweep.ExitZeroWritesTheReviewedWording` | apps/api/scripts/story_dedup_sweep.py:304-326 | when in the plan that was read the youngest duplicates of a survivor leave one wording, a sweep that exits 0 gave the survivor that wording |
| `StorySweep.MergesAreCounted` | apps/api/app/services/story_dedup_migration.py:337-338 | each merge lowers the count of live rows by one |
| `StorySweep.QuietSweepReconciles` | apps/api/app/services/story_dedup_migration.py:337-338 | without other writers nothing aborts and the counts reconcile |
| `Wrap.WrapText` | scripts/generate_ba_resume.py:43-55 | the loop writes the greedy layout of the text's words |
| `Wrap.GreedyLays` | scripts/generate_ba_resume.py:43-55 | the layout holds the words in order, on lines that fit or are one word |
| `Wrap.GreedyStaysAhead` | scripts/generate_ba_resume.py:43-55 | no layout has fewer lines, and one with as many has no shorter last line |
| `Wrap.SplitOfJoin` | scripts/generate_ba_resume.py:45-46 | splitting a line gives its words back |
| `Wrap.WrapIsBest` | scripts/generate_ba_resume.py:43-55 | for every text, font and width: the lines' words are the text's, every line fits or is one word, no layout has fewer lines |
| `Redaction.RedactTwice` | apps/api/app/redaction.py:123-169 | redacting twice is redacting once, as strictly as the stricter of the two |
| `Redaction.EchoTellsExactly` | apps/api/app/redaction.py:123-169 | two payloads give one echo if and only if they differ only under sensitive keys, below the depth limit, in hidden leaves and in the kind of a sequence |
| `Redaction.EchoIsShallow` | apps/api/app/redaction.py:48-52 | the echo is at most 12 containers deep |
| `Redaction.EchoIsScrubbed` | apps/api/app/redaction.py:137-169 | under a sensitive key there is only the marker, and with all strings redacted so is every leaf of text, bytes or an object |
| `Redaction.RedactValidationErrors` | apps/api/app/redaction.py:192-234 | the loop cleans each error of the batch |
| `Redaction.DiagnosisPassesThrough` | apps/api/app/redaction.py:197-205 | keys and everything but input and ctx are unchanged, so the echo of a batch is judged as the batch was |
| `Redaction.SanitizingTwiceIsOnce` | apps/api/app/redaction.py:192-234 | sanitizing a sanitized batch changes nothing |
| `Redaction.CleanedTellsExactly` | apps/api/app/redaction.py:203-233 | two errors are cleaned to the same if and only if they differ only in what must not show |
| `Redaction.ResponseTellsExactly` | apps/api/app/redaction.py:192-234 | two batches give one response if and only if they differ only in what must not show |
| `Porcelain.Parse` | ops/guardian/guardian.py:72-105 | the index-driven loop reads the records in order, or raises on the first malformed one |
| `Porcelain.PrintedIsReadBack` | ops/guardian/guardian.py:72-105 | printed entries are read back first whatever follows, a rename's source never as a record |
| `Porcelain.ParseInvertsPrint` | ops/guardian/guardian.py:72-84 | parsing inverts printing, with both sides of renames and copies |
| `Porcelain.MalformedRaises` | ops/guardian/guardian.py:86-99 | a malformed record after any good ones raises |
| `Porcelain.CleanWorktree` | ops/guardian/guardian.py:263-329 | nothing is run when busy, dry or unparseable; something is whenever it is none of these and an unprotected path is listed; the commands are the careful ones; done and escalated exactly when |
| `Porcelain.ArchiveAndStash` | ops/guardian/guardian.py:291-329 | the archive holds exactly the unprotected paths on disk; the stash follows only an archive that worked and excludes exactly the protected paths |
| `Porcelain.StashIsComplete` | ops/guardian/guardian.py:313-325 | the stash takes every unprotected listed path, on disk or not |
| `Porcelain.EnvFileMovesIff` | ops/guardian/guardian.py:284-325 | an environment file is archived if and only if a listed directory that is on disk holds it and has no part that starts with .env, and stashed if and only if such a directory does, on disk or not, the file is not listed itself, and no listed directory with such a part holds it |
| `Porcelain.DirectoryHidesEnvFile` | ops/guardian/guardian.py:276-287 | an untracked directory listed as one entry is archived and stashed with the environment file in it |
| `Porcelain.AtTheTopOnlyTwoEndings` | ops/guardian/guardian.py:286 | which names are protected at the top of the worktree, and that more are protected in directories |
| `ProcessTree.ProcessAncestors` | ops/guardian/guardian.py:130-146 | exactly the processes above the given one, itself included; it ends even when the links form a circle |

## Left out

- Pool: a wait ends by exactly one of a notification or its timeout; the race of both in
  `threading.Condition`, exceptions other than `Exception`, forked processes and the change of
  database address in `_get_pool` are not modelled.
- psycopg2, sockets, SQL text, HTTP, command lines and printing: a connection is an identifier, a
  closed flag and a transaction status; a table is a map.
- The column latches `ensure_*`, the DSN parser, seeding, backfills and reporting agents: they
  would only add easy members.
- Prune: clocks are real numbers; floating-point rounding is not modelled.
- RetryAfterIsLeast: says nothing above the cap, where the code looks at the oldest hit and the
  property fails; OverfullFreesLater says when the key is then free.
- BuildQuality: the rounding of `delta` to two places, the verdict fields and the texts of the
  record are not modelled.
- Run: prompts, regex vocabularies, the fabrication and claim guards, the scorer and the model are
  arbitrary functions, so nothing is said of what they find; resolving the resume and storing the
  letter after the gates are not modelled.
- A claim that no flagged sentence survives `strip_injection_compliance`: the code judges the
  original neighbours once, and it does not hold.
- LostIffLate: items are one of the two tables; of the other there is only whether an email lists
  something from it, which is free to be so whenever an email is composed.
- NoItemSuppressed: needs writes that are not late, because a late one can be lost (LostIffLate);
  runs of one user that overlap are not modelled, nor is editing an email while approving it.
- TailFile: n below 1 has no stated result; decoding with replacement characters and the message
  for a missing file are not modelled.
- SignerRoundTrip: signers of one line; lower-casing is a parameter.
- ScaffoldingRoundTrip: role, company and position on one line, role and company trimmed and not
  empty, none of them with the anchor phrase in it, at least one body paragraph, none that reads as
  scaffolding, and a hook that does not itself open like scaffolding; lower-casing goes character by
  character.
- RunReal: the only write the database can refuse is one against the unique index on active
  applications; the printed log is not modelled.
- Matches: lower-casing, the word characters and the stop words are parameters; the rounded
  numbers shown to a reader are not modelled.
- Restore: the restore of a batch is one transaction; a key inserted between its two queries would
  make the index refuse it.
- Remediate: `unanchored` and `clean` findings write nothing; how a finding is reached, and the
  check that verdict and application agree, are not modelled.
- RestoreIsReplay: histories consist of merges with strictly increasing stamps, each noting the
  survivor's content at that moment; edits between merges, equal stamps and the mirrored evidence
  corpus are not modelled.
- Restoring under a signed plan (`_run_restore`): it has no second comparison of digests, so there
  is no guarantee to prove after the write.
- DigestIff: the hash and the JSON text are injective functions, and triples are totally ordered.
- DigestFixesTheWordingIff: merges that carry each other's text on are not told from others, so the
  second plan it finds need not be one the sweep would make; DigestForgetsOrder is about such plans.
- RunSweep: a dry run's plan file and every printed line are not modelled.
- WrapText: widths of characters add up, as they do without kerning.
- Sensitive: lower-casing and the test for letters and digits are parameters.
- LocIsSensitive: the type of an error is compared only when it is text.
- CleanWorktree: the return code of `git status`, which the code does not look at, and unpushed
  commits are not modelled; what git and tar take is assumed to follow the listed paths.
- ProcessAncestors: links are read from one table; how `/proc` is parsed is not modelled.
- The service checks and the other host actions: subprocess output, easy members.
