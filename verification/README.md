# Poll voting protocol: model and proofs

This project models how the poll service counts votes: a poll's ballots go to Redis, where gates,
dedup markers and counter hashes are sharded over buckets and changed by one atomic script; the
poll's status and its results live in PostgreSQL; Publish, Close, Snapshot and Vote tie the two
together through separate requests that can interleave, be delayed, fail or stop half-way.

- `Domain`, `Uuid`: polls, options, what a valid selection is, identifier syntax.
- `Ballots`: the flat specification, a ledger of the ballots answered `recorded`, its tallies, and
  what a reader that visits the buckets one by one can have seen of it.
- `Counters`, `VoteStore`, `Expiry`: the Redis side. A class `Store` with the script, the gate
  pipelines, the bucket reads with checked aggregation and the snapshot lock, each proved equal to a
  function on the keys of a poll.
- `PollRepository`, `Listing`: the PostgreSQL side. A class `Repository` with its transactions, and
  the grouping of joined rows.
- `PollCache`, `CacheRuns`: the definition cache, as a class and under concurrent callers.
- `Services`: Publish with compensation, Close, Snapshot and Vote over those classes, with every
  request that may be lost or unanswered as a parameter.
- `Protocol`, `Steps`: one poll as a state machine with a clock. Every Redis command, script run and
  transaction is a step; any number of voters, publishers, closers, snapshots and result readers run
  at once and may stop anywhere; a restart ends them all and may change the bucket count as far as the
  startup check lets it. The machine uses the same functions the classes are proved against, and
  `Sequential` and `Readings` show that every Publish, Close, vote and snapshot of `Services`, with any
  faults, is a run of it, and `Completion` that a retry completes from every reachable state.
- `Untorn`, `Exactness`, `Lifetimes`, `OneVote`, `Gates`, `Restarts`, `Finality`, `Leases`, `Shape`,
  `Percentages`: what holds in every run. `BoundaryRuns`: runs that show why the conditions are needed.
- `Answers`: what callers are told, against the ledger.
- `RateLimiter`, `Deployment`: the rate limiter, and restarts over the whole poll table.

Conditions on runs are predicates on single steps, so each theorem says exactly what it assumes:
`Serial` (Publish and Close of the poll do not overlap), `WithinLease` (a snapshot ends within its
lease), `DistinctStamps`, `Prompt` (a vote reaches Redis within the retention period of its time
check), `UnclampedVote` (`MAX_REDIS_TTL` does not cut the TTL of this vote), `KeepsUntil` (the keys of
a recorded vote are set to live until a given horizon), `TTLAtEffect`, `OpenedOnce`, `KeepsCount` (no
restart changes the bucket count of a draft that has ballots). Untorn results, permanent finalization,
the ledger invariant, ballot shape, the exact conditions of `Exactness` and the cache results assume
none of them. `UnclampedVotesLast` gives the horizon `ends_at` + retention; without any assumption
there is the one of `KeysLastFromFirstBallot`.

## What the proofs found

- **When a result is exact.** A stored result is the tally of all ballots if and only if its process
  missed no counts in a bucket and read every ballot's bucket after the ballot
  (`ResultIsExactlyWhen`); otherwise participants are missing, never invented. Four things can make
  counts go missing, each with a run and a condition:
  - *Expiry.* A Close after the counters have expired finalizes an empty result
    (`CloseAfterExpiryIsEmpty`). Counters are short exactly when a ballot was recorded over an expired
    hash (`ShortExactlyWhen`), and a final result is exact exactly when no bucket had expired counters
    at its read or before a later ballot (`FinalResultExactlyWhenCountersLast`).
  - *Overlap.* A Publish past its transaction when a Close begins reopens gates of the closed poll
    (`OverlappingPublishReopens`). A ballot can still get in exactly when such a Publish is left with
    the gate ahead of it and a vote is checked or can be (`ReopenedExactlyWhen`).
  - *Restart.* The startup check protects active polls only. If a published poll got a ballot and was
    taken back to draft by compensation, a restart with fewer buckets leaves that ballot unread and
    its device free to vote again (`RestartLosesABallot`); the exact condition is that all ballots are
    in buckets the Close read (`FinalResultExactlyWhen`).
  - *Late snapshot.* A snapshot that starts reading before a ballot, stamps after a Close has stamped
    and commits before it, makes the final upserts skip while the status update still closes the poll
    (`LateSnapshotLosesABallot`). The poll is then closed without `finalized_at`, and once no Close is
    under way it is never finalized (`UnfinalizedForGood`). A later snapshot can still store the tally
    (`SnapshotRepairs`). The snapshot lock does not prevent this: Close does not take it.
    `CloseFinalizesExactlyWhen` gives the exact condition at the commit and
    `UndisturbedCloseFinalizes` a condition on the requests. `docs/architecture.md` promises that Close
    saves totals "together with closed status/finalization"; the model follows the code.
- If `MAX_REDIS_TTL` cuts markers shorter than the voting window, publishing again after a marker has
  expired lets its device be counted twice (`ClampedRepublishCountsTwice`, `CountedAgainExactlyWhen`).
- TTLs are rounded up to whole seconds, so a marker can outlive the counters of its bucket, and the
  expiry of counters can move back, by less than a second (`MarkerOutlivesItsCounters`,
  `CountersLastToTheSecond`). `MarkersCoveredExactlyWhen` says when counters cover the live markers.
- The poll that Close answers carries the result's `finalized_at` as its `closed_at`, so after a Close that
  does not finalize it has none, although the row does (the contract of `ResultService.Close`).
- `IsUUID` deletes every dash before decoding, so it also accepts strings with extra pairs of dashes
  (`AcceptedExactly`, `ExtraDashesAreAccepted`).

## Model

| member | source | states |
|---|---|---|
| Finality.FinalResultIsExact | internal/service/result_service.go:57-84 | in every run without overlapping Publish and Close, if `MAX_REDIS_TTL` cuts no vote's TTL and no restart changes the bucket count of a draft with ballots, a result finalized before `ends_at` + retention is, for participants and every option, the tally of every ballot ever answered `recorded`, whatever votes, snapshots, crashes, retries and restarts interleave |
| Finality.FinalResultIsExactBefore | internal/service/result_service.go:57-84 | the same with overlapping requests, as long as no gate is opened again after the finalizing Close has shut it, and for any horizon until which the keys of recorded votes were set to live |
| Finality.FinalResultExactlyWhen | internal/redisstore/votes.go:72-139 | in every such run, a final result is the tally if and only if the Close missed no counts and every ballot is in a bucket it read |
| Finality.FinalResultExactlyWhenCountersLast | internal/redisstore/votes.go:114-139 | without overlap and with bucket counts kept, if and only if, at each read of the Close, the counters of the bucket had expired neither then nor before a later ballot of the bucket |
| Exactness.ResultIsExactlyWhen | internal/redisstore/votes.go:114-164 | in every run, any stored result is the tally of all ballots if and only if its process missed no counts and read each ballot's bucket after the ballot; no count is ever above the tally, and participants are below it otherwise |
| Exactness.ReadingBehindResult | internal/redisstore/votes.go:114-139 | what a stored result has seen and missed is what one process found in one read of each bucket of its time |
| Answers.FinalAnswerIsExact | internal/service/result_service.go:36-65 | under the conditions of FinalResultIsExact what callers are told of a final result, by Results or a repeated Close, is marked final and closed and is that tally, with exactly the poll's options |
| Answers.AnswerIsExactlyWhen | internal/postgres/results.go:64-92 | in every run an answered stored result is the tally of all ballots if and only if its process missed no counts and read each ballot's bucket after the ballot |
| Answers.ReadingsNeverFail | internal/redisstore/votes.go:114-164 | in every state of every run the counters and their sums are in range, so no reading fails, as long as at most 2^63 - 1 ballots are recorded |
| Finality.NoBallotAfterClose | internal/redisstore/votes.go:72-80 | without overlapping Publish and Close no ballot is recorded from the moment the poll is closed |
| Finality.NoBallotAfterCommit | internal/service/result_service.go:68-82 | in every run no ballot is recorded after the commit of a Close unless a gate it had shut was opened again |
| Gates.NoBallotUnlessReopened | internal/redisstore/scripts/vote.lua:3-5 | in every run a shut gate keeps ballots out of its bucket up to the step that opens this gate again |
| Gates.ReopenedExactlyWhen | internal/service/poll_service.go:41-47 | a closed poll with all gates shut can still count a ballot of a device if and only if a Publish past its transaction has the gate of the device's bucket ahead of it, and a vote of the device is checked or can be |
| Finality.CloseFinalizesExactlyWhen | internal/postgres/results.go:40-57 | a Close that reaches its commit closes the poll, and finalizes it if and only if it is final already, has no stored result, or the stored `captured_at` is not newer than the stamp of the Close |
| Finality.UndisturbedCloseFinalizes | internal/service/result_service.go:72-79 | with one clock a Close finalizes if no other process both stamps and commits between its own stamp and its commit |
| Finality.UnfinalizedForGood | internal/service/result_service.go:62-67 | a poll closed without finalization is never finalized once no Close is under way |
| BoundaryRuns.LateSnapshotLosesABallot | internal/postgres/results.go:40-54 | for every valid configuration, a run that ends closed, not finalized, with no Close under way and a recorded ballot missing from the stored result, and a continuation in which another snapshot stores the tally |
| BoundaryRuns.OverlappingPublishReopens | internal/service/poll_service.go:41-47 | for every valid configuration, a run with overlapping Publish and Close that records a ballot after finalization |
| BoundaryRuns.CloseAfterExpiryIsEmpty | internal/redisstore/votes.go:114-139 | for every valid configuration, a run whose Close reads after the counters expired and finalizes zero participants although a ballot was recorded |
| BoundaryRuns.RestartLosesABallot | internal/postgres/polls.go:159-168 | a run without overlap, delay or expiry in which a restart of a draft with fewer buckets lets a device be counted twice and finalizes a result that lacks its first ballot |
| BoundaryRuns.ClampedRepublishCountsTwice | internal/redisstore/votes.go:51-70 | when markers are clamped shorter than the voting window, a run with a second Publish in which one device has two ballots in the live counters |
| BoundaryRuns.MarkerOutlivesItsCounters | internal/redisstore/votes.go:90-98 | a run without clamp in which a marker is alive at the end of retention while the counters of its bucket have expired |
| BoundaryRuns.ReadingMatchesNoMoment | internal/redisstore/votes.go:114-139 | a concurrent reading of two buckets that equals the tally of no prefix of the ledger |
| Untorn.StoredResultsAreNeverTorn | internal/postgres/results.go:24-49 | in every state of every run the runtime row and all option rows hold the values and the stamp of one Totals: the sums, stamped and saved by one process at steps of the run, of the replies it had got from every bucket |
| Untorn.FinalizationIsPermanent | internal/postgres/results.go:17-57 | with no assumption on concurrency: a finalized row never changes again, closed is terminal, `captured_at` never decreases |
| PollRepository.SaveIsAllOrNothing | internal/postgres/results.go:40-49 | the separately guarded upserts replace an untorn result as a whole, exactly when the guard of the runtime row passes, or leave it as it is |
| PollRepository.FinalForever | internal/postgres/results.go:24-34 | no sequence of saves, publications and reverts changes a finalized, closed row |
| PollRepository.EveryWriteSequence | internal/postgres/polls.go:135-179 | over any sequence of writes the definition is unchanged, closed stays closed with its `closed_at`, `captured_at` never goes back, a final result stays |
| PollRepository.Repository.SaveSnapshot | internal/postgres/results.go:12-62 | the transaction commits exactly SavedRow, or nothing when it fails; it is refused only for finalizing a draft, sets status, `closed_at` and `updated_at` only when it finalizes, and answers with the stored result |
| PollRepository.Repository.LoadResult | internal/postgres/results.go:64-92 | not found without a runtime row; otherwise participants, `captured_at` and `finalized_at` of the runtime row, the poll's id and status, the source `final` exactly when `finalized_at` is set, and exactly the option rows with their counts |
| PollRepository.Repository.Publish | internal/postgres/polls.go:129-157 | draft becomes active with stamp and bucket count, active is left alone with its stamp, closed is refused; nothing changes unless it commits |
| PollRepository.Repository.RevertPublish | internal/postgres/polls.go:170-180 | undoes a publication only if the poll is active with that very stamp, and reports whether it did |
| PollRepository.Repository.ValidateActiveBuckets | internal/postgres/polls.go:159-168 | passes exactly when every active poll has this process's bucket count |
| Exactness.LedgerOfRun | internal/redisstore/votes.go:90-164 | in every state of every run: each bucket's counters are the tally of its ballots, or below it in participants if the bucket is short; there is a marker for exactly the devices with a ballot in its bucket; every reply and every Totals is that of the ballots seen, or below it in participants if counts were missing |
| Exactness.ShortExactlyWhen | internal/redisstore/scripts/vote.lua:6-14 | counters never exceed the tally of their bucket, and are that tally if and only if no ballot was recorded into it over an expired hash |
| Exactness.AccountsAfterRecord | internal/redisstore/scripts/vote.lua:3-15 | one script run keeps a bucket's counters in step with the ledger, and starts them afresh, short for good, exactly when they had expired |
| Exactness.LiveSumsExactlyWhen | internal/redisstore/votes.go:114-139 | the sums over all live hashes at one moment are the tally if and only if no bucket misses counts and every ballot is in a present bucket |
| Ballots.ShardsSumToTally | internal/redisstore/votes.go:39-42 | for any assignment of ballots to buckets, the tallies of `n` buckets add up to the tally of the whole ledger if and only if no ballot is beyond them |
| Lifetimes.UnclampedVotesLast | internal/redisstore/votes.go:51-60 | votes whose TTL is not cut keep their keys to `ends_at` + retention, however late they arrive |
| Lifetimes.KeysLastFromFirstBallot | internal/redisstore/votes.go:51-60 | clamped or not, all keys last for the TTL taken at any moment before the first ballot |
| Lifetimes.MarkersCoveredExactlyWhen | internal/redisstore/scripts/vote.lua:6-14 | `__participants` covers the live markers in every bucket and state of a run if and only if no marker ever outlives the counters of its bucket |
| Lifetimes.NoOrphanBeforeHorizon | internal/redisstore/scripts/vote.lua:6-14 | before the horizon no marker does, and `__participants` covers the live markers |
| Lifetimes.CountersLastToTheSecond | internal/redisstore/votes.go:92-92 | with TTLs taken at the instant of effect, the expiry of a bucket's counters is never a second or more before what it was at any earlier state, or before the expiry of a marker of the bucket |
| OneVote.RecordRefinesFlatVote | internal/redisstore/votes.go:90-112 | before the horizon a Record on its bucket is "insert if open and the device is absent" on the flat ledger: same answer, same ledger, and afterwards every bucket's live counters are the tally of its ballots and add up to the tally of the ledger |
| Answers.ServiceVoteIsFlatVote | internal/service/vote_service.go:28-50 | before the horizon the service answers an admissible vote, through any definition its process may have cached, as the flat ledger does: closed, already recorded if the device has a ballot, recorded otherwise |
| OneVote.TotalsAreBetween | internal/redisstore/votes.go:114-139 | no field of a reading taken while ballots arrive exceeds the exact tally at its last bucket read, in any run, and none is below the exact tally at its first unless counts were missing or ballots in other buckets |
| OneVote.TotalsAreBetweenBefore | internal/redisstore/votes.go:114-139 | before the horizon every field lies between the two |
| OneVote.QuiescentTotalsAreTally | internal/redisstore/votes.go:114-139 | a reading during which no ballot arrives is the tally if and only if no counts were missing and every ballot is in a bucket read |
| OneVote.OneBallotPerDevice | internal/service/vote_service.go:43-49 | for ever and over any number of publications: if votes reach Redis within the retention period, no vote's TTL is cut and no restart changes the bucket count of a draft with ballots, no device has two counted ballots |
| OneVote.OneBallotPerOpening | internal/redisstore/scripts/vote.lua:6-14 | even under the clamp: if TTLs are taken at the instant of effect and no gate is opened again after its bucket has a marker, every marker outlives its gate and no device has two counted ballots |
| OneVote.CountedAgainExactlyWhen | internal/redisstore/scripts/vote.lua:3-9 | in every run, a device that has voted is counted again if and only if its vote finds the gate open and its marker expired, or absent because its ballots were counted in other buckets |
| Expiry.TTL | internal/redisstore/votes.go:51-60 | the time to `ends_at` + retention, or one second if that is longer, or maxTTL if that is shorter |
| Leases.SnapshotsExcludeEachOther | internal/service/result_service.go:86-104 | if every snapshot ends within its lease, no two snapshot sections overlap and a release deletes its own lock |
| Leases.StoredTotalsNeverDecrease | internal/service/result_service.go:99-103 | with leases and bucket counts kept and no Close, stored participants and option counts never decrease before the horizon |
| Leases.CompensationUndoesOwnTransition | internal/service/poll_service.go:47-54 | with distinct request stamps, compensation takes a poll back to draft exactly when the poll is active through the transition of the same request, and otherwise changes nothing |
| Restarts.CountFixedWhileActive | internal/postgres/polls.go:150-168 | in every run of the protocol the bucket count of the processes is that of the poll as long as it stays active, restarts included |
| Restarts.CountKeptOfRun | internal/redisstore/votes.go:39-42 | if no restart changes the count of a draft with ballots, all ballots are in the buckets of one count, the present one unless voting is over |
| Shape.StoredResultIsShaped | internal/domain/poll.go:89-111 | in every run every stored result has each option count at most the participants, and their sum between participants and max_choices times participants, equal to participants for single choice |
| Shape.AnswerIsShaped | internal/postgres/results.go:64-92 | so has every stored result that is answered, with exactly the poll's options |
| Shape.LiveResultIsShaped | internal/redisstore/votes.go:114-164 | so has every live reading, whatever ballots arrive between its bucket reads and whatever expires |
| Percentages.StoredPercentages | internal/httpapi/admin_handlers.go:125-135 | for every stored result that is answered, every percentage is within 0 and 100, and a single-choice poll with participants adds up to 100, over the reals |
| Percentages.ResultResponse | internal/httpapi/admin_handlers.go:125-136 | one entry for each option, in order, with its count and its share of the participants, zero without participants |
| VoteStore.Store.RunVoteScript | internal/redisstore/scripts/vote.lua:1-15 | the script's commands together change the keys as Voted and return 1, 0 or -1 accordingly |
| VoteStore.Store.Record | internal/redisstore/votes.go:90-112 | runs the script on the device's bucket with the TTL rounded up to seconds, and maps its answer |
| VoteStore.Store.SetGates | internal/redisstore/votes.go:62-80 | sets as many gates as commands arrive, first ones first, and succeeds exactly when all arrive and the reply returns |
| VoteStore.Store.DeleteGates | internal/redisstore/votes.go:82-88 | removes the gates of all buckets and nothing else |
| VoteStore.Store.GetTotals | internal/redisstore/votes.go:114-139 | returns the exact sums over all live bucket hashes, or fails exactly when a counter or a sum is out of the int64 range |
| VoteStore.CountOfCredited | internal/redisstore/scripts/vote.lua:10-13 | one ballot adds one to the participants and one for each occurrence to its options |
| VoteStore.VotedExactly | internal/redisstore/scripts/vote.lua:1-15 | the script's answer and effect in terms of the stored gate, marker and counters and of how often each option is chosen |
| VoteStore.GatesSetOverwrites | internal/redisstore/votes.go:62-80 | setting all gates erases what a partly executed earlier pipeline left |
| VoteStore.Store.AcquireSnapshotLock | internal/redisstore/votes.go:175-177 | takes the lock exactly when nobody holds a live one |
| VoteStore.Store.ReleaseSnapshotLock | internal/redisstore/votes.go:178-180 | deletes the lock only if it carries the caller's token |
| Counters.Accumulator.AddCounters | internal/redisstore/votes.go:141-164 | for any order of the fields: succeeds exactly when all are nonnegative int64 and no exact sum overflows, and then every sum is exact and unknown fields are ignored |
| Counters.Collect | internal/redisstore/votes.go:123-138 | over all buckets: exact mathematical sums, or failure exactly when a field is no counter or a sum exceeds the int64 range |
| Counters.ParseOfDecimal | internal/redisstore/votes.go:143-146 | a rendered counter parses back to itself exactly when it fits in an int64 |
| Counters.ParseOfSigned | internal/redisstore/votes.go:143-146 | a signed decimal parses to its value exactly when it fits, and nothing but digits after a sign parses |
| Counters.RenderingIsTransparent | internal/redisstore/votes.go:129-143 | rendering and parsing the counters changes neither a total nor whether aggregation succeeds |
| Services.PollService.Publish | internal/service/poll_service.go:41-57 | row, gates, cache and answer, case by case: unanswered and lost commits, closed polls, all gates set, and a failed setup, which takes the row back to draft and the gates away if the transition was this request's own, and keeps both otherwise |
| Services.FailedPublishExactly | internal/service/poll_service.go:47-54 | after a failed setup with an answered compensation the poll is a draft without gates if and only if this request had made it active; otherwise row and gates stay |
| Services.PublishRetry | internal/service/poll_service.go:41-57 | after an attempt that failed or crashed anywhere, and any votes and snapshots since, a faultless one leaves exactly the row and keys of a single faultless Publish in their place, an active poll keeps its `published_at`, and no marker or counter changes |
| Completion.PublishCompletes | internal/service/poll_service.go:41-57 | from every reachable state in which the poll is not closed, a faultless Publish answers with the poll active, every gate open, an active poll's row unchanged, and every marker, counter and ballot in place |
| Services.ResultService.Close | internal/service/result_service.go:57-84 | row, gates, cache and answer, case by case: not found, draft, a closed poll with its stored result, failed requests, sums out of range, and otherwise the poll closed with the result that was committed, field by field |
| Services.LostAnswerIsRecovered | internal/service/result_service.go:62-65 | if the answer of a Close that committed is lost, any later Close answers with the result that commit stored, the one the lost answer carried |
| Services.ResultService.Results | internal/service/result_service.go:36-55 | the stored result of a closed poll, the exact live sums of an active one, and an error for a draft or a failed reading |
| Services.CloseRetry | internal/service/result_service.go:57-84 | after a failed or crashed attempt, and any votes and snapshots since, a faultless Close gives the row and keys of a single faultless one in their place; once closed another Close changes nothing; no attempt touches a marker or a counter |
| Completion.CloseCompletes | internal/service/result_service.go:57-84 | from every reachable state in which the poll is active, a faultless Close finalizes it with all gates shut and every marker, counter and ballot in place, and its answer, closed and final, is the tally if and only if the counters are intact |
| Services.ResultService.Snapshot | internal/service/result_service.go:86-105 | saves the exact live sums if it gets the lock and nothing fails, and always gives its lock back |
| Services.VoteService.Vote | internal/service/vote_service.go:28-50 | keys, answer and cache after a vote are VoteOutcome's, for the cached definition while it is fresh and the stored one otherwise; nothing else changes |
| Services.VoteFinds | internal/service/vote_service.go:28-50 | that outcome in terms of definition and stored keys: not found, not active outside the window or without an open gate, invalid selection; otherwise already recorded exactly while the device's marker lives, and recorded, with the marker set and every field of the bucket grown by the ballot's weight, exactly when it does not |
| Services.StaleCacheIsHarmless | internal/service/cache.go:37-39 | a vote through a stale definition changes Redis as a fresh load would if and only if it is not an admissible first vote through an open gate of a poll that is no longer active |
| Services.StaleVoteAfterClose | internal/redisstore/scripts/vote.lua:3-5 | without overlapping Publish and Close, no stale definition that the live processes can have lets a vote change the keys of a closed poll |
| Sequential.EveryPublishIsARun | internal/service/poll_service.go:41-57 | every Publish of the service, with any faults, ends in the row and keys of a run of the state machine |
| Readings.EveryCloseIsARun | internal/service/result_service.go:57-84 | every Close of the service, with any faults, ends in the row and keys of a run of the state machine |
| Sequential.EveryVoteIsARun | internal/service/vote_service.go:28-50 | a vote makes the same Record step, with the same answer, as the state machine whenever the machine can check it now, and is refused without any change when it cannot |
| Readings.EverySnapshotIsARun | internal/service/result_service.go:86-105 | so does every pass of the snapshot worker, lock included |
| Completion.SnapshotRepairs | internal/service/result_service.go:86-105 | a snapshot of a poll that is not final, closed or not, stores the tally if and only if the counters are intact, and finalizes nothing |
| PollCache.Cache.Get | internal/service/cache.go:27-48 | serves the cached poll while fresh, otherwise the loader's answer; caches a success for ttl, changes nothing on failure, and touches no other id |
| PollCache.Cache.Put | internal/service/cache.go:49-62 | caches the poll under its id for ttl and touches no other id |
| PollCache.Cache.Delete | internal/service/cache.go:63-63 | forgets the id and touches no other |
| CacheRuns.OneLoadPerEntry | internal/service/cache.go:35-40 | with concurrent callers at most one load runs on an entry, and nobody else holds it meanwhile |
| CacheRuns.HitReturnsFreshValue | internal/service/cache.go:37-39 | a Get that does not load returns a value stored for its id, in its entry, less than ttl ago |
| CacheRuns.OnlyStoresChangeEntries | internal/service/cache.go:40-47 | an entry keeps value and expiry over any stretch of a run in which no successful load and no Put stores into it, however many loads fail |
| CacheRuns.DeletedEntryNeverReturns | internal/service/cache.go:49-63 | an entry that has left the map is never in it again, even if a load on it finishes later |
| CacheRuns.GetAfterDeleteIsNew | internal/service/cache.go:27-34 | a Get that begins after a Delete of its id uses an entry that no earlier store went into |
| Deployment.ActivePollsMatchTheProcess | cmd/api/main.go:56-63 | over any sequence of validated restarts with other bucket counts, every active poll has the live process's bucket count |
| Deployment.BucketsFixedWhileActive | internal/postgres/polls.go:150-168 | while a poll stays active its bucket count and that of the process do not change |
| RateLimiter.AllowedPerWindow | internal/redisstore/votes.go:166-172 | if scripts run at most 5 s after their window was computed, a network gets exactly min(limit, calls) allowances in each window |
| RateLimiter.AtMostTwiceTheLimit | internal/redisstore/votes.go:166-172 | and at most twice the limit in any 60 s of the callers' clock |
| RateLimiter.LateCallExceedsLimit | internal/redisstore/votes.go:34-34 | a call one nanosecond over the 5 s can exceed the limit |
| RateLimiter.Limiter.AllowRate | internal/redisstore/votes.go:166-172 | increments the window's counter, starting a new one with 65 s when it is gone, and allows up to the limit |
| Listing.ListRecent | internal/postgres/polls.go:86-98 | the loop groups the joined rows as Group |
| Listing.GroupUndoesJoin | internal/postgres/polls.go:69-98 | for polls with distinct ids and at least one option, grouping the joined rows gives back the same polls, poll order and option order |
| Domain.ValidateSelection | internal/domain/poll.go:89-111 | accepts exactly the valid selections |
| Domain.SelectionExactly | internal/domain/poll.go:89-111 | a selection is valid if and only if its ids can be drawn from the poll's options, each once, and there is at least one and at most max_choices, one for single choice |
| Domain.Create | internal/postgres/polls.go:23-59 | succeeds exactly on input within the length, count, order and type rules after trimming, refuses a blank question or option, and gives a well-formed draft with the trimmed question and options in order |
| Domain.TrimSpaceCuts | internal/domain/poll.go:59-73 | what TrimSpace returns is what is left when white space, and only white space, is cut off both ends, and has none at its ends |
| Domain.TrimSpaceExactly | internal/domain/poll.go:59-73 | and nothing else is: whatever is left of such a cut is the result |
| Domain.PaddingChangesNothing | internal/domain/poll.go:59-73 | white space around question and options changes neither the verdict nor what is stored |
| Uuid.AcceptedExactly | internal/domain/poll.go:123-130 | IsUUID accepts exactly the 36-character strings of hexadecimal digits and dashes with the four dashes in place and an even number of dashes |
| Uuid.CanonicalWhenFourDashes | internal/domain/poll.go:123-130 | among strings with the four dashes in place, the canonical form is what IsUUID accepts with no further dash |
| Uuid.ExtraDashesAreAccepted | internal/domain/poll.go:127-129 | a string that is no UUID but passes IsUUID |
| Uuid.NewUUID | internal/domain/poll.go:113-121 | the result is canonical, has version 4 and the RFC 4122 variant, and keeps every other random bit |

## Left out

- FinalResultIsExact: sufficient conditions over whole runs; the exact conditions are `FinalResultExactlyWhen` and `FinalResultExactlyWhenCountersLast`.
- OneBallotPerDevice: sufficient conditions over whole runs; the exact condition for a single vote is `CountedAgainExactlyWhen`.
- LateSnapshotLosesABallot: the boundary runs use one or two buckets; the theorems hold for any number.
- UndisturbedCloseFinalizes: one direction; the exact condition, on the row at the commit, is `CloseFinalizesExactlyWhen`.
- Restart: all replicas restart at once, with one bucket count; a single replica that restarts with the same count is a crash of its processes.
- Vote: the loader's answer is computed before the cache lookup; loading has no effect, and `Cache.Get` reports whether it is used.
- LedgerOfRun: HINCRBY failing on a counter beyond the int64 range is not modelled; counters in the model are unbounded and reading fails where the code's sums would overflow.
- WholeSeconds: the code rounds a float64 number of seconds up; the model rounds the integer up.
- SetGates: the Redis client sends the TTL of a gate in whole seconds or truncated milliseconds; the model uses it exactly, so real gates end at most a millisecond earlier.
- Time: one clock for all processes and stores. PostgreSQL keeps time stamps in microseconds, which can only turn a strict order into a tie.
- Duration arithmetic that saturates beyond 292 years.
- SHA-256, HMAC and cookies: a digest is any function, a device is its hash.
- Key strings: keys are structured values; poll ids contain neither `:` nor braces, so the strings differ whenever the values do.
- Redis data loss, failover and cluster moves; a command, a script and a multi-key DEL are atomic, a pipeline is not.
- GetByID and LoadResult as requests: reads of PostgreSQL are answered; writes, pipelines and Redis reads can fail.
- SQL, isolation levels and connection errors beyond "no effect", "effect without answer" and "answered".
- Slugs, the public poll page, JSON decoding, HTTP routing, status codes, templates, QR codes and OpenAPI.
- Metrics: counters and cumulative histograms updated in place would only add easy members.
- ListActive: a filtered read of the poll rows; in the state machine a live result is a `Viewing` reader.
- The snapshot ticker: a worker pass is a snapshot step at any time.
- Configuration parsing and migrations: bucket count, retention and maxTTL are assumed positive.
- Floating point: percentages are real numbers.
