# Request admission, event funnel and accounting: a verified model

The model covers the parts of the repository that keep promises over whole runs.

**Admission for the BrsApi key.** `RateLimiting` is the asyncio limiter, one lock section at a
time: value functions for the sections and a `RateLimiter`/`Bucket` pair of classes that updates
the same state in place and is proved equal to them. `AdmissionProtocol` interleaves N tasks
between the awaits of `acquire`, with clock ticks, day changes, cancellations, `status()` and
`configure()` at any point, and keeps a log of every grant ever made. `AdmissionWitness` holds the
runs that reach the proved bounds. `TokenBuckets` is the balance of tokens of one category,
`DebtWitness` says for which numbers of tasks, capacities and request sizes the token-bucket bound
holds, `LoneAcquire` is the termination of an undisturbed call.

**The persistent budget.** `ReservationProtocol` is the Redis day counter shared by any number of
processes, with the reserve script, the two-command release, lost replies, failing commands and
midnight. `HeadRoom` bounds what non-critical traffic can use, `SharedWindow` is the five-minute
window processes share in a sorted set, `BudgetGovernor` the object with its gates and the cooldown after
an HTTP 302, `FileRestart` the file backend across crashes and restarts, `RetryClient` the retry
loop and the day's total of GETs, `CircuitBreaking` the breaker. `AdmissionStack` runs the day
counter, the shared window and the limiters of all processes together.

**Events.** `JobStatus` is the job state machine, `EventFunnel` the dedupe ring in front of it,
refined against a funnel that remembers every id.

**Accounting.** `UsageRecording` (flushes of several workers), `Importing` (counters against what
a transaction keeps), `ThreadLimiters` (the two limiters that check and record in one section),
`DailyMerge` (merging rows by date) and `SmaBacktest` (no look-ahead, trades against turnover).

`Prelude` holds an option type and `Cap(limit, n)`, the bound `limit - 1 + n`; `Windows` holds the
facts about ascending time stamps that all sliding windows share.

Every operation that the whole-run theorems are about is also described field by field, in lemmas
that mention neither its specification function nor its body (`CheckSection`, `TakeSection`,
`ProgressWrites`, `RestartResumes`, `AcquireIff` and their like).

A protocol is a state, a label per atomic step, `Enabled`, `Next`, and `Run` over sequences of
labels; a property of "every run" quantifies over all legal sequences. Clocks and calendars are
parameters and never go back. Real numbers stand for floats.

## Where the code does not do what its texts say

- `acquire` says all limits are enforced; it checks in one lock section and records in another, so
  N tasks can exceed each cap by N - 1, and not by more (`DailyCapHolds`, `WindowCapHolds`). The
  daily cap's excess is reached whatever the window limit (`DailyOvershootIsReached`), the window
  cap's within a day when the window limit is at most the daily limit (`OvershootIsReached`). A
  window over one midnight holds exactly up to the smaller of its own cap and twice the daily cap
  (`WindowOverOneMidnight`, `MidnightOvershootIsReached`). The shared window of `_enforce_5min` has the same slack
  (`SharedWindowCapHolds`, `SharedOvershootIsReached`).
- The clamp `max(0.0, tokens - n)` at brsapi/rate_limiter.py:323 forgives debt in two cases: when
  acquires of one category overlap (`OverlapForgivesDebt`) and when a request is larger than the
  bucket (`OversizeOutgrowsBucket`). With N tasks, capacity m and requests of at most n tokens the
  bound holds exactly if N = 0, n = 0, or N = 1 and n <= m (`BoundHoldsIff`).
- The soft ceiling is the larger of the soft and the warning percentage, because the gate returns
  early below the warning threshold (`GateSheds`).
- `_release_daily` is a decrement and a conditional delete; a reservation that lands in between is
  forgotten. Two callers suffice, no command has to fail, and the excess has no bound
  (`LateDeleteLosesReservation`): within a day, with no failing reserve command, the daily cap holds
  exactly if the limit is not positive or there is at most one caller (`DailyCapHoldsIff`).
  `DriftIsUncleanSteps` says exactly which steps make the counter differ from what was granted or is
  held.
- `_daily_used` answers 0 when its read fails. Each gate passed that way can add one non-critical
  grant to the head-room, but none to the hard cap (`HeadRoomIsReserved`, `HardCapHolds`).
- "Only ever moves the count UP": the count in the file can drop on its date exactly while the
  process runs on that date and memory holds less for it (`PersistedCountDropsIff`) - as after a
  302 or 200 report was written on a day the limiter had not entered yet. Every installation that
  can issue a request can get there (`StaleCountIsReplacedIff`).
- "Blocking until midnight" is not what the file and memory backends do in fail-fast mode: the gate
  sees the count of the earlier day, so a later day sees a fail-fast request exactly if that count
  is below the limit and, for non-critical traffic, below the ceiling (`NewDayOpensIff`). A blocking
  call, a status() call or a restart resets the count.
- The funnel is exactly-once if and only if no redelivery is more than 1024 accepted ids late
  (`RingIsExactlyOnceIffTimely`); "absolute counters" make a late duplicate harmless exactly
  if its group had no event of its own since, or the last of them carries the same kind and
  counters (`LateDuplicateIsHarmlessIff`).
- "A partial update can never degrade the cached record": a payload with as many fields as the
  stored result, but other ones, replaces it (`ResultKeepsFieldsIff`).
- "Counters are only cleared after a successful commit" leaves out what is recorded on a day between
  the flush reading it and popping it: that much is lost (`FlushLosesLateRecords`).
- The equity curve earns a trade's stretch one day earlier than the closes the trade itself is
  booked at (`EquityEarnsADayBeforeTheTrade`).
- A cancelled call leaves the circuit breaker half open (`CancelledProbeStaysHalfOpen`).

## Model

| member | source | states |
|---|---|---|
| Windows.NewerThanIsSuffix | brsapi/rate_limiter.py:168-178 | the prune keeps a suffix: everything dropped is at least five minutes old, and in time order everything kept is younger |
| Windows.NewerThanTwice | brsapi/rate_limiter.py:168-178 | pruning again with a later cutoff gives what the later prune alone would |
| Windows.NewerThanAppend | brsapi/rate_limiter.py:168-216 | recording a young stamp commutes with the prune |
| Windows.SpreadBoundsCount | brsapi/rate_limiter.py:168-178 | if stamps m places apart are a window apart, no half-open window holds more than m |
| Windows.SpreadAppend | brsapi/rate_limiter.py:168-216 | appending a stamp keeps that spacing when at most m stamps are younger than the window |
| RateLimiting.PassMeansRoom | brsapi/rate_limiter.py:180-209 | a check passes exactly when the day and the pruned window both have room; a full window always gives a positive wait; the waits and the rejection are as specified; the case of a limit of zero or less that indexes an empty deque is singled out |
| RateLimiting.CheckSection | brsapi/rate_limiter.py:154-209 | field by field: a check enters the day with its count or none, drops from the front the stamps five minutes old and touches nothing else; pass, rejection and wait follow from what is then there |
| RateLimiting.TakeSection | brsapi/rate_limiter.py:274-294 | field by field: a missing category starts full at 30 a minute, an unlimited one is not charged, a limited one is charged if its level covers the request, else the wait is the rest over a sixtieth of the capacity; other buckets stay, only a grant is counted and stamped |
| RateLimiting.ConsumeSection | brsapi/rate_limiter.py:318-324 | field by field: the bucket keeps its level less the request, not below zero; the request is counted and stamped |
| RateLimiting.ConfigureSection | brsapi/rate_limiter.py:225-238 | a bucket that is there keeps the level it has under its old limit, a new one is full, and the new limit flows in once a minute |
| RateLimiting.TakeCounters | brsapi/rate_limiter.py:274-294 | the bucket section records exactly when it grants and otherwise leaves count, date and window alone |
| RateLimiting.ConsumeCounters | brsapi/rate_limiter.py:318-324 | the last section always records, on the day of the call |
| RateLimiting.Bucket.constructor | brsapi/rate_limiter.py:51-65 | a new bucket is full |
| RateLimiting.Bucket.Refill | brsapi/rate_limiter.py:67-70 | the level grows by elapsed time times rate, up to the capacity |
| RateLimiting.RateLimiter.PruneWindow | brsapi/rate_limiter.py:168-178 | the popping loop leaves the stamps newer than the cutoff |
| RateLimiting.RateLimiter.Configure | brsapi/rate_limiter.py:225-238 | an existing bucket is refilled under its old limits and keeps its tokens, a new one is full, every other bucket is untouched |
| RateLimiting.RateLimiter.CheckGlobals | brsapi/rate_limiter.py:260-269 | verdict and new state of the check section, the object's other fields unchanged |
| RateLimiting.RateLimiter.TakeTokens | brsapi/rate_limiter.py:274-294 | verdict and new state of the bucket section: unlimited, paid, or the seconds until the deficit is refilled |
| RateLimiting.RateLimiter.ConsumeTokens | brsapi/rate_limiter.py:318-324 | new state of the last section: refilled, spent down to zero at most, recorded |
| RateLimiting.RateLimiter.Status | brsapi/rate_limiter.py:328-343 | the counters reported are those of the day and window at the call |
| AdmissionProtocol.DailyReset | brsapi/rate_limiter.py:154-166 | the reset of a new day keeps the count covering that day's grants and the tasks past a check within the cap |
| AdmissionProtocol.DailyRecord | brsapi/rate_limiter.py:211-214 | recording by a task past a check turns its held slot into a count of the day, so neither the cap nor the cover is lost |
| AdmissionProtocol.WindowRecord | brsapi/rate_limiter.py:211-216 | recording by a task past a check keeps the deque the suffix of the history and the history spread out |
| AdmissionProtocol.DailyStep | brsapi/rate_limiter.py:154-324 | every step keeps: count plus tasks past a check and not recorded is within limit - 1 + N, and the count covers the day's grants |
| AdmissionProtocol.DailyCapHolds | brsapi/rate_limiter.py:154-324 | in every interleaving no day has more than daily_limit + N - 1 grants, and the count never passes that |
| AdmissionProtocol.WindowStep | brsapi/rate_limiter.py:168-324 | every step keeps: the deque is the grant history newer than the last cutoff, and recent grants plus tasks past a check are within limit - 1 + N |
| AdmissionProtocol.WindowCapHolds | brsapi/rate_limiter.py:168-209 | in every interleaving every half-open 300 s window of the whole history has at most five_min_limit + N - 1 grants |
| AdmissionProtocol.LoneTaskMeetsBothLimits | brsapi/rate_limiter.py:258-324 | with one task both limits are exact |
| AdmissionProtocol.CheckLeads | brsapi/rate_limiter.py:259-271 | a check leaves its task past it, out, or asleep to look again after what it was told, ten seconds at most |
| AdmissionProtocol.BucketLeads | brsapi/rate_limiter.py:273-324 | the bucket section leaves its task granted or asleep for its deficit; the last section always grants, and a grant is logged for the request that was asked, on the day it is made |
| AdmissionWitness.OvershootIsReached | brsapi/rate_limiter.py:258-290 | for all limits and all N some run makes the smaller limit plus N - 1 grants in one day and one window |
| AdmissionWitness.DailyOvershootIsReached | brsapi/rate_limiter.py:258-290 | for every daily limit, every window limit and every N some run makes daily_limit + N - 1 grants in a day, waiting five minutes once per full window |
| AdmissionWitness.WindowOverOneMidnight | brsapi/rate_limiter.py:154-209 | a five-minute window whose grants fall on two days holds at most the smaller of five_min_limit + N - 1 and 2 * (daily_limit + N - 1) |
| AdmissionWitness.MidnightOvershootIsReached | brsapi/rate_limiter.py:154-324 | for all limits and every N some run reaches that bound |
| TokenBuckets.StepBalances | brsapi/rate_limiter.py:67-324 | every step: tokens granted plus the new level is at most the old level plus refill plus forgiven debt |
| TokenBuckets.RunBalances | brsapi/rate_limiter.py:67-324 | the same along every run that does not reconfigure the category |
| TokenBuckets.TokensGrantedAreBounded | brsapi/rate_limiter.py:280-296 | for any number of tasks, tokens granted along a stretch of a run are at most capacity plus rate times time plus what the clamp forgave |
| TokenBuckets.CoveredStep | brsapi/rate_limiter.py:292-324 | with one task and requests for the category that fit its bucket, a task past its deficit sleep finds its tokens there |
| TokenBuckets.LoneTokenBucketBound | brsapi/rate_limiter.py:280-324 | for non-overlapping acquires that fit: over any stretch at most capacity plus rate times time, and the clamp never bites, whatever other categories do |
| TokenBuckets.SleepCoversDeficit | brsapi/rate_limiter.py:292-296 | after sleeping deficit over rate the bucket holds exactly the tokens asked for |
| DebtWitness.BoundHoldsIff | brsapi/rate_limiter.py:280-324 | with N tasks, capacity m and requests of at most n tokens every stretch of every run stays within the bound if and only if N = 0, n = 0, or N = 1 and n <= m |
| DebtWitness.OverlapForgivesDebt | brsapi/rate_limiter.py:292-324 | for every capacity two or more tasks asking for single tokens can break the bound |
| DebtWitness.OversizeOutgrowsBucket | brsapi/rate_limiter.py:292-324 | one task asking for more than the capacity can break the bound, in no time at all |
| LoneAcquire.SleepHelps | brsapi/rate_limiter.py:180-271 | every sleep a check asks for, however late its wake-up, lowers the number of sleeps still possible |
| LoneAcquire.SleepBoundIsSmall | brsapi/rate_limiter.py:180-209 | that number is at most a day of ten-second sleeps plus the window's size plus thirty |
| LoneAcquire.CheckDecides | brsapi/rate_limiter.py:260-269 | a check passes exactly when both limits have room and rejects exactly a fail-fast call on a used-up day; a day with room keeps it |
| LoneAcquire.WaitForGlobals | brsapi/rate_limiter.py:259-271 | the loop ends within the bound; it passes exactly for a blocking caller or a day with room, and at once if both limits have room |
| LoneAcquire.AcquireAlone | brsapi/rate_limiter.py:240-324 | an undisturbed acquire is granted exactly if it may block or the day has room, after at most the bound plus one sleeps in all; a grant is recorded within both limits, counted once and stamped now, the category's bucket is left with its level of that moment less the request - which covers it if it fits the capacity - and no other bucket changes; a rejected call is turned away at once with nothing counted or charged |
| LoneAcquire.PayBucket | brsapi/rate_limiter.py:273-324 | from the third layer on: no sleep and no time if the level covers the request or the category has no limit, else one sleep at least as long as the deficit over the rate |
| LoneAcquire.CheckOrSleep | brsapi/rate_limiter.py:259-271 | one turn of the loop lasts exactly the asked wait, ten seconds at most, plus the late wake-up, and lowers the number of sleeps still possible |
| LoneAcquire.MidnightBeginsNextDay | brsapi/rate_limiter.py:186-191 | the wait for midnight ends when the next day begins, and not before |
| LoneAcquire.SleepAndConsume | brsapi/rate_limiter.py:296-324 | after one sleep of at least the asked length and no other, the bucket is charged its level of that moment and the request counted once |
| ReservationProtocol.OwedStep | brsapi/budget.py:471-560 | granted plus held tokens change only when a reservation is obtained or given back |
| ReservationProtocol.LedgerHolds | brsapi/budget.py:65-560 | in every run, faults and midnights included, a day's counter is granted plus held tokens plus booked drift |
| ReservationProtocol.DriftIsUncleanSteps | brsapi/budget.py:515-560 | drift changes exactly at: a refused request that was counted anyway, a lost reply, a failed reserve command whose fallback read disagrees with what the server counted, a failed release, a release on another day, a delete of a key in use |
| ReservationProtocol.CounterIsExact | brsapi/budget.py:471-513 | without such steps the counter equals granted plus in-flight tokens, so a rejected or cancelled request leaves no trace |
| ReservationProtocol.HardCapHolds | brsapi/budget.py:65-496 | for any number of processes a day's granted and held tokens stay within the limit unless a step makes the counter miss tokens; with the script the counter does too |
| ReservationProtocol.DailyCapHoldsIff | brsapi/budget.py:471-560 | over all runs within a day without a failing reserve command, cancellations, lost replies and failed releases included, the granted tokens stay within the limit if and only if the limit is not positive or there is at most one caller |
| ReservationProtocol.LateDeleteLosesReservation | brsapi/budget.py:548-556 | for every positive limit, two or more callers and every k, undisturbed steps within one day grant k tokens |
| HeadRoom.PercentReached | brsapi/budget.py:421-434 | the floor-division percentage reaches p exactly from ceil(p * limit / 100) on |
| HeadRoom.GateSheds | brsapi/budget.py:412-439 | a non-critical request passes exactly below the hard limit and below the ceiling |
| HeadRoom.GateInPercent | brsapi/budget.py:421-439 | a critical request passes below the limit; any other one if its usage is also below the warning or the soft percentage of the limit |
| HeadRoom.HeadRoomIsReserved | brsapi/budget.py:412-496 | with N callers and one-token requests non-critical grants of a day are at most ceiling + N - 1, one more for each gate whose read failed, and at most the limit, whatever critical traffic is mixed in |
| HeadRoom.HeadRoomIsReached | brsapi/budget.py:412-496 | for every limit, both percentages and every N some run without failed reads reaches that bound |
| SharedWindow.PruneSparesWindow | brsapi/budget.py:572 | a prune below the start of a window takes no stamp of it |
| SharedWindow.AboveKeepsRest | brsapi/budget.py:572 | a prune takes every score up to its cutoff and no other |
| SharedWindow.KeptStep | brsapi/budget.py:562-600 | pruning with stale clock readings never removes a stamp of a window that is still open |
| SharedWindow.CappedStep | brsapi/budget.py:562-600 | every command keeps: stamps of any window plus callers that may still stamp it are within limit - 1 + N |
| SharedWindow.SharedWindowCapHolds | brsapi/budget.py:562-600 | with N callers in any processes every half-open 300 s window holds at most five_min_limit + N - 1 recorded requests, and the set holds all of the current window |
| SharedWindow.SharedOvershootIsReached | brsapi/budget.py:562-600 | for every limit and N some run reaches that bound |
| SharedWindow.SortedSet.ZRemRangeByScore | brsapi/budget.py:572 | exactly the scores above the cutoff stay |
| SharedWindow.SortedSet.Oldest | brsapi/budget.py:581 | the least score, or none of an empty set |
| SharedWindow.EnforceOnce | brsapi/budget.py:570-583 | let in exactly with room, rejected exactly when full and fail-fast, otherwise asleep until the oldest stamp leaves, cut to between 0.1 and 10 s, and unless cut to 10 long enough for it to leave |
| SharedWindow.EnforceAlone | brsapi/budget.py:562-583 | undisturbed: a fail-fast call passes exactly with room and never sleeps, a blocking one always passes after finitely many sleeps |
| SharedWindow.RecordUsed | brsapi/budget.py:589-599 | the set afterwards is the young stamps plus this request's |
| BudgetGovernor.RedisStore.EvalReserve | brsapi/budget.py:65-75 | the script refuses with -1 and no change exactly when the limit would be passed |
| BudgetGovernor.BudgetGovernor.GateDailyUsage | brsapi/budget.py:412-439 | open exactly below warning, below the soft ceiling or for critical requests; the warning is stamped with the day |
| BudgetGovernor.BudgetGovernor.ReserveDaily | brsapi/budget.py:483-542 | reserved exactly within the limit; only the plain INCRBY counts a refused request |
| BudgetGovernor.BudgetGovernor.ReleaseDaily | brsapi/budget.py:548-556 | gives n tokens back to today's key, dropping the key at zero, other days untouched |
| BudgetGovernor.BudgetGovernor.PassGates | brsapi/budget.py:471-496 | a reservation is made exactly by a fail-fast call past gate and limit; the counter grows by it, or by a refused request that was counted anyway |
| BudgetGovernor.BudgetGovernor.PassWindows | brsapi/budget.py:498-513 | a fail-fast call is granted exactly with room in the shared window and on the limiter's day, a blocking one always; a granted request is stamped and recorded, a rejected one leaves neither |
| BudgetGovernor.BudgetGovernor.Acquire | brsapi/budget.py:449-513 | through block, gates, reservation, shared window and limiter: granted exactly if none objects; a fail-fast grant adds n to the day, one stamp, one record and the charge of its bucket, a rejected call nothing, except for a refused request that was counted anyway |
| AdmissionStack.ConsistentStep | brsapi/budget.py:498-513 | every step of the three layers together keeps: each grant is booked by its process and on the day counter, and no request is stamped without a grant |
| AdmissionStack.AllLayersHold | brsapi/budget.py:449-513 | in one run of any number of processes the day's tokens, the requests of any five minutes over all processes, and both caps of every process hold together, and the books of the layers agree |
| BudgetGovernor.BlockOutlastsCooldown | brsapi/budget.py:622-655 | after a 302 the block reaches at least to the end of its cooldown whatever is reported later |
| BudgetGovernor.CooldownRejects | brsapi/budget.py:328-655 | no acquire that begins within the cooldown of a reported 302 passes in that process |
| BudgetGovernor.OkClearsAfterCooldown | brsapi/budget.py:647-655 | once every 302 is older than the cooldown a 200 clears the record |
| FileRestart.GrantCounts | brsapi/rate_limiter.py:154-221 | a granting step adds one to the count of its day, any other keeps it or resets it for the day |
| FileRestart.EventInv | brsapi/budget.py:251-603 | every event, crashes and restarts included, keeps memory and file covering today's issued requests |
| FileRestart.RestartResumes | brsapi/budget.py:251-289 | a restarted limiter has entered today with exactly the count the file carries for today, or none, and an empty window |
| FileRestart.FileFollowsMemory | brsapi/budget.py:302-318 | a grant and a report write today's date over the count in memory, nothing else writes the file, and a crash after the write issues nothing |
| FileRestart.RestartOpensIff | brsapi/budget.py:251-289 | after a restart a fail-fast request can still be issued that day if and only if the count the file carries for today is below the limit (for non-critical traffic also below the ceiling) and the limiter can grant at all |
| FileRestart.RestartsGetNoFreshBudget | brsapi/budget.py:251-603 | across any number of crashes and restarts a day's issued requests are at most daily_limit + N - 1, and today's at most the persisted count |
| FileRestart.PersistedCountDropsIff | brsapi/budget.py:251-324 | some history, crashes and restarts included, lowers the persisted count on its date if and only if the process runs on that date and memory holds less for it |
| FileRestart.StaleCountIsReplacedIff | brsapi/budget.py:302-318 | from a first boot some history reaches such a state if and only if the installation can issue a request: a task and both limits at least one |
| FileRestart.NewDayOpensIff | brsapi/budget.py:472-496 | with nobody inside, and only fail-fast calls, no status() and no restart, a later day sees a request if and only if the count of the earlier day is below the limit (for non-critical traffic also below the ceiling) and the limiter can grant at all |
| FileRestart.ExhaustedBudgetStaysShut | brsapi/budget.py:472-496 | with the count at the limit and nobody inside, fail-fast calls issue nothing on any later day without status() or a restart |
| RetryClient.DoFetch | brsapi/client.py:279-404 | no GET without a grant and at most max_retries + 1; each but the last was answered by 429/502/503/504, a timeout or a transport error; a 302 ends it, is reported and gives quota exceeded; success and its report come from a parsed 200 alone; every other last reply fails |
| RetryClient.GetsStopAtFirstFinal | brsapi/client.py:295-404 | one GET per attempt up to the first reply that is not retried |
| RetryClient.GetsAreBounded | brsapi/client.py:279-404 | whatever is answered, GETs of a day are at most (max_retries + 1) times its granted tokens |
| RetryClient.DayOfRequestsIsBounded | brsapi/client.py:279-404 | on Redis, for any number of processes and any answers, the retry loops of a day's grants send at most (max_retries + 1) * daily_limit GETs |
| CircuitBreaking.CircuitBreaker.Call | core/circuit_breaker.py:25-40 | the function is reached unless the breaker is open and its timeout not over; the state follows the call's ending, cancellation included |
| CircuitBreaking.StateTellsFailingRun | core/circuit_breaker.py:25-53 | for sequential calls failure_count is the length of the current failing run; open implies the threshold is reached, closed that it is not |
| CircuitBreaking.OpenBreakerRecovers | core/circuit_breaker.py:25-53 | an open breaker turns calls away exactly until its timeout has passed since the failure that opened it; then a success closes it with no failures left and a failure opens it again from that moment |
| CircuitBreaking.CancelledProbeStaysHalfOpen | core/circuit_breaker.py:25-44 | a call leaves the breaker half open if and only if it is cancelled after getting through an open or half-open one |
| CircuitBreaking.FailuresAreSpaced | core/circuit_breaker.py:28-53 | past the threshold each call that reaches a failing function waited a full timeout after the failure before it |
| CircuitBreaking.DeadServiceIsSpared | core/circuit_breaker.py:25-53 | against an always-raising function at most threshold + floor(T / timeout) calls reach it in time T |
| JobStatus.HandlingTwiceIsHandlingOnce | api/job_state.py:161-291 | any event delivered twice in a row does what once does |
| JobStatus.LateDuplicateIsHarmlessIff | api/job_state.py:185-230 | a group event delivered again after any run of group events leaves table and totals as they are if and only if its group had no own event meanwhile or the last one has the same kind and counters; otherwise it sets its row back |
| JobStatus.FinalTotals | api/job_state.py:233-261 | after the final event the totals agree with the groups exactly if it was zeroed or carried the sums |
| JobStatus.RowsFollowOwnEvents | api/job_state.py:185-303 | a group's row depends only on its own events in their order, and the totals always equal the sums |
| JobStatus.InterleavingDoesNotMatter | api/job_state.py:185-303 | interleavings of the same per-group streams end in the same table and totals |
| JobStatus.ProgressWrites | api/job_state.py:185-209 | PROGRESS: the group takes the payload's total and completed, keeps its failed count and runs; it and the symbol become current; nothing else changes but the overall sums; an unknown group changes nothing |
| JobStatus.GroupCompletedWrites | api/job_state.py:212-230 | GROUP_COMPLETED: total processed or the old total, failed, the rest completed but not below 0, succeeded, and the next group current |
| JobStatus.CompletedWrites | api/job_state.py:233-269 | COMPLETED: the event's status or SUCCESS, nothing current, every group succeeded with its counters, and the event's counters or the sums |
| JobStatus.SymbolUpdatedWrites | api/job_state.py:278-291 | a symbol's result alone changes: a payload with fewer fields is merged over a stored one, any other takes its place |
| JobStatus.JobState.HandleEvent | api/job_state.py:161-179 | the new state is that of the event's handler, and it tells whether a snapshot is broadcast |
| JobStatus.ClosedGroupBalances | api/job_state.py:220-225 | a closed group's completed count is never negative, and completed plus failed is its total exactly if no more failed than were processed |
| JobStatus.JobState.AllDone | api/job_state.py:240-269 | every group is closed and the totals are the payload's, or the sums if it is zeroed |
| JobStatus.ResultKeepsFieldsIff | api/job_state.py:278-291 | a stored result keeps every field exactly if the payload has fewer fields or all of its fields; the payload's fields are always stored and other symbols untouched |
| JobStatus.JobState.RecomputeOverall | api/job_state.py:294-299 | the totals become the sums over the groups |
| EventFunnel.TimelyStep | api/ws_manager.py:129-201 | on one delivery the bounded ring acts like unlimited memory exactly if neither id is a late repeat |
| EventFunnel.RingIsExactlyOnceIffTimely | api/ws_manager.py:93-201 | after every delivery of a run job state and client sends are those of exactly-once processing if and only if every redelivery is timely |
| EventFunnel.ExactlyOnce | api/ws_manager.py:153-201 | unlimited memory handles the first delivery of each id and no other |
| EventFunnel.DuplicatesAreHarmless | api/ws_manager.py:93-201 | under timely redelivery the ring's job state is that of handling first deliveries once, in order |
| EventFunnel.RecentIdIsDropped | api/ws_manager.py:153-159 | a delivery whose own id is among the last 1024 accepted changes nothing at all |
| EventFunnel.NewIdIsDelivered | api/ws_manager.py:153-201 | a delivery with a new id of its own goes out under that id before the snapshot it triggers, is handled once, and both ids are remembered in that order |
| EventFunnel.OwnIdDecides | api/ws_manager.py:156-157 | only a delivery without an id of its own uses the one made for it |
| EventFunnel.EchoIsDropped | api/ws_manager.py:93-98 | the echo of a delivery is dropped, whatever came in between, as long as fewer than 1024 other ids were accepted meanwhile, snapshots included |
| EventFunnel.ArmorWsManager.MarkSeen | api/ws_manager.py:129-146 | first sight exactly if the id is not among the last 1024 accepted; ring and set keep the same distinct ids, those last 1024 |
| EventFunnel.ArmorWsManager.MakeRoom | api/ws_manager.py:139-143 | the eviction loop drops from both structures together until 1023 ids are left |
| EventFunnel.ArmorWsManager.Broadcast | api/ws_manager.py:153-201 | clients get the raw event before the snapshot it triggers; a duplicate reaches neither clients nor job state |
| EventFunnel.ArmorWsManager.BroadcastSnapshot | api/job_state.py:92-116 | the snapshot is deduplicated like any message and not fed back |
| UsageRecording.LedgersMove | brsapi/usage_recorder.py:91-191 | what a step adds to the table or the losses it takes from memory or from what was recorded |
| UsageRecording.BooksBalance | brsapi/usage_recorder.py:91-191 | for every day, over all workers and runs: recorded plus counted twice is table plus memory plus lost |
| UsageRecording.FlushLosesLateRecords | brsapi/usage_recorder.py:133-191 | a finished flush loses exactly what was recorded on a day after it read it; a failed one changes neither table nor memory |
| UsageRecording.NothingIsLost | brsapi/usage_recorder.py:122-191 | with nothing recorded in that gap, failed commits included, table plus memory is everything recorded |
| UsageRecording.UsageRecorder.RecordUsed | brsapi/usage_recorder.py:91-96 | today's count grows by the tokens, unless disabled or not positive |
| UsageRecording.UsageRecorder.Flush | brsapi/usage_recorder.py:122-191 | undisturbed: a commit moves every day's count into the table and empties memory, a failure changes neither |
| ThreadLimiters.CrawlerLimiter.TryAcquire | z.py:77-107 | verdict and new state of the section, the midnight clear included |
| ThreadLimiters.AcquireIff | z.py:77-107 | granted exactly below the daily limit, with room in the burst and five seconds after the last request; otherwise the wait is half a second past the moment the oldest stamp leaves, or the rest of the five seconds |
| ThreadLimiters.PassKeepsInv | z.py:75-115 | every pass through the section, refunds and the midnight clear included, keeps the grants spaced and the day's grants covered by its count plus its refunds |
| ThreadLimiters.GrantMeansSpaced | z.py:77-107 | a grant comes only five seconds after the one before and below the daily limit; a full burst always waits |
| ThreadLimiters.CrawlerKeepsItsLimits | z.py:75-115 | even across the midnight clear grants are MIN_DELAY apart, a window of m delays holds at most m, and a day has at most its limit plus its refunds |
| ThreadLimiters.TwoPerTenSeconds | z.py:75-107 | any ten seconds hold at most two grants |
| ThreadLimiters.YoungerIsPrune | backtest_collector.py:50 | on stamps in time order the list filter is the deque prune of the other limiters |
| ThreadLimiters.WindowLimiter.KeepYounger | backtest_collector.py:50 | the filter keeps the requests younger than the window, in order |
| ThreadLimiters.WindowLimiter.TryOnce | backtest_collector.py:48-54 | verdict and new list of the section |
| ThreadLimiters.TryIff | backtest_collector.py:48-54 | granted and noted exactly with room among the younger requests; otherwise the wait is a tenth of a second past the moment the oldest of them leaves |
| ThreadLimiters.CollectorLimitIsExact | backtest_collector.py:46-58 | for any number of threads no half-open window has more grants than the limit |
| DailyMerge.MergeIsLeftBiasedUnion | backtest_collector.py:132-141 | the file is strictly increasing in date, has the dates of both sides, and no existing row is replaced |
| DailyMerge.FileHoldsFirstRows | backtest_collector.py:132-139 | the file holds exactly the dated rows of both that are the first of their date, existing ones counting first |
| DailyMerge.BeforeIsLexicographic | backtest_collector.py:141 | a proper prefix comes first, and otherwise the date whose first differing character is lower |
| DailyMerge.MergeInStages | backtest_collector.py:120-144 | merging a and then b is merging a + b |
| DailyMerge.MergeAgainIsMergeOnce | backtest_collector.py:120-144 | merging the same batch again changes nothing |
| DailyMerge.OrderedListIsUnique | backtest_collector.py:132-141 | a list strictly increasing in date is determined by its rows per date |
| DailyMerge.SaveSymbolData | backtest_collector.py:120-144 | the dedupe loop and the sort produce that merge |
| Importing.ValidateAndPersist | bulk_importer/orchestrator.py:235-360 | past the first commit every counter is the number of results of its kind, failures are FAILED or UNSUPPORTED in the database by kind, and files newly SAVED there are the saved counter less those discarded by later rollbacks; if no save and no commit fails, none is discarded and every valid result with a record is SAVED |
| Importing.SaveOneBooks | bulk_importer/orchestrator.py:318-351 | every turn of the save loop keeps: saved is durable plus pending plus discarded |
| Importing.SaveOneEnds | bulk_importer/orchestrator.py:318-351 | a full batch, counted in files with a record, ends the transaction, committed or thrown away; before that a save waits in it as SAVED and a failing one throws it away and leaves its file FAILED |
| Importing.FailingSaveDiscardsBatch | bulk_importer/orchestrator.py:335-339 | a failing save discards exactly the SAVED files of the open batch and leaves the saved counter as it was |
| Importing.Classify | bulk_importer/orchestrator.py:247-297 | every failure is counted and marked by its kind, and the valid results are kept in order |
| SmaBacktest.NoLookAhead | build_symbol_reports.py:476-483 | series that agree on their first k closes have the same positions up to day k and the same equity up to day k - 1 |
| SmaBacktest.HeldAfterCrossing | build_symbol_reports.py:476-479 | on day i the position is held exactly if fifty closes lay behind on day i - 1 and the last twenty averaged more than all fifty |
| SmaBacktest.DayEarns | build_symbol_reports.py:480-482 | a held day earns the change of the close, a flat one nothing, and a day whose position differs from the one before pays the fee |
| SmaBacktest.EquityEarnsDays | build_symbol_reports.py:482-483 | the equity starts at one and each day multiplies it by one plus the day's earnings |
| SmaBacktest.Trades | build_symbol_reports.py:474-502 | fees charged in vector form are two per completed trade plus one if a position is open; trades are disjoint whole stretches of holding, priced at their switches; short series are not traded |
| SmaBacktest.HoldingTelescopes | build_symbol_reports.py:480-483 | over held days the fee-free equity grows by a ratio of closes |
| SmaBacktest.EquityEarnsADayBeforeTheTrade | build_symbol_reports.py:478-502 | over a trade's stretch the fee-free equity earns the closes one day before those the trade is booked at |

## Left out

- Redis, HTTP, SQL, WebSocket and file operations themselves: each is one atomic step on a counter, set, table, transaction or file, with the failures named above; key expiry is not modelled.
- Threshold notifications, per-endpoint counts, logging and dashboards: no effect on the state the claims are about.
- The clock is read once per lock section, except in z.py, whose three readings are modelled; clocks and calendars never go back, and processes share one clock.
- Tokens of a request are natural numbers.
- LoneAcquire.AcquireAlone: one undisturbed task only, with both limits at least one; under contention the code gives no bound on the wait.
- ReservationProtocol.HardCapHolds: says nothing about calls that are not fail-fast, which on Redis never touch the day counter.
- ReservationProtocol.CounterIsExact: needs runs whose delete finds the key at zero, since the code's release is not atomic.
- HeadRoom.HeadRoomIsReserved: one-token requests, which is what every fetch asks for, and runs without a step that makes the counter miss tokens.
- SharedWindow.SharedWindowCapHolds: fault-free commands; a failing command lets the request through uncounted.
- BudgetGovernor.CooldownRejects: one process; the block written to Redis is read only at start-up, and loading it is not modelled.
- BudgetGovernor.BudgetGovernor.Acquire: one undisturbed call; for a counter below zero a rejected call's effect on it is not stated, since it depends on the delete; wall clock and monotonic clock run alike, and no Redis command fails.
- AdmissionStack.AllLayersHold: fail-fast callers, and steps that make no counter miss tokens; a caller may do more in the layers than the code's order allows, except being granted.
- FileRestart.RestartsGetNoFreshBudget: file writes succeed, one process at a time, and initialisation runs before the first status().
- RetryClient.DayOfRequestsIsBounded: a GET counts for the day its budget was reserved on, also when it is sent after midnight.
- JobStatus.InterleavingDoesNotMatter: group events only, handled one at a time; ETA, time stamps and the rounded percentage are left out.
- EventFunnel.RingIsExactlyOnceIffTimely: deliveries are processed one at a time; the connection set and the pruning of dead sockets are left out.
- UsageRecording.BooksBalance: one flush at a time per worker; the counter of 302 blocks and the newest time stamps are left out.
- ThreadLimiters.CrawlerLimiter.TryAcquire: the sleeping loop around the section and the writing of the state file are left out.
- DailyMerge.SaveSymbolData: the library sort is an insertion sort; rows without a usable date are dropped as in the source.
- Importing.ValidateAndPersist: error texts, file registration, the dry run and chunked loading are left out.
- SmaBacktest.NoLookAhead: real-valued positive closes without missing rows; drawdown, Sharpe ratio, growth rate, halted-day filter and RSI are left out.
- `check_allowed`, the wiring of client, governor and breaker in `fetch`, and the crawler and report scripts: they only combine what is modelled here.
