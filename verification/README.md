# A verified model of the ARCP v1.1 Go SDK core

This project models, in Dafny, the parts of the Agent Runtime Control Protocol SDK whose
correctness is hard to see from the code, and proves what the protocol promises about them:

* **Lease authority** (sections 9.4 and 9.6 of the ARCP v1.1 draft): the segment glob matcher, the
  pattern inclusion check `Covers`, the delegation check `IsLeaseSubset`, and the budget counters of a
  running lease (`Text`, `Glob`, `Leases`, `Budget`, `Metering`, `Numbering`).
* **Sessions, resume and the event log** (sections 6.3, 6.5 and 8.3): the bounded log and its gap check,
  delivery across a resume, the outbox and job-handle close barriers, resume entries and sequence
  allocators across reconnects, and server shutdown (`EventLog`, `Replay`, `OutboxBarrier`,
  `HandleBarrier`, `Sessions`, `Shutdown`).
* **Jobs, idempotency and streaming** (sections 7.2, 7.3 and 8.4): the race for a job's terminal
  transition, once-only submission, the chunk writer against the client's reassembler, and the client's
  acknowledgement counters (`Jobs`, `Idempotency`, `Codec`, `Streams`, `Acks`).
* **Job listing** (section 6.6): the bounded-heap page selection and pagination by cursor (`JobOrder`,
  `JobHeap`, `Cursors`, `Listings`, `Paging`).

`dafny verify dfyconfig.toml` verifies the whole project.

## How the code is modelled

Objects that the Go code updates in place (`eventlog.Memory`, `lease.State`, `idstore.Memory`, the resume
table, `Job`, `streamedResult`, `JobContext`, `maxJobHeap`) are classes. Their methods are proved against
specification functions, and the theorems about whole histories are proved about those functions. What such a
function computes is in turn stated without it, on the method or in a lemma of its own. Loops of the source
stay loops.

Where goroutines race, the model is a state machine that advances by one mutex-protected section, channel
operation, atomic operation or WaitGroup operation at a time, for any number of participants. `Step` is
total: an action whose turn has not come changes nothing. So a theorem about `Run(acts)` for every sequence
`acts` is a theorem about every interleaving.

Conventions: amounts are exact reals; time is an integer nanosecond count; a string is a sequence of
characters, one per byte. `uint64` wrap-around is written out where the code can reach it (the gap checks
of the server and the client, the unsigned ack lag), and so is the int sum in `listJobs`. A WaitGroup counts
down, releases its waiter and lets it return in three operations, and panics on reuse in between. The decimal
parser, `canonicalizeTarget`, clocks, contexts and the largest capacity the runtime allocates are parameters.
Freshly minted session ids, tokens, allocators and job ids are assumed distinct, and the parameter hash of a
submit is assumed injective. Progress is stated over schedules: a run that gives each participant its turns
in order, with anything in between, gets there.

## What turned out to need a condition

The model follows the code where it and its documentation part ways. A promise that does not hold
everywhere is given the condition under which it does, for all inputs or all runs. Where the text says iff or
exactly, the member is an equivalence; elsewhere it is a fact about every run, or a run that shows the failure:

* `IsLeaseSubset` compares budget entries one by one while `NewState` adds them up, so a child can start with
  more than its parent has left exactly when it repeats a currency (`Leases.TotalsFitIffNoRepeat`). An expiry
  left out in the middle of a delegation chain removes the bound (`Leases.ExpiryBoundIffAllGiven`).
* The gap check does not look when `last_event_seq` is 0 or the log is empty; exactly then can a resume be
  truncated silently (`EventLog.SilentTruncationIff`). It rejects a resume that lost nothing exactly when the
  oldest retained number leaves a gap that no dropped entry accounts for, which a credential rotation produces
  (`EventLog.WrongfulRejectionIff`, `EventLog.UnloggedNumberRejects`). When appends are out of order, every
  accepted resume is complete iff each dropped number lies below the retained ones
  (`EventLog.AcceptedReplaysAllIff`, `EventLog.OutOfOrderLosesEvents`). The check and the replay look at the log
  at different times, and entries dropped in between are missed (`EventLog.EvictedAfterCheckIff`,
  `EventLog.AwayTooLongIff`, `Replay.AcceptedResumeMissesOnly`).
* A resume whose handshake fails after the claim has spent its entry (`Sessions.FailedHandshakeIsFinal`). The
  second expiry test in `claimResume` can never succeed after the purge above it.
* A `JobHandle` finished first without result and without error, and then again, closes its done channel twice
  (`HandleBarrier.ChannelsMisusedIff`). Its WaitGroup can be reused before `Wait` has returned, which panics. With
  all deliveries on the one read loop, that stays possible until a finisher is past `Wait`, unless the finisher is
  the read loop itself (`HandleBarrier.MisusePossibleIff`); a delivery timeout gets there
  (`HandleBarrier.TimeoutRunPanics`). It is excluded when nothing registers between the close of the done channel
  and the return of `Wait` (`HandleBarrier.QuietNeverPanics`), so when only the read loop finishes
  (`HandleBarrier.LoopFinishNeverPanics`). The outbox barrier is immune (`OutboxBarrier.OutboxNeverPanics`).
* A UTF-8 stream survives iff no segment boundary cuts a character (`Streams.StreamRoundTrip`,
  `Streams.CutLetterIsCorrupted`). A stream whose final chunk is missing when the job ends is assembled as if it
  were complete (`Streams.LostTailIsSilent`).
* All attached credentials have been handed to revocation iff there are none, or the winner was no discard and
  nothing was attached after it revoked (`Jobs.AllRevokedIff`).
* Stored and sent status of a job agree unless a success does not marshal, which stores success and reports an
  error (`Jobs.WinnerDecides`).
* A submit that fails after storing its idempotency entry blocks the key until the entry is swept
  (`Idempotency.FailedSubmitBlocksKey`). The once-only promise of a key survives until the next sweep iff no submit
  working for the key serves an entry that is gone or replaced (`Idempotency.PromiseHoldsIff`), and a sweep
  endangers it iff it removes the entry under such a submit (`Idempotency.SweepBreaksIff`,
  `Idempotency.OutlivedEntryBreaksOnce`). Two principals can share a composed key iff one extends the other past
  a NUL (`Idempotency.KeysCollideIff`).
* The 5% accuracy of the remaining-budget metric holds for metrics that do not overlap
  (`Budget.RemainingMetricBounds`). When they do, a call reports, decides and emits in separate steps. The balance
  it remembers is accurate whatever the calls cost iff the call that decides last is the one that reported last
  (`Metering.AccurateIff`). That does not help the client, who sees the event with the highest number
  (`Numbering.RememberedIsNotNumbered`). The balance in that event is accurate, whichever calls take part and
  whatever they cost, iff each gets its number in the order of the reports (`Numbering.AlwaysCurrentIff`). The
  bound of 20 positive balances survives while calls decide in the order of their reports
  (`Numbering.AtMostTwenty`); without that order there is none (`Numbering.NoBoundOtherwise`).
* A list cursor that is a bare job id selects by id while pages are ordered by time; following it returns the later
  ids iff no earlier id turns up behind the first page (`Paging.BareIdPagesIff`).
* `listJobs` panics iff its limit exceeds the largest capacity a page can be allocated for; limit + 1 wraps only
  beyond that (`Listings.ListJobs`).

One promise is proved in part: `Covers` is sound for all patterns, and complete for children whose stars stand
alone (`Glob.CoversIffIncluded`) and for children without stars (`Glob.CoversOnConcreteChild`), but not in general
(`Glob.CoversIsConservative`).

## Model

| member | source | states |
|---|---|---|
| `Text.SplitJoins` | internal/glob/glob.go:85-90 | splitting on a separator leaves separator-free parts that join back to the text |
| `Glob.SegmentsJoin` | internal/glob/glob.go:85-90 | the empty path has no segments; any other has segments free of `/` that join back to it |
| `Glob.SegmentMatchesIffFloats` | internal/glob/glob.go:125-149 | a segment is the pattern's literal parts with arbitrary text at each star iff it starts with the first part and the others can be placed in order in the rest |
| `Glob.LeftmostSuffices` | internal/glob/glob.go:142-148 | placing a part at its leftmost occurrence loses no solution and invents none |
| `Glob.ScanParts` | internal/glob/glob.go:142-149 | the greedy loop decides whether the remaining parts can be placed at all |
| `Glob.LiteralSegmentMatch` | internal/glob/glob.go:125-149 | the greedy scan accepts exactly the wildcard language of the segment pattern |
| `Glob.MatchIffCut` | internal/glob/glob.go:92-123 | recursive matching accepts exactly the targets that can be cut into one piece per pattern segment, `**` standing for any number of segments |
| `Glob.MatchSegmentsSearch` | internal/glob/glob.go:92-123 | the search over split points decides segment matching |
| `Glob.CoversSearch` | internal/glob/glob.go:36-68 | the search over split points decides the inclusion relation |
| `Glob.CoversIffFits` | internal/glob/glob.go:36-83 | a parent covers a child iff the child's segments can be cut into one piece per parent segment: any piece, wildcards included, for `**`; one segment other than `**` for `*`; for any other segment itself, or one literal segment it matches |
| `Glob.CoversSound` | internal/glob/glob.go:12-83 | if the parent covers the child, every target the child matches the parent matches, for all patterns and targets |
| `Glob.CoversReflexive` | internal/glob/glob.go:36-83 | every pattern covers itself |
| `Glob.CoversTransitive` | internal/glob/glob.go:36-83 | coverage composes |
| `Glob.CoversOnConcreteChild` | internal/glob/glob.go:12-83 | for a child without wildcards, coverage holds iff the parent matches the child read as a target |
| `Glob.CoversIffIncluded` | internal/glob/glob.go:12-83 | for a child whose stars stand alone and a parent without segments of three or more stars, coverage holds iff every target the child matches the parent matches |
| `Glob.CoversIsConservative` | internal/glob/glob.go:12-83 | a pattern pair with genuine inclusion that the check refuses |
| `Leases.ParsesIff` | lease.go:69-87 | an entry is read as a currency and amount iff it is spelt currency, colon, decimal, with a currency all upper or all lower case and a decimal that is not negative |
| `Leases.CheckBudget` | lease.go:173-188 | accepts iff every entry parses and is within what the parent has left in that currency; which failure each error stands for |
| `Leases.CheckPatterns` | lease.go:194-205 | accepts iff every child pattern is covered by some parent pattern |
| `Leases.IsLeaseSubset` | lease.go:171-210 | accepts iff every other capability is the parent's with each pattern covered by one of the parent's, every budget entry parses and is within what is left, and expiries given on both sides are in order; whatever the order of map iteration; which failure each error stands for |
| `Leases.ChainNeverWidens` | lease.go:171-210 | along a delegation chain of any length every operation the last lease grants is granted by the first |
| `Leases.ExpiryBoundIffAllGiven` | lease.go:206-208 | the last expiry of a passing chain is bounded by the first, for all times, iff no expiry is omitted |
| `Leases.TotalsFitIffNoRepeat` | lease.go:173-188 | the per-entry comparison bounds the totals of all accepted budgets iff nothing is affordable or no currency with something left is repeated |
| `Leases.AcceptedBudgetFits` | lease.go:171-210 | an accepted child naming a currency once has a total within the parent's remaining amount |
| `Budget.InitialIsTotal` | internal/lease/validate.go:25-41 | a starting counter is the sum of its currency's entries and exists for exactly the currencies listed |
| `Budget.EntryAdds` | internal/lease/validate.go:25-41 | an entry adds its value to its own currency and no other, a malformed one changes nothing |
| `Budget.SumEntries` | internal/lease/validate.go:32-39 | the summing loop skips malformed entries and yields those counters |
| `Budget.State.constructor` | internal/lease/validate.go:25-41 | counters start at the initial budget |
| `Budget.State.Matches` | internal/lease/validate.go:222-234 | grants iff some pattern of the capability matches the canonical target |
| `Budget.State.ValidateOp` | internal/lease/validate.go:104-124 | admits an operation iff the lease has not expired, some pattern grants it and every currency has something left; which refusal stands for which test, in their order |
| `Budget.State.ValidateAndDebit` | internal/lease/validate.go:138-173 | admits iff validation would and the amount is there, and then takes exactly that; a refusal changes nothing and says which test failed |
| `Budget.State.DebitCounter` | internal/lease/validate.go:182-196 | takes an amount of a budgeted currency iff it is not negative and there; unbudgeted currencies are let through unchanged |
| `Budget.State.ReportCost` | internal/lease/validate.go:209-220 | always lowers a budgeted counter, even past zero |
| `Budget.Conservation` | internal/lease/validate.go:104-220 | over any history each counter is its initial value minus granted debits minus reported costs |
| `Budget.NeverRises` | internal/lease/validate.go:104-220 | no operation ever raises a counter |
| `Budget.GrantsWithinBudget` | internal/lease/validate.go:126-196 | without reports the total granted never exceeds the initial budget and no counter goes negative |
| `Budget.ExhaustionIsFinal` | internal/lease/validate.go:97-173 | once any counter is used up every later validation or reservation is refused and changes nothing |
| `Budget.AdmittedWithinChain` | internal/lease/validate.go:104-173 | what is admitted under the last lease of a delegation chain, at any point of any history, the first lease grants |
| `Budget.JobContext.EmitMetric` | server/jobcontext.go:196-214 | an uninterrupted cost metric of a budgeted currency lowers its counter by its value and is followed by an event if nothing is left; any other metric changes nothing |
| `Budget.JobContext.MaybeEmitRemaining` | server/jobcontext.go:216-239 | when the remaining balance is emitted and remembered |
| `Budget.RemainingMetricBounds` | server/jobcontext.go:196-239 | when metrics do not overlap: after each cost metric the latest event of its currency shows a balance within 5% of the budget of the true one, the true one if nothing is left, and at most 20 events show a positive balance |
| `Budget.MeterCounts` | server/jobcontext.go:196-214 | the counters of a run of metrics and other operations are those of the same history of reports and operations, so conservation holds of it |
| `Metering.OverlapCounts` | server/jobcontext.go:196-214 | and so they are however metrics overlap with each other and with debits |
| `Metering.OverlapStaysNear` | server/jobcontext.go:216-232 | however metrics overlap, the remembered balance is within 5% of the one the latest decision was made on |
| `Metering.AccurateIff` | server/jobcontext.go:196-232 | an order of reports and decisions leaves an accurate balance remembered, whatever the calls cost, iff the call that decided last reported last |
| `Numbering.InReportOrderIsCurrent` | server/jobcontext.go:196-239 | if every call gets its number in the order of the reports, the balance in the event with the highest number is within 5% of the true one, whatever the calls cost and however they decide |
| `Numbering.AlwaysCurrentIff` | server/jobcontext.go:196-239 | the balance with the highest number is accurate, whichever of the calls take part and whatever they cost, iff every call gets its number and numbers are given in the order of the reports |
| `Numbering.RememberedIsNotNumbered` | server/jobcontext.go:231-238 | two calls that report and decide in order but number their events in the opposite order: the remembered balance is accurate for all costs, the one with the highest number is not |
| `Numbering.AtMostTwenty` | server/jobcontext.go:196-239 | however many calls overlap, if they decide in the order of their reports at most 20 positive balances are emitted |
| `Numbering.NoBoundOtherwise` | server/jobcontext.go:196-239 | for every n some overlap of calls emits n positive balances |
| `EventLog.Memory.Append` | internal/eventlog/eventlog.go:71-85 | appends, evicts the oldest past the bound, touches no other session |
| `EventLog.Memory.Since` | internal/eventlog/eventlog.go:88-99 | the retained entries above a number, in log order |
| `EventLog.Memory.Oldest` | internal/eventlog/eventlog.go:119-133 | the minimum of the retained numbers, or none |
| `EventLog.Memory.Trim` | internal/eventlog/eventlog.go:136-153 | keeps the entries above a number, leaves no empty key, touches no other session |
| `EventLog.Memory.ResumeCovered` | server/session.go:118-127 | what the gap check accepts, including the uint64 wrap |
| `EventLog.LogIsSuffixOfHistory` | internal/eventlog/eventlog.go:71-153 | with appends in order the log is a suffix of everything appended, under any mix of append, eviction and trim |
| `EventLog.ReplayCompleteIff` | server/session.go:292-308 | a replay is complete iff no dropped entry lies above its start |
| `EventLog.AcceptedResumeReplaysAll` | server/session.go:118-127 | a resume the check has accepted against a non-empty log replays every logged event above last_event_seq, in order |
| `EventLog.GapCheckIsExact` | server/session.go:118-127 | when every number was logged the check rejects iff an event above last_event_seq was dropped or the sum wraps |
| `EventLog.SilentTruncationIff` | server/session.go:118-127 | with appends in order, whatever was never logged: an accepted resume has lost an event iff the check did not look and an entry above last_event_seq was dropped |
| `EventLog.WrongfulRejectionIff` | server/session.go:118-127 | with appends in order: a resume that lost nothing is rejected iff the oldest retained number lies beyond last_event_seq + 1 and no dropped entry above last_event_seq explains it |
| `EventLog.AcceptedReplaysAllIff` | server/jobcontext.go:307-309 | whatever the order of appends: every accepted resume the check looks at replays everything above it iff each dropped number is at most 1 or below all retained ones |
| `EventLog.EvictedAfterCheckIff` | server/session.go:118-127 | a resume accepted by a check that looked is incomplete when it reads the log iff an entry above last_event_seq was dropped in between |
| `EventLog.AwayTooLongIff` | server/session.go:292-308 | with only appends in between, iff they push out an entry above last_event_seq |
| `Replay.SortSorts` | server/session.go:300-302 | the replay order is ascending and holds every entry exactly as often as the log |
| `Replay.Outbox.ReplayBuffered` | server/session.go:292-308 | enqueues the retained entries above the start in that order |
| `Replay.StepKeepsInv` | server/session.go:236-248 | every step of senders and sessions keeps an event that the live resumed session must see delivered, pending in its replay, or with a sender that will still reach it |
| `Replay.NoEventLost` | server/session.go:236-327 | in every interleaving a current, live, replayed session has been handed every event above last_event_seq whose send has returned, except those dropped before it read the log |
| `Replay.SentIsDelivered` | server/session.go:236-284 | in every interleaving and for every session, fresh or resumed: an event whose sender looked while the session was the one to send to, and whose send has returned, is in its outbox unless it has ended |
| `Replay.OutboxAccounted` | server/session.go:236-308 | everything in an outbox was sent to that session or read from the log above its last_event_seq |
| `Replay.MissedHadLeft` | server/session.go:292-327 | an event a current, live, replayed session was not handed had been evicted or trimmed before the session read the log |
| `Replay.StaysCurrent` | server/server.go:132-158 | a session that has become current stays so until another one does or it is cleared |
| `Replay.EverySendReturns` | server/session.go:236-284 | a send returns in every run that gives it its turns |
| `Replay.EveryReplayEnds` | server/session.go:292-308 | a replay ends in every run that gives it one turn per entry read and one more |
| `Replay.AcceptedResumeMissesOnly` | server/session.go:118-308 | a resume whose gap check looked and passed misses, once it has replayed, only events dropped between the check and its reading of the log |
| `OutboxBarrier.OutboxNeverPanics` | server/session.go:270-342 | in every interleaving of senders, back-pressure sends and closers nothing is sent on the closed outbox, it is closed at most once and only when every sender has returned, and its WaitGroup is never reused before Wait has returned |
| `OutboxBarrier.ClosingOnlyAdvances` | server/session.go:270-342 | once closing, nobody joins the wait, nobody moves a sender back, and its own steps bring it nearer to returning |
| `OutboxBarrier.EveryFairRunDrains` | server/session.go:329-342 | once closing and cancelled, every run that gives each registered sender its turns to give up, leave and release, whatever else happens in between, empties the wait |
| `OutboxBarrier.EveryFairRunCloses` | server/session.go:329-342 | and every run that gives each sender those turns and then the closer its own ends with the channel closed, for any number of senders at any point |
| `OutboxBarrier.SenderCanMove` | server/session.go:270-284 | after cancellation an unreturned sender always has a step of its own, whatever the transport does |
| `OutboxBarrier.OnlySendingLeaves` | server/session.go:270-284 | until the session is cancelled a sender leaves its select only by sending, and only into room |
| `OutboxBarrier.OpenTakesClosedRefuses` | server/session.go:270-284 | an open outbox with room takes the envelope of any newcomer, a closing one turns it away without counting it in |
| `HandleBarrier.ChannelsMisusedIff` | client/handle.go:334-437 | over every interleaving a handle channel is sent on after its close or closed twice iff the first finish carried neither result nor error and another finish follows |
| `HandleBarrier.ChannelsNeverMisused` | client/handle.go:334-437 | with finishers that carry an outcome no channel is misused, and none is closed while a delivery still selects on it |
| `HandleBarrier.MisusePossibleIff` | client/handle.go:334-437 | from any state without a panic that deliveries on the one read loop can reach, some such continuation reuses the WaitGroup before Wait has returned iff no finisher is past Wait and none is the read loop itself |
| `HandleBarrier.TimeoutRunPanics` | client/handle.go:368-395 | from any state with the handle unfinished and no delivery under way, a delivery that times out, its asynchronous fail and the next delivery can run into that panic |
| `HandleBarrier.QuietNeverPanics` | client/handle.go:334-437 | a run in which nothing registers between the close of the done channel and the return of Wait never panics |
| `HandleBarrier.LoopFinishNeverPanics` | client/handle.go:334-437 | a handle that only the read loop finishes never panics |
| `HandleBarrier.LooksBeforeSending` | client/handle.go:334-354 | a registered delivery goes on to the events channel iff the done channel is open |
| `HandleBarrier.WaitsForDeliveries` | client/handle.go:421-437 | Wait goes through at once iff nobody is registered |
| `HandleBarrier.EveryFinishCloses` | client/handle.go:421-437 | a finisher past Wait closes both channels in every run that gives it its turns |
| `Sessions.ResumeTable.Purge` | server/server.go:257-272 | removes exactly the expired entries and reports them |
| `Sessions.ResumeTable.ClaimResume` | server/server.go:330-361 | claims iff the entry is there, unexpired, and token and principal are right; which refusal stands for which test; every unexpired entry but the claimed one stays as it was |
| `Sessions.ClaimSparesOthers` | server/server.go:324-361 | a failed claim leaves every unexpired entry as it was and a successful one only its own is gone |
| `Sessions.StepKeepsInv` | server/server.go:88-130 | every step keeps ids exclusive, tokens unspent and unique, and one registered allocator per resumable id that has not fallen behind |
| `Sessions.OneHolderPerId` | server/server.go:524-545 | over every run an id has at most one session, and none while it has a resume entry |
| `Sessions.TokenAcceptedOnce` | server/server.go:330-361 | over every run no two claims with the same resume token succeed |
| `Sessions.NumbersNeverRepeat` | server/server.go:84-130 | over every run all numbers of an id come from one allocator and are 1, 2, 3, ... across resumes |
| `Sessions.HelloStarts` | server/server.go:113-124 | over every run a fresh hello makes a session with an allocator of its own, at 0 |
| `Sessions.NextNumber` | server/server.go:85-98 | a session's allocator is its id's and hands out the number after all it has handed out |
| `Sessions.RightClaimResumes` | server/server.go:304-361 | after a drop, whatever others do and whatever wrong claims are made before the expiry, the claim with the session's token and principal succeeds, and the resumed session continues the same allocator |
| `Sessions.FailedHandshakeIsFinal` | server/session.go:112-147 | a handshake that fails after its claim leaves the session unresumable for ever, with any token |
| `Shutdown.DoneMeansDrained` | server/server.go:276-302 | sessionsDone is closed only when the server is closing and no session is registered, and Close waits only for sessions it has cancelled |
| `Shutdown.NoLostWakeup` | server/server.go:288-302 | once the server is closing and drained, sessionsDone is closed or will be by at most two steps already under way |
| `Shutdown.EveryRunWakes` | server/server.go:288-302 | once closing and drained, every continuation that gives the calls under way and Close their turns, whatever else happens in between, ends with sessionsDone closed |
| `Shutdown.EveryCloseReturns` | server/server.go:570-601 | once sessionsDone is closed, Close returns in every run that gives it its turns |
| `Shutdown.RegistersIffOpen` | server/server.go:274-286 | a call registers its session iff the server is not closing when it looks |
| `Shutdown.StashesIffOpen` | server/server.go:524-545 | a session that ends without session.close leaves a resume entry iff the server is not closing when its call looks |
| `Shutdown.NoResumeAfterClose` | server/server.go:570-601 | after the first Close has returned no resume entry exists, then or later |
| `Jobs.Job.SetStatus` | server/job.go:143-152 | never overwrites a terminal status; the same transition as in the race |
| `Jobs.Job.MarkTerminal` | server/job.go:154-163 | wins once and freezes the status it was given; the same transition as in the race |
| `Jobs.Job.ReplaceCredentialValue` | server/job.go:201-212 | succeeds iff the id is attached, returns the value it had, keeps all ids |
| `Jobs.Job.RevokeAll` | server/job.go:398-408 | hands every attached id to revocation in order, once |
| `Jobs.AtMostOneTerminal` | server/job.go:221-396 | under any race at most one terminal envelope is sent, it is the winner's, and a discard sends none |
| `Jobs.FirstMarkWins` | server/job.go:154-163 | whoever marks first wins, and the job has ended once anyone has marked |
| `Jobs.WinnerDecides` | server/job.go:221-396 | which status each kind of winner stores and which envelope it sends: job.result for a success that marshals, nothing for a discard, job.error otherwise; stored and sent status agree unless a success does not marshal |
| `Jobs.EveryWinnerSends` | server/job.go:221-396 | once somebody has won, the envelope is sent in every run that gives the winner its turns |
| `Jobs.StatusFrozen` | server/job.go:143-163 | whatever follows the winning transition, the status stays the one it chose |
| `Jobs.RevokedBeforeNotified` | server/job.go:221-408 | when the terminal envelope is sent, every credential attached before the transition has been handed to revocation, in order and once |
| `Jobs.RevocationIsFinal` | server/job.go:113-122 | after revocation, or a discard, nothing more is ever handed over |
| `Jobs.HandedAtRevocation` | server/job.go:398-408 | what is handed over is exactly what had been attached when the winner revoked, in order, whatever follows |
| `Jobs.CredsAreAttached` | server/job.go:201-212 | a job carries exactly what was attached to it, in order, rotated or not |
| `Jobs.AllRevokedIff` | server/job.go:398-408 | once the winner is through, all attached credentials have been handed over iff there are none, or it was no discard and nothing was attached after it revoked |
| `Idempotency.KeysCollideIff` | internal/idstore/idstore.go:135-137 | exactly which principals can collide |
| `Idempotency.KeyInjective` | internal/idstore/idstore.go:135-137 | the composed key determines principal and key when principals are NUL-free |
| `Idempotency.Memory.PutIfAbsent` | internal/idstore/idstore.go:73-88 | stores iff absent, returns what is stored, does nothing under a finished context |
| `Idempotency.Memory.SetAccepted` | internal/idstore/idstore.go:92-104 | caches the acceptance on an existing entry only |
| `Idempotency.Memory.Sweep` | internal/idstore/idstore.go:119-133 | removes exactly the entries older than the cutoff and counts them |
| `Idempotency.Memory.SweepIdle` | server/server.go:250-253 | never removes an entry younger than the TTL and, when it works, leaves none older |
| `Idempotency.OncePerKey` | server/session.go:704-778 | unless a sweep removes this key's entry under a submit working for it, whatever happens to other keys, any interleaving starts at most one run per entry and every acceptance names the entry's job |
| `Idempotency.PromiseHoldsIff` | server/session.go:704-793 | from any reachable state, whatever submits do until the next sweep, the once-only promise of a key is kept iff it is kept now and no submit working for the key serves an entry that is gone or replaced |
| `Idempotency.StaleBreaks` | server/session.go:719-793 | such a submit breaks the promise by its own next steps, be it an owner or a retry about to replay an acceptance |
| `Idempotency.SweepBreaksIff` | internal/idstore/idstore.go:119-133 | a sweep endangers the promise of a key iff it removes the entry while a submit is working for it |
| `Idempotency.EntriesStayApart` | server/session.go:704-778 | with NUL-free principals an entry answers only the pair that stored it |
| `Idempotency.FailedSubmitBlocksKey` | server/session.go:719-757 | after an owner fails, no submit under the key is accepted or started until the entry is swept |
| `Idempotency.AnsweredIff` | server/session.go:704-731 | a submit owns its key iff the key is free, is answered by the cached acceptance iff it has the stored parameters and there is one, and is refused otherwise; only an owner changes the store |
| `Idempotency.EveryOwnerRuns` | server/session.go:732-776 | an owner announces its job and starts it in every run that gives it its turns and neither fails it nor sweeps |
| `Codec.Base64RoundTrip` | server/jobcontext.go:356-357 | decoding undoes encoding for all byte strings, and encoded text is ASCII (section 4 of RFC 4648) |
| `Codec.SymbolIsRfc` | server/jobcontext.go:356-357 | the 64 characters are the alphabet of the standard, in its order |
| `Codec.EncodeIsRfc` | server/jobcontext.go:356-357 | four characters spell the 24 bits of three bytes; one or two bytes are filled up with zero bytes, `=` for each character that spells only those |
| `Codec.EncodeAppends` | server/jobcontext.go:356-357 | whole groups of three are encoded one after the other |
| `Codec.DecodesIff` | client/handle.go:295-299 | text decodes iff it is whole groups of four from the alphabet, the last one or two characters possibly `=` |
| `Codec.ValidIffScalars` | server/jobcontext.go:354-355 | a byte string is valid UTF-8 iff it encodes a sequence of Unicode scalar values (section 3 of RFC 3629) |
| `Codec.JsonKeepsIff` | server/jobcontext.go:354-355 | JSON carries a string unchanged iff it is valid UTF-8, lengthens it otherwise, and always delivers valid UTF-8 |
| `Streams.StreamedResult.Write` | server/jobcontext.go:329-372 | takes a write whole iff the stream is open and a positive cap leaves room, and otherwise changes nothing; what it takes is cut into numbered chunks and counted |
| `Streams.StreamedResult.EmitSegments` | server/jobcontext.go:345-371 | the loop emits the pieces in order under consecutive numbers |
| `Streams.WriteCuts` | server/jobcontext.go:341-370 | the pieces are full but for the last, none is empty, and together they are the bytes written |
| `Streams.StreamedResult.Close` | server/jobcontext.go:375-391 | emits one empty final chunk, once |
| `Streams.ChunksNumbered` | server/jobcontext.go:329-372 | over any writes the chunks carry the segments in order, numbered 0, 1, 2, ... |
| `Streams.SegmentsHoldWritten` | server/jobcontext.go:329-372 | the segments are exactly the accepted bytes, the recorded size counts them and respects a positive cap, and none exceeds the chunk size |
| `Streams.SortedKeys` | client/handle.go:271-275 | the accumulator's numbers, ascending and complete |
| `Streams.AssembleAccum` | client/handle.go:270-304 | a number missing below the highest is a gap; then a chunk that does not decode is an error; otherwise the chunks 0, 1, 2, ... are decoded and joined, and an unknown encoding yields nothing |
| `Streams.AssembleChunks` | client/handle.go:263-307 | nothing, one result, or a refusal of several |
| `Streams.CollectChunks` | client/handle.go:214-261 | what is collected up to the final chunk, the end of the job or of the caller's context, with the size cap and the encoding check |
| `Streams.CutIsFirstStop` | client/handle.go:234-259 | the collector stops at the end or behind the first final chunk it selects before it sees the job end, and nowhere else |
| `Streams.TallyHolds` | client/handle.go:218-233 | unless a chunk exceeds a positive cap or mixes encodings, the accumulators hold every result's encoding and the latest text under each number, and nothing else |
| `Streams.FirstRefused` | client/handle.go:218-233 | the first chunk that does decides the refusal, the cap before the encoding |
| `Streams.TwoResultsRefused` | client/handle.go:263-269 | chunks of two results are refused |
| `Streams.InterruptedIff` | client/handle.go:234-259 | the caller's context ends collecting iff it ends before the job is seen to end and before a final chunk; otherwise collecting ends where it would have |
| `Streams.InterruptedOutcome` | client/handle.go:249-250 | and the caller is then told so, unless what came before was refused |
| `Streams.UndisturbedOutcome` | client/handle.go:214-261 | without an interruption by the caller, the outcome is what was collected |
| `Streams.StreamRoundTrip` | client/handle.go:214-307 | for any writes and whatever the collector takes of their chunks, in any order and repetition, with the final one among them: a missing chunk is an error, and otherwise the result is the bytes written iff the stream is base64 or every segment is valid UTF-8 |
| `Streams.ArrivalsRoundTrip` | client/handle.go:214-307 | whenever the job ends: if everything has arrived by the first final chunk, in any order and repetition and within the cap, the result is the bytes written iff the stream is base64 or every segment is valid UTF-8 |
| `Streams.SentRoundTrip` | client/handle.go:214-307 | in particular for the chunks as they were sent |
| `Streams.TooLargeIff` | client/handle.go:218-222 | a stream is refused as too large iff the text taken exceeds a positive cap |
| `Streams.LostTailIsSilent` | client/handle.go:249-258 | if the job ends before the final chunk has arrived, the segments received come back as the whole result, which they are iff none is missing |
| `Streams.CutLetterIsCorrupted` | server/jobcontext.go:345-355 | a two-byte letter cut by the chunk size becomes two invalid segments, and no complete delivery brings it back |
| `JobOrder.KeyOrder` | server/server.go:770-777 | the list order is irreflexive, transitive and total |
| `JobOrder.StrLessIff` | server/server.go:770-777 | ids compare in byte order: a proper prefix first, otherwise by the first difference |
| `JobHeap.RootIsMax` | server/server.go:779-793 | the root of a heap sorts last |
| `JobHeap.MaxJobHeap.Push` | server/server.go:779-793 | keeps heap order and adds exactly the entry |
| `JobHeap.MaxJobHeap.Down` | server/server.go:779-793 | restores heap order below the root and permutes |
| `JobHeap.MaxJobHeap.ReplaceTop` | server/server.go:734-738 | swaps the entry that sorts last for the new one and keeps heap order |
| `JobHeap.MaxJobHeap.Pop` | server/server.go:742-745 | removes the entry that sorts last |
| `Cursors.CursorRoundTrip` | server/server.go:798-838 | a cursor made from a key selects exactly what sorts after it, for every int64 time and every job id |
| `Cursors.CursorSelects` | server/server.go:811-838 | what every cursor string selects: everything if empty or its first part is no int64, the ids after a bare job id, otherwise what sorts after its key |
| `Listings.Offer` | server/server.go:728-738 | the heap holds the first limit+1 of what has been scanned, also after the next entry; it panics iff there is no room at all |
| `Listings.Scan` | server/server.go:721-740 | one scan in any order leaves the first limit+1 of the filtered, after-cursor jobs in the heap |
| `Listings.SelectSmallest` | server/server.go:718-746 | scan and drain yield the first limit+1 of the sorted, filtered, after-cursor list |
| `Listings.ListJobs` | server/server.go:645-760 | for every int: panics iff the limit exceeds the largest capacity a page can be allocated for; otherwise the page holds only the caller's own jobs that pass each filter field and sort after the cursor, in list order and within the limit; the next cursor is empty iff they are all there, and otherwise the page is full, the cursor is its last key and all others sort after it |
| `Paging.PagesAscend` | server/server.go:645-760 | however the table changes between calls the keys returned are strictly ascending and each was visible |
| `Paging.NoJobTwice` | server/server.go:645-760 | no job is returned twice |
| `Paging.StableJobFound` | server/server.go:645-760 | every job present and matching at every call is returned |
| `Paging.PagesConcatenate` | server/server.go:645-838 | over a table at rest, from any cursor but a bare job id, following the cursors ends and the pages concatenate to the sorted list of what lies after it |
| `Paging.BareIdPagesIff` | server/server.go:811-838 | from a bare job id, over a table at rest, the pages concatenate to the jobs with later ids iff they fit one page or every key behind the first page has a later id |
| `Paging.JobListedIff` | server/server.go:645-838 | over a table at rest a job is on some page iff it is the caller's own, passes agent, status and inclusive time bounds, and sorts after the cursor |
| `Paging.OnlyAskedJobs` | server/server.go:645-760 | however the table changes between calls, every job returned was the caller's own and passed the filter at some call |
| `Acks.AcksAdvance` | client/client.go:139-157 | in every interleaving lastAck stays within highSeq, the unsigned lag never underflows and each auto-ack acknowledges strictly more |
| `Acks.NoUndetectedGap` | client/client.go:219-258 | with gap detection every number from the first seen to the high-water mark has been received |
| `Acks.StopsOnlyOnGap` | client/client.go:230-243 | the reader stops only if asked to watch for gaps, and only when the number after its mark has not come but a later one has, or the mark is the largest uint64 |
| `Acks.EveryNumberCounts` | client/client.go:244-255 | a number that arrives raises the mark to itself at least in every run that gives the reader its turns, unless it stops |
| `Acks.EveryLagIsAcked` | client/client.go:553-571 | a lag of at least the window leads to an ack in every run that gives the reader its turns |
| `Acks.ReaderWaitsForWindow` | client/client.go:553-571 | the reader acknowledges only such a lag, and all of it |
| `Acks.EveryTickAcks` | client/client.go:139-157 | any lag is acknowledged in every run that gives the ticker its turns |

## Left out

- Transports, the WebSocket, HTTP and telemetry middleware, the command line and the examples: wrappers around
  foreign libraries.
- JSON encoding apart from its effect on invalid UTF-8, id generation, SHA-256, constant-time comparison, URL and
  path cleaning: library code, taken as parameters or injective functions.
- Float parsing and rounding, NaN and infinity of budget amounts: amounts are exact reals.
- A nil lease state, which refuses every operation, and the snapshots `Budget`, `Initial` and `HasBudget`: they
  would only add easy members.
- Heartbeats and watchdogs: timing only.
- Delivery of back_pressure events: best effort in the source; only their place in the close barrier is modelled.
- Order and exactly-once delivery during a resume: live and replayed events may overlap, so `Replay.NoEventLost`
  claims at least once.
- Submit correlation on the client, which is first-in first-out, and the close barrier of client/subscription.go.
- Version comparison, feature intersection, agent references, error helpers and option defaults: easy members.
- Stored-at timestamps of log entries, `SinceJob` and the job-subscription fan-out.
- HandleBarrier.ChannelsNeverMisused: does not claim that finish returns, because a sender may keep registering
  before it looks at the done flag.
- Budget.JobContext.EmitMetric: treats a metric as one step; overlapping metrics are the subject of
  `Metering.AccurateIff` and `Numbering.AlwaysCurrentIff`.
- Numbering.AtMostTwenty: the order of decisions is sufficient; that it is needed is shown by
  `Numbering.NoBoundOtherwise` for some overlaps, not for each one.
- Streams.StreamRoundTrip: the base64 decoder refuses line breaks, which the Go decoder skips and the writer never
  produces.
- Listings.ListJobs: returns sort keys instead of job snapshots, reads each job's status once, as of the scan, and
  does not model running out of memory below the largest capacity.
- Paging.PagesConcatenate: like the other paging theorems, follows the pages `Listings.ListJobs` returns, for the
  limits a page can be allocated for.
- Paging.JobListedIff: excludes a bare job id as cursor; `Paging.BareIdPagesIff` says when its pages are complete.
- Paging.StableJobFound: starts at the empty cursor and, like the other paging theorems, takes creation times to be
  in the range of UnixNano.
- EventLog.LogIsSuffixOfHistory: assumes appends in sequence order, which allocation and append as separate steps do
  not guarantee; `EventLog.AcceptedReplaysAllIff` does without.
- Submits without an idempotency key: they never touch the store.
- Sessions.NumbersNeverRepeat: counts numbers without uint64 overflow.
