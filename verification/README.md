# Formal model of the inference queue and its neighbours

This project models six parts of the desktop app's Rust side in Dafny and proves what they promise.

**The inference admission queue.** Chat, shell and job turns ask for a slot of a *lane* (one inference
server) before they talk to it. `QueueState` gives the queue as a value: the tickets of all lanes in one
sequence, the wake-up senders, the lane capacities, the cancels remembered early and the reservations. An
accepted acquire gets the next entry of `channels`, so a receiver is at the same time an arrival number.
Every operation under the lock is one `Step`; a cancel takes the lock twice, so it is two steps and anything
may happen in between. `Pump` is stated in closed form (which waiters of a lane get a slot, given how many
run and how many eligible ones wait before them). The class `InferenceQueue` is the program itself, fields
updated in place and loops as they are, and each method is proved to compute its step.

- `QueueInvariant`: the invariant of every reachable state, with work conservation, waiting order, the
  one-to-one match of senders, open channels and waiters, and the bound on remembered cancels.
- `QueueSteps`: every step is a change of holders followed by one pump; capacity safety; fair admission.
- `QueueHolders`: who holds a ticket or a reservation after each operation and what it answers, in the terms of
  the requests; where each of them comes from over a run; released windows and silent ids lose all they hold.
- `QueueCapacity`: how many tickets a lane runs, in the numbers its acquires asked for.
- `QueueWakeups`: no wake-up is lost or sent twice.
- `QueueLanes`: the queue is a product of single-lane machines, defined on their own.
- `QueueWaiting`: a bound on how long a foreground ticket waits.
- `QueueTurns`: a turn keeps background tickets out for its whole life, and exactly which events end it.
- `QueueLeases`: what a reclaim takes, and lease safety.
- `QueueEarlyCancels`: cancels that overtake their acquire, with the exact bound on how long they are kept.

**Context fit** (`ContextFit`, `Hardware`). The ladder search for the largest context that fits a model
of any shape, against what the model needs item by item: soundness, optimality, monotonicity in every knob,
agreement of the three fit functions, and exactly what the hardware step recommends and offers.

**Resumable download** (`Download`). Attempts that may resume, restart, be cancelled or fail at any point,
the prefix invariant of the partial file, and the hash check before the real name.

**Sidecar events** (`Sidecar`). Two readers, a waiter and a consumer over a channel of capacity one, as
interleaved steps: order of events, no deadlock, and an end.

**Phone numbers** (`PhoneNumbers`, `PhoneRedaction`, `PhoneShapes`). A grammar of phone numbers, the scanner
that finds the longest one, and a redaction that is determined by the line and keeps UTF-8 text valid.
`PhoneShapes` says in plain bytes exactly what is redacted, and that every other byte is kept.

**Working-directory sync** (`SandboxSync`, `SyncBody`). The capped decision loop, its convergence over many
runs, and the body it is sent as.

`Sequences` holds filters, counts and first indices shared by all of them.

## What the proofs found

- A second release-with-reserve of the same id ends the reservation that the first one left, although only
  a release without `reserve` is documented to end one (`QueueTurns.ReservingTwiceEndsTheTurn`;
  `QueueTurns.TurnGoesOnUnlessEnded` gives the exact list of events that end a turn).
- An acquire whose `replaces` names a reservation of another lane ends that reservation: it is the one way in
  which an accepted acquire reaches another lane (`QueueLanes.StepByLane`).
- The token count of a context ceiling is cut to 32 bits. From 2^32 tokens on the answer can fall to the floor
  of the ladder; `ContextFit.CastIsHarmlessExactly` says exactly when it does not, and
  `ContextFit.CastCanHarm` gives an input. Soundness does not need the bound.
- A partial file that is already complete can never be finished by a server that serves ranges as RFC 9110 has
  it: the range asked for is past the end, the answer is 416, and the files stay as they are. Only a server that
  ignores the range finishes it
  (`Download.ResumeFinishesExactly`, `Download.CompletePartialIsStuck`).
- A per-run sync cap of 2^64 - 1 cannot be told from a saturated sum (`SandboxSync.RunStaysWithinCaps`).

## Model

| member | source | states |
|---|---|---|
| InferenceQueue.InferenceQueue.constructor | src-tauri/src/inference_queue.rs:270-273 | a new queue is empty and satisfies the invariant |
| InferenceQueue.InferenceQueue.RunningByLane | src-tauri/src/inference_queue.rs:212-220 | the loop counts, for every lane, the tickets that run there |
| InferenceQueue.InferenceQueue.TakeSender | src-tauri/src/inference_queue.rs:181-184 | taking a sender out sends on, or closes, its channel and no other |
| InferenceQueue.InferenceQueue.Pump | src-tauri/src/inference_queue.rs:235-258 | the index loop with its running counts computes the closed form of admission, and restores the invariant |
| InferenceQueue.InferenceQueue.EnqueueWith | src-tauri/src/inference_queue.rs:303-362 | an acquire is refused as duplicate or cancelled, or joins at its place and pumps; the whole new state |
| InferenceQueue.InferenceQueue.CancelProbe | src-tauri/src/inference_queue.rs:366-376 | the first lock section of a cancel remembers an unknown id and forgets the oldest beyond the cap |
| InferenceQueue.InferenceQueue.CancelWaiting | src-tauri/src/inference_queue.rs:377-377 | the second lock section removes the ticket only while it waits |
| InferenceQueue.InferenceQueue.Cancel | src-tauri/src/inference_queue.rs:366-378 | an undisturbed cancel is the two steps in a row, and tells whether a waiter was removed |
| InferenceQueue.InferenceQueue.RemoveAt | src-tauri/src/inference_queue.rs:421-433 | removing by position drops one ticket by its id and its sender |
| InferenceQueue.InferenceQueue.ReleaseWith | src-tauri/src/inference_queue.rs:391-415 | a release removes ticket and reservation, leaves a reservation when asked, and pumps if it freed anything |
| InferenceQueue.InferenceQueue.Heartbeat | src-tauri/src/inference_queue.rs:438-447 | renews the leases of the ticket and the reservation under the id, and nothing else |
| InferenceQueue.InferenceQueue.Reclaim | src-tauri/src/inference_queue.rs:466-493 | drops exactly the covered tickets and reservations and the victims' senders, and pumps if anything was freed |
| InferenceQueue.InferenceQueue.ReleaseWindow | src-tauri/src/inference_queue.rs:452-454 | a window's holders are reclaimed |
| InferenceQueue.InferenceQueue.SweepExpiredAt | src-tauri/src/inference_queue.rs:458-460 | the holders whose lease ended before the given time are reclaimed |
| InferenceQueue.PumpingDecides | src-tauri/src/inference_queue.rs:238-250 | at each index the loop's test agrees with the closed form of admission |
| QueueInvariant.PumpLevel | src-tauri/src/inference_queue.rs:235-258 | a pump fills each lane to its capacity or until its eligible waiters run out |
| QueueInvariant.PumpConservesWork | src-tauri/src/inference_queue.rs:231-258 | after a pump no waiter could run: its lane is full, or it is in the background of a busy lane |
| QueueInvariant.PumpOnceIsEnough | src-tauri/src/inference_queue.rs:235-258 | one pass is a fixpoint |
| QueueInvariant.PumpRestoresInv | src-tauri/src/inference_queue.rs:235-258 | a pump restores the whole invariant after any change of holders |
| QueueInvariant.JoinKeepsOrder | src-tauri/src/inference_queue.rs:299-359 | a lane's waiters stay all front tickets by arrival, then all ordinary ones by arrival |
| QueueInvariant.KeepChannels | src-tauri/src/inference_queue.rs:417-433 | dropping tickets leaves open exactly the channels of the waiters that stay |
| QueueInvariant.StepKeepsInv | src-tauri/src/inference_queue.rs:270-493 | every operation keeps ids unique, senders and open channels matched to waiters, order, work conservation and the bound of 64 |
| QueueInvariant.RunKeepsInv | src-tauri/src/inference_queue.rs:176-199 | the invariant holds after every run of operations |
| QueueSteps.StepIsPump | src-tauri/src/inference_queue.rs:360-493 | no operation forgets to pump: where the code does not, a pump would have found nobody |
| QueueSteps.StepRespectsCapacity | src-tauri/src/inference_queue.rs:207-258 | no step raises a lane's load above what it was and the capacity now in force |
| QueueSteps.RunRespectsCapacity | src-tauri/src/inference_queue.rs:326-331 | over any run a lane never runs more than the largest capacity ever asked for it, a zero counting as one |
| QueueSteps.PumpIsFair | src-tauri/src/inference_queue.rs:231-258 | a pump passes over an earlier waiter of the lane only to admit a foreground ticket past a background one |
| QueueSteps.StepIsFair | src-tauri/src/inference_queue.rs:29-34 | the same of every operation, for any ticket that begins to run in it |
| QueueHolders.StepHolders | src-tauri/src/inference_queue.rs:303-493 | exactly which ids have a ticket and which a reservation after each operation, windows and leases by number |
| QueueHolders.StepReplies | src-tauri/src/inference_queue.rs:311-493 | exactly what each operation answers |
| QueueHolders.StepCarriesTicketsOver | src-tauri/src/inference_queue.rs:344-357 | a ticket is new, with what its acquire asked for and a lease of five minutes, or an old one, at most admitted and renewed by its own heartbeat |
| QueueHolders.StepCarriesReservationsOver | src-tauri/src/inference_queue.rs:391-410 | a reservation is left by giving a ticket back, with its lane, its window and a lease of five minutes, or an old one |
| QueueHolders.TicketsComeFromAcquires | src-tauri/src/inference_queue.rs:344-357 | every ticket of a run has the lane, window, priority and place in front that an accepted acquire of the run asked for |
| QueueHolders.ReservationsComeFromReleases | src-tauri/src/inference_queue.rs:387-410 | every reservation of a run was left by a release of a ticket that an acquire of the run had brought |
| QueueHolders.ReleasedWindowHoldsNothing | src-tauri/src/inference_queue.rs:41-43 | after a window is released no id acquired from it holds anything, and every other id holds what it held |
| QueueHolders.SilentIdsAreSwept | src-tauri/src/inference_queue.rs:44-50 | with a monotone clock an id silent for longer than five minutes loses all it holds in the next sweep |
| QueueCapacity.AcquireSetsCapacity | src-tauri/src/inference_queue.rs:324-329 | an accepted acquire lets its lane run as many as it asks for, one for zero, any number without a bound |
| QueueCapacity.CapacityIsLastAsked | src-tauri/src/inference_queue.rs:184-209 | the capacity in force is the one the last accepted acquire of the lane asked for, one for a lane nobody asked for |
| QueueCapacity.WaitsOnlyWhenFull | src-tauri/src/inference_queue.rs:231-258 | in every reachable state a ticket waits only while as many run as were asked for, or in the background of a foreground ticket or a reservation |
| QueueCapacity.LaneRunsAsManyAsAsked | src-tauri/src/inference_queue.rs:16-26 | a lane whose acquires all ask for n runs exactly the smaller of n and what it holds |
| QueueWakeups.StepTracks | src-tauri/src/inference_queue.rs:251-256 | a waiter's channel is sent to exactly when its ticket runs and closed exactly when it is removed |
| QueueWakeups.ArrivalTracks | src-tauri/src/inference_queue.rs:335-361 | an accepted acquire gets a fresh channel that tells at once whether its ticket was admitted |
| QueueWakeups.OnlyArrivalsOpenChannels | src-tauri/src/inference_queue.rs:311-336 | only an accepted acquire hands out a receiver |
| QueueWakeups.RunResolvesOnce | src-tauri/src/inference_queue.rs:570-577 | over a whole run each accepted acquire resolves at most once |
| QueueLanes.PumpByLane | src-tauri/src/inference_queue.rs:231-258 | a pump, seen from a lane, offers the lane's own slots to its own tickets in order |
| QueueLanes.StepByLane | src-tauri/src/inference_queue.rs:11-15 | every operation is, on each lane, one step of that lane's own machine |
| QueueLanes.RunByLane | src-tauri/src/inference_queue.rs:11-15 | after every run the queue is the product of its lanes' own runs |
| QueueLanes.OtherLanesStayUnchanged | src-tauri/src/inference_queue.rs:231-234 | an operation that touches nothing of a lane leaves the lane exactly as it was |
| QueueWaiting.PumpAdmitsOnlyAhead | src-tauri/src/inference_queue.rs:224-258 | while a foreground ticket waits, only foreground tickets before it are admitted on its lane |
| QueueWaiting.StepShortensDistance | src-tauri/src/inference_queue.rs:235-433 | each running ticket that leaves the lane brings a waiting foreground ticket one closer |
| QueueWaiting.BoundedWaiting | src-tauri/src/inference_queue.rs:224-258 | a foreground ticket runs once (waiters ahead + 1 + running - capacity) running tickets have left its lane, however operations interleave |
| QueueWaiting.UnboundedLanesDoNotWait | src-tauri/src/inference_queue.rs:185-190 | an unbounded lane keeps no foreground ticket waiting |
| QueueTurns.HeldLanesAdmitNoBackground | src-tauri/src/inference_queue.rs:222-250 | no step lets a background ticket run on a lane that a turn holds afterwards |
| QueueTurns.TurnGoesOnUnlessEnded | src-tauri/src/inference_queue.rs:332-334 | a turn goes on through an event if and only if the event is not one of those that end it |
| QueueTurns.TurnLifeExclusion | src-tauri/src/inference_queue.rs:32-39 | from its acquire to the event that ends it, through any number of give-backs and take-backs, a turn keeps background tickets of its lane out |
| QueueTurns.AcquireBeginsTurn | src-tauri/src/inference_queue.rs:303-362 | an accepted foreground acquire begins to hold its lane |
| QueueTurns.ReservingTwiceEndsTheTurn | src-tauri/src/inference_queue.rs:387-410 | giving a slot back twice in a row ends the turn |
| QueueLeases.ReclaimIsExact | src-tauri/src/inference_queue.rs:462-493 | exactly the holders not covered stay, in their old order, with admission re-established |
| QueueLeases.SweepIsExact | src-tauri/src/inference_queue.rs:456-460 | after a sweep exactly the ids with a lease not ended before the given time are held |
| QueueLeases.WindowReleaseIsExact | src-tauri/src/inference_queue.rs:449-454 | after a window is released exactly the ids of other windows hold what they held |
| QueueLeases.ReclaimAnswers | src-tauri/src/inference_queue.rs:466-493 | a reclaim answers whether it covered anything |
| QueueLeases.StepKeepsHeld | src-tauri/src/inference_queue.rs:391-447 | every operation that does not dismiss an id keeps what it holds, with a lease at least as long |
| QueueLeases.LeaseSafety | src-tauri/src/inference_queue.rs:43-50 | with a monotone clock, an id that beats at least once per lease, as ticket or reservation, survives every sweep |
| QueueEarlyCancels.EarlyCancelRefuses | src-tauri/src/inference_queue.rs:321-324 | a cancel that overtakes its acquire makes it fail with nothing else changed, if fewer than 64 other unknown ids are cancelled in between |
| QueueEarlyCancels.EarlyCancelBoundIsTight | src-tauri/src/inference_queue.rs:369-374 | after cancels of other unknown ids alone the early cancel is remembered if and only if there were fewer than 64 |
| QueueEarlyCancels.OthersRememberNothing | src-tauri/src/inference_queue.rs:319-376 | only a cancel of an unknown id and the refusal it leads to change what is remembered |
| ContextFit.NeedIsAddedUp | src-tauri/src/models.rs:735-815 | what the code adds up is weights, reserves, projector, drafter and the KV cache of every stream |
| ContextFit.FoundIsFirst | src-tauri/src/models.rs:818-819 | the model found is the first with the id asked for, and one is found whenever there is one |
| ContextFit.CeilingIsAnsweredExactly | src-tauri/src/models.rs:817-894 | a ceiling is answered exactly for a known model of known KV cost; anything else gets the floor |
| ContextFit.CeilingIsSound | src-tauri/src/models.rs:817-843 | an answer above the floor fits weights, overheads and KV cache in the budget |
| ContextFit.CeilingIsOptimal | src-tauri/src/models.rs:782-843 | no rung that fits is larger than the answer, for fewer than 2^32 tokens |
| ContextFit.CastIsHarmlessExactly | src-tauri/src/models.rs:834-834 | exactly when the cut to 32 bits does not change the answer |
| ContextFit.CastCanHarm | src-tauri/src/models.rs:834-834 | a memory for which the cut drops the answer from the top of the ladder to its floor |
| ContextFit.LargestRungIsLargest | src-tauri/src/models.rs:836-841 | the reverse search finds the largest rung within the limit |
| ContextFit.IfFitsIsExact | src-tauri/src/models.rs:845-860 | answers exactly when the floor fits VRAM alone; the answer fits VRAM and RAM budget |
| ContextFit.CeilingMonotone | src-tauri/src/models.rs:799-843 | less to ask for and more to give never lowers the ceiling |
| ContextFit.MoreMemoryNeverHurts | src-tauri/src/models.rs:826-830 | more VRAM or RAM budget never lowers the ceiling |
| ContextFit.ProjectorAndMtp | src-tauri/src/models.rs:799-815 | the projector on the CPU never lowers it, MTP never raises it |
| ContextFit.MoreStreamsNeverHelp | src-tauri/src/models.rs:735-740 | more streams never raise it |
| ContextFit.DoublingStreamsCostsOneRung | src-tauri/src/models.rs:690-740 | doubling the streams costs at most one rung |
| ContextFit.ExpertOffloadIsExact | src-tauri/src/models.rs:862-887 | the experts-only layout is answered exactly when both pools hold it, at the largest rung they hold |
| ContextFit.ExpertOffloadAgrees | src-tauri/src/models.rs:826-887 | its answer is never above the two-pool ceiling for the same RAM budget |
| Hardware.TierIsFirst | src-tauri/src/hardware.rs:144-153 | the tier found is the first whose threshold is above the memory |
| Hardware.QuantIsByMemory | src-tauri/src/hardware.rs:135-215 | which model is recommended, memory by memory, for slow graphics, for an unknown GPU and on a Mac |
| Hardware.WholeModelIsOfferedExactly | src-tauri/src/hardware.rs:88-113 | exactly when slow graphics get a second choice, with the largest context that fits |
| Hardware.SpillIsOfferedExactly | src-tauri/src/hardware.rs:58-86 | exactly when any other GPU gets one, with the largest context that fits beside the experts |
| Hardware.RecommendedContextIsLargest | src-tauri/src/hardware.rs:216-236 | the first choice has the largest context that fits, or the floor |
| Hardware.EveryAlternativeFits | src-tauri/src/hardware.rs:58-113 | every second choice fits the pools it was sized for |
| Hardware.RecommendedContextFits | src-tauri/src/hardware.rs:196-246 | the first choice's context is a rung and, above the floor, fits the memory found and the RAM free now where that is shared |
| Download.ReceiveExtends | src-tauri/src/models.rs:1182-1200 | the receive loop extends the file by a prefix of the body and counts what it wrote |
| Download.AttemptKeepsPrefix | src-tauri/src/models.rs:1113-1243 | an attempt keeps the partial a prefix of the content, however it is answered, cut short, cancelled or broken |
| Download.AttemptsKeepPrefix | src-tauri/src/models.rs:1150-1178 | so does any series of attempts |
| Download.CountedIsWritten | src-tauri/src/models.rs:1178-1200 | the bytes counted are the length of the file |
| Download.FinalIsVerified | src-tauri/src/models.rs:1413-1447 | what sits under the real name was there before or has the expected hash, whatever the servers answered |
| Download.UndisturbedAttempt | src-tauri/src/models.rs:1150-1178 | an undisturbed attempt leaves exactly the content and full progress, whether the server serves the range or ignores it, or after a 416 the files as they were |
| Download.ResumeFinishesExactly | src-tauri/src/models.rs:1133-1148 | an undisturbed attempt finishes if and only if the partial is not complete already or the server ignores the range |
| Download.CompletePartialIsStuck | src-tauri/src/models.rs:1143-1148 | from a complete partial no number of undisturbed attempts at a server of ranges changes anything |
| Download.RefusalChangesNothing | src-tauri/src/models.rs:1143-1148 | an answer that is no success leaves both files as they were |
| Download.StopsAtFirstBadItem | src-tauri/src/models.rs:1182-1200 | the receive loop stops at the first cancel, failed read or failed write, says which it was, and keeps exactly what came before |
| Download.FinishedMeansWhole | src-tauri/src/models.rs:1143-1243 | an attempt finishes exactly when nothing goes wrong and the hash is right; then the whole body, after the old partial for a 206 to a range request, is under the real name, and otherwise the real name is untouched |
| Download.TotalWithoutLength | src-tauri/src/models.rs:941-951 | the total is what is there plus the length answered, or the size expected when none is |
| Download.CaseDoesNotMatter | src-tauri/src/models.rs:1571-1574 | two hashes agree exactly when they differ at most in the case of letters |
| Download.FinalHasTheHash | src-tauri/src/models.rs:1413-1447 | with hashes in lower-case digits, what gets the real name has the hash asked for |
| Download.Downloader.VerifySha256 | src-tauri/src/models.rs:1565-1577 | passes exactly on a matching hash, and deletes the partial on a mismatch |
| Download.Downloader.DownloadToPartial | src-tauri/src/models.rs:1103-1244 | the resumable download with its loop computes one attempt: files, outcome, progress |
| Download.Downloader.DownloadInto | src-tauri/src/models.rs:1420-1447 | leaves an existing file alone; what it puts under the real name has the expected hash |
| Sidecar.MoveKeepsInv | src-tauri/src/sidecar_process.rs:136-204 | every step of every thread keeps the order of events |
| Sidecar.EverythingArrivesInOrder | src-tauri/src/sidecar_process.rs:137-204 | in every interleaving the consumer gets an interleaving of each pipe's lines in order, followed by its one error if reading failed, and then the exit event |
| Sidecar.LinesArriveInOrder | src-tauri/src/sidecar_process.rs:181-196 | whatever fails, every line of each pipe arrives once, at its place among the lines of the pipe |
| Sidecar.TerminatedComesLast | src-tauri/src/sidecar_process.rs:137-168 | without failures: nothing but lines, and exactly one `Terminated` with the exit code, last |
| Sidecar.NeverDeadlocks | src-tauri/src/sidecar_process.rs:136-204 | as long as a thread is left or an event is to be received, some step can be taken |
| Sidecar.RunsAreBounded | src-tauri/src/sidecar_process.rs:186-203 | every step brings the end closer, so every run ends |
| Sidecar.ClosedRunsEndSoon | src-tauri/src/sidecar_process.rs:186-203 | once the consumer is gone all threads together take at most eight more steps |
| PhoneNumbers.ScanGroups | src-tauri/src/feedback.rs:204-233 | the group loop finds as many groups as the grammar allows |
| PhoneNumbers.PhoneAt | src-tauri/src/feedback.rs:199-259 | finds the end of the longest number of the grammar that begins here, if there is one |
| PhoneNumbers.CompleteIsLongest | src-tauri/src/feedback.rs:206-233 | every chain of groups is a beginning of the one the loop finds |
| PhoneRedaction.RedactPhones | src-tauri/src/feedback.rs:167-196 | replaces disjoint intervals left to right, each a longest number; keeps every other byte in order; misses no number outside them |
| PhoneRedaction.RedactionIsDetermined | src-tauri/src/feedback.rs:167-196 | a line has exactly one such redaction |
| PhoneRedaction.RedactionIsUtf8 | src-tauri/src/feedback.rs:186-194 | every cut of a text is a character boundary and the result is valid UTF-8 |
| PhoneShapes.ExactlyNumbersAreRedacted | src-tauri/src/feedback.rs:162-259 | each interval is the longest text in one of the three shapes that begins there apart from its surroundings, and none begins outside the intervals |
| PhoneShapes.DigitsOfRedacted | src-tauri/src/feedback.rs:162-166 | 8 to 15 digits after a `+`, else 10, or 11 that begin with 0 or 1, with nothing but separators and brackets between them |
| PhoneShapes.OtherBytesAreKept | src-tauri/src/feedback.rs:185-195 | line and output are the same segments around the numbers and around the words put in their place |
| PhoneShapes.MarkIsTheWord | src-tauri/src/feedback.rs:187-187 | the bytes put in place of a number are those of `<phone>` |
| SandboxSync.SyncWorkdir | src-tauri/src/sandbox_sync.rs:120-211 | the decision loop gathers what is to be sent; the deleted paths are exactly the listed ones no file has, each once; no file is sent whose last entry has its time |
| SandboxSync.KnownMapHoldsLast | src-tauri/src/sandbox_sync.rs:145-148 | every listed path is known, with the time of its last entry |
| SandboxSync.SentIsMeant | src-tauri/src/sandbox_sync.rs:167-196 | what is sent is stale, fits the caps and carries its bytes; the sizes add up to the bytes counted |
| SandboxSync.RunStaysWithinCaps | src-tauri/src/sandbox_sync.rs:13-18 | each run stays within both caps |
| SandboxSync.EveryFileIsAccountedFor | src-tauri/src/sandbox_sync.rs:153-197 | every file is sent, known as it is, or passed over for a reason that holds |
| SandboxSync.SkippedIsMeant | src-tauri/src/sandbox_sync.rs:156-185 | what is passed over is named for a reason that holds of a file of the directory |
| SandboxSync.FailsExactly | src-tauri/src/sandbox_sync.rs:153-191 | a run fails exactly when a file that it has to read cannot be read |
| SandboxSync.PendingMakesProgress | src-tauri/src/sandbox_sync.rs:176-185 | while a stale file fits both caps, the run sends one |
| SandboxSync.RunDropsPending | src-tauri/src/sandbox_sync.rs:167-196 | a run makes nothing pending and leaves fewer files pending |
| SandboxSync.SyncConverges | src-tauri/src/sandbox_sync.rs:1-18 | runs that are each told what the sandbox holds, as many as files are pending, leave a mirror of all that fit, and a further sync sends, deletes and changes nothing |
| SyncBody.EncodeSync | src-tauri/src/sandbox_sync.rs:78-107 | answers exactly when the header can be written in fewer than 2^32 bytes; the body begins with its length, low byte first, and the header |
| SyncBody.DecodeUndoesEncode | src/lib/sandbox/syncBody.ts:23-40 | reading a body back gives the result it was built from |

## Left out

- Snapshots, events to the windows, the `consumer` payload and `enqueued_at` of a ticket: they are echoed and never decide anything.
- The asynchronous side of an acquire: what the caller sees when its ticket vanishes between its wake-up and its next look at the queue.
- Machine widths of times and byte counts, except where named above: sums of sizes, budgets and leases are unbounded here. A capacity of `usize::MAX` is `Unbounded`.
- The clock, the HTTP client, the file system, the hash function, JSON and processes: parameters of the model. `Hardware.Recommend` takes the name test for fast integrated graphics as a function.
- The model registry's entries, the import of models, GPU probing and the names of GPUs: the fit results hold for every model record and every registry.
- Bytes that the runtime still buffers when a download stops before its flush: a partial that loses them is a shorter prefix of the same content.
- Progress events and speeds of a download, the download slot, and the path that renames weights first and verifies them later.
- InferenceQueue.InferenceQueue.Cancel: states the two lock sections with nothing in between; the run theorems cover every interleaving, as both sections are steps of their own.
- Sidecar.MoveKeepsInv: the threads are modelled as interleaved steps on a state value, not as imperative code; splitting bytes into lines, killing, and the orphan registry are not modelled.
- SandboxSync.SyncWorkdir: walking the directory is a parameter, modification times are real numbers, and the order of the deleted paths is left open, as it is in a hash map.
- Downloads of several files in a row, and two downloads at once.
- The other redactions of a report (home folder, addresses, e-mail) and everything outside these files.
