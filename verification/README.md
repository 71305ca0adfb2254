# Mira, modelled and proved

Mira is a C++ coroutine runtime: event loops that suspend and resume operations,
and protocols on top of them. This project models the parts where it is hardest to
see that nothing goes wrong, and proves what they promise.

**Event loops.** A suspended operation is named in several places at once: the
operation table, the slot of its descriptor, the timer queue, the list of requested
cancellations, and the kernel. Readiness, deadlines, cancellations, detaching and
shutdown race to resolve it, and resumed code calls back into the loop in the middle
of a batch. `PosixLoop` and `IocpLoop` state the critical sections on values;
`PosixRuns` and `IocpRuns` let them interleave freely with user code, other threads
and the kernel; `PosixSafety`, `PosixArming`, `PosixBatch`, `IocpSafety`, `IocpTimers` and
`IocpWake` prove what holds over whole runs: every operation is resolved exactly once,
nobody waits on a descriptor the kernel does not watch, a completion record outlives
its packet, no wake-up is lost. `PosixRequests`, `PosixEndings`, `IocpRequests`,
`IocpCompletions`, `IocpSleeps` and `IocpEndings` say with what: from the request as it was
made and the actions since then, without the tables, which outcome an operation is given.
`PosixImpl`, `IocpImpl` and `Timers` are the loops as they run, classes tied to those
critical sections.

**HTTP/1.1.** `ResponseMachine` and `RequestMachine` are the two incremental parsers
as step functions, `ResponseParsing` and `RequestParsing` the classes proved to compute
them. `Incremental` and `Patience` hold what is true of any such machine: when cutting
the input into reads cannot matter, and exactly when it does for a machine that may
give up early. `RequestGrammar` and `ResponseGrammar` say which lines are accepted, and
`RequestHeads`, `RequestBodies`, `ResponseHeads` and `ResponseBodies` what whole messages
come to, spelled as octets. On top of that come the serializers and their round trips, the
response writer, the server's connection loop, the client and the blindness of framing to
the order of fields. The standards are RFC 9110 and RFC 9112.

**Three smaller protocols.** The resolver's jobs, the frames of a task scope, and the
receive and stream-credit accounting of the QUIC engine (section 4.6 of RFC 9000).

What the environment decides is a parameter: the clock and the due timers, which events
the poller reports and whether it accepts a call, which operations the kernel takes and
when it completes them, how many octets a read or write moves, what a resolver backend
answers, which streams a QUIC peer opens, and that the HTTP handler succeeds. Machine
integers that may wrap are written out (`Sub64`, `Add64`); octets are characters.

**Where the code and its documentation differ.** The request parser's header promises
that a message split across any reads parses like one that arrives whole
(modules/http/include/mira/http/parser.hpp:7-10). The code counts the CR of an
unfinished line against the line limit, so a line exactly at its limit is accepted
whole and rejected when the read ends between CR and LF. The model follows the code:
`RequestRoundTrip.TightLineDependsOnReads` shows such a line and
`RequestSlicing.SlicingIndependentExactly` says for which inputs the promise holds. The
response parser does not count that CR and keeps the promise for all inputs.
`writev_all` reports the end of the stream after writing everything if its last piece is
empty; `Streams.WritevAll` states when it reports success.

The limits are documented as the most the parser will emit as body, and as counts and
octets over all header fields of one message (modules/http/include/mira/http/limits.hpp:27-37).
The request parser adds a chunk size to what it has seen before comparing, so with limits
that sum to 2^64 or more it emits past the body limit as soon as a chunked head fits
(`RequestOverrun.OverrunEmitted`, `RequestOverrun.BodyBoundExactly`). It counts trailers
apart from headers and their octets not at all, so the joint count fails whenever a chunked
head fits (`RequestTrailers.JointCountExactly`), and the joint total holds exactly when it
has room for twice the count of full lines (`RequestTrailers.JointOctetsExactly`). By
themselves headers keep both limits, the total for every input shorter than 2^64 octets
(`RequestLimits.HeaderLimitsHold`).
The response parser keeps both promises (`ResponseSlicing.LimitsHold`).

The readiness loop means never to leave a coroutine suspended with nothing armed for it
(modules/core/src/event_loop_posix.cpp:486-488). It does under three kinds of steps, shown by
runs in `PosixStranding`; `PosixArming.StepCovers` says exactly which steps those are.

The QUIC engine's comment that its records always cover the peer streams admitted
(modules/quic/src/engine.cpp:159-161) holds up to a bound on local streams
(`Quic.RoomExactly`).

Inductive proofs are written out; automatic induction is switched off wherever Dafny would
apply it. To verify: `dafny verify dfyconfig.toml`.

## Model

| member | source | states |
|---|---|---|
| PosixSafety.ExactlyOnce | modules/core/src/event_loop_posix.cpp:353-502 | At every point of every run, with resumed code calling back in and cancellations arriving at any step: no id was resumed twice; the ids handed out so far are exactly those live, resumed or discarded, and these three are disjoint; deliveries and discards are never taken back and an id that left the table never returns. |
| PosixSafety.IndicesAgree | modules/core/src/event_loop_posix.cpp:209-301 | At every point of every run every queued timer names a live record that owns its key, every slot names a live record, and a record is armed if and only if it is a readiness record and the slot of its descriptor and direction names it. |
| PosixSafety.ShutdownLeavesNobody | modules/core/src/event_loop_posix.cpp:115-145 | Once a loop that was shut down has gone quiet, the table is empty and every id ever handed out was resumed exactly once or discarded, never both. |
| PosixSafety.NobodyForgotten | modules/core/src/event_loop_posix.cpp:399-499 | Whenever no batch is being dispatched, every live record can still be reached: a readiness record through its slot, a sleep through its wake-up timer, and any deadline through its timer. |
| PosixSafety.RunOnward | modules/core/src/event_loop_posix.cpp:605-621 | Between any two points of a run, deliveries and discards only grow and ids that have left the table stay out. |
| PosixRuns.StepKeeps | modules/core/src/event_loop_posix.cpp:209-621 | Each of the twelve steps (submissions, cancellation requests, detach, collecting a batch, re-arming, delivering, returning, shutdown) keeps the accounting of ids, the agreement of slots with armed records, the agreement of timers with records, and the rule that whoever lost its slot or timer is owed a delivery by a frame on the stack. |
| PosixRuns.RunKeeps | modules/core/src/event_loop_posix.cpp:353-502 | Hence those invariants hold after any run from a state that has them. |
| PosixRuns.CollectKeeps | modules/core/src/event_loop_posix.cpp:399-468 | Collecting a batch takes slots and timers away only from operations it lists, so nobody falls between the tables. |
| PosixRuns.FailWaitersKeeps | modules/core/src/event_loop_posix.cpp:509-528 | Failing the waiters of a descriptor whose arming was refused keeps the invariants: both waiters it unslots are listed for delivery. |
| PosixLedger.SlotsAfterUnlink | modules/core/src/event_loop_posix.cpp:546-576 | Unlinking a record frees its slot if and only if the record was armed, so a slot re-taken by somebody else survives. |
| PosixLedger.TimersAfterUnlink | modules/core/src/event_loop_posix.cpp:546-576 | Unlinking a record takes down its own timers and nobody else's. |
| PosixLedger.TimerNames | modules/core/src/event_loop_posix.cpp:273-301 | A queued key that a record owns carries that record's id, and is marked a deadline exactly if it is the record's deadline. |
| PosixBatch.CancelsFirst | modules/core/src/event_loop_posix.cpp:455-468 | A requested cancellation mentions an operation, as cancelled, exactly if it was requested. |
| PosixArming.NoStrandedWaiter | modules/core/src/event_loop_posix.cpp:484-490 | If every step of a run is harmless, then whenever nothing is being dispatched the kernel holds a live registration for the descriptor and direction of every readiness record, under epoll and kqueue alike, and however many of the batch's own re-arms are refused. Harmless asks of a new waiter that no entry still on the re-arm list will replace its registration, and of a registration given back that it survives for the other direction. |
| PosixArming.NoneLostNoneStranded | modules/core/src/event_loop_posix.cpp:484-490 | In particular nobody waits unregistered between batches in a run where no registration is lost to a refusal: every new waiter is armed or what it changed is put back, every registration given back succeeds, and under epoll so do the batch's own re-arms. |
| PosixArming.FirstHarmStrands | modules/core/src/event_loop_posix.cpp:484-490 | Conversely the first step of a run that is not harmless leaves somebody waiting on a side the kernel does not watch, or will not once the list has been armed. |
| PosixArming.RearmMeans | modules/core/src/event_loop_posix.cpp:484-490 | After arming the rest of the list a side is registered exactly if the list wants it, or it is registered now and no entry replaces it. |
| PosixArming.PromisedMeans | modules/core/src/poller.hpp:70-86 | Under epoll the list wants a side exactly if the last entry of its descriptor does. |
| PosixArming.StepCovers | modules/core/src/event_loop_posix.cpp:209-490 | For every step from a state in which all waited-on sides are covered by the registrations after the arm calls still on the list: they stay covered if and only if the step is harmless. |
| PosixArming.ClaimAllCovers | modules/core/src/event_loop_posix.cpp:410-447 | What a batch of firings takes down and somebody still waits on is on the list of descriptors to arm again. |
| PosixArming.ArmCovers | modules/core/src/poller.hpp:70-86 | Arming a descriptor with the interest read off its slots covers every waited-on side of it and leaves those of other descriptors as they were, for either backend. |
| PosixArming.TryArmIsLocal | modules/core/src/poller.hpp:70-71 | Whatever an arm call comes to, other descriptors keep their registrations. |
| PosixArming.GivenBackExactly | modules/core/src/event_loop_posix.cpp:579-590 | A registration given back asks for nobody who is gone: with nobody left on the descriptor nothing of it stays registered, under epoll exactly the sides still waited on do, and other descriptors keep theirs. |
| PosixStranding.RefusedRearmStrands | modules/core/src/event_loop_posix.cpp:484-490 | Such a step strands for good: a concrete epoll run with one refused re-arm, whose resumed waiter joins a descriptor later on the list, reaches a quiet state where an armed record waits on a side the kernel does not watch. |
| PosixStranding.RefusedSubmissionStrands | modules/core/src/event_loop_posix.cpp:256-262 | So does a refused submission whose release is refused too: the waiter on the other direction is left unwatched. |
| PosixStranding.RefusedReleaseStrands | modules/core/src/event_loop_posix.cpp:579-590 | And so does finishing one direction when the release for the other is refused. |
| PosixBatch.BatchOutcome | modules/core/src/event_loop_posix.cpp:455-499 | For any batch of any run that detaches nothing and whose re-arms succeed, and whatever resumed code submits or cancels meanwhile: each operation live when the batch was collected is resumed with success if its readiness fired; else by the clock, success if its wake-up is due no later than its deadline, timed out if the deadline comes first; else cancelled if that was requested; else it is not resumed and stays live. |
| PosixRequests.WaiterOutcome | modules/core/src/event_loop_posix.cpp:209-499 | Over every run, told from the request and the actions alone: a wait taken in for a descriptor, a direction and a deadline and still there when a batch is collected (nothing detached, re-arms succeed) is resumed with success if an event reports that side of that descriptor or an error on it, else as timed out if the deadline asked for is not after the batch's clock, else as cancelled if somebody asked for that since, and with nothing else; otherwise it stays. A wait without a deadline never times out. |
| PosixRequests.SleeperOutcome | modules/core/src/event_loop_posix.cpp:273-499 | The same for a sleep: timed out if its deadline has passed and lies before its wake-up time, else success if its time has come, else cancelled if somebody asked, else it stays. |
| PosixRequests.WaiterKept | modules/core/src/event_loop_posix.cpp:209-267 | From its submission on, while it lasts, a wait's record is the one asked for: descriptor, direction, a deadline key exactly if a deadline was given and at that time, and no wake-up. |
| PosixRequests.SleeperKept | modules/core/src/event_loop_posix.cpp:273-301 | The same for a sleep: its wake-up is at the time asked for, its deadline likewise or absent. |
| PosixRequests.RefusedWaiter | modules/core/src/event_loop_posix.cpp:209-267 | A wait for a bad descriptor, a taken direction or a loop shutting down changes nothing; one the poller refuses uses up a number, is discarded and never resumed. |
| PosixRequests.RequestsExactly | modules/core/src/event_loop_posix.cpp:309-320 | Between batches an operation is on the list of requested cancellations exactly if its cancellation was asked for since it was taken in. |
| PosixRequests.StepRecords | modules/core/src/event_loop_posix.cpp:209-621 | No step changes a record, except that a step may disarm it. |
| PosixEndings.DetachedIsCancelled | modules/core/src/event_loop_posix.cpp:167-182 | Over every run: whoever waits on a descriptor when it is detached is resumed as cancelled and with nothing else, at the latest when the detaching call returns. |
| PosixEndings.OrphanIsCancelled | modules/core/src/event_loop_posix.cpp:115-145 | Whoever is in the table when the loop shuts down is resumed as cancelled and with nothing else, and has been once nothing is being dispatched. |
| PosixEndings.RefusedIsBroken | modules/core/src/event_loop_posix.cpp:484-528 | Whoever waits on a descriptor whose re-arm is refused is resumed with that error and with nothing else, at the latest when the batch goes on. |
| PosixEndings.SentenceServed | modules/core/src/event_loop_posix.cpp:494-528 | An operation whose first mention on the lists being delivered is an outcome is resumed with that outcome once those lists are done, whatever resumed code does meanwhile. |
| PosixEndings.GoneIsResumed | modules/core/src/event_loop_posix.cpp:605-621 | In every run what leaves the table was resumed. |
| PosixBatch.ListSaysVerdict | modules/core/src/event_loop_posix.cpp:399-468 | The first mention of an operation in the collected list is exactly that verdict, computed without the list. |
| PosixBatch.ClockFirst | modules/core/src/loop_common.hpp:101-120 | Among the due timers in (deadline, serial) order, the first that names an operation is its wake-up if that is due no later than its deadline, and its deadline otherwise; a sleep wins an exact tie. |
| PosixBatch.ClaimsFirst | modules/core/src/event_loop_posix.cpp:399-447 | An armed waiter is claimed, with success, if and only if some event of the batch reports its descriptor and direction or an error on it. |
| PosixBatch.DeliveriesFirst | modules/core/src/event_loop_posix.cpp:494-499 | Delivering a list by id resumes each live operation with its first mention and ignores the rest. |
| PosixImpl.EventLoop.constructor | modules/core/src/event_loop_posix.cpp:83-101 | A new loop is the empty state of the model, with its own timer queue. |
| PosixImpl.EventLoop.Unlink | modules/core/src/event_loop_posix.cpp:546-576 | Removes the record from the table, its slot and its timers as the step on values does, and reports whether a registration is left to release and which interest remains. |
| PosixImpl.EventLoop.ReleaseRegistration | modules/core/src/event_loop_posix.cpp:579-590 | Arms what remains of the descriptor or disarms it, only for a registered, valid descriptor of a loop not shutting down. |
| PosixImpl.EventLoop.Discard | modules/core/src/event_loop_posix.cpp:593-600 | Removes a record without resuming anyone and counts it as discarded. |
| PosixImpl.EventLoop.Finalize | modules/core/src/event_loop_posix.cpp:605-621 | Resumes with the given outcome if and only if the id is still in the table, and records the delivery. |
| PosixImpl.EventLoop.TakeSlot | modules/core/src/event_loop_posix.cpp:228-253 | Puts an id in the slot of one direction, leaving the other and every other descriptor alone. |
| PosixImpl.EventLoop.Record | modules/core/src/event_loop_posix.cpp:224-254 | Enters record, slot and deadline timer together as one registration. |
| PosixImpl.EventLoop.ArmOrDiscard | modules/core/src/event_loop_posix.cpp:257-262 | Arms the descriptor for everyone now waiting on it, or, refused, discards the newcomer. |
| PosixImpl.EventLoop.AddWaiter | modules/core/src/event_loop_posix.cpp:209-267 | Implements the submission step in all five cases and answers with the right one: bad descriptor, loop gone, direction taken, refused by the poller, or a fresh id. |
| PosixImpl.EventLoop.AddTimer | modules/core/src/event_loop_posix.cpp:273-301 | Registers wake-up before deadline, or refuses once shutting down. |
| PosixImpl.EventLoop.RequestCancel | modules/core/src/event_loop_posix.cpp:309-320 | Appends a live id to the pending cancellations, ignores any other, and touches no table. |
| PosixImpl.EventLoop.FailWaiters | modules/core/src/event_loop_posix.cpp:509-528 | Clears both slots of a descriptor and hands back whom that leaves to be failed; with nobody waiting, changes nothing. |
| PosixImpl.EventLoop.BeginShutdown | modules/core/src/event_loop_posix.cpp:115-145 | Closes submission and lists exactly the live ids, once: a second shutdown finds none. |
| PosixImpl.EventLoop.Claim | modules/core/src/event_loop_posix.cpp:399-408 | Empties one slot and lists its waiter with success; an empty slot changes nothing. |
| PosixImpl.EventLoop.ClaimEvent | modules/core/src/event_loop_posix.cpp:410-447 | Claims the sides one event reports and lists the descriptor for re-arming if somebody still waits on it, with their interest. |
| PosixImpl.EventLoop.ClaimEvents | modules/core/src/event_loop_posix.cpp:410-447 | The loop over a batch's events computes the fold of the above. |
| PosixImpl.EventLoop.Collect | modules/core/src/event_loop_posix.cpp:399-468 | One critical section yields completions, then due timers in order, then cancellations, and leaves exactly the timers that are not due. |
| PosixImpl.ListExpired | modules/core/src/event_loop_posix.cpp:461-465 | The loop over the timers taken out lists each operation once per timer in their order, a deadline as timed out and a wake-up as success. |
| PosixImpl.ListCancelled | modules/core/src/event_loop_posix.cpp:466-468 | The loop over the pending cancellations lists each as cancelled, in order. |
| PosixImpl.MirrorsEntry | modules/core/src/event_loop_posix.cpp:83-101 | The per-descriptor table has an entry exactly for watched descriptors, and it holds the two slots of that descriptor. |
| Accounts.AccountNew | modules/core/src/event_loop_posix.cpp:209-301 | Taking the next number keeps every id accounted for once. |
| Accounts.AccountResumed | modules/core/src/event_loop_posix.cpp:605-621 | Moving a live id to the delivered ones keeps every id accounted for once. |
| Accounts.AccountDiscarded | modules/core/src/event_loop_posix.cpp:593-600 | Moving a live id to the discarded ones keeps every id accounted for once. |
| Timers.TimerQueue.constructor | modules/core/src/loop_common.hpp:130-131 | A new queue is empty and its serials start at zero. |
| Timers.TimerQueue.Add | modules/core/src/loop_common.hpp:78-82 | Enters the target under a key with a serial never used before and hands that key back. |
| Timers.TimerQueue.AddFor | modules/core/src/event_loop_iocp.cpp:977-987 | A wake-up gets a smaller serial than the deadline of the same operation, so it sorts first on a tie. |
| Timers.TimerQueue.Cancel | modules/core/src/loop_common.hpp:87-91 | Removes the key if it is there; cancelling twice or a handle never given changes nothing. |
| Timers.TimerQueue.First | modules/core/src/loop_common.hpp:97-99 | Returns the least key in (deadline, serial) order. |
| Timers.TimerQueue.TakeDue | modules/core/src/loop_common.hpp:116-119 | Removes the least entry if it is due; otherwise no entry is due. |
| Timers.TimerQueue.ExtractExpired | modules/core/src/loop_common.hpp:115-120 | Hands out all entries due at the given time and only those, in strictly increasing (deadline, serial) order, and leaves exactly the others. |
| Timers.FirstExists | modules/core/src/loop_common.hpp:123-128 | A non-empty set of keys has a least one: the order is total. |
| IocpSafety.KernelHoldsLiveRecords | modules/core/src/event_loop_iocp.cpp:734-801 | At every point of every run, mid-batch and mid-drain included, whatever the kernel holds is a live kernel-backed record, held either as an operation under way or as exactly one packet. |
| IocpSafety.OwedExactly | modules/core/src/event_loop_iocp.cpp:237-245 | Whenever no batch is being dispatched, the kernel-backed records in the table are exactly those whose completion packet is still owed. |
| IocpSafety.FreedAfterItsPacket | modules/core/src/event_loop_iocp.cpp:1006-1045 | At the step where a record leaves the table the kernel no longer holds it. |
| IocpSafety.ExactlyOnce | modules/core/src/event_loop_iocp.cpp:964-1045 | In every run no id is resumed twice, and the ids handed out are exactly those live, resumed or discarded, which are disjoint. |
| IocpSafety.SocketsOnce | modules/core/src/event_loop_iocp.cpp:1010-1017 | In every run each socket created for an accept is kept by a live accept, or was handed out once or closed once, and never two of these. |
| IocpSafety.DrainCountsDown | modules/core/src/event_loop_iocp.cpp:245-264 | While shutdown drains, its counter equals the number of records the kernel holds: at a non-zero count a packet is queued or an operation under way will post one, and at zero the kernel holds nothing. |
| IocpSafety.ShutdownLeavesNothing | modules/core/src/event_loop_iocp.cpp:190-276 | After shutdown the table is empty, the kernel holds nothing, every id was resumed or discarded but not both, and every accept socket was handed out or closed. |
| IocpSafety.PinnedReasonWins | modules/core/src/event_loop_iocp.cpp:734-756 | If a reason is pinned on a record before its packet is processed, by any thread and also after the packet was dequeued, then at every later point of the run any delivery to that id carries that reason. |
| IocpCompletions.CompletionDelivered | modules/core/src/event_loop_iocp.cpp:734-802 | Over every run, told from the actions alone: an operation whose packet reported a status and was taken up is delivered exactly that status, unless by then it was cancelled (then cancelled), its deadline had passed (then timed out), both (then one of the two), or its handle was closed (then cancelled). Once the batch is over it has been delivered. |
| IocpRequests.RecordKept | modules/core/src/event_loop_iocp.cpp:964-990 | While it lasts a record is the one asked for: kind, socket, wake-up time and deadline key exactly as submitted, marked closed exactly if its handle was detached since, and without an answer exactly if no cancellation, deadline or shutdown gave it one. |
| IocpRequests.AnswerWhy | modules/core/src/event_loop_iocp.cpp:903-924 | An answer pinned early is cancelled and somebody cancelled or shut down, or timed out and the deadline asked for had passed at some batch's clock. |
| IocpRequests.DeadlineAnswers | modules/core/src/event_loop_iocp.cpp:773-789 | Once a batch has looked at the clock past the deadline asked for and gone through who is due, an operation that is still live has an answer. |
| IocpRequests.DeadlineOfTransfer | modules/core/src/event_loop_iocp.cpp:734-789 | So an operation that owes its packet, whose deadline passed and which nobody cancelled is delivered timed out, whatever the packet reports. |
| IocpRequests.StruckIsPassed | modules/core/src/loop_common.hpp:115-120 | A deadline strikes only if it has passed. |
| IocpRequests.StepRecord | modules/core/src/event_loop_iocp.cpp:190-1045 | What any step does to a record is nothing, a close of its handle, or an answer where there was none. |
| IocpSleeps.SleepDelivered | modules/core/src/event_loop_iocp.cpp:758-802 | Over every run: a sleep still there when the loop looks at the clock is delivered timed out if its deadline has passed and lies before its wake-up, else success if its time has come; if it was cancelled its deadline no longer counts and it is delivered cancelled once that is queued; otherwise it stays. |
| IocpSleeps.SleepBefore | modules/core/src/event_loop_iocp.cpp:643-656 | Before the sweep a live sleep has an answer exactly if somebody cancelled it, that answer is cancelled, and it is on the list of requests exactly if it was queued there. |
| IocpSleeps.StrikesInOrder | modules/core/src/event_loop_iocp.cpp:773-789 | The first of an operation's timers in the sweep is its wake-up or its deadline, whichever is due first, the wake-up on a tie. |
| IocpEndings.OrphanDelivered | modules/core/src/event_loop_iocp.cpp:202-276 | Whoever is in the table at shutdown is delivered the answer it already has and otherwise cancelled, and nothing else, and has been once shutdown is over. |
| IocpEndings.SocketFollowsOutcome | modules/core/src/event_loop_iocp.cpp:1010-1017 | Over every run: the socket created for an accept is handed out if and only if that accept was delivered success, and closed if and only if it was delivered anything else or was never taken in. |
| IocpCompletions.GoneIsResumed | modules/core/src/event_loop_iocp.cpp:1006-1045 | In every run what leaves the table was resumed. |
| IocpClock.RunClocked | modules/core/src/event_loop_iocp.cpp:977-987 | In every run every queued timer is the wake-up or the deadline of a live record that names its key, no two share a key, and every record's own keys are queued or about to strike. |
| IocpSafety.WakeUpOutranksPin | modules/core/src/event_loop_iocp.cpp:773-777 | This does not extend to timers, which owe no packet: a concrete run resumes a sleep with success after a cancellation was pinned on it. |
| IocpTimers.PinnedTimerDelivered | modules/core/src/event_loop_iocp.cpp:758-802 | For timers, in every run: one on which a reason is pinned is delivered that reason or success, and success only if, while it was live, a sweep at or after its wake time took its wake-up. |
| IocpTimers.FairStep | modules/core/src/event_loop_iocp.cpp:758-802 | Every step keeps the rule behind it: a live timer is listed with its pinned reason, or as a success because its wake-up was swept. |
| IocpRuns.StepKeeps | modules/core/src/event_loop_iocp.cpp:190-808 | Each step of the loop thread, of other threads and of the kernel keeps ownership, socket and id accounting together. |
| IocpRuns.RunKeeps | modules/core/src/event_loop_iocp.cpp:688-808 | Hence they hold at every point of every run. |
| IocpRuns.DeliverKeeps | modules/core/src/event_loop_iocp.cpp:800-802 | Delivering one listed outcome frees only a record the kernel has let go of, and disposes of its accept socket. |
| IocpRuns.ShutdownKeeps | modules/core/src/event_loop_iocp.cpp:202-228 | Pinning every record and counting the kernel-backed ones starts a drain whose count is what the kernel holds. |
| IocpLedger.OwnedExactly | modules/core/src/event_loop_iocp.cpp:237-245 | With nothing listed and nobody orphaned, what the kernel holds and the kernel-backed records are the same set. |
| IocpLedger.OwnedDrain | modules/core/src/event_loop_iocp.cpp:259-263 | Dequeuing one packet while draining lowers the number of held records by one for a completion and by none for a wake-up. |
| IocpLedger.SocketsTake | modules/core/src/event_loop_iocp.cpp:1014-1017 | Removing an accept record moves its socket to the handed-out ones on success and to the closed ones otherwise. |
| IocpWake.NoLostWakeup | modules/core/src/event_loop_iocp.cpp:699-718 | Under every interleaving of callers (push, exchange the flag, post) with the loop (check, wait, swap queues and clear the flag): with waits that fail included, if the loop is blocked while an item or stop request is queued whose caller has returned, a packet is in the port or some caller is about to post one. |
| IocpWake.StepKeeps | modules/core/src/event_loop_iocp.cpp:1047-1052 | Every step of a caller and of the loop keeps the relation between queues, flag, packets and callers that implies it. |
| IocpImpl.CompletionLoop.constructor | modules/core/src/event_loop_iocp.cpp:964-990 | A new loop is the empty state of the model. |
| IocpImpl.CompletionLoop.AcquireOperation | modules/core/src/event_loop_iocp.cpp:964-990 | Enters a record under a fresh id with its wake-up timer before its deadline timer. |
| IocpImpl.CompletionLoop.TakeOut | modules/core/src/event_loop_iocp.cpp:1031-1045 | Hands the record to the caller and removes it and its timers from the tables. |
| IocpImpl.CompletionLoop.DiscardOne | modules/core/src/event_loop_iocp.cpp:997-999 | Drops a record whose submission failed, resuming nobody. |
| IocpImpl.CompletionLoop.StartTransfer | modules/core/src/event_loop_iocp.cpp:317-352 | Implements submission in its three cases: loop gone, taken by the kernel, refused and discarded. |
| IocpImpl.CompletionLoop.StartAccept | modules/core/src/event_loop_iocp.cpp:501-557 | The same for accepts; a refused one closes the socket created for it. |
| IocpImpl.CompletionLoop.Fix | modules/core/src/event_loop_iocp.cpp:903-924 | Pins the first reason only, and says whether it applied and whether the operation can be resolved at once because the kernel is not involved. |
| IocpImpl.CompletionLoop.PinCancel | modules/core/src/event_loop_iocp.cpp:643-656 | A cancellation is queued exactly if it was the first reason and no packet is owed. |
| IocpImpl.CompletionLoop.PushCancel | modules/core/src/event_loop_iocp.cpp:650-653 | Appends the id to the pending cancellations. |
| IocpImpl.CompletionLoop.FinalizeOne | modules/core/src/event_loop_iocp.cpp:1006-1028 | Resumes if and only if the id is still in the table, and disposes of an accept socket by the outcome. |
| IocpImpl.CompletionLoop.Outcomes | modules/core/src/event_loop_iocp.cpp:734-756 | The loop over dequeued entries lists one outcome per completion, a pinned reason replacing the packet's own, and skips wake-ups. |
| IocpImpl.CompletionLoop.ExpireDue | modules/core/src/event_loop_iocp.cpp:773-789 | Wake-ups are listed as successes; a deadline pins, and is listed only if the kernel is not involved. |
| IocpImpl.CompletionLoop.TakeCancels | modules/core/src/event_loop_iocp.cpp:790-796 | Each queued cancellation still live is listed with the reason pinned on it. |
| IocpImpl.CompletionLoop.Drain | modules/core/src/event_loop_iocp.cpp:245-264 | The drain loop stops after exactly the packet at which the counted completions are in, having skipped wake-ups. |
| Octets.NumeralRoundTrip | modules/http/src/response_parser.cpp:32-38 | Reading the base-10 or base-16 numeral of any number below 2^64 gives the number back. |
| Octets.ParsesExactly | modules/http/src/parser.cpp:70-95 | A text reads as n exactly if n fits 64 bits and the text is zeros followed by the numeral of n in digits of either case; signs, blanks and numbers that overflow are refused. |
| Octets.NumeralLength | modules/http/src/serializer.cpp:41-52 | A number below base^k has at most k digits, so a 64-bit value has at most sixteen hexadecimal ones. |
| Grammar.TrimMeaning | modules/http/src/grammar.hpp:68-76 | Trimming yields the middle of the text: what is cut is all optional whitespace, and the rest neither starts nor ends with any. |
| Grammar.Trim | modules/http/src/grammar.hpp:68-76 | The two shrinking loops compute it. |
| Grammar.Split | modules/http/src/grammar.hpp:84-98 | The loop yields the trimmed non-empty items of a comma list, for every text. |
| Grammar.SplitListJoin | modules/http/src/grammar.hpp:84-98 | The items of two lists joined by a comma are the items of the first, then of the second. |
| Grammar.RawItemsJoin | modules/http/src/response_parser.cpp:74-122 | The same without dropping empty items. |
| HttpMessage.GetAllAppend | modules/http/src/message.cpp:129-137 | The values of a name in a concatenated field list are those of the first part, then those of the second. |
| HttpMessage.TrimmedContains | modules/http/src/message.cpp:108-118 | Trimming values never changes which names are present. |
| HttpMessage.NamesEqualMeans | modules/http/src/message.cpp:108-118 | Two names are equal exactly if they have the same length and differ at most in the case of letters. |
| HttpMessage.ContainsMeans | modules/http/src/message.cpp:120-137 | A name is found exactly if some field has it. |
| Lines.LineMeans | modules/http/src/response_parser.cpp:15-31 | A line is found exactly if the input starts with it and its CR LF (or LF alone where allowed), it holds no CR or LF, and it is within the limit; if none is found there is no LF. |
| Lines.AgreedFits | modules/http/src/parser.cpp:481-507 | The length all Content-Length items agree on fits 64 bits. |
| Lines.AgreedMeans | modules/http/src/parser.cpp:481-500 | The loop agrees on n exactly if there are items and each of them reads as n. |
| ResponseHeads.HeadDecides | modules/http/src/response_parser.cpp:74-122 | The case list of section 6.3 of RFC 9112 over octets, for every head that can be spelled within the limits: refused for one of the faults it has (both framing fields, 101, 2xx to CONNECT, lengths that are no one number, a coding that is not one field saying chunked or comes from HTTP/1.0, framing on a status that forbids a body) if it has any; else it ends at its blank line for HEAD, 1xx, 204 and 304, goes on with chunks, with as many octets as its length says if that is within the limit, or until the stream ends. What is stored is spelled out. |
| ResponseHeads.FramingSaid | modules/http/src/response_parser.cpp:74-104 | The framing check errs exactly on heads with such a fault, and otherwise finds chunked exactly if there is a coding and a length exactly if there is one, that number. |
| ResponseBodies.CloseDelimitedRead | modules/http/src/response_parser.cpp:117-161 | With neither field and a status that has a body: however the octets are cut, once the stream ends the body is everything after the head, if that fits the body limit, and otherwise it is refused. |
| ResponseBodies.MeasuredRead | modules/http/src/response_parser.cpp:112-161 | With a length: the body is exactly as many octets as it says, and what follows is left alone, however cut. |
| ResponseBodies.ChunkedRead | modules/http/src/response_parser.cpp:109-239 | With the coding: any chunks within the limits, any extensions and any permitted trailers read back as the data joined and the trailers stored, and what follows is left alone, however cut. |
| ResponseBodies.BodilessRead | modules/http/src/response_parser.cpp:106-108 | HEAD and statuses without body end at the blank line, with the announced length stored, however cut. |
| ResponseBodies.RunTrailer | modules/http/src/response_parser.cpp:60-72 | A readable trailer within the limits is stored, unless its name is one of the five that may not trail; then it is refused. |
| ResponseGrammar.FieldMeans | modules/http/src/response_parser.cpp:45-72 | A line is a field exactly if it is a token, a colon and visible text, and in a trailer not one of the forbidden names; the value is the text trimmed. |
| ResponseGrammar.ForbiddenMeans | modules/http/src/response_parser.cpp:60-65 | The names forbidden in trailers are exactly five, case ignored. |
| ResponseGrammar.StatusMeans | modules/http/src/response_parser.cpp:179-200 | A line is a status line exactly if it is HTTP/1.1 or HTTP/1.0, three digits from 100 to 599 and visible text, with single spaces. |
| ResponseGrammar.SizeMeans | modules/http/src/response_parser.cpp:218-236 | A size line is accepted exactly if its digits are a number within the chunk limit and what is left of the body limit and its extension is visible text within its own. |
| ResponseHeads.FoldedLine | modules/http/src/response_parser.cpp:45-46 | A continuation line is refused, in headers and trailers. |
| ResponseHeads.BareLineFeed | modules/http/src/response_parser.cpp:15-31 | A line feed alone ends a line as CR LF does where that is allowed, and is refused where not. |
| ResponseSlicing.SlicingIndependence | modules/http/src/response_parser.cpp:124-245 | For every octet string, limits and method, every way of cutting the input into reads before the peer closes gives the verdict of one whole buffer, and on acceptance the same parser state (head, trailers, counters), the same body and the same octets left over. |
| ResponseSlicing.RejectionReasonMayDiffer | modules/http/src/response_parser.cpp:19-29 | The reason for a rejection is not covered: a two-octet input is refused for its line ending when whole and for its length when cut. |
| ResponseReasons.ReasonExactly | modules/http/src/response_parser.cpp:15-31 | Every way of cutting an input gives the same verdict for the same reason if and only if the whole is not refused for the ending of a line that is over its cap. |
| ResponseReasons.LatePrefix | modules/http/src/response_parser.cpp:19-29 | Where it is, some prefix is refused for its length instead. |
| ResponseReasons.ReasonAppend | modules/http/src/response_parser.cpp:136-245 | Otherwise feeding a and then b fails for the reason a + b does. |
| ResponseSlicing.SelfDelimiting | modules/http/src/response_parser.cpp:136-245 | If a message that is not close-delimited is accepted, appending any suffix leaves the result unchanged and the suffix unread, and every strict prefix of the octets consumed, followed by the end of the stream, fails with eof. |
| ResponseSlicing.LimitsHold | modules/http/src/response_parser.cpp:66-69 | After any reads: body handed out plus body still announced stays within the body limit, and fields and trailers together stay within the count and octet limits; no proviso. |
| ResponseSlicing.BodyIsCounted | modules/http/src/response_parser.cpp:148-160 | The body counter grows by exactly what is handed out. |
| ResponseSlicing.StepIsStable | modules/http/src/response_parser.cpp:136-245 | Seeing more input never changes a step already decided, except that a body step may take more, which comes to the same as taking it twice. |
| ResponseSlicing.LineSeesMore | modules/http/src/response_parser.cpp:15-31 | A line found in the input is found in every longer input, and a refused line stays refused. |
| ResponseSlicing.EofBodyNeverEnds | modules/http/src/response_parser.cpp:139-162 | A close-delimited body never ends by its own octets. |
| ResponseSlicing.RunKeepsKind | modules/http/src/response_parser.cpp:74-122 | Only a response announced as close-delimited ever waits for the end of the stream. |
| ResponseMachine.FieldLineMeans | modules/http/src/response_parser.cpp:66-69 | In every reachable state a field line is accepted exactly if it is well formed, one more field fits the count and its octets fit the total, said with plain sums: the subtraction in the check never wraps. |
| ResponseMachine.FieldLineKeepsLimits | modules/http/src/response_parser.cpp:45-72 | An accepted field line leaves counts and octet totals within their limits. |
| ResponseMachine.HandleLineKeepsLimits | modules/http/src/response_parser.cpp:163-245 | Every line accepted in any phase leaves a state within all limits. |
| ResponseMachine.TakeBodyKeepsLimits | modules/http/src/response_parser.cpp:148-160 | Handing out body octets leaves counters within limits. |
| ResponseParsing.ResponseParser.constructor | modules/http/src/response_parser.cpp:41-43 | A new parser is the machine's fresh state. |
| ResponseParsing.ResponseParser.Reset | modules/http/src/response_parser.cpp:41-43 | Resetting gives the fresh state for the new method, with the limits kept and the error cleared. |
| ResponseParsing.ResponseParser.AddField | modules/http/src/response_parser.cpp:45-72 | Field checks in the code's order, then the field appended; a refused line changes nothing. |
| ResponseParsing.ResponseParser.DecideFraming | modules/http/src/response_parser.cpp:74-122 | Decides body kind and length as section 6.3 of RFC 9112 orders the cases, or refuses. |
| ResponseParsing.ResponseParser.TakeSlice | modules/http/src/response_parser.cpp:148-160 | The slice handed out is the next octets of the buffer, which stay there until the following call. |
| ResponseParsing.ResponseParser.EmitBody | modules/http/src/response_parser.cpp:139-162 | Hands out a slice, asks for more, or at the end of the stream completes exactly a close-delimited body. |
| ResponseParsing.ResponseParser.UseLine | modules/http/src/response_parser.cpp:163-245 | One line in any phase takes the machine's step. |
| ResponseParsing.ResponseParser.ReadLine | modules/http/src/response_parser.cpp:15-31 | Cuts one line off the buffer and uses it, or leaves parser and buffer as they were. |
| ResponseParsing.ResponseParser.Advance | modules/http/src/response_parser.cpp:136-245 | The loop answers, and leaves state, buffer and pending slice, as the machine run to its next report does. |
| ResponseParsing.ResponseParser.Parse | modules/http/src/response_parser.cpp:124-134 | Drops the previous slice, advances, and keeps the first error for good; the buffer only ever loses octets from its front. |
| ResponseParsing.CallUnfolds | modules/http/src/response_parser.cpp:136-245 | One call reports the end of the headers, a body slice, completion, starvation or an error at the first step that has something to report. |
| Serializer.ToHex | modules/http/src/serializer.cpp:41-52 | The digit loop computes the hexadecimal numeral of any 64-bit value. |
| Serializer.WriteResponseHead | modules/http/src/serializer.cpp:107-175 | Refuses in the code's order of checks, or appends exactly status line, the caller's fields, the framing field of the status and framing, and a blank line. |
| Serializer.CheckFields | modules/http/src/serializer.cpp:126-130 | Accepts exactly lists whose names are tokens and whose values are field text. |
| Serializer.WriteStatusLine | modules/http/src/serializer.cpp:132-145 | Appends the status line with the given or the default reason, refusing a reason that is not field text. |
| Serializer.WriteFields | modules/http/src/serializer.cpp:147-152 | Appends one line per field, in order. |
| Serializer.WriteChunk | modules/http/src/serializer.cpp:290-303 | Refuses an empty piece, which would end the body; otherwise appends size, octets and line ends. |
| ResponseRoundTrip.StatusReadBack | modules/http/src/serializer.cpp:132-145 | For every status 100 to 599 and every writable reason, the parser reads the status line back. |
| ResponseRoundTrip.FieldReadBack | modules/http/src/serializer.cpp:147-152 | The parser reads every writable field back, its value trimmed. |
| ResponseRoundTrip.RunFields | modules/http/src/response_parser.cpp:45-72 | The same for whole field lists that fit the limits, in order. |
| ResponseRoundTrip.FramingReadBack | modules/http/src/response_parser.cpp:74-122 | The parser draws from the written fields exactly the framing the writer announced, for every method but CONNECT and every status but 101. |
| ResponseRoundTrip.HeadReadBack | modules/http/src/serializer.cpp:107-175 | A written head followed by anything leaves the parser ready for exactly the announced body, with status, version, reason and trimmed fields. |
| ResponseRoundTrip.ChunkSizeReadBack | modules/http/src/response_parser.cpp:218-236 | The hexadecimal chunk size is read back to the same number and always fits its line limit. |
| ResponseRoundTrip.RunChunk | modules/http/src/serializer.cpp:290-303 | A written chunk is read back as its piece, and the parser is ready for the next chunk. |
| ResponseRoundTrip.RunLastChunk | modules/http/src/serializer.cpp:305-307 | The last chunk ends the message exactly there. |
| ResponseRoundTrip.RunLength | modules/http/src/response_parser.cpp:148-160 | A body of the announced length is read back and the message ends with its last octet. |
| ResponseWriting.Respond | modules/http/include/mira/http/connection.hpp:125-215 | For any sequence of calls on a new writer that all succeed and end the response, over any stream with short writes (final status up to 599 except 101, method not CONNECT, within the reader's limits): the octets that reached the stream, read in any slices, are exactly one message that ends at the last of them, with the status, trimmed fields and no trailers, and as body the pieces joined, or nothing for HEAD and statuses without body. |
| ResponseWriting.Perform | modules/http/include/mira/http/connection.hpp:125-215 | Made in order on the writer up to the first failure, calls that succeed leave exactly the state and the octets of their transcript; over a stream that always takes something they fail only where the transcript does. |
| ResponseWriting.WriterRoundTrip | modules/http/include/mira/http/connection.hpp:125-215 | The transcript of any successful sequence of calls that ends the response reads back from one buffer as that message. |
| ResponseWriting.WriterRoundTripSliced | modules/http/include/mira/http/connection.hpp:125-215 | The same however the transcript is cut into reads. |
| WriterOrder.OrderlyExactly | modules/http/include/mira/http/connection.hpp:125-215 | A sequence of calls on a new writer succeeds if and only if it has at most one head, that head can be written (and is HTTP/1.1 if begun), and pieces come only between a begin and the first finish after it; and the response is then finished if and only if it was sent whole or begun and finished. |
| WriterOrder.ErrorMeans | modules/http/src/serializer.cpp:107-130 | A head is refused exactly for a status out of 100 to 999, framing fields of the caller's own, fields or reason that are no field text, or chunks under HTTP/1.0. |
| ResponseWriting.ChunksReadBack | modules/http/include/mira/http/connection.hpp:181-215 | Any run of pieces and the finish is read back as the joined pieces and the end of the message. |
| ResponseWriting.SendReadBack | modules/http/include/mira/http/connection.hpp:125-159 | A response sent whole is read back, body included, with the length announced even where the body is withheld. |
| ResponseWriting.BeginReadBack | modules/http/include/mira/http/connection.hpp:164-178 | The same for a response begun chunked, whether or not its status allows a body. |
| ResponseWriting.ResponseWriter.constructor | modules/http/include/mira/http/connection.hpp:115-120 | A new writer has sent nothing. |
| ResponseWriting.ResponseWriter.SendResponse | modules/http/include/mira/http/connection.hpp:125-159 | Over any stream that takes fewer octets than offered: success means exactly the octets of the call on values were written, a refused call writes nothing, and flags change as there. |
| ResponseWriting.ResponseWriter.SendHeadChunked | modules/http/include/mira/http/connection.hpp:164-178 | The same for beginning a chunked response. |
| ResponseWriting.ResponseWriter.Write | modules/http/include/mira/http/connection.hpp:181-200 | The same for a piece, which is swallowed for HEAD and statuses without body. |
| ResponseWriting.ResponseWriter.End | modules/http/include/mira/http/connection.hpp:203-215 | The same for finishing, once: finishing again writes nothing. |
| Buffers.Buffer.constructor | modules/core/include/mira/core/buffer.hpp:35-36 | A new buffer is empty with the capacity asked for. |
| Buffers.Buffer.Size | modules/core/include/mira/core/buffer.hpp:38-39 | With nothing lent, the size is the number of unread octets. |
| Buffers.Buffer.ReclaimIfWorthwhile | modules/core/include/mira/core/buffer.hpp:108-124 | Moves unread octets to the front without changing them, and afterwards either nothing is in front of them or the incoming octets fit without growing. |
| Buffers.Buffer.Prepare | modules/core/include/mira/core/buffer.hpp:56-62 | Leaves the unread octets alone, lends exactly the tail asked for, and does not grow if unread plus tail fit the capacity. |
| Buffers.Buffer.Fill | modules/core/include/mira/core/buffer.hpp:56-62 | Writing into the lent tail touches nothing unread. |
| Buffers.Buffer.Commit | modules/core/include/mira/core/buffer.hpp:68-72 | Appends to the unread octets the part of the tail that was filled and gives the rest back. |
| Buffers.Buffer.Consume | modules/core/include/mira/core/buffer.hpp:75-81 | Drops that many unread octets from the front, or all if there are fewer. |
| Buffers.Buffer.Append | modules/core/include/mira/core/buffer.hpp:84-86 | The buffer is a byte queue: appending adds at the back. |
| Buffers.Buffer.Reserve | modules/core/include/mira/core/buffer.hpp:101-103 | Only the capacity changes, and never shrinks below what is asked. |
| Streams.WriteAll | modules/core/include/mira/core/stream.hpp:221-237 | Whatever the short writes: what reached the stream is a prefix of the source, success means all of it, and a stream that always takes something is always written in full. |
| Streams.AdvanceCursor | modules/core/include/mira/core/stream.hpp:153-164 | Moving the (piece, offset) cursor by n octets moves its position in the joined pieces by exactly n. |
| Streams.WritevAll | modules/core/include/mira/core/stream.hpp:125-168 | As for a single source; over a stream that always takes something every octet is written, and success is reported if and only if there was nothing to write or the last piece is not empty. |
| Streams.WriteStream.WriteSome | modules/core/include/mira/core/stream.hpp:40-44 | A write takes a prefix of what is offered, or fails and takes nothing. |
| Streams.WriteStream.WritevSome | modules/core/include/mira/core/stream.hpp:104-108 | A scattered write takes a prefix of the joined pieces, or fails and takes nothing. |
| Streams.ReadStream.ReadSome | modules/core/include/mira/core/stream.hpp:33-38 | A read delivers the next arriving slice, cut to the space given, or reports the end of the stream. |
| RequestSlicing.SlicingIndependentExactly | modules/http/include/mira/http/parser.hpp:7-10 | Every way of cutting an input into reads agrees with the whole buffer if and only if the whole is rejected or every line of the run is at least one octet under its limit (the code counts the CR of an unfinished line). The documented promise holds exactly there. |
| RequestSlicing.SlicingOnlyRejects | modules/http/src/parser.cpp:281-300 | Whatever the reads, a sliced parse that is not rejected equals the parse of the whole. |
| RequestRoundTrip.TightLineDependsOnReads | modules/http/src/parser.cpp:281-300 | A start line exactly at its limit is accepted whole and rejected when cut between CR and LF. |
| RequestSlicing.BodyLimitHolds | modules/http/src/parser.cpp:513-595 | If the body and chunk limits sum to less than 2^64, then after any reads body handed out plus body still announced stays within the body limit. |
| RequestHeads.UnframedRequest | modules/http/src/parser.cpp:431-511 | For every head that can be spelled within the limits with neither framing field: the request ends at its blank line without body and what follows is untouched; so under every cutting exactly if its lines leave room for their CR. |
| RequestHeads.ConflictRefused | modules/http/src/parser.cpp:437-442 | With both framing fields it is refused, whatever they say. |
| RequestHeads.CodedRequest | modules/http/src/parser.cpp:444-480 | With the coding alone it is accepted as chunked exactly if the version is 1.1 and the items of all its fields are the one item chunked, and refused otherwise. |
| RequestHeads.MeasuredRequest | modules/http/src/parser.cpp:481-507 | With a length alone it is accepted exactly if all items of all its fields read as one number within the body limit, which is then what is expected, and refused otherwise. |
| RequestBodies.MeasuredRequestRead | modules/http/src/parser.cpp:513-531 | After such a head as many octets as it says are the body, and what follows is untouched. |
| RequestBodies.ChunkedRequestRead | modules/http/src/parser.cpp:533-662 | After a head that asks for chunks, any chunks within the limits, with any extensions and any trailers that fit, read back as the data joined and the trailers stored, and what follows is untouched. |
| RequestBodies.RunChunks | modules/http/src/parser.cpp:533-612 | Chunks are handed out as their data joined, and counted. |
| RequestBodies.RunTrailers | modules/http/src/parser.cpp:614-662 | Trailers are stored in order, trimmed. |
| RequestBodies.StrayOctets | modules/http/src/parser.cpp:597-611 | Anything but a line end right after chunk data is refused. |
| RequestGrammar.FieldMeans | modules/http/src/parser.cpp:390-426 | A line is a field exactly if it is a token, a colon and, in a header, visible text; the value is the text trimmed. |
| RequestGrammar.SpaceBeforeColon | modules/http/src/parser.cpp:390-408 | Whitespace before the colon is reported exactly where there is some; every other fault is a malformed header. |
| RequestGrammar.StartMeans | modules/http/src/parser.cpp:281-349 | A request line is accepted exactly if it fits its limit and is a token, a target and HTTP/1.1 or HTTP/1.0 with single spaces; what is stored is those. |
| RequestGrammar.OtherVersion | modules/http/src/parser.cpp:335-346 | Any other version, in a line otherwise in order, is reported as unsupported. |
| RequestGrammar.SizeMeans | modules/http/src/parser.cpp:533-580 | A size line is accepted exactly if its digits are a number within the chunk limit, which added to what was seen (in 64 bits) is within the body limit, and its extension is within its own. |
| RequestHeads.FoldedLine | modules/http/src/parser.cpp:376-388 | A continuation line is refused, or, where folding is allowed, dropped, but not before the first field. |
| RequestHeads.BareLineFeed | modules/http/src/parser.cpp:33-61 | A line feed alone ends a line as CR LF does where that is allowed, and is refused where not. |
| RequestHeads.RunBlankLine | modules/http/src/parser.cpp:351-429 | Any readable fields that fit are stored in order, trimmed, and what the head comes to is decided at its blank line. |
| RequestOverrun.BodyBoundExactly | modules/http/src/parser.cpp:558-570 | For all limits: no sequence of reads ever makes the parser hand out more than the body limit if and only if the body and chunk limits sum to less than 2^64, or the limits have no room for any chunked head. |
| RequestOverrun.OverrunEmitted | modules/http/src/parser.cpp:565-567 | Where a chunked head fits and the sum does not, an input a peer can send (such a head, one-octet chunks up to where the largest chunk makes the sum wrap, then that chunk) is handed out to one octet past the limit. |
| RequestOverrun.OneOctetLimitBroken | modules/http/src/parser.cpp:565-567 | For instance under a limit of one octet two are handed out. |
| ChunkedHeads.NoChunksUnlessFit | modules/http/src/parser.cpp:351-480 | Without that room (12 octets of start line, one field of 25 octets within count, line and total, or two fields whose sizes wrap the total), whatever is read, the body limit is kept and no trailer is ever stored. |
| ChunkedHeads.TicketEnters | modules/http/src/parser.cpp:414-424 | With it, one particular head always gets past: the 12-octet start line and the bare coding, or a field that fills the total followed by a coding so long that the 64-bit sum wraps. |
| ChunkedHeads.HeadEnters | modules/http/src/parser.cpp:281-480 | After a head whose fields are let in one by one and frame the body as chunked the parser stands before the first chunk, with exactly those fields. |
| ChunkedHeads.CodingFrames | modules/http/src/parser.cpp:447-480 | A coding list with any number of empty items before `chunked`, among other fields, frames the body as chunked. |
| RequestLimits.HeaderLimitsHold | modules/http/src/parser.cpp:414-424 | After any reads headers and trailers each stay within the count limit, together within twice that; header octets stay within their total for every input shorter than 2^64 octets; the octets of each list are bounded by its number of fields times the line limit. |
| RequestTrailers.JointOctetsExactly | modules/http/src/parser.cpp:614-662 | For all limits with room for a chunked head: after any reads the octets of headers and trailers together stay within max_headers_total if and only if that total has room for twice max_header_count lines of max_header_line octets. The documented total over all header fields holds exactly there. |
| RequestTrailers.JointOctetsUnchunked | modules/http/src/parser.cpp:414-424 | Without that room it holds for every input shorter than 2^64 octets. |
| RequestTrailers.JointCountExactly | modules/http/src/parser.cpp:614-662 | For all limits: after any reads headers and trailers together stay within max_header_count if and only if no chunked head fits the limits at all. |
| RequestTrailers.TrailersEscapeTheCaps | modules/http/src/parser.cpp:614-662 | After any chunked head that gets in, any list of unpadded fields that by itself fits the count and the line limit is accepted as trailers and stored whole beside the headers: the caps are not joint. |
| RequestSlicing.StepIsSemiStable | modules/http/src/parser.cpp:159-279 | Seeing more input never changes a step that did not fail, except for body steps, which take the same octets in one go. |
| RequestSlicing.StepIsLocal | modules/http/src/parser.cpp:159-279 | A step that moves depends only on the octets it consumes: any shorter input that still holds them gives the same step. |
| RequestSlicing.PatientRunIsRoomy | modules/http/src/parser.cpp:351-361 | A run fails on no prefix of any of its lines exactly if each line leaves room for the CR. |
| RequestMachine.NextLineMeans | modules/http/src/parser.cpp:33-62 | A line is found exactly if the input starts with it and its end and it holds no CR or LF, however long it is. |
| RequestMachine.HeaderLineKeepsLimits | modules/http/src/parser.cpp:351-429 | An accepted header line leaves a state within all limits. |
| RequestMachine.EndOfHeadersKeepsLimits | modules/http/src/parser.cpp:431-511 | An accepted framing announces no more than the body limit. |
| RequestMachine.HandleLineKeepsLimits | modules/http/src/parser.cpp:533-662 | So does every line accepted in any phase. |
| RequestMachine.TakeBodyKeepsLimits | modules/http/src/parser.cpp:513-531 | So does handing out body octets. |
| RequestParsing.CallIsRun | modules/http/src/parser.cpp:159-279 | What one call hands out, followed by a run on what it leaves, is the run on what it was given; an error is the run's. |
| RequestParsing.NeedMoreMeansHungry | modules/http/src/parser.cpp:159-279 | Asking for more means the run on everything given starves in the state left behind. |
| RequestParsing.CollectItems | modules/http/src/parser.cpp:447-453 | The nested loops collect the list items of every value in order. |
| RequestParsing.AcceptsCodings | modules/http/src/parser.cpp:454-476 | Accepts exactly the single coding chunked. |
| RequestParsing.AgreeOn | modules/http/src/parser.cpp:481-500 | The loop yields the one length all items agree on, or the first disagreement or malformed item. |
| RequestParsing.Frame | modules/http/src/parser.cpp:431-511 | Decides body kind and length in every case, conflicts and limits included. |
| RequestParsing.RequestParser.constructor | modules/http/src/parser.cpp:146-157 | A new parser is the machine's fresh state. |
| RequestParsing.RequestParser.Reset | modules/http/src/parser.cpp:146-157 | Resetting gives the fresh state under the same limits. |
| RequestParsing.RequestParser.AddHeader | modules/http/src/parser.cpp:371-428 | Header checks in the code's order, then the field appended. |
| RequestParsing.RequestParser.AddTrailer | modules/http/src/parser.cpp:614-662 | Line limit, name and count checks, then the trailer appended; its value and the kind of field are not looked at. |
| RequestParsing.RequestParser.DecideFraming | modules/http/src/parser.cpp:431-511 | Sets body kind, length and phase as the machine does, or fails as it does. |
| RequestParsing.RequestParser.UseLine | modules/http/src/parser.cpp:281-350 | One line in any phase takes the machine's step. |
| RequestParsing.RequestParser.ReadLine | modules/http/src/parser.cpp:33-62 | Cuts one line off the buffer and uses it; a starved parser and its buffer stay as they were. |
| RequestParsing.RequestParser.EmitBody | modules/http/src/parser.cpp:513-531 | Hands out the next slice, or asks for more. |
| RequestParsing.RequestParser.Parse | modules/http/src/parser.cpp:159-279 | Drops the previous slice, then answers and leaves state, buffer and slice as the machine run to its next report does. |
| RequestSerializer.AcceptsExactly | modules/http/src/serializer.cpp:177-280 | The writer accepts exactly the requests described without machine arithmetic: valid method, target, Host and options, no framing fields, and start line, each field line, their sum, their count and the body within the limits. None of its unsigned subtractions wraps. |
| HostGrammar.SentExactly | modules/http/src/serializer.cpp:177-280 | The same spelled out: no CONNECT, unknown method, Upgrade or Expect; a visible path without fragment, or * for OPTIONS; exactly one Host (at most one from HTTP/1.0) of the grammar below; no framing fields; token names, visible values and only close and keep-alive as options; and start line, body, field count, every line and their sum with the added length line within the limits. |
| HostGrammar.IpMeans | modules/http/src/serializer.cpp:210-229 | The scan accepts a bracketed address exactly if it is eight groups of one to four hexadecimal digits joined by colons, or at most seven in all on the two sides of one double colon. |
| HostGrammar.HostMeans | modules/http/src/serializer.cpp:202-255 | The host check accepts exactly a name of letters, digits, dots and hyphens or a bracketed address, with a decimal port up to 65535 or none. |
| RequestSerializer.FieldCheckMeans | modules/http/src/serializer.cpp:262-276 | One field passes exactly if it is valid, its line fits and the running total stays within the limit; the total grows by the line. |
| RequestSerializer.FieldsCheckMeans | modules/http/src/serializer.cpp:261-276 | The same for the whole list. |
| RequestSerializer.CheckPort | modules/http/src/serializer.cpp:249-254 | Accepts exactly decimal ports up to 65535; the guard at 6553 never lets the number overflow. |
| RequestSerializer.CountGroups | modules/http/src/serializer.cpp:217-226 | The scan counts hexadecimal groups of at most four digits, or fails. |
| RequestSerializer.FindTriple | modules/http/src/serializer.cpp:211-216 | Finds a run of three colons exactly if there is one. |
| RequestSerializer.CheckIp | modules/http/src/serializer.cpp:210-229 | Accepts exactly the bracketed addresses the code's rules describe. |
| RequestSerializer.CheckHost | modules/http/src/serializer.cpp:202-255 | The same for the whole Host value, name or bracketed address with optional port. |
| RequestSerializer.CheckAllFields | modules/http/src/serializer.cpp:261-276 | The loop yields the total or the first field's error. |
| RequestSerializer.CheckRequest | modules/http/src/serializer.cpp:177-280 | The error is that of the first check to fail. |
| RequestSerializer.WriteRequestHead | modules/http/src/serializer.cpp:177-288 | A refused request leaves the buffer untouched; an accepted one appends start line, fields, length and blank line. |
| RequestRoundTrip.RequestReadBack | modules/http/src/serializer.cpp:177-288 | Whatever the writer accepts under some limits, the parser under the same limits accepts from one buffer: method, target, version and trimmed fields plus the decimal length come back, the body is the body sent, and it stops exactly at whatever follows. |
| RequestRoundTrip.ReadBackExactly | modules/http/src/serializer.cpp:177-288 | For every request the writer accepts: it is read back under every way of cutting the octets into reads if and only if each of its lines leaves one octet of room under its limit. |
| RequestRoundTrip.RequestReadBackSliced | modules/http/src/serializer.cpp:177-288 | If each line leaves one octet of room, the same for every way of cutting the octets into reads. |
| RequestRoundTrip.HeadReadBack | modules/http/src/parser.cpp:281-429 | The written head leaves the parser ready for exactly the announced body. |
| RequestRoundTrip.StartReadBack | modules/http/src/parser.cpp:281-350 | The start line is read back to the same method, target and version. |
| RequestRoundTrip.FieldReadBack | modules/http/src/parser.cpp:371-412 | Every writable field is read back, its value trimmed. |
| RequestRoundTrip.RunFields | modules/http/src/parser.cpp:351-429 | The same for whole field lists that fit the limits, in order. |
| RequestRoundTrip.FramingReadBack | modules/http/src/parser.cpp:481-507 | The parser draws the written length from the fields, and nothing else. |
| Server.PipelinedRequestsServed | modules/http/include/mira/http/connection.hpp:285-434 | For any list of requests the writer accepts, with bodies, every line one octet under its limit, however the stream is cut into non-empty reads: the handler is called with exactly those requests and bodies, in order, up to and with the first that says close, or is HTTP/1.0 and does not say keep-alive, or at which a close is forced, or the maximum per connection; then the connection ends without error. |
| Server.RequestServed | modules/http/include/mira/http/connection.hpp:383-434 | One such request with anything after it: the handler is called with it, and then serving ends exactly if it closes the connection, a close is forced or it was the last one allowed, and otherwise goes on with exactly what follows. |
| Server.FirstServed | modules/http/include/mira/http/connection.hpp:303-380 | The first request of what is left is read whole, and what remains is exactly the octets after it. |
| Server.NoRequestServed | modules/http/include/mira/http/connection.hpp:303-376 | Octets that make no request reach no handler: the connection ends with an error if they are refused, with eof if they stop halfway, and quietly if there are none, however cut. |
| Server.KeepAliveMeans | modules/http/src/serializer.cpp:89-105 | The server keeps the connection exactly if no item of any Connection field is close and, for HTTP/1.0, some item is keep-alive. |
| Server.MentionsMeans | modules/http/src/serializer.cpp:90-98 | A token is mentioned exactly if some item of some Connection field is it, case ignored. |
| Server.SettlesAtEnd | modules/http/include/mira/http/connection.hpp:345-376 | Reading until the parser stops ends where the parse of the whole stream ends, having neither lost nor taken an octet of what follows. |
| Server.KeepAliveSurvives | modules/http/src/serializer.cpp:89-105 | Trimming and the added length field never change whether the connection persists. |
| Server.MentionsSurvive | modules/http/src/serializer.cpp:90-98 | Nor which connection options are mentioned. |
| Grammar.SplitTrimmed | modules/http/src/grammar.hpp:84-98 | Trimming a list never changes its items. |
| Grammar.ItemsPadded | modules/http/src/grammar.hpp:84-98 | Nor does whitespace put around it. |
| Server.DecideKeepAlive | modules/http/src/serializer.cpp:89-105 | The loops compute the persistence rule of section 9.3 of RFC 9112 as the code has it. |
| Server.FindMention | modules/http/src/serializer.cpp:90-98 | Found if and only if some Connection field lists the token. |
| Server.FindToken | modules/http/src/serializer.cpp:93-95 | Found if and only if some item equals the token, case ignored. |
| ServerLoop.ServeConnection | modules/http/include/mira/http/connection.hpp:267-436 | The nested loops call the handler with exactly the requests and bodies of the specification, and report its error: none at a quiet close, eof mid-request, the parser's own, or a zero read size. |
| ServerLoop.ServeOne | modules/http/include/mira/http/connection.hpp:285-434 | One round of the loop ends the connection with exactly the calls and the error specified, or leaves exactly what is left of the specification to the next round. |
| ServerLoop.ReadRequest | modules/http/include/mira/http/connection.hpp:303-376 | One request is read to its end and no octet further, or the stream was quiet, or it broke. |
| ServerLoop.Refill | modules/http/include/mira/http/connection.hpp:348-375 | One read appends exactly the slice that arrived; a failed read leaves the buffer as it was. |
| ServerLoop.ParseOnce | modules/http/include/mira/http/connection.hpp:303-345 | One parse call keeps the reading on course to the settled result and makes the progress the loop's end rests on. |
| ServerLoop.CallIsDependable | modules/http/src/parser.cpp:159-279 | The head is reported once, before any body; completion only in the final state; a bodiless head already is the final state. |
| ServerLoop.ServeUnfolds | modules/http/include/mira/http/connection.hpp:383-434 | Another request is read exactly if this one persists, the server does not force a close and the maximum is not reached. |
| FramingOrder.RequestFramingOrderBlind | modules/http/src/parser.cpp:431-511 | Any rearrangement of the header fields gives the same verdict on the framing of a request: both refused, or the same body kind and length. |
| FramingOrder.ResponseFramingOrderBlind | modules/http/src/response_parser.cpp:74-122 | The same for responses, for every version, status and method. |
| FramingOrder.RequestLengthsMerge | modules/http/src/parser.cpp:481-507 | Nor does it matter whether any number of Content-Length values, among any other fields and in any order, come as fields of their own or as one comma list with any whitespace around its items. |
| FramingOrder.ResponseLengthsMerge | modules/http/src/response_parser.cpp:74-122 | The same for responses. |
| Client.Drive | modules/http/include/mira/http/client.hpp:36-101 | Over every sequence of start and read_body calls on a fresh client, failing ones included: once not reusable, never reusable again; reusable and idle, the input buffer is empty; and the buffer's capacity is only ever zero or its first reservation. |
| Client.ClientConnection.constructor | modules/http/include/mira/http/client.hpp:29-30 | A new connection is idle and reusable with an empty buffer. |
| Client.ClientConnection.Start | modules/http/include/mira/http/client.hpp:35-85 | Success means the request's octets and body were written, up to the permitted number of whole informational responses and then a final head were read, and the octets of those, those read since and those still to arrive are what the peer sends; the connection is then reusable if and only if the request does not close it, the response is not close-delimited and does not close it. It fails only for a busy or used-up connection (unchanged), a request that may not be sent (nothing written, still usable), a stop request, deadline or stream failure, octets that are no response, a full buffer, or one informational response too many. |
| Client.ClientConnection.ReadBody | modules/http/include/mira/http/client.hpp:89-101 | Pieces handed out join to the body; a piece is empty if and only if the exchange is over, and then the octets received are one whole message with that body. The connection stays reusable exactly if it was and nothing is left over. It fails only by a stop request, deadline or stream failure, octets that are no response, or a full buffer, and a failure ends reuse. |
| Client.ClientConnection.Begin | modules/http/include/mira/http/client.hpp:55-59 | Starts tracking a new message: nothing received, nothing handed out, reusable exactly if the request does not close the connection. |
| Client.ClientConnection.Reserve | modules/http/include/mira/http/client.hpp:55-55 | The input buffer is allocated once, at its final size. |
| Client.ClientConnection.Send | modules/http/include/mira/http/client.hpp:60-63 | Success means head and body were written in full, in that order. |
| Client.ClientConnection.Exchange | modules/http/include/mira/http/client.hpp:55-85 | Either the exchange is under way with a final head, or it failed for one of the reasons above. |
| Client.ClientConnection.ReadHead | modules/http/include/mira/http/client.hpp:64-83 | Reusable afterwards exactly if it was and the response allows it. |
| Client.ClientConnection.ReadFinalHead | modules/http/include/mira/http/client.hpp:64-77 | Success means a status of at least 200 with nothing of its body handed out. The code's check that the first report is a head is proved never to fire. |
| Client.ClientConnection.Skip | modules/http/include/mira/http/client.hpp:72-76 | An informational response passed over is one whole response without body, and the next begins right behind it; that its parse completes is proved. |
| Client.ClientConnection.KeepsOpen | modules/http/include/mira/http/client.hpp:78-83 | True exactly if the body is not close-delimited, no item of a Connection field is close, and an HTTP/1.0 response has the item keep-alive. |
| Client.ClientConnection.Next | modules/http/include/mira/http/client.hpp:141-159 | Never asks for more; reports a head exactly if one is due; each report stands for the octets received so far, and no octet of the stream is lost or read twice. |
| Client.ClientConnection.ParseTracked | modules/http/include/mira/http/client.hpp:144-145 | One parse call stays on track with the octets received, and fails only if they are no response. |
| Client.ClientConnection.ReadMore | modules/http/include/mira/http/client.hpp:146-157 | One read stays on track, moves octets from the stream to the response and, unless the stream ended, some. |
| Client.ClientConnection.Receive | modules/http/include/mira/http/client.hpp:147-157 | The slice read is the front of what arrives, is appended to the buffer and fits the reservation. |
| Client.ClientConnection.Serialize | modules/http/include/mira/http/client.hpp:51-53 | The head is the writer's text of the request, or its refusal. |
| Client.ClientConnection.Invalidate | modules/http/include/mira/http/client.hpp:136-140 | Neither active nor reusable afterwards. |
| ClientTrack.TrackCall | modules/http/include/mira/http/client.hpp:141-159 | If octets received so far come to what was handed out, then the parser state on what is unread, one call keeps it so. |
| ClientTrack.TrackMore | modules/http/include/mira/http/client.hpp:149-156 | So do more octets for a starved parser. |
| ClientTrack.TrackEnds | modules/http/include/mira/http/client.hpp:95-100 | Completion means the octets received are one whole message with the body handed out, and what is left over lies behind it. |
| ClientTrack.HeadFirst | modules/http/src/response_parser.cpp:124-245 | The head is reported first and once, and an informational one is all there is to its response. |
| ClientTrack.TrackFails | modules/http/include/mira/http/client.hpp:144-145 | A call fails only on octets that are no response. |
| ClientTrack.InterimRead | modules/http/include/mira/http/client.hpp:72-76 | Octets that brought an informational head are one whole response followed by what is unread. |
| ClientTrack.MentionsAgree | modules/http/include/mira/http/client.hpp:113-130 | The client's own scan for options, which keeps empty items, finds what the server's list split finds. |
| ClientTrack.LookFor | modules/http/include/mira/http/client.hpp:113-130 | The loop over fields computes that scan. |
| ClientTrack.LookIn | modules/http/include/mira/http/client.hpp:116-127 | The loop over one value's items compares each, trimmed and case ignored. |
| ResolverSafety.QueueBoundedAndTended | modules/transport/src/resolver.cpp:159-280 | Under every interleaving: the queue never exceeds its capacity; every enqueued job is queued, with a worker, signalled, about to be signalled, or given up by its caller; and after closing the queue is empty. |
| ResolverSafety.PublishedOnceDeliveredByRank | modules/transport/src/resolver.cpp:219-279 | Between any two points of a run a published result never changes and none appears once the caller has returned; a successful one is non-empty, free of duplicates and within the maximum; the caller's answer is the verdict at the step where it looked: the result, else cancelled, else timed out, else cancelled for shutdown, whatever is cancelled later; a caller that never got in hears cancelled or queue full. |
| ResolverSafety.ReplyGivenAt | modules/transport/src/resolver.cpp:266-279 | Every answer of a caller that waited was given at one return step, by the flags as they stood there. |
| ResolverRequests.ReplyByRank | modules/transport/src/resolver.cpp:266-279 | Over every interleaving, told from the actions: what a caller is told when it returns is the result brought to it before, if one was; else cancelled if anybody cancelled it before; else timed out if its deadline woke it; else cancelled. It is told so for good. |
| ResolverRequests.FlagsSay | modules/transport/src/resolver.cpp:219-279 | A job is flagged cancelled, abandoned or shut down exactly if somebody cancelled it, its caller returned, or the closer marked it. |
| ResolverRequests.ResultSays | modules/transport/src/resolver.cpp:219-222 | A job has a result exactly if some worker published it before the caller returned and before the closer marked the job. |
| ResolverRequests.AdmissionDecides | modules/transport/src/resolver.cpp:252-262 | A caller is turned away as cancelled once the resolver has closed, else as full exactly if as many queued jobs as there may be are neither cancelled nor returned, and otherwise queued last. |
| ResolverRequests.AskedExactly | modules/transport/src/resolver.cpp:191-199 | The backend is asked for a job exactly if nobody cancelled it, its caller has not returned and the closer has not marked it. |
| ResolverRequests.BroughtIsAnswered | modules/transport/src/resolver.cpp:198-222 | What a worker publishes is what the backend answered it, without duplicates, bounded, an empty list turned into a failure. |
| ResolverRequests.FirstComeFirstServed | modules/transport/src/resolver.cpp:184-190 | A job is taken only once every job that was ahead of it in the queue has left the queue. |
| ResolverSafety.StepKeeps | modules/transport/src/resolver.cpp:159-280 | Every step of callers, workers, users, deadlines and the closer keeps where jobs are, who is signalled, what is published and what was answered. |
| ResolverSafety.PrunedMeans | modules/transport/src/resolver.cpp:256-259 | Pruning drops exactly the jobs whose callers are gone or were cancelled and keeps the others in order. |
| ResolverSafety.RunKeeps | modules/transport/src/resolver.cpp:180-230 | Hence they hold at every point of every run. |
| ResolverSafety.RunOnward | modules/transport/src/resolver.cpp:266-279 | Between any two points results and answers stand. |
| Endpoints.AppendAllMeans | modules/transport/src/resolver.cpp:56-64 | Appending a list keeps the result distinct and bounded, extends what was there, covers every endpoint given and adds no other. |
| Endpoints.CleanedMeans | modules/transport/src/resolver.cpp:200-213 | A cleaned answer that succeeds is non-empty, distinct and bounded, has an equal of every endpoint the backend gave and only endpoints it gave. |
| Endpoints.CleanedExactly | modules/transport/src/resolver.cpp:200-213 | A backend's list is passed on exactly if it is not empty, all its endpoints are valid and the different ones fit the limit; then it is each endpoint where it came up first, in order. |
| Endpoints.AppendAllExactly | modules/transport/src/resolver.cpp:56-64 | Appending a list succeeds exactly if every endpoint is valid and there is room for all that differ. |
| Endpoints.AppendOne | modules/transport/src/resolver.cpp:56-64 | The scan for an equal computes the append: refused if invalid, skipped if there, refused if full. |
| Endpoints.Clean | modules/transport/src/resolver.cpp:200-213 | The loop stops at the first refusal; an empty list becomes a failure. |
| ResolverImpl.SharedState.constructor | modules/transport/src/resolver.cpp:159-170 | A new resolver is the empty state of the protocol. |
| ResolverImpl.SharedState.Prune | modules/transport/src/resolver.cpp:256-259 | The loop keeps the others in order. |
| ResolverImpl.SharedState.Enqueue | modules/transport/src/resolver.cpp:252-262 | Takes the protocol's step: refused when closing or full after pruning, else queued last. |
| ResolverImpl.SharedState.TakeFront | modules/transport/src/resolver.cpp:184-190 | Takes the protocol's step: the oldest job moves from the queue to the active ones and to this worker. |
| ResolverImpl.SharedState.Finish | modules/transport/src/resolver.cpp:225-228 | Erases the job from the active list, which is the protocol's leaving step. |
| ResolverImpl.SharedState.BeginClose | modules/transport/src/resolver.cpp:160-165 | Closing begins with exactly the queued and active jobs to tell. |
| ResolverImpl.SharedState.MarkJob | modules/transport/src/resolver.cpp:173-176 | One job is marked under its own lock; anything may happen before it is signalled. |
| ResolverImpl.SharedState.SignalJob | modules/transport/src/resolver.cpp:177-177 | The marked job is signalled. |
| ResolverImpl.SharedState.EndClose | modules/transport/src/resolver.cpp:166-167 | Closing ends with an empty queue. |
| ResolverImpl.SharedState.CloseAll | modules/transport/src/resolver.cpp:159-178 | With nobody in between, those steps mark and signal exactly the queued and active jobs and empty the queue. |
| TaskScopes.FramesOwnedOnce | modules/core/include/mira/core/task_scope.hpp:43-55 | In every run the pending count equals the children started and not finished, and every frame ever made is in exactly one of running, retired and destroyed, once. |
| TaskScopes.AllDestroyedInTheEnd | modules/core/include/mira/core/task_scope.hpp:32-40 | Once the scope is gone every frame ever made was destroyed exactly once. |
| TaskScopes.JoinerResumedOnce | modules/core/include/mira/core/task_scope.hpp:166-188 | At every step: a resumed joiner stays resumed and no failure is added after it; and one is resumed only with nothing pending or running, rethrowing the first failure recorded, if any. A failing child goes on running while its stop request finishes others. |
| TaskScopes.JoinerNotForgotten | modules/core/include/mira/core/task_scope.hpp:182-188 | With no child running nobody is left suspended in join. |
| TaskScopes.PendingCounts | modules/core/include/mira/core/task_scope.hpp:182-188 | While a child runs the count is positive, so its decrement never wraps. |
| ScopeRuns.JoinedExactly | modules/core/include/mira/core/task_scope.hpp:152-188 | Over every run, told from the actions alone: the joiner goes on exactly if it was driven and every child started has ended, and rethrows the first failure of the run, if any. |
| ScopeRuns.RunningExactly | modules/core/include/mira/core/task_scope.hpp:43-55 | A child runs exactly from its start to its end, and the scope's count is the number of those. |
| ScopeRuns.DestroyedExactly | modules/core/include/mira/core/task_scope.hpp:92-140 | A frame is destroyed exactly once the call that started it has returned after its end, or the scope is gone: neither sooner nor later, nested starts included. |
| TaskScopes.StepKeeps | modules/core/include/mira/core/task_scope.hpp:92-210 | Spawning, failing, finishing, returning from a start, joining and destroying keep these invariants, nested starts included. |
| TaskScopes.RunKeeps | modules/core/include/mira/core/task_scope.hpp:32-65 | Hence they hold at every point of every run. |
| TaskScopes.FindLast | modules/core/include/mira/core/task_scope.hpp:201-208 | The backward search finds the frame if it is retired, and erasing there removes it alone. |
| TaskScopes.TaskScope.constructor | modules/core/include/mira/core/task_scope.hpp:190-215 | A new scope has no children. |
| TaskScopes.TaskScope.Spawn | modules/core/include/mira/core/task_scope.hpp:43-55 | Refused once joining; otherwise a new child is running and its start call under way. |
| TaskScopes.TaskScope.NoteFailure | modules/core/include/mira/core/task_scope.hpp:166-171 | Only the first failure is kept for the joiner, and only it asks for a stop. |
| TaskScopes.TaskScope.RetireFrame | modules/core/include/mira/core/task_scope.hpp:103-106 | Moves a running frame to the retired ones and lowers the count. |
| TaskScopes.TaskScope.ResumeJoiner | modules/core/include/mira/core/task_scope.hpp:174-180 | The joiner leaves with the first failure, if any. |
| TaskScopes.TaskScope.ChildFinished | modules/core/include/mira/core/task_scope.hpp:182-188 | The joiner is resumed exactly if it waits and this was the last child. |
| TaskScopes.TaskScope.Reclaim | modules/core/include/mira/core/task_scope.hpp:201-210 | A frame that retired during its start is destroyed when the start returns; others are left. |
| TaskScopes.TaskScope.Join | modules/core/include/mira/core/task_scope.hpp:58-65 | Closes admission and creates the joiner, once: refused the second time. |
| TaskScopes.TaskScope.AwaitChildren | modules/core/include/mira/core/task_scope.hpp:152-157 | Ready exactly if nothing is pending; otherwise the joiner is recorded as waiting. |
| TaskScopes.TaskScope.DestroyRetired | modules/core/include/mira/core/task_scope.hpp:32-40 | Destroys every retired frame, in order. |
| Quic.ReceivedIsUnread | modules/quic/src/engine.cpp:102-127 | In every run the receive counter equals the sum of all streams' unread octets and never exceeds the budget. |
| Quic.StreamConserved | modules/quic/src/engine.cpp:102-127 | In every run, for each stream: the octets within the budget (with a record or room for one) that arrived are those consumed and those unread; none is refused, lost or counted twice. |
| Quic.OneCreditEach | modules/quic/src/engine.cpp:145-172 | In every run the streams whose credit was returned are, once each, exactly the closed peer streams whose record is gone. |
| Quic.PeerRecordsBounded | modules/quic/src/engine.cpp:283-284 | In every run there are never more records of peer bidirectional streams than max_streams, nor of peer unidirectional ones than three. |
| Quic.PeerHasRoom | modules/quic/src/engine.cpp:101-114 | In every run data of an open peer stream is never refused for lack of room while local records are at most max_streams + 5. |
| Quic.RoomExactly | modules/quic/src/engine.cpp:159-161 | And five is exact: a bound on local records keeps room for every admitted peer stream in all runs if and only if it is at most max_streams + 5. |
| Quic.StepKeeps | modules/quic/src/engine.cpp:102-172 | Opening, receiving, closing and consuming keep the sum, the records and the credits together. |
| Quic.RunKeeps | modules/quic/src/engine.cpp:530-549 | Hence they hold at every point of every run. |
| Quic.ReceiveSide.constructor | modules/quic/src/engine.cpp:280-286 | A new engine has no streams and the granted limits. |
| Quic.ReceiveSide.ReceiveData | modules/quic/src/engine.cpp:110-117 | Refused over budget or without room for a record, changing nothing; otherwise both counters grow by the size. |
| Quic.ReceiveSide.StreamClose | modules/quic/src/engine.cpp:147-167 | The credit goes back at once exactly if no unread data keeps the record. |
| Quic.ReceiveSide.ConsumeBytes | modules/quic/src/engine.cpp:530-548 | Refused beyond what is unread; the last octets of a closed stream drop its record and return its credit. |

## Left out

- HTTP/2, HTTP/3, TLS, datagram sockets, ALPN, examples and build scripts.
- System calls, socket set-up, error-code tables, message strings and the encoding of endpoints: an endpoint's identity (family, port, address, scope) is one number.
- C++ coroutine mechanics: a resumption is a step, after which arbitrary user steps follow until it returns.
- Memory exhaustion, and containers near their maximal size.
- Operation ids, timer serials and resolver job numbers are unbounded; their wrap-around after 2^64 uses is not modelled.
- Wake-up of the readiness loop through its self-pipe: a cancellation or posted work may be seen by any later batch, and no claim is made that a blocked poll returns for it.
- Requests refused before submission (already stopped, deadline already passed) change nothing and are not steps of the loop models.
- Posted work is a step at which user code runs, without the queue's contents, except in `IocpWake`, where queued items are counted.
- The value models key readiness slots by descriptor and direction; the per-descriptor table of the code is kept in `PosixImpl` and tied to them.
- The bodies of `run_once` on both backends are several methods, one per critical section, because user code runs between them; the runs put them in order.
- How a completion packet's status becomes an error or a byte count is the environment's; that a pinned reason replaces it is modelled.
- Posting a wake-up packet is taken to succeed, as the code ignores its result.
- Cancelling I/O in the kernel (`CancelIoEx`) is a request without effect on the tables: the kernel may complete any operation it holds at any time.
- PosixBatch.BatchOutcome: speaks of batches in which nothing is detached, no re-arm is refused and the loop is not shut down; what happens then is stated by `PosixEndings.DetachedIsCancelled`, `PosixEndings.RefusedIsBroken` and `PosixEndings.OrphanIsCancelled`.
- Buffered input of the request parser after chunk data has no limit in the code, so none is stated.
- ResponseSlicing.SlicingIndependence: does not cover the reason of a rejection; `ResponseReasons.ReasonExactly` says when that depends on the reads.
- The handler's failures, exceptions and the error responses the server then sends (400, 413, 500), and all wall-clock timeouts of server and client.
- ServerLoop.ServeConnection: what the handler writes is not part of it; the response writer is modelled and proved on its own.
- Client.ClientConnection.Start: the clock and the stop token are not modelled: a budget check may strike at any time, and so may a stream failure; nor is the guard against overlapping calls, which a sequential caller never meets, or a negative timeout.
- Resolver query validation, and the system's own resolution behind the backend; pruning the queue, which takes each job's lock in turn, is one step.
- What a task scope's stop request does to its children, beyond that it may finish them; and destroying a scope from inside one of its own spawns.
- QUIC connection handling, send-side buffering and the cap of 4096 queued events, which refuses data without changing the accounting.
