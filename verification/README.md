# Verified model of the splice transfer engine

This project models the transfer engine of the `splicer` crate: a poll-driven state machine
(Fill, Drain, Finished) that moves bytes from a reader through a kernel pipe to a writer with
`splice(2)`, and its bidirectional product. It proves, over every schedule the environment may
choose, what is delivered, that nothing panics, that the loop ends and how soon, where it parks,
and exactly which errors can be lost.

The model has three layers.

- **Values.** `SpliceContext` is `SpliceCtx` and its pipe ends with the two splice attempts as
  functions of the kernel's answer; `TransferMachine.Step` is one iteration of the
  `poll_execute` loop. A panic (`expect`, `unreachable!`, an underflowing subtraction) is a
  result of its own.
- **Runs.** `Environment` adds the kernel's side: source, pipe content, destination, readiness.
  An event is one answer of the environment (pending, readiness error, ready with a splice
  answer, re-arming of readiness); a run is a sequence of events over any number of polls.
  `Legal` is the contract below. The theorems are about all legal runs from all initial systems.
- **Objects.** `Pipe`, `SpliceCtx`, `SpliceIo` and `SpliceBidiIo` are classes updated in place,
  driven by a `Kernel` object that chooses arbitrarily within the contract and keeps a ghost log of
  every call, its arguments and its answer. `PollExecute` is the loop; its contract says that each
  call terminates and is a legal run of the step relation from where the last call stopped, and that
  the kernel's log holds exactly the calls and answers of that run (`KernelCalls.LogOf`). The events
  are therefore the environment's, not the method's, and every theorem about runs holds of the objects.

## Environment contract

- Splice in: with a positive length it appends the next n source bytes to the pipe, n at most the
  length and the free pipe space; 0 only at end of input; an error moves nothing.
- Splice out: from a non-empty pipe it moves between 1 byte and the length asked for from the front
  of the pipe to the destination, or fails and moves nothing.
- Readiness is a flag per endpoint: armed by the reactor at any time, needed for a ready poll,
  cleared when an attempt answers WouldBlock. A file is always ready. A poll may be pending even
  if the flag is set (a task yielding); `Sticky` rules that out where a theorem needs it.
- The contract does not make the loop end by itself. An EAGAIN from a file, which stays ready, can
  leave everything as it was (`Progress.Spins`): from an input file with an empty pipe, or from an
  output file. `Progress.SpinsOrProgresses` shows that these are exactly the iterations without
  progress and `Progress.FilesCanSpin` that both kinds occur.
- The `Kernel` object may spin and re-arm readiness any finite number of times within one call.

Every lemma turns Dafny's automatic induction off; where a proof is by induction, the recursive call is
written out.

`PanicFreedom` drops most of this contract: there `try_io` may fail without running the attempt and
a splice-out may return 0, and the exact condition for a panic is proved.

## Where the code and its documentation differ (the code is followed)

- `is_finished` is documented as "both sides of the pipe are done" (`src/splice/mod.rs:255`); the code
  asks for a closed fill end and equal counters, which already holds in Drain with an open drain end.
- `splice_in` is documented to return 0 also when the target length is reached
  (`src/splice/exec.rs:18-20`); the caller decides that before calling it (`src/splice/mod.rs:276-281`).
- Shutting the writer down is called best effort (`src/io/mod.rs:145`); the code returns a shutdown
  error and keeps the stored one for a later poll.
- The crate's README speaks of a `poll_flush` at end of stream; only `poll_shutdown` is called.

## Model

| member | source | states |
|---|---|---|
| Offsets.CalcSizeToSplice | src/splice/util.rs:31-45 | accepts exactly the ranges inside the file, with defaults 0 and the file length; start plus the result is the end; anything else is the invalid-range error |
| SpliceContext.New | src/splice/mod.rs:58-69 | over the given pipe, nothing moved, target `isize::MAX`, no offset; or the pipe's own error |
| SpliceContext.WithInputFile | src/splice/mod.rs:103-119 | accepted exactly for a range inside the file whose size fits `usize` (and a pipe); over the given pipe, nothing moved, the read offset plus the target is the end of the range; otherwise the first error of range, size, pipe |
| SpliceContext.WithOutputFile | src/splice/mod.rs:137-155 | the same for the write offset |
| Conservation.StepKeepsInv | src/io/mod.rs:153-223 | every legal iteration keeps the whole invariant (FIFO content, counters, offset, pipe ends, readiness) and does not panic |
| Conservation.FifoConservation | src/splice/mod.rs:227-239 | in every reachable state delivered ++ pipe == stream[..bytes_read] in order (for a writer that is not a file: old dest ++ that), the counters stay within the target, occupancy is at most the pipe size, and `pipe_has_data` and `pipe_is_full` agree with the kernel's pipe |
| Conservation.BoundedLoss | src/transfer_report.rs:6-10 | in every reachable state, so on every error: `bytes_written` is what arrived, it is a prefix of the stream, bytes read but not delivered are exactly the pipe's content, at most one pipe size; counters stay within the target |
| Conservation.NoPanic | src/splice/mod.rs:276-318 | no step of any legal run panics: both `expect`s, both `unreachable!`s and all subtractions are safe |
| Delivery.FinishedAbsorbs | src/io/mod.rs:144-151 | once Finished, no event of any kind moves bytes or changes counters, offset, pipe ends or content |
| Delivery.ErrorsConserved | src/io/mod.rs:79-86 | over any run, even outside the contract: faults plus error held before equals errors handed out plus error held after |
| Delivery.FaultReportedAtMostOnce | src/io/mod.rs:146-150 | at most one fault and at most one report of it per transfer, in a step whose shutdown succeeded, and what is returned is the stored error |
| Delivery.HeldErrorOrigin | src/io/mod.rs:179-182 | a stored error is the error of one particular earlier failed splice, unchanged |
| Delivery.ReturnsExactly | src/io/mod.rs:144-188 | over every legal run: Pending if and only if the readiness or shutdown poll was pending, a failed poll's error is returned, in both cases with nothing changed; Ok if and only if the shutdown of a finished machine holding no error succeeded; a held error when its shutdown succeeded; otherwise the loop goes on |
| Delivery.ReturnedErrorOrigin | src/io/mod.rs:146-150 | a returned error comes from that step's readiness or shutdown poll, or is the stored splice error, never WouldBlock |
| Delivery.FaultedExactly | src/io/mod.rs:192-218 | a finished transfer has its drain end open if and only if a splice failed in the run |
| Delivery.OkMeansDelivered | src/io/mod.rs:130-225 | Ok after a run without a fault: everything up to min(stream, target) delivered, pipe empty, both ends closed |
| Delivery.FirstCompletion | src/io/mod.rs:99-109 | if the first Ready result of a transfer is Ok, there was no fault and delivery is complete |
| Delivery.FinishedDeliversExactly | src/io/mod.rs:144-151 | finished and holding no error: complete if and only if no stored error was ever handed out |
| Delivery.RefinesCopy | src/splice/mod.rs:179-192 | a transfer built with `new` and `with_target_len` whose first Ready result is Ok has appended exactly source[..min(len, target)] to the destination, and `tx` is that length |
| Delivery.RepollAfterFaultSaysOk | src/io/mod.rs:125-129 | a concrete transfer that answers Ok with nothing delivered when polled again after its error |
| Delivery.ScheduleIndependence | src/io/mod.rs:130-225 | any two clean schedules over the same transfer, even with different pipe sizes, give the same destination and `tx` |
| Delivery.BoundaryTransparency | src/io/mod.rs:156-188 | deleting every Pending or readiness-error return from a run leaves a legal run with the same final state, and conversely |
| Progress.IterationAccount | src/io/mod.rs:136-224 | every iteration of every legal run is paid for by a byte moved, an EAGAIN (spinning or not), a return or one of at most three state changes |
| Progress.WholeRunBound | src/io/mod.rs:136-224 | a whole transfer takes at most 2 * goal + 2 * fill EAGAINs + drain EAGAINs + spins + returns + 2 iterations |
| Progress.SocketFillBlocks | src/io/mod.rs:157-160 | on a socket reader EAGAINs are limited by the readiness there was plus the re-arms |
| Progress.FileFillBlocks | src/io/fd.rs:111-122 | on a file reader a byte is drained between any two EAGAINs that do not spin |
| Progress.PollTerminates | src/io/mod.rs:136-224 | one call, in any environment within the contract, runs the loop body at most bytes moved + 7 times, plus its spins, plus what re-arming adds (for a file reader plus twice the bytes written) |
| Progress.SpinsOrProgresses | src/io/mod.rs:169-213 | the exact boundary of termination: an iteration that does not return leaves the system unchanged if and only if it spins (file EAGAIN on an empty pipe in Fill, file EAGAIN in Drain); every other one decreases the variant |
| Progress.SpinsForever | src/io/mod.rs:136-224 | an iteration that changes nothing and does not return may repeat any number of times |
| Progress.FilesCanSpin | src/io/fd.rs:111-134 | every non-empty transfer from a file, and every one to a file whose source has bytes, has a legal run to a state that can spin |
| Progress.SocketCanStall | src/io/mod.rs:157-176 | every stream-to-stream transfer of more than one pipe has a legal run in which the EAGAIN of the full pipe clears the reader's readiness and the machine parks in Fill on an empty pipe with input left |
| Progress.NothingWithoutArmRead | src/io/mod.rs:156-156 | parked in Fill without readiness, no continuation changes anything but the writer's readiness until the reader is armed |
| Progress.ParksOnTheRightSide | src/io/mod.rs:327-331 | under sticky readiness Pending in Fill means an empty pipe and an unfinished source, Pending in Drain means bytes to write or a finished source; Pending changes nothing |
| Progress.CooperativePollDelivers | src/io/mod.rs:130-225 | from any reachable state without a fault, every call whose splice-ins fail only with EAGAIN on a non-empty pipe and whose writer accepts a byte when asked returns Ok with everything delivered |
| Progress.CooperativePollEnds | src/io/mod.rs:130-225 | and it cannot be kept from returning, however often readiness is re-armed |
| Progress.CompletesInOnePoll | src/io/fd.rs:111-122 | and such a call exists from every such state (no deadlock); for a file reader with a ready writer without any re-arming |
| Lifecycle.EndsCloseExactlyOnce | src/splice/mod.rs:276-309 | the fill end is closed by exactly one step, the one that finds the target reached or sees end of input; the drain end by exactly the step that finds the drained pipe; neither reopens |
| Lifecycle.EndsCloseInOrder | src/splice/mod.rs:254-258 | the drain end closes only after the fill end and with an empty pipe; a closed fill end means all input within the target was read; `is_finished` says that the fill end is closed and the kernel's pipe empty; finished without fault implies it and a closed drain end |
| FileRanges.OutputOffset | src/splice/mod.rs:303-327 | at every step the write offset is start + bytes_written <= end, and the file is the old one with exactly those bytes written at start |
| FileRanges.OutputFraming | src/splice/mod.rs:137-155 | at every step the file is old[..start] ++ written ++ old rest, nothing outside [start, end) changes, and the length stays |
| FileRanges.OutputRangeDelivered | src/splice/mod.rs:137-155 | after a clean completion the file holds old[..start] ++ source[..n] ++ old[start+n..] with n = min(source, range) |
| FileRanges.InputOffset | src/splice/mod.rs:287-297 | at every step the read offset is start + bytes_read <= end <= f_len, within u64, whatever the file's real length |
| FileRanges.InputRangeDelivered | src/splice/mod.rs:103-119 | a clean run delivers exactly file[start..min(end, len)], or nothing when start is past the end |
| PanicFreedom.RawStep | src/splice/mod.rs:275-327 | in the wide environment a step panics if and only if it attempts a fill after an early end of input, and only the two hazards lead there |
| PanicFreedom.PanicsExactly | src/splice/mod.rs:282-286 | a whole run panics if and only if such an attempt occurs in it |
| PanicFreedom.PanicsExactlyByHazard | src/io/mod.rs:196-212 | event for event: a run panics if and only if a hazard occurs (a zero-byte splice-out on a non-empty pipe or a short-circuited WouldBlock on an empty one, after an early end of input), the machine then stays doomed, and an attempt is made |
| PanicFreedom.HazardThenAttemptPanics | src/splice/mod.rs:282-286 | after a hazard, and any number of waits (pending, readiness errors, re-arming, over any number of polls), the next attempt panics |
| PanicFreedom.ContractHasNoHazard | src/splice/exec.rs:29-32 | under the contract no reachable state is doomed and no event is a hazard |
| PanicFreedom.BothHazardsPanic | src/io/mock.rs:25-26 | for every pipe, a script of each kind that panics: with every target but 0 for the short circuit, with every target above 1 for the zero-byte splice-out |
| PanicFreedom.ShortCircuitIsFailedSplice | src/io/mock.rs:23-28 | a `try_io` that fails without running the attempt acts like a splice that failed with that error, wherever the attempt would have reached the splicer |
| PanicFreedom.OverlongReadPanics | src/splice/mock.rs:37-47 | a count above the requested length makes the next attempt underflow |
| Bidirectional.Combine | src/io/mod.rs:306-310 | Ready exactly when both are, Ok exactly when both are Ok, otherwise the left error if there is one, else the right |
| Bidirectional.Projects | src/io/mod.rs:298-311 | every run of the product projects onto a legal run of each direction alone, with the same final state |
| Bidirectional.BothConserve | src/io/mod.rs:229-235 | each direction keeps its own full invariant throughout the product |
| Bidirectional.FinishedDirectionStutters | src/io/mod.rs:304-305 | a direction that is finished only stutters (readiness, and at most the hand-out of its stored error) while the other goes on, for either direction |
| Bidirectional.BidiOk | src/io/mod.rs:304-310 | Ready(Ok) means both finished and no error held, and each direction without a failed splice is delivered completely |
| Bidirectional.BidiOkHidesExactlyLostErrors | src/io/mod.rs:304-310 | on Ready(Ok) a direction is complete if and only if none of its polls ever handed out a stored error |
| ErrorLoss.OkLosesExactly | src/io/mod.rs:304-310 | on a first Ready(Ok): a direction is incomplete if and only if, in an earlier combined poll, it handed out its stored error and the other direction was Pending in that same poll |
| ErrorLoss.FirstErrorHidesExactly | src/io/mod.rs:304-310 | on a first Ready(Err): the left's fault is still held, or is the error returned, or was lost to an earlier Pending, exactly one of them; the right's is still held, or handed out in this poll (and returned unless the left returned an error, which hides it), or was lost earlier |
| BidirectionalPolls.PairCompletes | src/io/mod.rs:298-311 | from any reachable pair without a fault there is one combined poll that returns Ok with both directions delivered |
| Bidirectional.LostErrorExample | src/io/mod.rs:306-310 | a concrete run whose first Ready result is Ok although the left direction failed and delivered nothing |
| KernelCalls.LogDeterminesRun | src/io/mod.rs:136-224 | the environment's answers fix everything: two legal runs with the same log of calls end in the same state with the same results |
| KernelObject.Kernel.SpliceIn | src/splice/exec.rs:16-27 | appends the next n bytes at the offset or cursor within the contract, or fails with any error and moves nothing; logged with its arguments; a file EAGAIN on an empty pipe uses up budget |
| KernelObject.Kernel.SpliceOut | src/splice/exec.rs:29-39 | moves 1..=len bytes from the pipe's front to the destination, or fails with any error and moves nothing; logged with its arguments; a file EAGAIN uses up budget |
| PipeObject.Pipe.New | src/pipe.rs:66-92 | succeeds exactly when a pipe was made and a positive size is known, set or read back; both ends open; otherwise the error of the call that failed |
| PipeObject.Pipe.WithPipeSize | src/pipe.rs:101-114 | takes over the size the kernel reports, exactly when the fill end is there and the size is positive; the kernel's error is passed on |
| PipeObject.Pipe.SetFillDone | src/pipe.rs:138-141 | closes the fill end and nothing else |
| PipeObject.Pipe.SetDrainDone | src/pipe.rs:116-119 | closes the drain end and nothing else |
| SpliceCtxObject.SpliceCtx.TrySpliceFromSource | src/splice/mod.rs:275-298 | calls `splice_in` once, for all bytes still wanted, exactly when the target is not reached; the new state and result are those of the attempt on values for the answer the kernel logged |
| SpliceCtxObject.SpliceCtx.TrySpliceToDest | src/splice/mod.rs:303-327 | the same for `splice_out`, called exactly when the pipe has data |
| SpliceIoObject.SpliceIo.PollExecute | src/io/mod.rs:130-225 | terminates in every environment within the contract that spins and re-arms finitely often; the call is one legal poll of the step relation with a bounded number of iterations, and the kernel's log grew by exactly the calls and answers of its events |
| SpliceIoObject.SpliceIo.Execute | src/io/mod.rs:99-109 | None means exactly `polls` polls, all Pending; a report is the first Ready result of at most `polls` polls and carries its error; without one delivery is complete; `tx` bytes, a prefix of the stream, are what arrived |
| SpliceBidiIoObject.SpliceBidiIo.PollExecute | src/io/mod.rs:298-311 | extends the product history by exactly one combined poll, the left polled to its end before the right, and their results combined; on Ok each direction is complete exactly when it never handed out a stored error |
| SpliceBidiIoObject.SpliceBidiIo.Execute | src/io/mod.rs:258-272 | None means exactly `polls` combined polls, all Pending; a report is the first Ready of at most `polls` and carries its error; without one, a direction is incomplete exactly when its error was lost to the other's Pending in an earlier poll; `tx` and `rx` bytes, prefixes of the two streams, are what arrived |

## Left out

- SpliceIoObject.SpliceIo.Execute: the future is polled at most a given number of times, because how often an executor polls is not decided here; the contract holds for every such number, and None means still pending.
- SpliceBidiIoObject.SpliceBidiIo.Execute: bounded in the same way.
- SpliceIoObject.SpliceIo.PollExecute: termination is for calls during which readiness is re-armed and files spin finitely often; otherwise the loop does not end (SpinsOrProgresses, SpinsForever).
- Progress.CompletesInOnePoll: sockets need re-armed readiness; whether a reactor re-arms after an EAGAIN caused by a full pipe is not decided by these files (SocketCanStall and NothingWithoutArmRead say what happens if it does not).
- PanicFreedom.PanicsExactly: counts above the requested length are excluded; OverlongReadPanics covers them separately. Underflow counts as a panic, as in builds with overflow checks.
- `SpliceCtx::with_pipe_size`: it only hands over to `Pipe.WithPipeSize`.
- The real syscalls, rustix error mapping and errno values: replaced by the environment contract.
- Tokio's reactor, wakers, `Context`, `Pin` and cooperative budgeting: replaced by readiness flags and by polls that may be pending at any time.
- The marker traits and forwarding impls of `src/io/fd.rs`: compile-time gating; a transfer has a file on at most one side, as the constructors enforce.
- The entry points of `src/lib.rs`, tracing and `Debug`/`Deref` impls: thin wrappers and logging.
- The two directions of a bidirectional transfer use one `Kernel` object each; effects of one socket's shutdown on its own read side are outside the model.
- The input file is stable during a run, and bytes delivered means bytes handed to the writer, not bytes on the wire.
