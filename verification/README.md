# Verified model of the norm-spec bridge

This project models `dsh-norm-spec`: a TypeScript host adapter that talks to a
Rust bridge process over two pipes, one JSON frame a line, and the pieces of
the adapter and the bridge around that protocol. It proves what the protocol
keeps over every run, and where a fast or bounded form must agree with a simple
one, that it does.

Run `dafny verify dfyconfig.toml` to check everything.

## How the project is laid out

| files | what they model |
|---|---|
| `Protocol`, `Text`, `Common` | the frames after JSON decoding, UTF-8 lengths, shared vocabulary |
| `Server`, `ServerSystem`, `ServerProperties`, `ServerAnswers` | the bridge's event loop; the loop with its reader thread and workers, adversarially interleaved; what every run keeps, and the cause of every answer |
| `Client`, `ClientProperties`, `ClientEffects`, `RequestIds` | the bridge client alone, against any peer |
| `Composition`, `CompositionProperties`, `CleanShutdown`, `EndToEnd` | client and bridge joined by two FIFO pipes |
| `ByteStreams` | the same two pipes as bytes and text, cut anywhere |
| `Cancellation`, `CancellableServer` | the cancellation token against the child process, one atomic access a step; the bridge with that race in place of one-step decisions |
| `SessionManager`, `SessionRuns` | lazy start, leases, queued validations, idle reaping and disposal of one session |
| `ConventionSlot` | the single reminder over a session log and its surface |
| `LayoutIndex` | per-session layout snapshots on the heap, keyed by agent object |
| `FileTree`, `Payload`, `PayloadProperties`, `Admission`, `ReleaseExample` | sealing and opening a payload directory; exactly what is admitted; a concrete release that is sealed |
| `Utf8`, `Framing` | cutting the bridge's input into frames |
| `Recency` | the bounded set of active targets |
| `Validation`, `Feedback` | reading a validation report and rendering bounded feedback |

Where the source updates fields or loops over mutable state, a class or a
method does the same and is proved equal to a function; the theorems are about
that function. Runs are sequences of actions; an action that is not enabled
changes nothing, so a theorem about `Run(actions)` is about every reachable
state.

## What is taken as given

- JSON is decoded before the model: a line is a frame or the reason it is
  refused. An encoded frame holds no raw newline (section 7 of RFC 8259), and a
  Unicode scalar value takes one to four bytes in UTF-8 (section 3 of RFC 3629;
  `Utf8` proves the encoding invertible). A worker never reports the client's
  own code `dsh-norm-spec/client/error-invalid`.
- Where client and bridge are joined, frames stay within their limits: a request
  takes at most 1 MiB with its newline, and the client's joined output buffer at
  most 16 MiB. `CompositionProperties` and `CleanShutdown` rest on this;
  `ByteStreams` states it as a requirement, and `Framing` and
  `ClientProperties.RefusedIffTooMuch` say what happens beyond.
- The embedder calls `shutdown()` to shut down and never sends a raw `shutdown`
  request.
- Killed children exit, `kill` of an exited child is harmless, workers do not
  panic and locks are not poisoned.
- In the session manager, microtasks that are due run before any timer fires,
  and one agent at a time is alive on a session.
- For payloads, the file system gives proper names, no two alike in one
  directory; the lock encoder is inverted by the decoder; digests are 64
  lower-case hexadecimal digits. Injectivity of the digest is assumed only for
  the contents being compared.
- A session that is resumed shows at most one own message, its latest; notices
  are not logged as user messages.
- How a reminder is worded, its digest, and `dirname` are given functions
  (`dirname` of a non-empty path is not empty).

## Where the code does less than its documentation says, or than one would expect

- `docs/BRIDGE-PROTOCOL.md:69-72` has every accepted `cancel` followed by
  `cancelled`. The code answers `ok` when the worker had passed its last check
  (`crates/dsh-norm-bridge/src/process.rs:119-121`) before the flag was set.
  `ServerProperties.CancelledIffFlaggedEarly` states exactly when,
  `CancellableServer.EarlyIsFlaggedInTime` ties the moment to the race of the
  token with the child, and `ServerProperties.AcceptedCancelMayStillSucceed`
  gives a run.
- `README.md:26-28` says that the model never carries stale conventions. A step
  whose prompt is null leaves the old reminder (`src/index.ts:404-407`), and an
  unchanged digest injects nothing even after the slot was compacted away
  (`src/index.ts:408-409`). `ConventionSlot.StepShowsCurrent` states exactly
  when the surface shows the current conventions; `CompactedStaysAway` and
  `ResumedReminderStays` are runs in which it does not.
- `src/index.ts:654-665` writes notices with the adapter's own source, and
  `src/host-compat.ts:62-72` does not look at the form of a source. A notice
  logged as a user message breaks the single slot exactly when a slot is there:
  `ConventionSlot.NoticeBreaksSlot`, with a run in `ConventionSlot.NoticeShowsTwo`.
- `src/bridge-client.ts:139-140` sets `stopping` after a write that may have
  thrown and failed the client. Absorption of `failed` then does not hold, and
  the client may blame the bridge: `ClientProperties.FailedUnlessShutdownThrows`
  and, with a run, `CompositionProperties.ThrowingShutdownBlamesBridge`.
- `src/bridge-client.ts:189` measures the joined buffer, so two short lines that
  arrive together may trip a limit that neither exceeds:
  `ClientProperties.ShortLinesMayTripTogether`. `RefusedIffTooMuch` states exactly
  which chunkings of a stream are refused.
- `crates/dsh-norm-bridge/src/upstream.rs:289-347` checks neither the native
  target nor the size of the lock it writes, so a seal may succeed that does not
  open: `PayloadProperties.SealThenOpen` states exactly when it opens, and
  `ReleaseExample` seals a release that does and two that do not.
- `src/index.ts:472-477` marks the map stale so that the next step refreshes it.
  An answer asked for earlier clears the mark when it lands
  (`src/index.ts:364`), and the edit is not asked about:
  `LayoutIndex.EditIsHeededIff` states exactly when it is, and
  `LayoutIndex.EditIsForgotten` is a run.
- `crates/dsh-norm-bridge/src/server.rs:707-709` drops one carriage return at
  the end of a line, so a line that ends in one is not read back as written:
  `Framing.LineReadsBack`.

## Model

| member | source | states |
|---|---|---|
| Protocol.ValidatePromptTargets | crates/dsh-norm-bridge/src/upstream.rs:730-757 | a target set is accepted exactly when it has one to four entries, none empty and none repeated |
| Protocol.DistinctIffNoneLost | crates/dsh-norm-bridge/src/upstream.rs:749-755 | comparing the size of the set with the length of the list detects exactly the repeated entries |
| Server.SessionState.DecodeRequest | crates/dsh-norm-bridge/src/server.rs:751-793 | the checks come in the source's order and the id is recorded only when all of them pass |
| Server.SessionState.OnLine | crates/dsh-norm-bridge/src/server.rs:245-279 | a refused line ends the loop with one fatal frame; a request during shutdown is refused; any other is dispatched |
| Server.SessionState.OnStatus | crates/dsh-norm-bridge/src/server.rs:281-294 | status is answered at once and touches nothing but the output |
| Server.SessionState.OnRun | crates/dsh-norm-bridge/src/server.rs:296-466 | an operation starts exactly when none is active and its parameters are valid, busy being checked first |
| Server.SessionState.OnCancel | crates/dsh-norm-bridge/src/server.rs:468-494 | only the active id can be cancelled, and acceptance is the first setting of its flag |
| Server.SessionState.OnShutdown | crates/dsh-norm-bridge/src/server.rs:496-509 | shutdown is acknowledged at once when idle, and deferred with the active operation flagged otherwise |
| Server.SessionState.OnOperation | crates/dsh-norm-bridge/src/server.rs:511-541 | a completion answers the active operation and then the deferred shutdown |
| Server.SessionState.OnEnd | crates/dsh-norm-bridge/src/server.rs:543-552 | the end of input is fatal unless a shutdown is deferred |
| Server.SessionState.FailWith | crates/dsh-norm-bridge/src/server.rs:909-927 | a failure flags the active operation, writes one fatal frame and aborts |
| Server.SessionState.EventLoop | crates/dsh-norm-bridge/src/server.rs:207-242 | the loop handles events in order and looks at none after a handler has ended it |
| Server.EndedLoopStaysEnded | crates/dsh-norm-bridge/src/server.rs:238-240 | events delivered after the loop has ended change nothing |
| ServerSystem.RunKeepsInv | crates/dsh-norm-bridge/src/server.rs:207-553 | in every interleaving the active id, the workers and the queued completions match one to one, and every recorded id is answered, active or the deferred shutdown, exactly one of these |
| ServerSystem.HandleKeepsAccount | crates/dsh-norm-bridge/src/server.rs:245-553 | handling one event keeps the account of ids: none is answered twice, none is lost |
| ServerProperties.ActiveIffOneOutstanding | crates/dsh-norm-bridge/src/server.rs:296-466 | an id is active exactly while one worker or one queued completion exists, and it carries that id; a deferred shutdown implies an active id |
| ServerProperties.ReadyIsFirst | crates/dsh-norm-bridge/src/server.rs:180-197 | `ready` is the first frame of every run, however it ends, and is written once |
| ServerProperties.CompletionsAlwaysMatch | crates/dsh-norm-bridge/src/server.rs:516-529 | no run reaches the orphaned or the mismatched branch |
| ServerProperties.WaitingLoopIsOwedAnEvent | crates/dsh-norm-bridge/src/server.rs:543-546 | a loop that waits after the end of input is always owed an event by a worker |
| ServerProperties.AtMostOneResponse | crates/dsh-norm-bridge/src/server.rs:815-889 | at any time an accepted id has at most one response and no other id has any |
| ServerProperties.ExactlyOneWhileRunning | crates/dsh-norm-bridge/src/server.rs:245-553 | an accepted id has exactly one response unless it is the active one or the deferred shutdown |
| ServerProperties.CleanStopAnswersAll | crates/dsh-norm-bridge/src/server.rs:496-541 | after a clean stop every accepted id has exactly one response and the last frame is an acknowledgement |
| ServerProperties.DeferredShutdownComesLast | crates/dsh-norm-bridge/src/server.rs:530-541 | a deferred shutdown is acknowledged in the last frame, right after the active operation's response |
| ServerProperties.FatalIsLast | crates/dsh-norm-bridge/src/server.rs:909-927 | nothing follows a fatal frame, and it carries the code the loop aborted with |
| ServerProperties.CancelledIffFlaggedEarly | crates/dsh-norm-bridge/src/process.rs:119-121 | a started operation is answered `cancelled` exactly when its flag was set before its worker passed the last check and it did not fail |
| ServerProperties.CancellationIsAcceptedOnce | crates/dsh-norm-bridge/src/server.rs:484-492 | `accepted: true` is reported at most once for each request |
| ServerProperties.LateCancelIsAcceptedAndIgnored | docs/BRIDGE-PROTOCOL.md:69-72 | whenever the worker has decided first, a cancellation read next is accepted and the result is still the answer |
| ServerProperties.AcceptedCancelMayStillSucceed | docs/BRIDGE-PROTOCOL.md:69-72 | a run from the start in which an accepted cancellation is followed by `ok` |
| ServerAnswers.DeferredShutdownFlagsActive | crates/dsh-norm-bridge/src/server.rs:500-503 | in every run, while a shutdown is deferred an operation is active and its flag is set |
| ServerAnswers.AbortFlagsActive | crates/dsh-norm-bridge/src/server.rs:909-927 | in every aborted run the flag of the operation left behind, and of its worker, is set |
| ServerAnswers.DeferredShutdownCancelsWork | crates/dsh-norm-bridge/src/server.rs:496-509 | an operation still at work when a shutdown is deferred is never answered with a value, however the run goes on |
| ServerAnswers.FlaggedWorkIsCancelled | crates/dsh-norm-bridge/src/process.rs:119-121 | the same for whatever sets the flag of an operation still at work |
| ServerAnswers.AnswersAreDecisions | crates/dsh-norm-bridge/src/server.rs:511-529 | in every run the response of a started operation tells what its own worker decided |
| ServerAnswers.EachAnswerHasItsCause | crates/dsh-norm-bridge/src/server.rs:245-509 | each answer has its one cause: `busy`, `request-not-active`, `params-invalid`, `shutting-down` and every value are answered if and only if the request and the state call for them |
| ServerAnswers.StartsIffIdle | crates/dsh-norm-bridge/src/server.rs:296-466 | a worker is started exactly for a well-formed operation while none is active and no shutdown waits |
| ServerAnswers.EachAbortHasItsCause | crates/dsh-norm-bridge/src/server.rs:543-552 | each abort has its one cause: a line refused for what is wrong with it, the end of the input with no shutdown waiting, or a reader that failed |
| ServerAnswers.RecordedIdsAreValid | crates/dsh-norm-bridge/src/server.rs:773-791 | in every run the recorded ids are valid and never more than the limit |
| RequestIds.RequestNameInjective | src/bridge-client.ts:315 | no two requests of a client share an id |
| RequestIds.RequestNameFits | crates/dsh-norm-bridge/src/server.rs:773-778 | every id a session can accept fits the length the bridge allows |
| Client.BridgeClient.Send | src/bridge-client.ts:314-355 | a request is numbered, made pending and written, and a throwing write fails the client |
| Client.BridgeClient.Call | src/bridge-client.ts:113-127 | only a ready client writes a request, and an aborted signal is refused unsent |
| Client.BridgeClient.Abort | src/bridge-client.ts:325-329 | an abort is heard once, and cancels only a pending request of a ready client |
| Client.BridgeClient.Shutdown | src/bridge-client.ts:129-140 | only a ready client writes the shutdown, and `stopping` is set even when the write threw |
| Client.BridgeClient.ReceiveStdout | src/bridge-client.ts:186-207 | the joined buffer is measured, and then all complete lines are received until a failure is recorded |
| Client.BridgeClient.ReceiveLine | src/bridge-client.ts:199-204 | the first line is cut off the buffer, without its carriage return, and received |
| Client.BridgeClient.Receive | src/bridge-client.ts:209-272 | each kind of frame moves the client as specified, anything unexpected fails it |
| Client.BridgeClient.ReceiveResponse | src/bridge-client.ts:274-312 | a response settles its pending promise by its status; one for no pending id fails the client |
| Client.BridgeClient.OnStdoutEnd | src/bridge-client.ts:367-386 | the end of output is a failure unless nothing is buffered or pending while stopping |
| Client.BridgeClient.OnClose | src/bridge-client.ts:388-400 | a client stops exactly on exit code zero while stopping with nothing pending |
| Client.BridgeClient.FailWith | src/bridge-client.ts:402-418 | a failure rejects every pending promise and the ready promise if it is open, once |
| ClientProperties.RunKeepsInv | src/bridge-client.ts:113-418 | for every order of events, the promises ever made are exactly those settled and those pending, each once |
| ClientProperties.SettlesAtMostOnce | src/bridge-client.ts:284-312 | no request promise settles twice, nor does the ready promise |
| ClientProperties.EndedOwesNothing | src/bridge-client.ts:402-418 | in `failed` and `stopped` nothing is pending and every promise made has settled exactly once |
| ClientProperties.CloseEnds | src/bridge-client.ts:388-400 | once the child has closed, the client has failed or stopped |
| ClientProperties.EndedIsAbsorbing | src/bridge-client.ts:187-188 | a failed or stopped client changes on no event at all |
| ClientProperties.FailedUnlessShutdownThrows | src/bridge-client.ts:139-140 | a recorded failure goes with the failed state after an event if and only if the event is not a throwing shutdown of a ready client |
| ClientEffects.WhatIsWritten | src/bridge-client.ts:314-355 | only a ready client writes, one frame an event under a new id, and exactly the request, the cancellation or the shutdown it is asked for |
| ClientEffects.AbortCancelsItsRequest | src/bridge-client.ts:325-328 | an abort cancels the request it is for, once |
| ClientEffects.FailureRejectsPending | src/bridge-client.ts:402-418 | the event that fails a client kills the child and settles every pending promise, rejecting for the recorded failure what no response has settled |
| ClientEffects.ReadyTellsTheStart | src/bridge-client.ts:402-410 | in every run the child is killed exactly when a failure is recorded, and the ready promise tells whether the client was ever ready |
| ClientEffects.EachEndHasItsCause | src/bridge-client.ts:367-400 | in every run each terminal event ends the client with the failure it stands for, the timers only in the state they watch |
| ClientEffects.EachFrameHasItsEffect | src/bridge-client.ts:209-312 | a frame fails a client for its one reason, or makes a starting client ready, or settles what it answers |
| ClientProperties.LineEndings | src/bridge-client.ts:199-204 | a line ends at its newline, and one carriage return before that is not part of it |
| ClientProperties.FeedDeliversLines | src/bridge-client.ts:198-206 | chunks that never exceed the size limit deliver the lines of the joined text in order and keep what follows the last newline |
| ClientProperties.ChunkingIsIrrelevant | src/bridge-client.ts:186-207 | two chunkings of one stream that do not exceed the limit leave the client in the same state, with no newline buffered |
| ClientProperties.ShortLinesMayTripTogether | src/bridge-client.ts:189-197 | two lines within the limit exceed it in one chunk and not in two |
| ClientProperties.RefusedIffTrips | src/bridge-client.ts:189-197 | a live client fails for the size of its output exactly when some chunk makes its joined buffer too long |
| ClientProperties.TripsOnlyOverTooMuch | src/bridge-client.ts:189-197 | whatever the lines say, that takes a chunk which exceeds the limit behind the unfinished line of the text before it |
| ClientProperties.TripsIffTooMuch | src/bridge-client.ts:189-206 | when the client takes every line of the stream, its joined buffer grows too long exactly when the text does so |
| ClientProperties.RefusedIffTooMuch | src/bridge-client.ts:186-207 | a stream whose lines the client takes is refused for its size if and only if some chunk exceeds the limit together with the unfinished line before it, and otherwise delivered whole |
| Composition.NextLineDecodes | crates/dsh-norm-bridge/src/server.rs:751-793 | between honest sides the next queued line is the next request, and only the request limit can refuse it |
| Composition.PendingIsInFlight | src/bridge-client.ts:274-355 | in one state: each pending id is in exactly one place, the request pipe, the queue, active, deferred or answered and unread |
| Composition.NextResponseIsPending | src/bridge-client.ts:284-293 | a response on its way to a live client answers a pending request |
| Composition.DeliveryNeverSurprises | src/bridge-client.ts:274-312 | receiving a frame keeps both sides in step or reports the spent request limit |
| Composition.NothingPendingAtEnd | src/bridge-client.ts:367-377 | when the bridge has stopped and all output is received, nothing is pending |
| Composition.EndKeepsLink | src/bridge-client.ts:367-400 | a live client sees the end of output and the exit only after a clean stop, and takes them as such |
| Composition.RunKeepsInv | src/bridge-client.ts:129-355 | in every run a live client and the bridge stay in step: ids in order, nothing lost in a pipe, shutdown last |
| CompositionProperties.PendingIsPartitioned | src/bridge-client.ts:274-355 | in every run the pending ids are the sum of those in the request pipe, in the queue, active, deferred, and answered but unread, and none occurs twice, so the union is disjoint |
| CompositionProperties.BridgeIsNeverBlamed | src/bridge-client.ts:274-312 | with an honest bridge a client fails only for the environment or the spent request limit, and stays failed, throughout a run if and only if no write throws in `shutdown()` of a ready client; so an unexpected response is then unreachable |
| CompositionProperties.ThrowingShutdownMisleads | src/bridge-client.ts:139-140 | after a throwing shutdown of any ready client the answer to an already rejected request is recorded as unexpected |
| CompositionProperties.ThrowingShutdownBlamesBridge | src/bridge-client.ts:139-140 | a run of client and bridge from the start in which that happens |
| CompositionProperties.CodesTellApart | crates/dsh-norm-bridge/src/server.rs:815-889 | the client can tell the bridge's own error codes apart |
| EndToEnd.SettledAsAnswered | src/bridge-client.ts:274-312 | in every run what a live client has settled is what the frames it has received say, in order |
| EndToEnd.PromiseTellsDecision | src/bridge-client.ts:274-312 | in every run of a live client the promise of a started operation settles as the worker of that very operation decided |
| EndToEnd.AbortIsHeeded | src/bridge-client.ts:325-328 | once the bridge has handled the frame an abort writes, the operation it is for is no longer active or its flag is set, in every continuation |
| EndToEnd.AbortedWorkIsCancelled | crates/dsh-norm-bridge/src/server.rs:468-494 | if its worker is still at work then, the operation is never answered with a value |
| ByteStreams.ReadRequests | crates/dsh-norm-bridge/src/server.rs:662-720 | however the client's bytes are cut into pieces, the reader hands the event loop the requests written, in order, and then the end of the input |
| ByteStreams.ReadsAreReaderEvents | crates/dsh-norm-bridge/src/server.rs:662-684 | in every run, what has been read into the server's queue is what the reader thread sends first on the bytes the client has written |
| ByteStreams.FramesArrive | src/bridge-client.ts:186-207 | however the bridge's output is cut into chunks within the size limit, the client's splitter receives exactly the frames written and keeps nothing |
| ByteStreams.ChunksAreDeliveries | src/bridge-client.ts:186-207 | in every run, feeding a live client the bridge's next output as chunks leaves it as the composition's own deliveries of whole frames do |
| CleanShutdown.ShutdownIsLastFrame | src/bridge-client.ts:129-140 | a live client writes shutdown last, hence at most once |
| CleanShutdown.StopAnswersEveryRequest | crates/dsh-norm-bridge/src/server.rs:496-541 | when the bridge has stopped, every request ever written has its one response and the acknowledgement is last |
| CleanShutdown.LiveCloseIsClean | src/bridge-client.ts:388-391 | a live client whose child has closed is stopped with nothing pending |
| CleanShutdown.StaysClean | src/bridge-client.ts:129-155 | without faults a clean shutdown stays clean and writes nothing more |
| CleanShutdown.MovesAdvance | crates/dsh-norm-bridge/src/server.rs:207-242 | every step of the processes and pipes lowers the rank of a clean shutdown |
| CleanShutdown.SomethingMoves | crates/dsh-norm-bridge/src/server.rs:543-546 | a clean shutdown that has not reached the close of the child can move |
| CleanShutdown.CleanShutdownFinishes | src/bridge-client.ts:129-155 | any faultless continuation makes at most as many steps as the rank, and one that cannot move any more has closed the child and stopped the client |
| CleanShutdown.ShutdownBegins | src/bridge-client.ts:137-140 | calling shutdown on a ready client begins such a shutdown |
| Cancellation.RunKeepsInv | crates/dsh-norm-bridge/src/process.rs:40-151 | every interleaving of the swap, the locked accesses and the child keeps mutual exclusion and the pursuit of the installed child |
| Cancellation.NoLostCancellation | crates/dsh-norm-bridge/src/process.rs:40-53 | with the flag set, the child installed and no thread in its lock region, the child has exited or has been killed |
| Cancellation.KilledNeverCompletes | crates/dsh-norm-bridge/src/process.rs:119-127 | a run whose child was killed by a cancellation never counts as completed |
| Cancellation.AtMostOneRacingChild | crates/dsh-norm-bridge/src/upstream.rs:608-654 | once the token is set at most one more child of the operation is started, and it does not stay alive |
| Cancellation.EndsCancelledUnlessTooLate | crates/dsh-norm-bridge/src/upstream.rs:634-654 | a flagged operation that does not fail ends cancelled if and only if the flag was not set after the last check of its last child |
| Cancellation.CancelledOnlyByCancel | crates/dsh-norm-bridge/src/process.rs:75-77 | an operation ends cancelled only when its token was set |
| Cancellation.AcceptedOnce | crates/dsh-norm-bridge/src/process.rs:41 | however often the token is cancelled, one call reports the first request |
| Cancellation.ProgressIsPossible | crates/dsh-norm-bridge/src/process.rs:40-151 | no deadlock: until a race has ended, the worker, a cancellation already begun or the child can make a step that is no poll of a running child |
| Cancellation.RaceFinishes | crates/dsh-norm-bridge/src/process.rs:40-151 | from any reachable state such steps are bounded, and a race that can make none has ended |
| Cancellation.WaitsOnlyForKilled | crates/dsh-norm-bridge/src/process.rs:130-151 | once the token is set, a worker that waits for nothing but its child waits for one that was killed |
| Cancellation.CancellerInterferes | crates/dsh-norm-bridge/src/process.rs:40-53 | what the other thread does to the slot between two accesses of the worker stays within the stated interference |
| Cancellation.CancellationToken.Cancel | crates/dsh-norm-bridge/src/process.rs:39-53 | the swap decides acceptance; the child then found in the slot is killed if it is alive, and stays there |
| Cancellation.CancellationToken.RunCancellable | crates/dsh-norm-bridge/src/process.rs:70-128 | a token set before ends the run cancelled and starts nothing; a child is unavailable only if it cannot be started; a finished run started one child, which was not killed |
| Cancellation.CancellationToken.WaitForExit | crates/dsh-norm-bridge/src/process.rs:130-151 | polling returns the exit status of the installed child and clears the slot, whatever the other thread does between polls |
| CancellableServer.RunRefinesServer | crates/dsh-norm-bridge/src/process.rs:70-151 | with the race of token and child opened up step by step, the server's every run is a run of the model in which a worker decides in one step |
| CancellableServer.StepRefines | crates/dsh-norm-bridge/src/process.rs:119-121 | whatever the race decides is a result the one-step model allows for the flag at that moment |
| CancellableServer.EarlyIsFlaggedInTime | crates/dsh-norm-bridge/src/process.rs:40-41 | the active operation counts as flagged early exactly when its token was set before its worker had passed the last check of its last child |
| CancellableServer.DecidedByRace | crates/dsh-norm-bridge/src/process.rs:119-127 | a decided result is `cancelled` exactly when the token was set in time and the operation did not fail |
| CancellableServer.PossibleIffRaced | crates/dsh-norm-bridge/src/process.rs:70-128 | the results the one-step model allows are exactly those some race ends with, flagged in time or not accordingly |
| CancellableServer.WorkerCanProgress | crates/dsh-norm-bridge/src/process.rs:40-151 | in every run of the joined server, a worker that has not ended can make progress within its race |
| SessionManager.SessionState.ArmIdleTimer | src/index.ts:180-187 | arming replaces the timer, and none is armed on a disposed session or without a TTL |
| SessionManager.SessionState.ReapIfIdle | src/index.ts:197-211 | a busy session is re-armed, an idle one detaches its client and asks it to shut down unless it has failed |
| SessionManager.SessionState.ReleaseOnce | src/index.ts:579-584 | releasing a tool's lease twice counts once |
| SessionManager.SessionState.ReleaseLease | src/index.ts:218-221 | a release lowers the count and re-arms the timer |
| SessionManager.SessionState.EnqueueValidation | src/index.ts:509 | a validation is counted when it is queued, and nothing else changes |
| SessionManager.SessionState.SettleValidation | src/index.ts:511-520 | a settled validation lowers the count and re-arms the timer |
| SessionManager.SessionState.StartBridgeFor | src/index.ts:233-260 | a start begins only when nothing is attached and none is in flight |
| SessionManager.SessionState.ClientStarted | src/index.ts:245-256 | a started client is attached, or on a disposed session asked to shut down |
| SessionManager.SessionState.ClientFailedToStart | src/index.ts:251-256 | a failed start leaves nothing attached and ends the start |
| SessionManager.SessionState.StopBridge | src/index.ts:313-324 | disposal detaches the client, asks it to shut down unless it has failed, and disarms the timer for good |
| SessionManager.SessionState.ResolveToolClient | src/index.ts:569-577 | the resolver hands out a ready client with one lease taken, or takes and returns it |
| SessionRuns.RunKeepsInv | src/index.ts:180-324 | every interleaving of tools, injections, validations, starts, failures, disposal and the timer keeps counters, bridges, timer and holders consistent |
| SessionRuns.CountersAreExact | src/index.ts:193-231 | the two counters are the numbers of unreleased leases and of unsettled validations |
| SessionRuns.ReaperSparesHolders | src/index.ts:197-211 | a client handed to a flow that has not given it back is never shut down by the idle timer |
| SessionRuns.ReapsIffUnused | src/index.ts:197-211 | when the timer fires on an attached client it detaches the client if and only if nobody uses it, and asks a bridge that has not failed to shut down; otherwise it only sets itself again |
| SessionRuns.SingleFlight | src/index.ts:233-260 | at most one bridge is connecting at any time, and none is attached meanwhile |
| SessionRuns.StartingMeansDetached | src/index.ts:234-241 | while a start is under way no client is attached |
| SessionRuns.BridgesAreAccounted | src/index.ts:233-260 | every bridge ever started is the one connecting, the one attached, failed, or asked to shut down; while one connects none is attached |
| SessionRuns.TimerWatchesClient | src/index.ts:180-187 | with a positive TTL an attached client always has an armed timer, and a disposed session has neither |
| SessionRuns.ActivitySlidesTimer | src/index.ts:180-191 | the timer is set anew at each activity and at nothing else |
| SessionRuns.AskingStarts | src/index.ts:233-236 | who asks for the bridge finds it attached or a start in flight, and waits for nothing else |
| SessionRuns.StartResumesWaiters | src/index.ts:233-260 | a start that succeeds attaches its bridge, alive, and resumes everyone who waited; one that fails leaves nothing attached or in flight |
| SessionRuns.ReadyIsHandedOut | src/index.ts:396-400 | a flow that reads the client is given it exactly when it is attached and alive |
| SessionRuns.DisposedForGood | src/index.ts:312-324 | disposal asks the attached bridge to shut down, and in every continuation nothing is attached, alive or newly started |
| SessionRuns.NoLostWakeup | src/index.ts:253-259 | nobody waits for a start that is not in flight |
| ConventionSlot.ReminderSlot.FindConventionSlot | src/index.ts:327-342 | the backward scan finds what the specification finds |
| ConventionSlot.ReminderSlot.InjectContext | src/index.ts:402-453 | a step replaces the slot in place, hands a message back, or writes nothing, in the source's order of checks |
| ConventionSlot.FoundIsLatest | src/index.ts:327-342 | the slot is the latest own message, found if and only if that one is on the surface |
| ConventionSlot.RunKeepsInv | src/index.ts:395-453 | every run of steps, host entries and compactions without logged notices, of a new or a resumed session, keeps the surface to its latest own message, and ties it to the digest once one is recorded |
| ConventionSlot.OneReminderAtMost | src/index.ts:413-434 | in every such run, from any log and surface a session may be resumed with, an own reminder on the surface is the latest own message, so there is at most one |
| ConventionSlot.StepShowsCurrent | src/index.ts:404-453 | in every such run a step with conventions leaves exactly one reminder with the current digest if and only if the slot was found, also one of an earlier run, or the digest was new and the host logged the message |
| ConventionSlot.CurrentIffFoundOrLogged | src/index.ts:408-436 | the same for any slot a run may reach |
| ConventionSlot.EmptyContextKeepsReminder | src/index.ts:404-407 | after a step without conventions a reminder is on the surface exactly when a slot was there, of this run or an earlier one |
| ConventionSlot.RepeatWritesNothing | src/index.ts:408-409 | repeating a step writes nothing, even when the host dropped the first message |
| ConventionSlot.StepWritesIff | src/index.ts:408-453 | a step writes, and then the current reminder, if and only if the digest is new and the slot found reads otherwise, or none is found and the host logs the message |
| ConventionSlot.OthersStay | src/index.ts:424-434 | no action rewrites the log; a compaction aside, only own messages leave the surface, and only the entry added comes onto it |
| ConventionSlot.HostEntriesStay | src/index.ts:424-434 | in every run whatever the host logs stays on the surface as it was logged until a compaction takes it off |
| ConventionSlot.NoticeBreaksSlot | src/index.ts:654-665 | a notice logged with the adapter's own source keeps the surface to its latest own message exactly when no slot was there |
| ConventionSlot.CompactedStaysAway | src/index.ts:408-409 | a run of a new session in which a compacted reminder stays away although the next step received the same conventions |
| ConventionSlot.ResumedReminderStays | src/index.ts:404-407 | a resumed session whose conventions are gone shows the earlier run's reminder after any number of steps |
| ConventionSlot.NoticeShowsTwo | src/index.ts:654-665 | a run of a new session in which a logged notice leaves two own messages on the surface |
| LayoutIndex.Plugin.StateFor | src/index.ts:140-173 | an agent is keyed to its own session's state, made new or kept with its text, and no other session changes |
| LayoutIndex.Plugin.Rekey | src/index.ts:163-171 | a new agent object on a resident session marks its map stale and keeps its text |
| LayoutIndex.Plugin.AskForMap | src/index.ts:356 | a map is asked for exactly when it is stale or was never answered |
| LayoutIndex.Plugin.MapReturned | src/index.ts:361-370 | the text returned replaces the stored one only when its digest differs, the map is no longer stale, and no other session changes |
| LayoutIndex.Plugin.ServeText | src/index.ts:603-611 | an agent is served its own session's stored text, and an unknown scope nothing |
| LayoutIndex.Plugin.PerformAll | src/index.ts:128-173 | over any interleaving of sessions and agent objects, each session's state on the heap becomes what a function of the actions says, whatever aliases reach it |
| LayoutIndex.ServeAfter | src/index.ts:603-611 | what a new plugin serves after any interleaving is a function of the actions |
| LayoutIndex.ServedIsOwn | src/index.ts:603-611 | that text is empty or was returned by an answer to the agent's own session |
| LayoutIndex.OthersDoNotMatter | src/index.ts:128-134 | what becomes of a session depends on its own actions alone |
| LayoutIndex.LastAnswerDecides | src/index.ts:356-370 | after the last answer to land a session is served a text with the digest of the one returned, and asks again exactly when it was edited or taken over by another agent object since |
| LayoutIndex.ServedIsLastAnswer | src/index.ts:603-611 | every agent object of a session is served the last answer to land, up to what the digest tells apart |
| LayoutIndex.EditIsHeededIff | src/index.ts:472-477 | if nothing else marks the map since a `.norm` edit, it is still due exactly when no answer has landed since |
| LayoutIndex.EditIsForgotten | src/index.ts:361-364 | a run in which an answer asked for before the edit clears the mark |
| LayoutIndex.NothingBeforeAnswer | src/index.ts:356 | until an answer lands a session is served nothing and asks for its map |
| FileTree.CollectDirectory | crates/dsh-norm-bridge/src/upstream.rs:1176-1236 | the walk adds exactly the regular files below a directory or fails at the first refused entry in listing order |
| FileTree.InventoryIsExact | crates/dsh-norm-bridge/src/upstream.rs:1213-1226 | a path is in the inventory if and only if a chain of names through directories leads to a regular file |
| FileTree.CollectFailsIff | crates/dsh-norm-bridge/src/upstream.rs:1204-1233 | collecting fails if and only if a link or a special entry lies somewhere below, and names which of the two it met |
| FileTree.ListedReads | crates/dsh-norm-bridge/src/upstream.rs:1214-1226 | every listed path can be read back through the file system and reads as the file it names |
| FileTree.ListedIsSafe | crates/dsh-norm-bridge/src/upstream.rs:1136-1150 | every listed path passes the safety check of a lock |
| FileTree.SafePathsStayBelow | crates/dsh-norm-bridge/src/upstream.rs:1136-1150 | a safe path is below its base from its first part on, and never back at it |
| FileTree.SplitJoin | crates/dsh-norm-bridge/src/upstream.rs:1221-1225 | joining names into a portable path loses nothing |
| Payload.ValidatePayloadLock | crates/dsh-norm-bridge/src/upstream.rs:791-819 | the loop reports the first fault of a lock in list order, and none if there is none |
| Payload.ValidateLockedInventory | crates/dsh-norm-bridge/src/upstream.rs:821-844 | the inventory is compared before any content, and the first changed file is reported |
| Payload.ValidateContract | crates/dsh-norm-bridge/src/upstream.rs:908-946 | the identity is compared first, then each file's path, digest form, uniqueness and content, in that order |
| Payload.PayloadDirectory.Seal | crates/dsh-norm-bridge/src/upstream.rs:289-347 | sealing fails with the first fault and writes nothing, or adds to the tree a lock of every file with its digest and nothing else |
| Payload.PayloadDirectory.Open | crates/dsh-norm-bridge/src/upstream.rs:206-249 | opening makes the source's checks in order, and changes nothing |
| Payload.LockFiles | crates/dsh-norm-bridge/src/upstream.rs:317-323 | the lock names every file of the inventory once, with the digest of its content |
| PayloadProperties.LockFilesAccepted | crates/dsh-norm-bridge/src/upstream.rs:808-817 | a file list is accepted if and only if all paths are safe and distinct and all digests well formed |
| PayloadProperties.ContentsAccepted | crates/dsh-norm-bridge/src/upstream.rs:832-842 | the content check passes if and only if every locked file is found with its digest |
| PayloadProperties.LayoutTransfers | crates/dsh-norm-bridge/src/upstream.rs:846-906 | the layout check reads only files of the release: trees that agree on those get the same verdict, sealed or not |
| PayloadProperties.SealedTree | crates/dsh-norm-bridge/src/upstream.rs:338-344 | writing the lock adds its own name to the inventory and changes no other file |
| PayloadProperties.SealThenOpen | crates/dsh-norm-bridge/src/upstream.rs:206-249 | a sealed tree opens with the identity sealing reported if and only if it was sealed for the native target and its lock is at most 16 MiB |
| PayloadProperties.CanBeLocked | crates/dsh-norm-bridge/src/upstream.rs:317-323 | every tree has a file list that names each of its files once with its digest |
| PayloadProperties.SealedOnce | crates/dsh-norm-bridge/src/upstream.rs:300-306 | a sealed tree is refused as already sealed |
| PayloadProperties.OpensIffUntouched | crates/dsh-norm-bridge/src/upstream.rs:821-844 | a tree that keeps the lock of a payload that opens is accepted if and only if it holds no link or special entry and has the same files with the same bytes |
| Admission.ContractFilesAccepted | crates/dsh-norm-bridge/src/upstream.rs:924-944 | a contract's file list is accepted if and only if its paths are safe and distinct, its digests well formed, and every file is in the bundle unchanged |
| Admission.ManifestIsPinned | crates/dsh-norm-bridge/src/upstream.rs:863-886 | the pin and the asset leave only one manifest |
| Admission.ReleaseAcceptedIff | crates/dsh-norm-bridge/src/upstream.rs:846-906 | the layout check accepts exactly the pinned release in a tree without links and special entries |
| Admission.OpensIffPinned | crates/dsh-norm-bridge/src/upstream.rs:206-249 | a directory opens if and only if it is the pinned payload for the native target, whole and unchanged, and with the identity the pin gives it |
| Admission.SealsIffPinned | crates/dsh-norm-bridge/src/upstream.rs:289-316 | a directory may be sealed if and only if it holds no lock and is the pinned release for the target its manifest names |
| ReleaseExample.SealedMayOpen | crates/dsh-norm-bridge/src/upstream.rs:206-249 | some release is sealed and opens |
| ReleaseExample.SealedForAnotherTarget | crates/dsh-norm-bridge/src/upstream.rs:289-347 | some release is sealed on a machine of another target and does not open there |
| ReleaseExample.SealedWithLargeLock | crates/dsh-norm-bridge/src/upstream.rs:1120-1126 | some release is sealed with a lock above the size limit and does not open on its own target |
| Utf8.DecodesExactly | crates/dsh-norm-bridge/src/server.rs:710-712 | bytes decode to a text if and only if they are its encoding |
| Framing.ReadInputFrame | crates/dsh-norm-bridge/src/server.rs:686-720 | however the input is cut into pieces, the frame, the end or the kind of error is a function of the whole byte stream |
| Framing.RunInputReader | crates/dsh-norm-bridge/src/server.rs:662-684 | the events the reader thread sends are a function of the whole byte stream |
| Framing.AcceptedIff | crates/dsh-norm-bridge/src/server.rs:700-712 | a frame is delivered as a text if and only if it is newline terminated, takes at most 1 MiB with the newline, and encodes that text once a carriage return is cut |
| Framing.LineReadsBack | crates/dsh-norm-bridge/src/server.rs:705-712 | a written line comes back as it was, except that a final carriage return is lost |
| Framing.LinesReadBack | crates/dsh-norm-bridge/src/server.rs:662-684 | lines written back to back are delivered one by one, followed by the events of whatever comes after |
| Framing.WrittenFramesArrive | src/bridge-client.ts:336 | the event loop gets exactly the frames the client wrote and then the end of the input |
| Framing.TruncationIsReported | crates/dsh-norm-bridge/src/server.rs:692-698 | an input cut short inside a frame ends in the right failure, after every complete frame has arrived |
| Recency.SessionState.OnToolResult | src/index.ts:549-551 | a tool result that failed or has no target leaves the set, any other moves its target to the front |
| Recency.ActiveRefinesHistory | src/target-tracking.ts:39-45 | after any tool results the active targets are the first four distinct entries of the reversed target history followed by the initial root |
| Recency.ActiveIsAlwaysAccepted | crates/dsh-norm-bridge/src/upstream.rs:730-757 | no run of tool results makes a target set the bridge refuses, so the adapter's own request for it is always well formed |
| Recency.RecentTargetsStay | src/target-tracking.ts:35-45 | a target ever touched is active if and only if fewer than four others were touched after it |
| Recency.TargetIffTouched | src/target-tracking.ts:18-33 | a tool result contributes the directory of the file it read or wrote, if it did, and nothing else |
| Recency.ActiveAreTouched | src/target-tracking.ts:18-45 | the active targets are the initial root and directories of files the tools touched |
| Recency.LastTouchedIsFirst | src/target-tracking.ts:39-45 | the directory touched last comes first; a result that touches no file changes nothing |
| Recency.FirstOccurrencesCons | src/target-tracking.ts:44 | moving an element to the front is the same as seeing it first |
| Validation.ResponseRoundTrip | src/validation-feedback.ts:50-79 | reading back a written report gives the report if it is consistent and fails otherwise |
| Validation.ParsedIsConsistent | src/validation-feedback.ts:61-71 | every report that is accepted agrees with itself: summary and statuses follow from the findings |
| Validation.ResultRoundTrip | src/validation-feedback.ts:111-127 | a file's result is read back exactly when its status is the one its findings require |
| Validation.ReportIsRead | src/validation-feedback.ts:50-79 | a report is read out of a JSON value if and only if it is what the value says in every member, under the right API version, and it agrees with itself |
| Validation.ResultIsRead | src/validation-feedback.ts:111-127 | the same for one file's result |
| Feedback.RenderFindingFeedback | src/validation-feedback.ts:158-184 | the text is the bounded join of the report's lines |
| Feedback.EmitFindings | src/validation-feedback.ts:165-177 | the loops with their early exits emit the first eight findings in order and count them |
| Feedback.EmittedAndOmitted | src/validation-feedback.ts:164-178 | for every accepted report the findings shown are the first eight, and the others are announced with their exact number if and only if there are any |
| Feedback.BoundFeedback | src/validation-feedback.ts:201-215 | the counting loop keeps what dropping characters from the end until the rest fits would keep |
| Feedback.BoundedFits | src/validation-feedback.ts:201-215 | the text is at most 8192 UTF-8 bytes, and unchanged if and only if it was already |
| Feedback.TruncationKeepsTheMost | src/validation-feedback.ts:205-214 | a truncated text keeps, end-trimmed, the one prefix that fits while one character more would not |
| Feedback.OneLineFits | src/validation-feedback.ts:222-228 | a shortened text fits its limit and keeps no white space but blanks |
| Feedback.FindingHasItsLine | src/validation-feedback.ts:165-175 | every finding has its own line with its severity and its file, errors before warnings, in report order |
| Feedback.OneLineKeepsInk | src/validation-feedback.ts:222-228 | a shortened text shows all ink of the original in order, or its beginning up to an ellipsis at the limit |
| Feedback.OneLineKeepsClean | src/validation-feedback.ts:222-228 | a text is shown as it is if and only if it is in order and short enough |
| Feedback.FindingShowsItsParts | src/validation-feedback.ts:186-195 | a finding's line shows its severity, file, code, field, message and suggestion, in this order |
| Feedback.SummaryTellsCounts | src/validation-feedback.ts:197-199 | the summary line tells all three counts |
| Feedback.OmittedTellsCount | src/validation-feedback.ts:178 | the line about omitted findings tells how many there are |
| Feedback.RenderedLines | src/validation-feedback.ts:183-214 | no upstream text can add a line: the rendered text has exactly the report's lines if it fits, and otherwise the first of them, the last perhaps cut short, and the line that says so |
| Feedback.FeedbackOn | src/validation-feedback.ts:50-93 | for any answer of the bridge, feedback is shown exactly when the answer is accepted and some file in it is not in order, and it is never too long |
| Feedback.NothingToFixIff | src/validation-feedback.ts:82-85 | the counts of an accepted report are zero exactly when every file in it is in order |

## Left out

- LockFiles: does not fix the order of a lock's entries; the source lists them sorted by path.
- Client.BridgeClient.FailWith: does not model the `onFailure` callback.
- Payload.PayloadDirectory.Open: which of several faults is reported is stated only as the source's order of checks.
- ReapsIffUnused: does not order the timer against a flow that begins in the same turn of the event loop.
- Process spawning, pipes, flushing of standard output, timers and signals: steps of the environment.
- Worker panics, poisoned locks, a failing `kill`, a failing write of the lock file and read errors of directories.
- A reader thread whose event loop has ended: the events it can no longer send are not counted.
- JSON and serde decoding, the internals of SHA-1 and SHA-256, and the splitting of a checksum line at white space.
- File names that are not Unicode, and Windows path syntax.
- The order of directory entries: any order the operating system returns is allowed.
- Lone surrogates in JavaScript strings: a `char` is a Unicode scalar value.
- Counts beyond the exact integers of a JavaScript number.
- The merge and projection engine, the `norm` executable, conformance reports and the compatibility identity: opaque results.
- The wording of the reminder, of notices, of the status line and of the fixed feedback lines, and where a host inserts a message that a step hands back.
- The agent-less ambient bridge's teardown, which may overlap a start.
- Two agents that share one session when the older is disposed later.
- The bound of native-tool text, which counts string units and not bytes.
- Command-line options, packaging, runtime resolution, skill registration and host probing: plumbing.
