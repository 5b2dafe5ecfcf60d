# The Kernel's physical Work control plane, in Dafny

This project models how the native Kernel runs Work: a durable queue with retries, cancellation, deadlines and crash
recovery; the leases that admit attempts to CPU, memory and GPUs; the reusable worker processes and their supervision;
and the framed protocol that the Kernel, its workers and the client speak. It proves what those parts promise together.

`dafny verify dfyconfig.toml` checks everything.

## How the model is laid out

- **The store.** `StoreModel` gives every statement of the Work store as a function on records (a row of `work` with its
  rows of `attempts`), and `Statements` says what each of them means column by column. `WorkStore` is the store as the
  source has it: a class with two tables that its methods update in place, each tied to its function.
- **The running system.** `System` is an interleaved transition system. An action is one atomic step of a client command,
  of the scheduler thread, of an executor, of the clock, or of the process (stop, crash, restart); a run is any list of
  actions. The steps are the ones between which other threads can act: for example an executor decides, reads the cancel
  flag, writes its result file and records its success in separate actions. `RecordInvariant`, `Invariant` and
  `Preservation` hold the invariant and its proof; `Effects` and `Movements` list all that one step can do to a record, to
  an executor and to the scheduler.
- **Theorems about single steps.** `Scheduling`, `Executors`, `Commands` and `Process` say what every step decides, in
  terms of the table, the capacity, the files and the leases, and that no thread ever gets stuck.
- **Theorems about runs.** `Lifecycle`, `Durability`, `Cancellation`, `Timing`, `Dispatch` and `Leases`; `Success` follows a
  Work from its submission to its result, and `EndToEnd` joins runs with the supervised calls of the workers.
- **Resources.** `ResourceModel` has the admission arithmetic at its machine widths (32-bit signed slots, wrapping 64-bit
  byte counts); `ResourceManager` has the manager and its move-only leases as objects.
- **Engines.** `Selection` has the comma-separated lists and the filter chain.
- **The wire.** `BigEndian`, `Codec` and `Reader` follow the Kernel's protocol code, `Utf8` and `JavaCodec` the client's;
  `WireFormat` says what the decoders make of arbitrary bytes, `CodecAgreement` relates the two sides, and `Identifiers` follows a set of identifiers from a request to engine selection.
- **Workers.** `CommandLine` has the Windows quoting and the parser it is meant for, `Supervision` one supervised call as a
  function of everything it observes, `Verdicts` which observation decides it, `WorkerPool` the processes, the pool and its leases as objects.

Some results are not what one might expect, and are proved exactly:

- the reader's buffer bound is on the backlog, not on a frame. It fails exactly when a count of bytes, of what each turn
  brings in and of the lengths of the frames, exceeds the bound (`BacklogFits`, `ExactDelivery`), and a burst of minimal
  frames does that (`BurstTripsTheBound`). That witness is a session of the reader alone: a supervised call would end its
  worker at the first frame that does not answer it;
- a worker that answers and closes its pipe loses its answer unless the bytes left in the pipe are a positive multiple of
  the read budget (`FrameBeforeClose`), because end of file is reported before a complete buffered frame; so a frame of 28
  bytes is always lost (`TinyFrameIsLost`);
- a program name with a blank that ends in a backslash, or with a quote, does not survive the Windows command line
  (`CommandLineRoundTrip`; `FinalBackslashDoubles` and `QuoteIsLost` name one each);
- a request accepts identifiers that do not arrive at engine selection: one with a NUL is cut short by the database
  (`NulIsCutOff`), and an unpaired surrogate becomes a question mark, so that two different identifiers become the same
  (`LoneSurrogatesCollide`). All others arrive (`IdentifiersArrive`).

Every lemma switches Dafny's automatic induction off, so that each proof is what its body says.

## Model

| member | source | states |
|---|---|---|
| StoreModel.NextIsUnique | kernel/src/store.cpp:213-231 | two Works that both head the dispatch order at the same instant are the same Work |
| StoreModel.NextEligibleMeaning | kernel/src/store.cpp:213-231 | the query yields nothing exactly when no Work is eligible, and otherwise the head of (urgency, creation time, insertion) |
| WorkStoreClass.JoinIsUnique | kernel/src/store.cpp:252-459 | the two tables determine the records, so the methods below fix the whole new state |
| Statements.ScanMeaning | kernel/src/store.cpp:213-231 | the scan finds a Work whenever one may start: the most pressing (interactive, normal, background), then the oldest, then the first inserted |
| Statements.OrderMeaning | kernel/src/store.cpp:218-222 | a more pressing Work goes before any other; within an urgency creation time decides, and then insertion |
| WorkStoreClass.WorkStore.Submit | kernel/src/store.cpp:168-198 | inserts a queued row with the next insertion number and no attempt; a known id changes nothing |
| WorkStoreClass.WorkStore.Find | kernel/src/store.cpp:200-211 | finds a Work exactly when it is stored |
| WorkStoreClass.WorkStore.NextEligible | kernel/src/store.cpp:213-231 | returns the eligible Work that comes first, by urgency, creation and insertion, or none when there is none |
| WorkStoreClass.WorkStore.ExpireQueuedDeadlines | kernel/src/store.cpp:233-242 | fails exactly the queued Works whose deadline has passed and leaves every attempt alone |
| WorkStoreClass.WorkStore.FailQueued | kernel/src/store.cpp:244-250 | fails one Work if it is still queued, and touches no other |
| WorkStoreClass.WorkStore.BeginAttempt | kernel/src/store.cpp:252-298 | marks the Work running and inserts its next attempt in one transaction, or does nothing and says so |
| WorkStoreClass.WorkStore.FinishSuccess | kernel/src/store.cpp:300-321 | completes the attempt if it runs, and the Work if it runs |
| WorkStoreClass.WorkStore.FinishCancelled | kernel/src/store.cpp:323-343 | cancels the attempt if it runs, and the Work if it runs |
| Lifecycle.FailureSettles | kernel/src/store.cpp:376-401 | a failed running Work is cancelled exactly when flagged, and otherwise queued again exactly when an attempt is left and the retry begins before the deadline; a retry waits for the delay and forgets the engine; only the last attempt's row changes |
| WorkStoreClass.WorkStore.SettleFailure | kernel/src/store.cpp:358-402 | ends one attempt and settles its Work in one transaction |
| WorkStoreClass.WorkStore.FinishRetryableFailure | kernel/src/store.cpp:345-403 | refuses any attempt state but failed and timed out, and otherwise settles the Work |
| WorkStoreClass.WorkStore.RecoverInterrupted | kernel/src/store.cpp:405-459 | the loop over collected rows equals one pointwise map over all Works, in whatever order they were collected |
| WorkStoreClass.WorkStore.CollectRunning | kernel/src/store.cpp:409-417 | lists the running Works, each once |
| WorkStoreClass.WorkStore.Cancel | kernel/src/store.cpp:461-487 | cancels a queued Work, flags a running one, leaves a finished one, and reports the resulting state |
| WorkStoreClass.WorkStore.CancelRequested | kernel/src/store.cpp:489-499 | reads the flag; an unknown Work has none |
| WorkStoreClass.WorkStore.Acknowledge | kernel/src/store.cpp:501-507 | succeeds exactly for a succeeded Work that has not been acknowledged |
| RecordInvariant.BeginKeeps | kernel/src/store.cpp:252-298 | a startable Work has a free next attempt number, and starting it before its deadline keeps the record invariant and makes progress |
| RecordInvariant.SucceedKeeps | kernel/src/store.cpp:300-321 | recording the success of a running Work keeps the record invariant and makes progress |
| RecordInvariant.CancelRunningKeeps | kernel/src/store.cpp:323-343 | withdrawing a flagged running Work keeps the record invariant and makes progress |
| RecordInvariant.FailKeeps | kernel/src/store.cpp:345-403 | failing a running Work keeps the record invariant and makes progress |
| RecordInvariant.RecoverKeeps | kernel/src/store.cpp:405-459 | recovery of one record keeps the invariant and leaves it not running |
| RecordInvariant.CancelKeeps | kernel/src/store.cpp:461-487 | a cancel command keeps the record invariant and never clears a flag |
| Preservation.StepKeeps | kernel/src/main.cpp:408-553 | every action of every actor keeps the whole system invariant, and changes records only by progress |
| Preservation.RunKeeps | kernel/src/main.cpp:355-401 | the invariant holds after any run, crashes and restarts included |
| Effects.StepEffect | kernel/src/main.cpp:408-553 | whatever a step does to a Work is one of ten effects, each with its one possible cause |
| Effects.StepInserts | kernel/src/main.cpp:610-666 | a Work that appears is queued, without attempts, and comes from a submission |
| Movements.TaskSteps | kernel/src/main.cpp:487-553 | every step but a launch lets executors make only the transitions of `execute_worker`, or ends them |
| Movements.SchedSteps | kernel/src/main.cpp:408-485 | every step leaves the scheduler in place or moves it along its loop |
| Lifecycle.AttemptLedger | kernel/src/store.cpp:252-459 | in every reachable state attempts are numbered 1 to the count, within the limit; all but the last have ended; the last decides running and succeeded, and carries the selected engine and model |
| Lifecycle.SingleOwnership | kernel/src/main.cpp:452-553 | at most one executor per Work, carrying its current attempt; an unstopped Kernel has an executor, or a launch under way, for every running Work |
| Lifecycle.EndsLastAttempt | kernel/src/store.cpp:300-403 | ending a running Work closes exactly its last attempt |
| Lifecycle.FinishHitsOwnAttempt | kernel/src/store.cpp:300-403 | every finishing update of an executor hits exactly the attempt it began and exactly one Work, although the Work update names no attempt |
| Lifecycle.FailedLaunchHitsOwnAttempt | kernel/src/main.cpp:462-467 | the scheduler's finishing update after a failed launch hits exactly the attempt it began and exactly one Work |
| Lifecycle.BeginNeverConflicts | kernel/src/store.cpp:281-293 | inserting an attempt never violates the primary key, although nothing checks for it |
| Lifecycle.Termination | kernel/src/store.cpp:233-487 | in any run a Work changes state at most twice its maximum number of attempts, restarts included |
| Scheduling.SweepDecides | kernel/src/store.cpp:233-242 | a scan begins by failing exactly the queued Works whose deadline is not in the future |
| Scheduling.AdmitDecides | kernel/src/main.cpp:421-446 | a picked Work is failed for the first reason that applies, admitted with a lease exactly when it fits beside all live leases, and otherwise left in the queue |
| Scheduling.BeginDecides | kernel/src/main.cpp:447-456 | an admitted Work is failed if its deadline has passed, left alone if it was cancelled, and otherwise gets its next attempt on the selected engine |
| Scheduling.LaunchDecides | kernel/src/main.cpp:458-485 | an executor takes over the attempt, or the failed launch costs the Work that attempt |
| Executors.CallEnds | kernel/src/main.cpp:506-535 | a call ends with a stop, a cancellation or a stop time exactly when there is a reason for it |
| Executors.SettlementDecides | kernel/src/main.cpp:514-552 | every outcome settles the Work and its attempt in its own way, touches no other Work, and a success is committed or withdrawn by the flag at that moment |
| Process.StartRecovers | kernel/src/main.cpp:363-376 | a start with a valid configuration settles every interrupted Work and changes no other |
| Process.CrashKeepsTheDisk | kernel/src/main.cpp:378-393 | a crash keeps the tables and the files and loses everything else; a stop request only raises the flag |
| Process.DownIsSilent | kernel/src/main.cpp:363-401 | while the process is down nothing happens but its start |
| Process.OutOfTurn | kernel/src/main.cpp:408-722 | a step of an actor that is not at the point for it, or a command that the Kernel refuses, changes nothing |
| Process.CanComeToRest | kernel/src/main.cpp:408-553 | from every reachable state the threads alone can come to rest: no executor, no lease, every counter zero, no running Work |
| Success.DispatchCanSucceed | kernel/src/main.cpp:408-541 | a Work that comes first, has time left and fits can always succeed, with any answer of its worker as its result, and leaves every lease and executor as before |
| Success.FirstWorkSucceeds | kernel/src/main.cpp:363-722 | a new Kernel runs any well-formed Work that an engine suits, from its submission to its acknowledgement, and no file is left |
| Lifecycle.TerminalIsAbsorbing | kernel/src/store.cpp:233-487 | no run leaves a terminal state or starts an attempt there |
| Lifecycle.Recovery | kernel/src/store.cpp:405-459 | recovery from any reachable state leaves nothing running, changes nothing else, settles by flag and retry budget, restores the table invariant and is idempotent |
| Durability.ResultIsDurable | kernel/src/main.cpp:684-705 | a result is available exactly for a succeeded unacknowledged Work, and is what its one completed attempt produced; the input exists until then |
| Durability.ResultIsStable | kernel/src/main.cpp:536-541 | an available result stays available and unchanged over any run until it is acknowledged |
| Durability.InputIsStable | kernel/src/main.cpp:637-638 | a written input stays unchanged until its Work is acknowledged |
| Commands.SubmissionIsKept | kernel/src/main.cpp:610-666 | over any run a stored Work has the request, and its input file the payload, that was submitted under its id |
| Commands.AcknowledgementTakes | kernel/src/main.cpp:707-722 | acknowledging an available result marks exactly that Work and removes both its files |
| Commands.NothingIsLeftBehind | kernel/src/main.cpp:716-718 | in a run without a crash an acknowledged Work has no file left once its command has ended |
| Durability.AcknowledgedOnce | kernel/src/main.cpp:707-722 | over any run a Work is acknowledged at most once |
| Durability.AcknowledgedForever | kernel/src/main.cpp:707-722 | after an acknowledgement none succeeds again and no result is available |
| Cancellation.CancelStates | kernel/src/store.cpp:461-487 | a flagged Work is running, succeeded or cancelled; a cancelled Work is flagged |
| Cancellation.CancelIsSticky | kernel/src/store.cpp:376-383 | the flag is never cleared, and no further attempt starts once it is set |
| Cancellation.CancelWins | kernel/src/main.cpp:517-541 | without a committed executor a flagged Work never succeeds in any run |
| Cancellation.CommitCanFinish | kernel/src/main.cpp:536-541 | a committed executor can always finish, flag or not |
| Cancellation.CancelLosesOnlyToCommit | kernel/src/main.cpp:536-541 | some run from here ends with a flagged Work succeeded if and only if an executor of it has committed |
| Commands.CancelCommandPrevails | kernel/src/main.cpp:724-731 | a cancel command on an unfinished Work can still lose if and only if an executor has committed; no further attempt starts in any continuation |
| Cancellation.RestartCancels | kernel/src/store.cpp:429-436 | once the process is up again, every flagged Work that had not succeeded is cancelled |
| Timing.StartsBeforeTheDeadline | kernel/src/main.cpp:447-453 | every attempt starts strictly before the deadline, whatever the clock does |
| Timing.StartsAreSpaced | kernel/src/store.cpp:92-98 | with a forward clock attempts start no earlier than eligibility, and a retry delay after the previous one has ended |
| Timing.StopTimeIsEarliest | kernel/src/main.cpp:495-504 | the stop time is the earlier of timeout and deadline, and the reported reason is the timeout exactly when the timeout is not later |
| Timing.DeadlineStopIsTerminal | kernel/src/main.cpp:495-526 | an attempt stopped at the deadline, a tie with the timeout included, leaves its Work terminal for good, however many attempts it had left |
| Dispatch.PickIsHead | kernel/src/main.cpp:414-420 | a scan picks the one Work that comes first by urgency, creation and insertion among those that may start, and goes idle exactly when none may |
| Dispatch.NeverOvertakes | kernel/src/main.cpp:414-453 | once a Work is ready before another, no attempt of the other starts in any continuation before the first has left the queue |
| Dispatch.LaterDoesNotOvertake | kernel/src/store.cpp:213-231 | a Work submitted while another is ready, of the same or a lower urgency and created no earlier, gets no attempt before the other has left the queue |
| Dispatch.FirstComeFirstServed | kernel/src/main.cpp:610-666 | from the start and with a forward clock, submission order is dispatch order within an urgency: creation times need no assumption |
| Dispatch.SameEngineWithinLifetime | kernel/src/main.cpp:428-453 | all attempts that start between two restarts run on the engine and model that selection chooses |
| Leases.LeaseConservation | kernel/src/main.cpp:440-490 | in every reachable state the counters are the sums over live leases, each lease has exactly one holder, and all is returned when nobody is left |
| Leases.NoStall | kernel/src/main.cpp:428-446 | a picked Work leaves the queue, is admitted, or waits for a lease that an executor in flight holds |
| Leases.AdmittedLeavesQueue | kernel/src/main.cpp:447-456 | an admitted Work leaves the queue in the next step |
| Leases.RefusalNeedsLease | kernel/src/worker_runtime.cpp:243-285 | a reservation that could ever succeed is refused only while some executor holds a lease |
| ResourceModel.ReserveIsExact | kernel/src/worker_runtime.cpp:258-285 | the wrapping checks admit a lease exactly when it fits beside all live leases in unbounded arithmetic |
| ResourceModel.GrantKeepsBalance | kernel/src/worker_runtime.cpp:278-284 | a grant keeps every counter equal to the sum over leases and within capacity |
| ResourceModel.RefusalKeepsBalance | kernel/src/worker_runtime.cpp:263-276 | a refusal changes no counter, although it may leave a zero entry |
| ResourceModel.ReleaseKeepsBalance | kernel/src/worker_runtime.cpp:287-300 | a release never wraps and keeps the sums |
| ResourceModel.MoveKeepsBalance | kernel/src/worker_runtime.cpp:211-224 | a move changes the holder and no sum |
| ResourceModel.NoLeaseNoStall | kernel/src/worker_runtime.cpp:243-285 | with no lease alive a reservation succeeds exactly when it could ever succeed |
| ResourceManagerClass.ResourceManager.constructor | kernel/src/worker_runtime.cpp:237-241 | a fresh manager is balanced and empty |
| ResourceManagerClass.ResourceManager.TryReserve | kernel/src/worker_runtime.cpp:258-285 | grants exactly what fits, and hands out one fresh lease for it |
| ResourceManagerClass.ResourceManager.Release | kernel/src/worker_runtime.cpp:287-300 | takes exactly one lease out of the ledger |
| ResourceManagerClass.Lease.Reset | kernel/src/worker_runtime.cpp:230-235 | returns what is held, once, and leaves the lease empty |
| ResourceManagerClass.Lease.Take | kernel/src/worker_runtime.cpp:216-224 | move assignment returns the old holding, takes over the other's and empties it; self-assignment changes nothing |
| Selection.SplitCsvScan | kernel/src/main.cpp:132-147 | the scan finds exactly the non-empty fields |
| Selection.JoinCsvLoop | kernel/src/main.cpp:149-158 | the loop joins with single commas |
| Selection.SplitJoin | kernel/src/main.cpp:132-158 | splitting undoes joining for every list of identifiers, the empty one included |
| Selection.FieldsAreIdentifiers | kernel/src/main.cpp:132-147 | every field of any text is a non-empty comma-free part of it |
| Selection.SplitAtComma | kernel/src/main.cpp:132-147 | a text splits at every comma, a part without one being one field, or none when it is empty |
| Selection.JoinInTwo | kernel/src/main.cpp:149-158 | joining puts one comma between any two parts of a list and nothing else |
| Selection.SelectDecides | kernel/src/main.cpp:243-307 | the chosen engine is the first that meets all six constraints, spelled out; a failure names the constraint at which the last candidates were lost |
| Selection.SelectMeaning | kernel/src/main.cpp:243-307 | a choice is the first engine in inventory order that satisfies all constraints together, with a model it lists; a failure names the first stage whose cumulative filter is empty |
| Selection.Narrow | kernel/src/main.cpp:249-300 | one in-place filter keeps, in order, what passes all stages so far |
| Selection.SelectEngine | kernel/src/main.cpp:243-307 | the chain of filters with its early exits computes that choice |
| BigEndian.DecodeEncode | kernel/src/protocol.cpp:80-115 | decoding a big-endian field gives back every value that fits it |
| BigEndian.EncodeDecode | kernel/src/protocol.cpp:80-115 | encoding a decoded field gives back its bytes |
| BigEndian.GetU16IsBigEndian | kernel/src/protocol.cpp:80-82 | the 16-bit shift expression is the positional value |
| BigEndian.GetU32IsBigEndian | kernel/src/protocol.cpp:84-88 | the 32-bit shift expression is the positional value |
| BigEndian.GetU64 | kernel/src/protocol.cpp:90-96 | the accumulating loop computes the positional value |
| BigEndian.PutU16 | kernel/src/protocol.cpp:98-101 | writes the two bytes at their place and no other |
| BigEndian.PutU32 | kernel/src/protocol.cpp:103-108 | writes the four bytes at their place and no other |
| BigEndian.PutU64 | kernel/src/protocol.cpp:110-115 | the loop from the last byte writes the eight bytes at their place and no other |
| Codec.EncodeMetadataLoop | kernel/src/protocol.cpp:117-130 | writes one line per entry, or refuses if any entry is invalid |
| Codec.DecodeMetadataLoop | kernel/src/protocol.cpp:132-149 | reads line by line, skipping empty ones, first value of a key winning, refusing a line without a key |
| Codec.MetadataRoundTrip | kernel/src/protocol.cpp:117-149 | encoding succeeds exactly for valid maps, and decoding undoes it in every order of entries |
| Codec.EncodeFrameBuffer | kernel/src/protocol.cpp:303-325 | the field-by-field buffer is header, metadata and payload, or a refusal |
| Codec.ReadFrame | kernel/src/protocol.cpp:273-301 | three exact reads yield the frame, the error, or the end of the stream |
| Codec.ParseEncoded | kernel/src/protocol.cpp:273-325 | every encoded frame is read back whole, and what follows is left alone |
| Codec.ParsePrefix | kernel/src/protocol.cpp:227-251 | a proper prefix of an encoded frame is neither a frame nor an error |
| WireFormat.HeaderLayout | kernel/src/protocol.cpp:303-325 | where each header field stands, and that it is big-endian |
| WireFormat.ParseMeaning | kernel/src/protocol.cpp:273-301 | any bytes are incomplete, refused for the first thing wrong, or exactly the encoding of the frame that is read, with the rest left alone |
| WireFormat.KernelLines | kernel/src/protocol.cpp:132-149 | any metadata text is read line by line: empty lines count for nothing, a line without a key refuses all, the first value of a key decides |
| Reader.TurnMeaning | kernel/src/protocol.cpp:152-271 | what one turn reports and leaves in the buffer, whatever is in the pipe |
| Reader.IncrementalFrameReader.ReadAvailable | kernel/src/protocol.cpp:152-271 | one turn: bounded filling, end of file first, then at most one frame |
| Reader.FillMeaning | kernel/src/protocol.cpp:197-206 | the per-chunk check is one bound on what the buffer would hold |
| Reader.ExactDelivery | kernel/src/protocol.cpp:152-271 | for every split into chunks and turns the session delivers a prefix of the written frames and keeps the rest, and fails exactly when the count of bytes per turn and of frame lengths exceeds the buffer |
| Reader.FullDelivery | kernel/src/protocol.cpp:152-271 | when the backlog fits, every frame is delivered in order and once |
| Reader.SameAsBlocking | kernel/src/protocol.cpp:152-301 | the incremental reader delivers what repeated blocking reads deliver |
| Reader.OneFrameFits | kernel/src/protocol.cpp:154-156 | a single legal frame, even the largest, never trips the bound, however it is cut |
| Reader.BurstTripsTheBound | kernel/src/protocol.cpp:197-201 | a burst of 28-byte frames with successive correlation ids, read by this reader alone, does |
| Reader.FrameBeforeClose | kernel/src/protocol.cpp:208-213 | a frame before a close is delivered exactly when the bytes left in the pipe are a positive multiple of the read budget |
| Reader.TinyFrameIsLost | kernel/src/protocol.cpp:208-213 | a complete frame of 28 bytes in a closed pipe is lost |
| Utf8.StringRoundTrip | madre-kernel-client/src/main/java/io/github/didacll/madre/kernel/client/Protocol.java:114-130 | a Java string survives UTF-8 exactly when it has no unpaired surrogate |
| Utf8.BytesRoundTrip | madre-kernel-client/src/main/java/io/github/didacll/madre/kernel/client/Protocol.java:114-130 | bytes survive a Java string exactly when they are well-formed UTF-8 |
| JavaCodec.JEncodeMetadataLoop | madre-kernel-client/src/main/java/io/github/didacll/madre/kernel/client/Protocol.java:114-126 | writes one line per entry in UTF-8, or refuses blank keys and line breaks |
| JavaCodec.JDecodeMetadataLoop | madre-kernel-client/src/main/java/io/github/didacll/madre/kernel/client/Protocol.java:128-142 | splits the decoded text into lines, last value of a key winning |
| JavaCodec.JWrite | madre-kernel-client/src/main/java/io/github/didacll/madre/kernel/client/Protocol.java:66-84 | writes header, metadata and payload with the type and correlation cut to their fields, or refuses |
| JavaCodec.JRead | madre-kernel-client/src/main/java/io/github/didacll/madre/kernel/client/Protocol.java:86-112 | reads header, metadata and payload with signed length checks |
| WireFormat.ClientLines | madre-kernel-client/src/main/java/io/github/didacll/madre/kernel/client/Protocol.java:128-142 | the client reads any metadata text line by line as well, but the last value of a key decides |
| WireFormat.SameFraming | madre-kernel-client/src/main/java/io/github/didacll/madre/kernel/client/Protocol.java:86-112 | on any bytes both decoders agree about what is complete, about wrong headers and about everything in a frame but its metadata |
| WireFormat.AcceptedEntries | madre-kernel-client/src/main/java/io/github/didacll/madre/kernel/client/Protocol.java:114-126 | which keys and values the two encoders accept, character by character |
| WireFormat.AcceptedFrames | madre-kernel-client/src/main/java/io/github/didacll/madre/kernel/client/Protocol.java:66-84 | both encoders accept metadata and payloads of up to 1 MiB each, that size included, and refuse more |
| WireFormat.EncodedSamples | madre-kernel-client/src/main/java/io/github/didacll/madre/kernel/client/Protocol.java:125 | a character of each length has its UTF-8 bytes |
| JavaCodec.SameHeaderChecks | madre-kernel-client/src/main/java/io/github/didacll/madre/kernel/client/Protocol.java:100-105 | the client's signed checks refuse exactly the headers that the Kernel's unsigned checks refuse, for the same reason |
| CodecAgreement.KernelToClient | madre-kernel-client/src/main/java/io/github/didacll/madre/kernel/client/Protocol.java:86-142 | the client decodes every frame the Kernel encodes; the two mean the same exactly when the metadata is well-formed UTF-8 |
| CodecAgreement.ClientToKernel | madre-kernel-client/src/main/java/io/github/didacll/madre/kernel/client/Protocol.java:66-126 | the Kernel decodes every frame the client encodes; the two mean the same exactly when the type fits 16 bits and no surrogate is unpaired |
| Identifiers.StoredListIsExact | kernel/src/store.cpp:44-46 | joined, stored and split again, a list of identifiers is unchanged exactly when it has no NUL |
| Identifiers.IdentifiersArrive | madre-kernel-client/src/main/java/io/github/didacll/madre/kernel/client/WorkRequest.java:73-90 | identifiers accepted by a request arrive at selection as exactly those identifiers if and only if none has a NUL or an unpaired surrogate, whatever other fields the request has; the one condition on the field's own name holds for both fields of the client (`RequestFields`) |
| Identifiers.NulIsCutOff | madre-kernel-client/src/main/java/io/github/didacll/madre/kernel/client/WorkRequest.java:85-90 | an accepted identifier with a NUL inside arrives as its part before the NUL |
| Identifiers.LoneSurrogatesCollide | madre-kernel-client/src/main/java/io/github/didacll/madre/kernel/client/WorkRequest.java:85-90 | two different accepted identifiers of one unpaired surrogate each arrive as the same question mark |
| Identifiers.StagesSeeTheSets | kernel/src/main.cpp:256-273 | the capability and allowlist stages decide by those sets, the empty allowlist being no constraint |
| CommandLine.QuoteArgumentLoop | kernel/src/worker_runtime.cpp:131-156 | the loop with its slash counter computes the quoting |
| CommandLine.WorkerCommandLineLoop | kernel/src/worker_runtime.cpp:158-166 | the loop appends every quoted argument behind one blank |
| CommandLine.ParseQuoted | kernel/src/worker_runtime.cpp:131-156 | the C runtime's parser gives back any quoted argument and stops right behind it |
| CommandLine.ArgumentsRoundTrip | kernel/src/worker_runtime.cpp:158-166 | parsing the printed arguments gives back exactly the list |
| CommandLine.CommandLineRoundTrip | kernel/src/worker_runtime.cpp:158-166 | the whole `argv` comes back if and only if nothing has a NUL and the program name has no quote and, when it has a blank, no final backslash |
| CommandLine.FinalBackslashDoubles | kernel/src/worker_runtime.cpp:131-156 | a program name with a blank and a final backslash comes back with one backslash more |
| CommandLine.QuoteIsLost | kernel/src/worker_runtime.cpp:131-156 | a program name that is a quote comes back as a backslash |
| Verdicts.CallDecides | kernel/src/worker_runtime.cpp:598-841 | every call is decided by the first round in which anything happens, and each kind of happening has exactly one verdict |
| Verdicts.ResponseDecides | kernel/src/worker_runtime.cpp:720-745 | a frame with the call's own id succeeds as RESULT with its payload and fails as FAILURE with its text, keeping the worker; any other frame ends it |
| Supervision.CleanReuse | kernel/src/worker_runtime.cpp:598-841 | a call leaves its worker alive only after sending the whole request and consuming one response with its own correlation id |
| Supervision.ReasonsAreSeen | kernel/src/worker_runtime.cpp:638-818 | a stop, a cancellation or a timeout is reported only after its reason was observed |
| Supervision.OneFrameEach | kernel/src/worker_runtime.cpp:720-840 | the n-th call that a worker survives consumed exactly the n-th frame it wrote |
| Supervision.NoForeignPayload | kernel/src/main.cpp:507-516 | with fresh correlation ids and a worker that answers only ids it received, a success carries the answer to this very call |
| EndToEnd.ResultIsTheAnswer | kernel/src/main.cpp:506-544 | over every run whose workers answer only requests that they were sent, an available result is the payload of a frame that answers, under its own correlation id, the request of the current attempt of the Work, and that request carried the payload submitted under the id of the Work |
| WorkerPoolClass.WorkerProcess.Send | kernel/src/worker_runtime.cpp:637-718 | the writing loop computes how sending ends and how far it came |
| WorkerPoolClass.WorkerProcess.Look | kernel/src/worker_runtime.cpp:720-765 | one look at the pipe ends the call or not, and terminates the worker unless the response is accepted |
| WorkerPoolClass.WorkerProcess.Await | kernel/src/worker_runtime.cpp:748-840 | the reading loop computes how waiting ends |
| WorkerPoolClass.WorkerProcess.Execute | kernel/src/worker_runtime.cpp:598-841 | the supervised call has exactly the modelled ending, on the worker's own reader |
| WorkerPoolClass.WorkerLease.Reset | kernel/src/worker_runtime.cpp:881-887 | gives the worker back, once, and leaves the lease empty |
| WorkerPoolClass.WorkerLease.Adopt | kernel/src/worker_runtime.cpp:862-865 | a move hands the worker over and leaves the other lease empty |
| WorkerPoolClass.WorkerLease.Take | kernel/src/worker_runtime.cpp:867-875 | move assignment gives the old worker back, takes over the other's and empties it; self-assignment changes nothing |
| WorkerPoolClass.WorkerPool.FindUsable | kernel/src/worker_runtime.cpp:936-947 | finds the first idle live worker of the engine in pool order, or none when there is none, and drops only idle dead workers |
| WorkerPoolClass.WorkerPool.Acquire | kernel/src/worker_runtime.cpp:934-957 | leases a worker of the requested engine that nobody else holds, launching one only when no idle live one exists; without a launch configuration or when the launch fails there is no lease and nobody's worker is touched |
| WorkerPoolClass.WorkerPool.Release | kernel/src/worker_runtime.cpp:999-1010 | makes the worker idle again, or drops it when it is dead or already gone from the pool |
| WorkerPoolClass.WorkerPool.ReapIdle | kernel/src/worker_runtime.cpp:974-989 | ends exactly the dead and the expired idle workers, and never one in use |
| WorkerPoolClass.WorkerPool.IsWarm | kernel/src/worker_runtime.cpp:959-972 | answers whether the engine has a live worker, busy or not |
| WorkerPoolClass.WorkerPool.Shutdown | kernel/src/worker_runtime.cpp:991-997 | ends every worker and keeps the leases harmless |

## Left out

- SQLite, its write-ahead log and statement failures: every store method is one atomic step that succeeds. In particular the supervisor's cancel probe does not throw; a throw there would leave a live worker with an unread response.
- Integer overflow of times: `now_ms + retry_delay_ms` (kernel/src/store.cpp:96) and `started_at_ms + timeout` (kernel/src/main.cpp:498) are 64-bit in the source without a bound check; the model's times are unbounded.
- Reading the clock and the store call that uses the reading are one step, and so are a successful reservation and the move of its lease into the scheduler's hands.
- The `Kernel` object itself: its threads interleave, so it is a transition system over its steps rather than a class; the store, resource manager, leases, reader, workers and pool it owns are classes.
- Failures of the file system: a removal that fails is ignored by the program; the model's removals and writes succeed, or the executor's step throws.
- Power loss: only process crashes are modelled, and a file is replaced atomically by renaming.
- Identifiers of Works are fresh (a submission is enabled only for an unused id); their generation is not part of this model.
- HELLO negotiation, engine listing, option parsing, the built-in inventory and the parsing of numbers in a request.
- Pipes, process creation, polling and signals: what they deliver is the script of a call; interrupted reads are not repeated in it, and the Windows peek before a read is the end of a turn.
- The texts of technical failures are a datatype, not bytes; the text of a timeout follows the earlier of timeout and deadline in `System.StopText`.
- The number of replacement characters that Java emits for malformed UTF-8 is not claimed; no result depends on it.
- The sort order of metadata maps and of identifier sets: the encoders take the order as a parameter, and the theorems hold for every order.
- The conversion of a worker's arguments from UTF-8 to UTF-16, and `CommandLineToArgvW`, whose program name rule differs.
- The llama.cpp worker, and what any worker computes: the theorems about payloads assume a worker that writes legal frames and answers only ids it was sent.
