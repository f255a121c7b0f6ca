# Verification of ARTest's protocols and transactions

This project models the parts of the ARTest SDK whose correctness depends on what
happens between steps, and proves what they promise over all runs:

- the request protocol between the Engine's worker supervisor and a Python
  worker: reentrant calls, deadlines, cancellation that crosses results in flight;
- the registration transaction over a catalog directory and three JSON files, and
  the publication of a native build by directory renames, both with a process
  that may be killed before any file-system operation, recovery included;
- the write-ahead deletion of scratch directories;
- the preparation of immutable Python revisions under exceptions and kills;
- the supervision of child processes;
- a driver and a simulator linked by TCP streams that may be cut at any byte;
- the small algorithms below them: length-prefixed framing, Windows argument
  quoting, name comparison, schema projection and decoding, and the invalidation
  of compiled objects.

## How it is written

Code that changes state step by step is a class here, with one method per function
of the source. Where the state has an independent meaning (the protocol, the
transactions) pure step functions over values say what a method does, and lemmas
about them carry the invariants. `Wire*.dfy` give both ends of the protocol as step
functions and compose them over two FIFO channels; `WorkerSupervisor.dfy` and
`WorkerDispatcher.dfy` run the same steps in place and are proved equal to them;
`SupervisorMachine.dfy` is the deterministic machine whose turns the reentrant calls
go through, and `WireExecution.dfy` runs it against the worker's dispatcher.

What an operation reports is also told a second time, from what happened and not from
the state it is read off: `WireAnswers.dfy` keeps a chronicle of a schedule,
`TreeCauses.dfy` and `AdapterCauses.dfy` a story of the events, and the answers and
completions are proved to follow from it. Where a predicate guards an operation, a lemma
named `...Exactly` or `...IsExact` states in elementary terms when it holds.

A killed process is a budget of file-system operations that runs out; an exception
may come before or after the effect of an operation. A rename and the replacement
of a whole file are atomic. Inventories and digests are injective, so an identity
stands for the content it was computed from. Time never goes back, and a
cancellation request that was seen once stays seen. What the surroundings decide
(piece sizes, schedules, failures, answers of the operating system) is either an
argument, a script, or an arbitrary value.

`dafny verify dfyconfig.toml` checks the project.

## What turned out to need a condition

- `retireScratch` writes its intent before the name of the directory is looked at.
  For a directory whose name `resumeRetirement` does not know, the call is refused, the
  intent stays, and it is refused from then on; for a known name the call completes
  (`NativeRetirement.Retention.RetireScratch`).
- A success of a supervised tool comes with all of its output unless the tool held the
  commit token: it is then never stopped for what it prints. A start can end in a
  success with truncated output if and only if it asks for the commit protocol and its
  limit is at least 45 bytes, the least that has room for the token
  (`CommittedOutput.TruncatedExactly`, with the failing run in
  `CommittedOutput.CommittedRun`).
- `decode` validates first and then calls the class. A value for a field declared with
  `init=False`, or a class with a required init-only parameter, passes validation and
  then cannot be constructed (`Schema.InitFalseFails`, `Schema.RequiredInitOnlyFails`);
  decoding succeeds exactly when validation does and neither is the case
  (`Schema.DecodeIsReading`).
- A request to stop the supervisor inside a call, a cyclic service call, a pipe
  failure, an exception in a handler and a worker that ignores cancellation end the
  connection by design; no message ever does
  (`WireGuarantees.EveryMessagePassesItsGuards`).

## Model

| member | source | states |
|---|---|---|
| WireGuarantees.EveryMessagePassesItsGuards | source/ARTestEngine.Process/WorkerSupervisor.cpp:151-207 | in every interleaving of supervisor and worker no received message fails a guard at either end; a CANCEL that crosses its result finds the live call or its unmarked tombstone |
| WireGuarantees.DrainedBetweenCalls | source/ARTestEngine.Process/WorkerSupervisor.cpp:129-143 | when no call is active, both channels, the worker's live calls and its pending services are empty |
| WireGuarantees.NothingOutlivesItsCall | source/ARTestEngine.Process/WorkerSupervisor.cpp:153-170 | every message in flight and every live worker call belongs to a call that is still on the supervisor's stack |
| WireGuarantees.StacksStayDisciplined | source/ARTestEngine.Process/WorkerSupervisor.cpp:68-91 | over all runs: depth at most 16, correlations even and increasing, deadlines never later than the enclosing one, pending results only of active calls |
| WireGuarantees.CancellationIsInnermost | source/ARTestEngine.Process/WorkerSupervisor.cpp:118-126 | at most one CANCEL is in flight, it is the innermost call's, no outer call is cancelled, and after a cancel a handler can put no further request on the wire |
| WireGuarantees.CancelledCallConsumesExactlyOne | source/ARTestEngine.Process/WorkerSupervisor.cpp:129-143 | a cancelled call returns after exactly one terminal reply and exactly one ACK, keeps payload and uncertainty, never reports OK, and leaves no message behind |
| WireCrossing.CancellationCanCrossItsResult | source/ARTestEngine.Process/WorkerSupervisor.cpp:129-143 | a concrete run in which the deadline passes while the result is in flight: the CANCEL finds the tombstone, the ACK is drained, and the call reports the worker's result as timed out |
| WireSystem.StepKeeps | source/ARTestEngine.Process/WorkerSupervisor.cpp:106-209 | every atomic step of either process, of time and of cancellation keeps the invariant that says where control over each nested call is |
| WireSystem.RequestArrives | source/ARTest.Python/artest_host/worker.py:66-73 | a request on its way passes the worker's guards and its call becomes the live, innermost one |
| WireSystem.CancelArrives | source/ARTest.Python/artest_host/worker.py:74-86 | a cancellation of the innermost call is acknowledged whether the call is live or just finished |
| WireSystem.AnswerArrives | source/ARTest.Python/artest_host/worker.py:87-90 | the reply to a service request finds its pending request and its call goes on |
| WireSystem.FinishStep | source/ARTest.Python/artest_host/worker.py:188-198 | only the innermost call can finish; its reply goes out once and its tombstone is there for a cancellation under way |
| WireSystem.CancelledOuterNeverDispatches | source/ARTestEngine.Process/WorkerSupervisor.cpp:65-70 | a nested call is only ever sent when its enclosing call has not been cancelled |
| WireSystem.ReturnKeeps | source/ARTestEngine.Process/WorkerSupervisor.cpp:129-143 | returning a call leaves the enclosing call, or an idle and drained connection |
| WireAnswers.CallAnswers | source/ARTestEngine.Process/WorkerSupervisor.cpp:106-147 | over all schedules, told from the schedule alone: the cancellation of a call goes out exactly when it is late or a probe has fired, once; the call returns exactly when its one reply, and its one ACK if it was cancelled, have been read in time; it then gives the very response its worker finished it with, and a cancelled one keeps that payload and uncertainty, prefixes the diagnostic and says whether the deadline or the probe came |
| WireAnswers.ServiceAnswers | source/ARTestEngine.Process/WorkerSupervisor.cpp:185-206 | over all schedules: a service request is answered with its handler's response if it was let in for device work, and with the interruption and its cause otherwise |
| WireAnswers.RequestsAreLetIn | source/ARTestEngine.Process/WorkerSupervisor.cpp:173-200 | over all schedules: a service request is let in unless its key is already being served further out; it may do device work unless its call was cancelled, late or asked to stop by then, and always if it releases a service |
| WireAnswers.EntryAnswers | source/ARTestEngine.Process/WorkerSupervisor.cpp:60-91 | over all schedules: what a call answers at once, and with which number, deadline and parent its request goes out otherwise |
| WireAnswers.FailureForgets | source/ARTestEngine.Process/WorkerSupervisor.cpp:15-23 | whatever ends the connection inside a call, no result that was not returned is kept |
| WorkerDispatcher.Worker.Accept | source/ARTest.Python/artest_host/worker.py:63-92 | accepting a message in place is the worker's step function, and the connection fails exactly for the messages the source refuses: another generation, a number in use or not increasing, a cancellation or a reply of nothing |
| WorkerDispatcher.Worker.Service | source/ARTest.Python/artest_host/worker.py:102-116 | a service request takes the next odd number and becomes pending for its call |
| WorkerDispatcher.Worker.Finish | source/ARTest.Python/artest_host/worker.py:188-198 | the terminal reply is sent, the call ends, its tombstone remembers a cancellation, and of more than 64 tombstones the oldest goes and all others stay |
| WorkerSupervisor.Supervisor.Call | source/ARTestEngine.Process/WorkerSupervisor.cpp:60-100 | against any worker and handler: a call ends exactly as the deterministic machine that enters it, with the machine's answer, writes and clock; an error is an Abort the machine makes too; the three stacks are restored on every way out and the depth limit changes nothing |
| WorkerSupervisor.Supervisor.Admit | source/ARTestEngine.Process/WorkerSupervisor.cpp:63-75 | what a call answers without dispatching, and the number and deadline it otherwise gets |
| WorkerSupervisor.Supervisor.Pump | source/ARTestEngine.Process/WorkerSupervisor.cpp:106-209 | against any worker and handler: the receive loop goes turn by turn through the machine and returns the answer of the turn that consumed its own result, or throws after the Abort of the machine's turn; the enclosing frames are untouched |
| SupervisorMachine.TurnIsASchedule | source/ARTestEngine.Process/WorkerSupervisor.cpp:113-208 | whatever state worker and channels are in, a turn of the machine is a schedule of the supervisor's steps in the composed system, with the same writes, so what holds over all schedules holds for Call and Pump |
| SupervisorMachine.OneEnd | source/ARTestEngine.Process/WorkerSupervisor.cpp:60-100 | a run of the machine has one end at most, so what an outermost call answers is a function of the state and of what its surroundings did |
| WorkerSupervisor.Supervisor.TopOfLoop | source/ARTestEngine.Process/WorkerSupervisor.cpp:115-143 | one turn's cancellation, grace period and return are the supervisor's step function |
| WorkerSupervisor.Supervisor.Deliver | source/ARTestEngine.Process/WorkerSupervisor.cpp:151-194 | handling one message in place is the supervisor's step function, with the exact condition for each kind of message under which the connection fails or goes on |
| WireExecution.PlayIsARun | source/ARTestEngine.Process/WorkerSupervisor.cpp:60-208 | any interleaving of outermost calls, of the turns Call and Pump go through and of the dispatcher's steps is a run of the composed system |
| WireExecution.CallsPassTheirGuards | source/ARTestEngine.Process/WorkerSupervisor.cpp:151-207 | so the worker accepts every message that Call and Pump write, none of its messages fails a guard of theirs, and after an outermost call both channels, the worker's calls and its services are empty |
| WireExecution.TurnAnswers | source/ARTestEngine.Process/WorkerSupervisor.cpp:106-147 | whenever a turn of Pump returns in an execution, its answer is told from the history of that execution: the worker's own response of that call, or the cancelled one with the cause |
| WireExecution.EntryIsAnswered | source/ARTestEngine.Process/WorkerSupervisor.cpp:63-68 | a call that is not sent is answered at once, a call that is sent not before its turn returns |
| WorkerSupervisor.Supervisor.Serve | source/ARTestEngine.Process/WorkerSupervisor.cpp:185-206 | whatever the handler of a service request does, stacks, service parent and ancestry are afterwards as they were before it, and the machine has come as far |
| WorkerSupervisor.Supervisor.EndService | source/ARTestEngine.Process/WorkerSupervisor.cpp:193-205 | the reply of a service request, interrupted or not, is the supervisor's step function |
| Registration.Transaction.Register | source/ARTestDev/RegistrationStore.cpp:287-333 | with a good candidate and enough operations the registration is committed and the whole disk is given: catalog and files new, the prior catalog kept as this token's backup, a replaced package as its retired one, and every other candidate, backup, retired package, rollback and archive what it was; killed anywhere, then any recoveries killed anywhere: once one completes, that disk, or the one before with the attempt kept aside and not committed |
| Registration.Transaction.RecoverUntilSettled | source/ARTestDev/RegistrationStore.cpp:231-286 | from every disk a kill can leave, any number of killed recoveries keep whether "committed" was journaled and touch nothing of other transactions; the completed one leaves all new exactly then; eleven operations suffice |
| Registration.Transaction.Recover | source/ARTestDev/RegistrationStore.cpp:231-286 | keeps the crash invariant, the commit decision and everything of other transactions at every kill; no tree is lost and no archive overwritten; a disk that validation rejects is refused and left alone, and an orphaned cursor is archived exactly when its rollback was |
| Registration.Transaction.Promote | source/ARTestDev/RegistrationStore.cpp:321-326 | from a staged journal every kill leaves an undoable disk; completed, the new catalog, registrations and mapping are in place and the old catalog is this token's backup; nothing of other transactions changes; it is never refused, and killed only when its operations run out |
| Registration.Transaction.Commit | source/ARTestDev/RegistrationStore.cpp:327-333 | from a promoted disk it is never refused and killed only when its operations run out; completed means that "committed" is journaled, everything is new and the prior catalog is still this token's backup; nothing of other transactions changes; a failing archive step does not undo it |
| Registration.Transaction.Stage | source/ARTestDev/RegistrationStore.cpp:287-320 | catalog and files are untouched; it completes exactly for a candidate that passes every check, unless its operations run out; the journaled plan records the live objects, candidate and retired package are exactly what publishing this package makes of the catalog, and nothing else changes |
| Registration.Transaction.RollBack | source/ARTestDev/RegistrationStore.cpp:258-285 | the steps of a rollback, from wherever the cursor stands, keep the crash invariant at every kill and end with journal and cursor archived |
| Registration.NeverAmbiguous | source/ARTestDev/RegistrationStore.cpp:198-230 | validation never refuses a disk that a kill can leave |
| Registration.ValidationIsExact | source/ARTestDev/RegistrationStore.cpp:198-230 | what validation accepts, phase by phase, in terms of which trees stand where and what the three files hold, in both directions |
| Registration.NextTreeIsMinimal | source/ARTestDev/RegistrationStore.cpp:299-310 | publishing changes no other package and keeps every extension identity unique |
| Registration.StageableMeans | source/ARTestDev/RegistrationStore.cpp:287-313 | the checks of stage, in terms of the packages of the catalog and of what is registered, in both directions |
| Registration.WholeDisk | source/ARTestDev/RegistrationStore.cpp:231-333 | the disk a settled registration leaves, place by place |
| Registration.OnlyThreeFiles | source/ARTestDev/RegistrationStore.cpp:160-165 | the records of the journal determine the three files in both directions, absence included |
| Registration.PutPrevious | source/ARTestDev/RegistrationStore.cpp:166-184 | restoring one file passes its check and keeps the rollback restartable |
| Registration.ArchiveMoves | source/ARTestDev/RegistrationStore.cpp:277-285 | archiving journal then cursor leaves a recoverable disk between the two moves |
| NativePublication.Publisher.RecoverUntilSettled | source/ARTestDev/NativeOutputs.cpp:502-583 | from every disk a kill can leave, any killed recoveries keep whether the new tree was installed; the completed one leaves exactly the new tree, or exactly the prior state, and under retention a work directory that is sealed; seven operations suffice |
| NativePublication.Publisher.Recover | source/ARTestDev/NativeOutputs.cpp:502-583 | keeps the crash invariant at every kill and loses no tree; completed, the work directory is sealed under retention; a topology that is not accepted completes nothing and moves no tree |
| NativePublication.Publisher.Promote | source/ARTestDev/NativeOutputs.cpp:352-368 | every kill after the staged journal leaves a recoverable disk and means that fewer than fourteen operations were left; it is never refused for intact trees, and refused with the disk unchanged when the staged build or the current tree is damaged; completed, the new tree is current, the prior one is retired, and under retention the work directory is sealed |
| NativePublication.Publisher.AbandonStaged | source/ARTestDev/NativeOutputs.cpp:520-534 | a staged build that never became the candidate is sealed where it lies before the journal goes; a changed one is refused untouched |
| NativePublication.Publisher.DecideDirection | source/ARTestDev/NativeOutputs.cpp:537-549 | which way recovery goes depends only on whether the candidate was promoted; no tree moves yet |
| NativePublication.Publisher.FinishRollback | source/ARTestDev/NativeOutputs.cpp:550-560 | prior tree back, candidate retired, restartable at every kill; an unexpected topology is refused untouched |
| NativePublication.Publisher.FinishPromotion | source/ARTestDev/NativeOutputs.cpp:561-569 | prior tree retired and never deleted, restartable at every kill; an unexpected topology is refused untouched |
| NativePublication.Publisher.RetireJournal | source/ARTestDev/NativeOutputs.cpp:572-582 | the work directory is accounted for and sealed before the journal goes: at every kill, a missing journal means a sealed directory |
| NativePublication.Conservation | source/ARTestDev/NativeOutputs.cpp:181-188 | on every reachable disk the new tree is in exactly one of its places, and so is the prior one |
| NativePublication.AlwaysAccepted | source/ARTestDev/NativeOutputs.cpp:509-563 | recovery accepts every disk a kill can leave, and its work directory can be sealed |
| NativePublication.AcceptedIsExact | source/ARTestDev/NativeOutputs.cpp:502-570 | which disks recovery accepts, in terms of which tree stands in which place, in both directions |
| NativePublication.PromotionSteps | source/ARTestDev/NativeOutputs.cpp:352-368 | the disks that promote goes through; only the candidate-to-current rename installs the new tree |
| NativeRetirement.Retention.Resume | source/ARTestDev/NativeRetention.cpp:55-100 | an unknown or changed entry prevents any deletion; nothing but recorded entries disappears; exactly as many operations as there are entries, root and journal finish it |
| NativeRetirement.Retention.ResumeUntilDone | source/ARTestDev/NativeRetention.cpp:55-100 | over any number of killed starts the retirement is done if and only if they had enough operations between them, and then exactly that directory is gone |
| NativeRetirement.Retention.RetireScratch | source/ARTestDev/NativeRetention.cpp:101-110 | for "intermediates" and for "work-", "evaluation-" or "validation-" followed by 32 lower-case hexadecimal digits, a directory that matches its seal is removed, just that one, with an operation for each entry and three more; for any other name it is refused with exactly the intent left behind, which is refused from then on |
| NativeRetirement.NamesExactly | source/ARTestDev/NativeRetention.cpp:65 | the known names are "intermediates" and the three prefixes followed by 32 characters out of 0123456789abcdef, and no others |
| NativeRetirement.SafeKeysExactly | source/ARTestDev/NativeRetention.cpp:68-73 | a recorded key is safe exactly if it is a relative path of plain components, none of them ".." and none with a colon or backslash |
| NativeRetirement.AdmissibleIsExact | source/ARTestDev/NativeRetention.cpp:55-81 | an intent is resumed exactly if its name is known, its keys are safe and every entry there is a recorded one with its recorded content, in both directions |
| NativeRetirement.Retention.SealScratch | source/ARTestDev/NativeRetention.cpp:43-46 | refused only when the directory is missing; afterwards the directory verifies, and its payload is what it was |
| NativeRetirement.Retention.DeleteAll | source/ARTestDev/NativeRetention.cpp:78-97 | deletes one entry per operation until the directory is empty; stopped anywhere, what is left is a directory tree |
| NativeRetirement.Retention.LongestFirst | source/ARTestDev/NativeRetention.cpp:82-83 | the keys, once each, in order of falling length |
| NativeRetirement.DescendantsGoFirst | source/ARTestDev/NativeRetention.cpp:82-89 | in that order every directory is empty when its turn comes |
| NativeRetirement.RestIsListing | source/ARTestDev/NativeRetention.cpp:84-97 | after any number of deletions no remaining entry has lost a parent |
| NativeRetirement.SealingVerifies | source/ARTestDev/NativeRetention.cpp:43-54 | a sealed directory passes verification and its keys pass the checks of retirement |
| Preparation.Preparer.Prepare | source/ARTest.Python/tools/project.py:1618-1747 | under every exception and kill: a partial revision has a marker in work/, the selected revision is complete and was fully validated, nothing that was there is touched and nothing but this run's own is added, and a killed run does nothing more; completed, the disk is exactly the one before with this revision selected and, if it is new, built from what the tool made; without a fault it completes exactly when the selection is readable, the inputs hold still, the tool verifies and what it built is whole, and otherwise leaves the attempt preserved and no work behind; leftovers, an unreadable selection and a held lock stop it |
| Preparation.Preparer.PrepareRepeatedly | source/ARTest.Python/tools/project.py:1618-1747 | over any runs with any faults no revision is ever moved or rebuilt by a later run; the selection is always the one found or that of some run, never from before the last run that completed; undisturbed runs all complete; under a lock that nobody removes all of them fail and change nothing |
| Preparation.ValidExactly | source/ARTest.Python/tools/project.py:1330-1438 | a valid revision is determined by its package: a launcher environment for it, the association of its extension with this identity, this identity's metadata, and nothing else |
| Preparation.Preparer.Fresh | source/ARTest.Python/tools/project.py:1657-1725 | at every point of the fresh path all that exists is the run's own directory with its marker |
| Preparation.Preparer.Finish | source/ARTest.Python/tools/project.py:1713-1726 | the marker goes only after full validation, the selection changes only after the marker is gone |
| Preparation.Preparer.Reuse | source/ARTest.Python/tools/project.py:1641-1655 | an existing revision is selected only after full validation and is not changed |
| Preparation.Preparer.PublishReady | source/ARTest.Python/tools/project.py:1573-1586 | the selection becomes this identity or stays; a failure leaves at most a candidate in work/ |
| Preparation.Preparer.ValidateReadySelection | source/ARTest.Python/tools/project.py:1534-1561 | changes nothing and passes only a selection whose revision is complete |
| Preparation.Preparer.HandleFailure | source/ARTest.Python/tools/project.py:1731-1741 | interrupted anywhere, the attempt is afterwards out of revisions/, complete, or still marked; undisturbed, work/ is empty |
| Preparation.Preparer.PreserveFailedAttempt | source/ARTest.Python/tools/project.py:1589-1608 | the attempt is kept, in place or under a new name; reported as preserved only when it has left revisions/ with its failure recorded |
| Preparation.Preparer.AcquireLock | source/ARTest.Python/tools/project.py:1493-1519 | taken only when free; nothing but the lock changes |
| Preparation.Preparer.ReleaseLock | source/ARTest.Python/tools/project.py:1522-1531 | only the holder's own lock is removed |
| Preparation.AttemptIsDurable | source/ARTest.Python/tools/project.py:1657-1725 | at every point of a fresh preparation, whether it is killed there or throws, the durable invariant holds |
| TcpEffects.TcpVoltageDriver.Session | examples/ARTestTcpHello/TcpVoltageDriver.h:65-117 | with the streams cut anywhere: the server's journal is the successful applies in order, plus at most one indeterminate apply; a plain failure was never applied, nothing is replayed, reads return the last confirmed voltage, the server never rejects a request; over a link that loses nothing, in whatever pieces it delivers, every read and every apply in range succeeds and the journal is what was asked for |
| TcpEffects.TcpVoltageDriver.Exchange | examples/ARTestTcpHello/TcpVoltageDriver.h:23-63 | takes the next number; connected afterwards exactly on success, which confirms this request's effect; an answer after the budget is no success; a failed apply is indeterminate exactly when a byte of it was sent; over a link that loses nothing it succeeds |
| TcpEffects.TcpVoltageDriver.Invoke | examples/ARTestTcpHello/TcpVoltageDriver.h:65-77 | values that are not finite or not in 0 to 60 V are refused without being sent |
| TcpEffects.TcpVoltageDriver.Initialize | examples/ARTestTcpHello/TcpVoltageDriver.h:93-101 | connects and introduces the client, or leaves nothing connected |
| TcpEffects.TcpVoltageDriver.Shutdown | examples/ARTestTcpHello/TcpVoltageDriver.h:103-117 | leaves the driver disconnected and no new effect in doubt |
| TcpEffects.TcpVoltageDriver.Send | examples/ARTestTcpHello/tcp/Transport.h:135-147 | bytes go out in order; whether any may have been sent is reported exactly; over a link that takes something each time all of them go out |
| TcpEffects.TcpVoltageDriver.Receive | examples/ARTestTcpHello/tcp/Transport.h:149-177 | one line within 1024 bytes, nothing after it, only bytes the server sent; over a link that loses nothing the whole answer, in whatever pieces it comes |
| TcpEffects.Simulator.Turn | examples/ARTestTcpHello/simulator/Server.h:131-195 | any turn of the event loop, with any piece sizes, drops and delays, keeps journal, numbering and channel in agreement |
| TcpEffects.TakeServes | examples/ARTestTcpHello/simulator/Server.h:152-170 | whatever piece of a request arrives, the server waits for the rest or processes exactly that request; pipelining, sequence and length are never at fault |
| TcpEffects.RequestsAnswered | examples/ARTestTcpHello/simulator/Server.h:152-181 | which whole requests the server serves, what it keeps afterwards, and otherwise the first reason for dropping the client |
| TcpEffects.OtherInputRefused | examples/ARTestTcpHello/simulator/Server.h:152-162 | input that is not one whole request is waited for, or refused as too long, pipelined or malformed |
| TcpEffects.ExecuteServes | examples/ARTestTcpHello/simulator/Server.h:168-181 | processing the request adds one journal entry for an apply and none otherwise |
| TcpEffects.CalmStep | examples/ARTestTcpHello/simulator/Server.h:131-195 | over a link that loses nothing, with pieces of any size, request and answer are the only bytes anywhere, in order, and each turn that can move some of them brings the answer nearer |
| TcpEffects.JournalIsAccounted | examples/ARTestTcpHello/simulator/Server.h:172-179 | at any later time the journal is the confirmed effects plus at most the last, doubtful one |
| Framing.PipeChannel.Read | source/ARTestEngine.Process/PipeChannel.cpp:49-75 | in whatever pieces, time-outs and cuts the bytes come, one read ends as the recursive look at header and body says, with input, pipe and script left as it says |
| Framing.FrameArrives | source/ARTestEngine.Process/PipeChannel.cpp:49-75 | when a frame is next, a read returns it, parsed or as unparsable, if and only if the transfers bring its bytes first; nothing of the next frame is taken |
| Framing.InvalidExactly | source/ARTestEngine.Process/PipeChannel.cpp:54-60 | a length is reported invalid if and only if the four header bytes arrive and are out of bounds |
| Framing.LastTransferDecides | source/ARTestEngine.Process/PipeChannel.cpp:27-48 | a read without a frame ends as disconnected exactly if the last transfer it asked for was the end of the pipe, and times out after a passed deadline or when nothing more comes |
| Framing.LookKeeps | source/ARTestEngine.Process/PipeChannel.cpp:49-75 | however a read ends, no byte is lost or reordered: what it consumed and what is left make up what was there |
| Framing.FrameOrExpiry | source/ARTestEngine.Process/PipeChannel.cpp:49-75 | over a pipe that is not cut a read returns the next frame or uses up a time-out |
| Framing.PipeChannel.ReadAll | source/ARTestEngine.Process/PipeChannel.cpp:49-75 | repeated reads return the written frames in order and leave exactly the rest; over a pipe that is not cut, with a call for each frame and each time-out, they return all of them and leave nothing |
| Framing.PipeChannel.Write | source/ARTestEngine.Process/PipeChannel.cpp:86-93 | writes the encoded frame exactly when the body is in bounds and the pipe takes it all; otherwise a proper prefix, and nothing for a body out of bounds |
| Framing.PipeChannel.WriteBytes | source/ARTestEngine.Process/PipeChannel.cpp:76-85 | succeeds exactly when the pipe takes all the bytes before a time-out or cut; it gets a prefix of them otherwise |
| Framing.Transport.Receive | source/ARTest.Python/artest_host/transport.py:55-62 | the worker's reader decodes what the engine's writer encodes |
| Framing.Transport.ReceiveAll | source/ARTest.Python/artest_host/transport.py:44-62 | reading until the pipe ends returns exactly the frames written |
| Framing.Transport.Send | source/ARTest.Python/artest_host/transport.py:33-42 | succeeds exactly for a body within bounds that the pipe takes whole; otherwise the pipe has as much of the frame as it took, and nothing of a body out of bounds |
| Framing.LengthRoundTrip | source/ARTestEngine.Process/PipeChannel.cpp:89-90 | decoding the four length bytes of a number gives the number |
| Framing.ValueRoundTrip | source/ARTestEngine.Process/PipeChannel.cpp:56-58 | encoding the value of four bytes gives the bytes |
| Framing.FirstFrameIsUnique | source/ARTestEngine.Process/PipeChannel.cpp:54-68 | a stream begins with at most one frame |
| Quoting.TailReadsBack | source/ARTestEngine.Process/WorkerLaunch.cpp:140-142 | parsing the space-joined quoted arguments by Microsoft's rules gives the arguments back, for all strings |
| Quoting.QuotedReadsBack | source/ARTestDev/TreeProcess.cpp:13-23 | a quoted argument is read as one argument, whatever it contains |
| Quoting.QuoteForWorker | source/ARTestEngine.Process/WorkerLaunch.cpp:31-45 | the counting loop computes the quotation that reads back |
| Quoting.QuoteForTree | source/ARTestDev/TreeProcess.cpp:13-23 | the other loop computes the same quotation |
| Quoting.TreeCommand | source/ARTestDev/TreeProcess.cpp:93-94 | after the program name the command line parses to exactly the arguments |
| Quoting.WorkerCommand | source/ARTestEngine.Process/WorkerLaunch.cpp:140-142 | after the program name the command line parses to the arguments and the bootstrap option |
| NameSimilarity.Compare | source/ARTestDev/Presentation.cpp:172-186 | the two-index loop decides: names of six or more code points are accepted exactly within one edit of the recursive distance, shorter ones only when equal, empty ones never |
| NameSimilarity.ExpectedIsSymmetric | source/ARTestDev/Presentation.cpp:172-186 | the comparison does not depend on the order of the names |
| NameSimilarity.DifferentHeads | source/ARTestDev/Presentation.cpp:180-182 | at the first difference the lengths tell the only edit that can do |
| NameSimilarity.DistanceIsSymmetric | source/ARTestDev/Presentation.cpp:172-186 | the recursive distance is symmetric |
| Schema.DecodeIsReading | source/ARTest.Python/artest_sdk/schema.py:61-67 | decoding succeeds if and only if validation does and no value goes to a field its constructor does not take and no constructor asks for more; it fails with validation's error, and its result is the one reading of the value: types, bounds and defaults hold in every field |
| Schema.DecodesIffValid | source/ARTest.Python/artest_sdk/schema.py:61-67 | when every listed field is a constructor parameter and no other is required, decoding succeeds if and only if validation does |
| Schema.DecodedWasConstructible | source/ARTest.Python/artest_sdk/schema.py:61-67 | the condition on constructors is needed at every depth: what decodes met it |
| Schema.InitFalseFails | source/ARTest.Python/artest_sdk/schema.py:61-67 | a value for a field declared with init=False passes validation and cannot be decoded |
| Schema.RequiredInitOnlyFails | source/ARTest.Python/artest_sdk/schema.py:61-67 | a dataclass with a required init-only parameter validates and cannot be decoded |
| Schema.ValidDecodes | source/ARTest.Python/artest_sdk/schema.py:61-67 | after the outer validation no re-validation of a child fails, and no construction does that its constructor allows |
| Schema.ReadableIsValid | source/ARTest.Python/artest_sdk/schema.py:39-59 | every value that can be read as the type passes validation |
| Schema.ReadingIsUnique | source/ARTest.Python/artest_sdk/schema.py:61-67 | a value has at most one reading |
| Schema.FieldIsStricter | source/ARTest.Python/artest_sdk/schema.py:24-30 | a field's schema accepts what its type's accepts, within the field's own bounds |
| Schema.DefaultIsTyped | source/ARTest.Python/artest_sdk/schema.py:31-33 | an accepted default has the field's type and bounds |
| Schema.RecordValid | source/ARTest.Python/artest_sdk/schema.py:50-56 | a dict is valid exactly when every field without default is there and every entry is a known field's valid value |
| Schema.LeafErrors | source/ARTest.Python/artest_sdk/schema.py:39-49 | how a primitive is checked, with the first error: the type, the 64 bits of an integer, a finite float, the bounds |
| Schema.FirstEntryError | source/ARTest.Python/artest_sdk/schema.py:50-56 | the error of an object is that of its first unknown or invalid entry |
| Schema.FirstItemError | source/ARTest.Python/artest_sdk/schema.py:57-59 | the error of an array is that of its first invalid item |
| Schema.ContainerErrors | source/ARTest.Python/artest_sdk/schema.py:40-59 | a wrong container is a type error, and a missing name comes before any entry |
| Schema.ProjectsExactly | source/ARTest.Python/artest_sdk/schema.py:13-37 | a declaration has a schema if and only if it is supported throughout, bounds only numbers, has no factories and only defaults of its own type within its bounds, and nests at most 32 types |
| Schema.Shallower | source/ARTest.Python/artest_sdk/schema.py:13-25 | a type projected inside another projects alike on its own |
| Schema.BuildSchema | source/ARTest.Python/artest_sdk/schema.py:13-37 | the loop over the fields builds the schema of the recursive definition, same errors first |
| Schema.Check | source/ARTest.Python/artest_sdk/schema.py:39-59 | the loops over names, entries and items report the first error of the recursive definition |
| TreeSupervision.TreeGuarantee | source/ARTestDev/TreeProcess.cpp:139-200 | over all events: one entry of signals per accepted start, in order, each what one start may emit (completed at most once, settled only after an unconfirmed completion, every other completion of a launched job with the job over and its output drained, success with all of it read unless committed), all but the last ended, the last in step with the object; no job is both committing and terminated |
| TreeCauses.EndsAsItHappened | source/ARTestDev/TreeProcess.cpp:139-200 | over all events, told from the events alone: a start that nothing stopped ends as success exactly when the root exited with 0 and as failed otherwise; a stopped one ends with what stopped it first, a cancel event, a passed deadline, output over the limit or processes left behind; unconfirmed only after the grace period |
| TreeCauses.TickTells | source/ARTestDev/TreeProcess.cpp:147-193 | what one tick reports and what it stops follows from what the tick met and from when the start and the stop were |
| CommittedOutput.TruncatedExactly | source/ARTestDev/TreeProcess.cpp:150-171 | after any events, a start can end as a success with less output than was read if and only if it uses the commit protocol and its limit is 45 or more |
| CommittedOutput.CommittedRun | source/ARTestDev/TreeProcess.cpp:150-181 | whatever a job prints after its announcement, a start that has room for the token has a run that ends as a success with the beginning of that output |
| CommittedOutput.TokenWasOut | source/ARTestDev/TreeProcess.cpp:155-171 | the other direction: in any run, a truncated success means that this start asked for the protocol and had room for the token |
| TreeSupervision.TickKeeps | source/ARTestDev/TreeProcess.cpp:147-193 | after a tick no exit, time-out or slow end goes unnoticed, and a job given the commit token is never terminated |
| TreeSupervision.HandshakeKeeps | source/ARTestDev/TreeProcess.cpp:161-171 | the commit token goes out exactly to a waiting root that is alone, in time, with room for output and not being stopped, when it can be written; otherwise a waiting root is stopped |
| TreeSupervision.DrainKeeps | source/ARTestDev/TreeProcess.cpp:150-157 | output is read in order, none of it lost between pipe and record, and more than the limit stops a job that does not hold the commit token |
| TreeSupervision.StopKeeps | source/ARTestDev/TreeProcess.cpp:139-145 | without effect on a committing job; any other job is stopping afterwards and, stopped for any reason but success, ends as no success |
| TreeSupervision.EndKeeps | source/ARTestDev/TreeProcess.cpp:172-181 | an observed end of a drained job leaves the object idle with exactly one more signal, the confirmed completion or the settling of an unconfirmed one, and the completion carries the exit code and the status: of a job not stopped, success exactly for exit 0 and failed otherwise, of a stopped one, the reason |
| TreeSupervision.WatchKeeps | source/ARTestDev/TreeProcess.cpp:181-186 | leftover processes and time-outs stop a job that is not committing |
| TreeSupervision.ReportKeeps | source/ARTestDev/TreeProcess.cpp:187-192 | an unconfirmed end is reported once and supervision goes on |
| TreeSupervision.StartKeeps | source/ARTestDev/TreeProcess.cpp:41-116 | accepted exactly when idle and within the limits; then, and only then, a new entry begins, and the ended one stays |
| TreeSupervision.TreeProcess.Run | source/ARTestDev/TreeProcess.cpp:139-200 | the object that handles any events in place, starting idle, is the state that the theorem is about |
| TreeSupervision.TreeProcess.Tick | source/ARTestDev/TreeProcess.cpp:147-193 | one turn of the timer in place: output, commit token, end, watch and report in the source's order |
| TreeSupervision.TreeProcess.Drain | source/ARTestDev/TreeProcess.cpp:150-157 | the bounded reading loop in place, for any piece sizes |
| AdapterSupervision.AdapterGuarantee | source/ARTestDev/ProcessAdapter.cpp:43-126 | over all events: one entry of signals per accepted start, in order, each what one start may emit (completed at most once, every status but unconfirmed with an ended process, settled only after unconfirmed and an observed exit), all but the last ended, the last in step with the state; output stays within its limit |
| AdapterCauses.EndsAsItHappened | source/ARTestDev/ProcessAdapter.cpp:11-126 | over all events, told from the events alone: a completion as cancelled, timed out or over the limit belongs to a start whose first stop was a cancel, the timer or an overflowing capture, and that first stop gives that status or unconfirmed; an undisturbed end is a success exactly for a normal exit with 0 |
| AdapterCauses.StopWasAsked | source/ARTestDev/ProcessAdapter.cpp:86-99 | a reason to stop comes from the event it stands for: a cancel, the timer, or more output than the limit |
| AdapterSupervision.FinishedKeeps | source/ARTestDev/ProcessAdapter.cpp:57-70 | the end of the child leaves the adapter idle with exactly one more signal: settled after an unconfirmed end, the stop's reason, or success exactly for a normal exit with 0 |
| AdapterSupervision.FinishKeeps | source/ARTestDev/ProcessAdapter.cpp:111-126 | one completion; only an unconfirmed one keeps the child |
| AdapterSupervision.CaptureKeeps | source/ARTestDev/ProcessAdapter.cpp:77-84 | what arrives is appended up to the limit, and more than that stops a running child |
| AdapterSupervision.StoppedKeeps | source/ARTestDev/ProcessAdapter.cpp:86-99 | only a running child is stopped, for that reason; one that has ended completes at once |
| AdapterSupervision.ProcessAdapter.Run | source/ARTestDev/ProcessAdapter.cpp:43-126 | the object that handles any events in place, starting idle, is the state that the theorem is about |
| AdapterSupervision.ProcessAdapter.OnCleanup | source/ARTestDev/ProcessAdapter.cpp:12-19 | when the grace period ends, a child that has ended completes for the stop's reason and a live one as unconfirmed |
| AdapterSupervision.ProcessAdapter.Capture | source/ARTestDev/ProcessAdapter.cpp:77-84 | the capture in place, with the stop it may lead to |
| Invalidation.KeptIsUpToDate | source/ARTestDev/NativeOutputs.cpp:278-304 | a kept object's batch root is unaffected, and so is its mapped source compiled alone |
| Invalidation.StaleIsLost | source/ARTestDev/NativeOutputs.cpp:241-248 | an object is deleted when a changed file was read under its batch's root or under its own source's |
| Invalidation.LosesExactly | source/ARTestDev/NativeOutputs.cpp:278-304 | what a batch loses, in both directions, in terms of affected roots, its sources and the lines of the object map |
| Invalidation.AffectedExactly | source/ARTestDev/NativeOutputs.cpp:241-248 | a root is affected if and only if a changed file is among its sources or was read after the root was named and before another was |
| Invalidation.WrittenExactly | source/ARTestDev/NativeOutputs.cpp:272-277 | an output belongs to the root named last before it in the write trace, or to the last root of the read trace, and to no other |
| Invalidation.UsableExactly | source/ARTestDev/NativeOutputs.cpp:256-271 | the object map is usable if and only if every line maps another ".OBJ" below the cache to another source |
| Invalidation.Cache.InvalidateObjects | source/ARTestDev/NativeOutputs.cpp:230-306 | every deleted file lies in the cache and would also go if every output of a hit batch went; on completion exactly the lost outputs are gone, and every written output that is still there is up to date for every tool and root that wrote it; refused exactly when a lost output is outside the cache or held open |
| Invalidation.Cache.InvalidateBatch | source/ARTestDev/NativeOutputs.cpp:278-304 | the loops over sources and outputs delete exactly what the batch loses, and are refused exactly when a lost output is outside the cache or held open |
| Invalidation.Cache.AffectedRoots | source/ARTestDev/NativeOutputs.cpp:241-248 | the affected roots are those under which a changed file appears, and the root in force after the last line is returned |
| Invalidation.Cache.ChangedFiles | source/ARTestDev/NativeOutputs.cpp:236-240 | the changed files are those whose recorded content differs, new and missing ones included |
| Invalidation.Cache.ReadItems | source/ARTestDev/NativeOutputs.cpp:256-271 | the object map is usable only if every line is a new object inside the cache of a new source |

## Left out

- Threads: the supervisor is used by its owner thread only; the worker's reader thread hands messages over in order.
- Several service requests at once from one worker call: the tombstone guarantee rests on a call awaiting each of them.
- The start-up handshake, the STOP exchange and the exit of the worker process; connection generations are given.
- Slots and event handlers that call back into the object that signals them, and the counter of dropped events.
- What dispatch does with instances and components: its result is an arbitrary response.
- Shape, size and path checks of journals and JSON documents beyond what decides a branch, and reparse points.
- Leftover temporary files of an interrupted whole-file replacement: replacement is atomic here.
- The environment mapping that stage writes into a scratch directory for validation, and the roots of the configuration.
- The publication journal in phase "building": recovery refuses it and the crash model starts at "staged".
- checkState and the locks of the two native operations: no other writer interferes while an operation runs.
- The second look at the directory identity in retireScratch: nothing replaces the directory in between.
- The creation of the preparation directories and their check for unknown files; a stale lock is removed by a person, markers are not.
- The package tool, the interpreter probe and the digests of preparation: they answer with arbitrary values.
- The configuration checks of Initialize, status codes and messages of driver failures, socket options and the time budget's arithmetic: any wait may end in failure.
- Several clients of the simulator at once, a second Initialize of one driver, and a failing journal write.
- Protobuf, JSON and UTF conversions: serialising and parsing are inverse.
- The program name in a command line, which Windows parses by other rules, and embedded NUL characters.
- Case folding, normalisation and filtering of names before they are compared.
- Bounds and defaults that are not numbers or JSON values; the path in validation errors.
- Dataclasses whose own `__init__` or `__post_init__` raises: construction checks nothing but its arguments.
- The durations of the adapter's two timers: each may fire at any moment while it is armed.
- Destruction of a supervisor while its process runs, process auditing, and the identification of the telemetry process.
- Path normalisation of traces, the order of batches, and the reading of trace files.
- MSBuild evaluation, dependency inventories, kit inspection, the Engine core, the C++ SDK and all user interface.
