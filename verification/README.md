# Verified model of ucx-playground

This project models the four state machines that are written in this repository on top of the UCX
library, and proves what they promise. UCX itself appears only through the contract of its calls: a
non-blocking call completes at once, fails, or returns a request whose callback runs exactly once, inside
the call or in a later progress call on the same worker; one progress call may run several callbacks.

- **The re-entrant auto-reset event** (`Events`, `EventHistory`, `EventTheorems`, `EventScripts`,
  `EventWaiters`, `AsyncRuntime`). Any
  number of events, and coroutines with finite scripts of awaits and signals. A signal resumes the waiter
  before it returns, and the resumed coroutine may signal or await any event. `Events` gives the nested
  computation as functions whose termination measure is the script length that is left; `AsyncRuntime` is
  the code's own form, objects whose fields are assigned in order with the resume in between, proved to
  compute the same state. `EventHistory` says on the history alone what is promised; `EventTheorems`
  holds the results over all runs, `EventScripts` that every coroutine performs its script, `EventWaiters` those on coroutines that are lost and on `reset`.
  `EndpointOps` adds who owns the event: `send_stream` and `recv_stream` with their callbacks, where resumed
  code may signal, progress and drop handles to any depth; `EndpointHistory` says what the history of such a
  program must be, and `EndpointRuntime` is the code's own form.
- **The client/server exchange** (`AmSession`, `AmContents`, `AmCounters`, `AmFin`, `AmRuns`,
  `EagerReceive`, `StreamSession`, `StreamRuns`, `Exchange`, `ExchangeResults`, `ScatterGather`, `Server`). `AmSession` and `StreamSession` interleave both processes and the network,
  one action per step of the C code between two points where something else can happen; every theorem is
  about all runs; `AmContents` adds which message each iteration finalises, `AmCounters` what the counters
  count, `AmFin` what becomes of a FIN, and `AmRuns` and `StreamRuns` build runs that reach what the theorems
  speak of. `Exchange` is one process with its heap, its stack object and its open request under all
  allocation failures and all outcomes of the UCX call, and `ExchangeResults` says which of them succeed. `EagerReceive` is the receive loop under any
  batching of callbacks. `Server` is the life of the server with its clean-up.
- **Request memory and the sleep/wake loop** (`RequestPool`, `WakeLoop`).
- **The shutdown barrier** and the address exchange it shares a socket with (`Barrier`).

A wait loop of the C code may never end. Where such a loop is a Dafny loop, a finite schedule says what
each progress call brings; when the schedule ends first the method returns `StillWaiting`. Every finite
prefix of a run is a schedule, so what is proved for all schedules holds at every point of every run.

Some results are that a property fails, with the exact condition under which it holds:

- Every waiter is resumed. An await on an event that is not signalled loses a coroutine if and only if the
  event holds a handle at that moment, and the one lost is that handle's coroutine
  (`EventWaiters.AwaitLosesStoredWaiter`); no later calls bring it back, and only such coroutines are out of
  reach (`EventWaiters.LostIffOrphan`). Two coroutines that await one event before its signal lose the first
  (`EventWaiters.SecondWaiterLosesFirst`). On the history: a suspended coroutine is resumed if and only if its
  event accepts a value before another coroutine suspends on it (`EventTheorems.ResumedIffNotOverwritten`).
- The event resets by itself. One that is signalled while nobody waits stays signalled, with its first value,
  until `reset` is called on it (`EventTheorems.SignalledStaysSignalled`), and a handle does not offer that
  call: a signal on a fresh event is enough (`EventWaiters.FirstSignalSticks`). One that is signalled while a
  coroutine waits does reset (`Events.SetOr`).
- `reset` may be called at any time. Between calls it is harmless; it leads a later `set_or` to a coroutine
  that is not suspended if and only if it hits a signalled event that still holds a stale handle
  (`EventWaiters.ResetMisleadsIff`), as the coroutine does that a `set_or` has just resumed
  (`EventWaiters.ResumedCodeMayMislead`).
- `set_or` finds the shared state of its operation alive. Its first write always does; the second does if and
  only if a handle is left when the resumed code returns (`EndpointOps.SecondWriteAliveIff`), which is always
  so in a callback. User code can lose its last handle inside (`EndpointOps.CarelessStrays`), and a program
  that drops no handle of an operation inside its own `set_or` on it never does (`EndpointOps.CarefulNeverStray`).
- Each iteration finalises its own message. Under eager delivery it does exactly when no progress call runs
  two AM callbacks that count (`EagerReceive.AmReceiver.ReceiveAll`, and for every run of both processes
  `AmContents.FinalisesExactMessages`); two messages in one progress call spoil iteration 0
  (`AmRuns.BurstSpoilsIteration`).
- The client gets the FIN. One that arrives before the client has registered its handler is dropped, and then
  that session never ends (`AmFin.EarlyFinIsFatal`, with the run `AmRuns.FinCanBeDropped`); in every session
  that ended none was dropped (`AmFin.EndedMeansNotDropped`).
- The FIN acknowledges the stream payloads. It does exactly when messages are not empty, or there are none
  (`StreamSession.HonestIffNotEmpty`).
- Exit status 0 of the hello-world program means a passed barrier. It means that the barrier passed, or that
  a send or recv of the address exchange returned 0 although bytes were asked for, and never both
  (`Barrier.ExitZeroExactly`): a peer that closes before the length, or after it and before its address
  (`Barrier.ExitZeroWithoutRun`, `Barrier.ExitZeroAfterLength`).

## Model

| member | source | states |
|---|---|---|
| Events.SetOr | src/async/auto_reset_event.hpp:24-37 | a nested signal terminates and only uses up script; a refused value changes nothing of the event, an accepted one leaves it with the value and without handle, signalled exactly if nobody waited; events signalled when it began are frozen, no event is left signalled with a handle, and no coroutine that was running, finished or not started is touched |
| Events.Run | src/async/auto_reset_event.hpp:60-68 | a coroutine runs until it suspends or ends, however deep its signals nest, and leaves everything around it as a nested call must |
| Events.Park | src/async/auto_reset_event.hpp:61-67 | suspending on an event that is not signalled stores the handle (over an older one) and keeps every stored handle that of a suspended coroutine |
| EventHistory.SetOrTold | src/async/auto_reset_event.hpp:24-37 | across a whole nest the data of every event is the value accepted last, a handle is that of the latest waiter, a refused value changes no data, and the history keeps its promises |
| EventHistory.RunTold | src/async/auto_reset_event.hpp:60-68 | the same for a coroutine that runs, reads and suspends |
| EventTheorems.CallKeeps | src/async/auto_reset_event.hpp:24-39 | every call from outside, a reset included, returns with no event both signalled and holding a handle, nothing left running, finished coroutines unchanged, and signalled events unchanged unless they are the one reset |
| EventTheorems.EveryRunIsSafe | src/async/auto_reset_event.hpp:24-68 | in every run of any number of events and coroutines the invariant, the quiet state between calls and the promises of the history hold, with no assumption on how many coroutines await an event |
| EventTheorems.SignalledStaysSignalled | src/async/auto_reset_event.hpp:24-39 | an event signalled between calls keeps its value and stays signalled through every later call except a reset of that event |
| EventTheorems.SetOrCost | src/async/auto_reset_event.hpp:24-37 | the number of steps of a nest is bounded by the script operations it uses up |
| EventTheorems.RefusedIffHeld | src/async/auto_reset_event.hpp:25-29 | a set_or is refused exactly if the event still holds an earlier value that was not reset |
| EventTheorems.ReadsLatest | src/async/auto_reset_event.hpp:60-68 | every await returns the value its event accepted last, and there was one |
| EventTheorems.NextIsResume | src/async/auto_reset_event.hpp:60-68 | a suspended coroutine does nothing before it is resumed, and is resumed only by an acceptance of the event it waits for |
| EventTheorems.ResumeAnswersOnePark | src/async/auto_reset_event.hpp:32-36 | each resumption answers exactly one suspension, of the same coroutine on the same event, unanswered till then |
| EventTheorems.WaiterIsParked | src/async/auto_reset_event.hpp:32-36 | the latest waiter of an event that has accepted nothing since is still suspended |
| EventTheorems.ResumedIffNotOverwritten | src/async/auto_reset_event.hpp:24-37 | a suspended coroutine is ever resumed if and only if its event accepts a value before another coroutine suspends on it, and then by the first acceptance, at once |
| EventTheorems.FirstSetResumesSoleWaiter | src/async/auto_reset_event.hpp:24-37 | with at most one suspended waiter per event, the first accepted set_or after a suspension resumes it, exactly once |
| EventScripts.RunStopsAtAwaitOrEnd | src/async/auto_reset_event.hpp:60-68 | a coroutine that runs performs its script in order, each signal and each await to be seen in the history, and stops only at the await that suspended it or with the script done; what is left is exactly the rest |
| EventScripts.EveryScriptIsPerformed | src/async/auto_reset_event.hpp:24-68 | in every state of every run, however signals nest, each coroutine has performed exactly the part of its script that is gone, is suspended at the await it performed last, and has ended only if it performed all |
| EventScripts.CallIsPerformed | src/async/auto_reset_event.hpp:24-39 | a started coroutine runs, a signal is accepted or refused at once, and a reset event is not signalled |
| EventWaiters.AwaitLosesStoredWaiter | src/async/auto_reset_event.hpp:61-67 | an await on an unsignalled event takes a coroutine out of reach if and only if the event holds a handle, and then exactly the coroutine of that handle |
| EventWaiters.OrphanForEver | src/async/auto_reset_event.hpp:24-37 | a suspended coroutine whose handle its event does not hold is left as it is by every later sequence of calls, however they nest |
| EventWaiters.LostIffOrphan | src/async/auto_reset_event.hpp:24-37 | between calls, no future resumes a suspended coroutine if and only if its event does not hold its handle |
| EventWaiters.SecondWaiterLosesFirst | src/async/auto_reset_event.hpp:32-36 | two coroutines that await one event before its signal: the second runs to its end, the first stays suspended and lost |
| EventWaiters.FirstSignalSticks | src/async/auto_reset_event.hpp:25-39 | an event signalled while nobody waits keeps that value and refuses the next one, and accepts again after a reset |
| EventWaiters.ResetMisleadsIff | src/async/auto_reset_event.hpp:39 | after a reset a set_or would resume a coroutine that is not suspended on its event if and only if the reset hit that event while it was signalled with a stale handle |
| EventWaiters.ResumedCodeMayMislead | src/async/auto_reset_event.hpp:30-39 | the coroutine a set_or has resumed hits such an event by resetting it |
| AsyncRuntime.Runtime.SetOr | src/async/auto_reset_event.hpp:24-37 | the assignments in the code's order, with the resume between them, compute the specified state |
| AsyncRuntime.Runtime.Resume | src/async/auto_reset_event.hpp:32-33 | resuming the stored handle continues that coroutine with the value just accepted |
| AsyncRuntime.Runtime.RunToSuspension | src/async/auto_reset_event.hpp:60-68 | the loop over a coroutine body computes the specified run |
| AsyncRuntime.Runtime.AwaitEvent | src/async/auto_reset_event.hpp:60-68 | ready without clearing the signal, or suspended with the handle stored |
| EndpointOps.SetOrKeeps | src/async/auto_reset_event.hpp:24-36 | a set_or, with any code nested in it, keeps the ownership invariant, leaves the calls below it on the stack as they were, moves operations only forward, and touches no released state but by its own second write |
| EndpointOps.CallbackKeeps | src/ucp_endpoint.hpp:51-69 | the same for a callback, on success or failure, also inside another callback or inside a set_or on the same operation |
| EndpointOps.RunKeeps | src/ucp_endpoint.hpp:41-73 | the same for any code on the thread, with signals, drops and callbacks nested to any depth |
| EndpointOps.SecondWriteAliveIff | src/async/auto_reset_event.hpp:32-36 | the second write of a set_or finds the shared state alive if and only if a handle is left when the resumed code returns; from a callback it always does |
| EndpointOps.AnyProgram | src/ucp_endpoint.hpp:44-73 | over any program a state is released exactly when its callback has succeeded and no copy is left, and once; one without a successful callback is never released and only user code can have signalled it; a destroyed state is written to exactly if it was destroyed while its own set_or waited |
| EndpointOps.ReleasedOnce | src/async/auto_reset_event.hpp:84 | a released state never comes back and is never released again |
| EndpointOps.CarefulNeverStray | src/async/auto_reset_event.hpp:24-36 | a program that drops no handle of an operation inside its own set_or on that operation never makes a set_or write to a destroyed state |
| EndpointOps.CarelessStrays | src/async/auto_reset_event.hpp:32-36 | from any state there is a program whose set_or writes to a destroyed state: the callback and a drop of the only copy run inside it |
| EndpointHistory.ProgramTold | src/ucp_endpoint.hpp:41-73 | every program does exactly its acts, in order; an act that signals an event with a waiter resumes it at once, the waiter does exactly its own acts before control comes back, and nothing else is resumed |
| EndpointHistory.CompletionSignalsOnce | src/ucp_endpoint.hpp:51-69 | an operation that user code never signals: once it has completed with success its event holds the value if nobody waited, else the waiter was resumed exactly once; while pending, after an error, and when completed at once, neither has happened |
| EndpointHistory.CopiesAsTold | src/ucp_endpoint.hpp:73 | the handle copies are the one the caller got and those made, less those dropped; an event is signalled as the history of signals, completions and resumed waiters says |
| EndpointRuntime.Endpoint.StartOperation | src/ucp_endpoint.hpp:41-73 | the statements of send_stream leave one heap handle, one copy for the caller and no signal, pending or completed at once |
| EndpointRuntime.Endpoint.SetOr | src/async/auto_reset_event.hpp:24-36 | the assignments in the code's order, with the resume between them, compute the specified state |
| EndpointRuntime.Endpoint.Callback | src/ucp_endpoint.hpp:51-69 | the same for the completion callback |
| EndpointRuntime.Endpoint.RunProgram | src/ucp_endpoint.hpp:41-73 | executing any program in place ends with every state released exactly when it should be, and a careful one without a write to a destroyed state |
| AmSession.InvNext | ucp_hello_world/ucp_client_server.c:474-578 | every step of client, server and network keeps the joint invariant over last, complete, the receive buffer, operations in flight and both program counters |
| AmSession.Reachable | ucp_hello_world/ucp_client_server.c:905-950 | the joint invariant holds in every reachable state of every number of sessions |
| AmSession.RendezvousFlowControl | ucp_hello_world/ucp_client_server.c:492-501 | 0 <= complete - last <= 1, and the descriptors confirmed are those of messages 0, 1, 2, ... each once |
| AmRuns.EveryIterationMayBeOvertaken | ucp_hello_world/ucp_client_server.c:544-563 | the bound is tight: for every n and k message k+1 can be counted while iteration k waits for its data |
| AmRuns.SessionsCanComplete | ucp_hello_world/ucp_client_server.c:905-1025 | for every list of protocols, eager or rendezvous, there is a run that carries one session after the other from its start over all iterations and the FIN to the close at the server |
| AmSession.LastNeverAhead | ucp_hello_world/ucp_client_server.c:544-552 | last never exceeds complete, whatever the protocol and the batching |
| AmSession.CountersAgreeBetweenSessions | ucp_hello_world/ucp_client_server.c:990-1025 | last equals complete at every session boundary, and a wait is left only after a message of the same session |
| AmCounters.CountersAreProcessWide | ucp_hello_world/ucp_client_server.c:90-95 | in every run complete is the number of AM callbacks and last the number of waits left, over all sessions of the process |
| AmCounters.BoundaryCounters | ucp_hello_world/ucp_client_server.c:527-552 | at the boundary after s sessions of n messages both counters are s * n |
| AmSession.CallbacksFindLiveBuffers | ucp_hello_world/ucp_client_server.c:474-517 | every AM callback finds recv_buf pointing at the live iov, and no callback touches an activation that has returned |
| AmContents.FinalisesExactMessages | ucp_hello_world/ucp_client_server.c:554-577 | in every run iteration k finalises message k under rendezvous; under eager as long as no progress call has run two AM callbacks, and when the server is through with its iterations if and only if none has |
| AmContents.NoMessageTwice | ucp_hello_world/ucp_client_server.c:554-577 | whatever the batching, the iterations of a session finalise its messages in order and none twice; a buffer nothing was written to may stand between them |
| AmRuns.BurstSpoilsIteration | ucp_hello_world/ucp_client_server.c:474-518 | there is a run of both processes in which one progress call counts two messages and iteration 0 finalises the second |
| AmSession.ClientDoneMeansAllReceived | ucp_hello_world/ucp_client_server.c:932-941 | when the client has the FIN, the server has finished all n iterations of that session |
| AmFin.SecondOperationIffRendezvous | ucp_hello_world/ucp_client_server.c:554-563 | after a wait, for a message or for the FIN, a second receive is posted exactly under rendezvous |
| AmFin.EarlyFinIsFatal | ucp_hello_world/ucp_client_server.c:520-563 | a FIN that is dropped because the client's handler is not registered yet is never made up for: the client does not finish, the server sees no close, and the session does not end |
| AmFin.EndedMeansNotDropped | ucp_hello_world/ucp_client_server.c:932-949 | if the client has finished, or a session has ended, no FIN was dropped |
| AmRuns.FinCanBeDropped | ucp_hello_world/ucp_client_server.c:932-941 | there is a run in which the FIN comes while the client still waits for its send |
| EagerReceive.AmReceiver.AmDataCb | ucp_hello_world/ucp_client_server.c:474-518 | a wrong length changes nothing; otherwise the message is counted and its descriptor kept or its data copied |
| EagerReceive.AmReceiver.WaitForMessage | ucp_hello_world/ucp_client_server.c:547-550 | for messages of any kind and length the loop progresses only while nothing is counted ahead, and ends with the first progress call that counts one, with the flag, descriptor and buffer of the latest; it goes on waiting exactly if no progress call counts any |
| EagerReceive.AmReceiver.ReceiveAll | ucp_hello_world/ucp_client_server.c:544-577 | with n eager messages of the right length among any others of a wrong length, all n iterations finish with last equal to complete, and each finalises its own message if and only if no progress call counts two |
| StreamSession.InvNext | ucp_hello_world/ucp_client_server.c:403-435 | every step of either side keeps the joint invariant: what the server has and what is in the channel is exactly what the client put out, and no FIN byte exists before the server is through |
| StreamSession.ReceivesPayload | ucp_hello_world/ucp_client_server.c:424-434 | a receive that waits for all its bytes ends with exactly the next payload |
| StreamSession.SuccessMeansDelivered | ucp_hello_world/ucp_client_server.c:905-950 | if the client returns 0, the server has finalised exactly the n payloads in order, and the client holds the FIN |
| StreamSession.ReceivedIsPrefix | ucp_hello_world/ucp_client_server.c:403-435 | at any time and with failures on either side the finalised payloads are a prefix of those meant to be sent |
| StreamSession.EmptyFinProvesNothing | ucp_hello_world/ucp_client_server.c:932-939 | with empty messages there is a run in which the client returns 0 and the server has received nothing |
| StreamSession.HonestIffNotEmpty | ucp_hello_world/ucp_client_server.c:905-950 | the acknowledgement is honest on every run if and only if messages are not empty or there are none |
| StreamRuns.SessionCanSucceed | ucp_hello_world/ucp_client_server.c:905-950 | for any payloads there is a run in which both sides return 0 with every payload and the FIN delivered |
| StreamRuns.ReturnsMinusOneIffFailed | ucp_hello_world/ucp_client_server.c:913-949 | on every run a side returns 0 or -1, and it has returned -1 if and only if one of its calls failed |
| Exchange.Process.Free | ucp_hello_world/ucp_client_server.c:103-110 | no block is freed twice or while an operation in flight refers to it; NULL is ignored |
| Exchange.Process.BufferFree | ucp_hello_world/ucp_client_server.c:103-110 | exactly the blocks of the iov array are freed |
| Exchange.Process.BufferMalloc | ucp_hello_world/ucp_client_server.c:112-126 | all buffers are allocated, distinct, or, at the first failure, none is left, relying on the zeroed array |
| Exchange.Process.FillRequestParam | ucp_hello_world/ucp_client_server.c:372-396 | succeeds exactly if every allocation and, at the sender, every fill does, and leaves nothing behind otherwise |
| Exchange.Process.Callback | ucp_hello_world/ucp_client_server.c:143-154 | the completion callback runs once and finds its ctx in scope |
| Exchange.Process.RequestWait | ucp_hello_world/ucp_client_server.c:322-344 | returns with nothing in flight and the request released, also when the callback ran inside the posting call |
| Exchange.Process.RequestFinalize | ucp_hello_world/ucp_client_server.c:346-370 | frees the buffers on success and on failure, and only when nothing is in flight |
| Exchange.Process.SendRecv | ucp_hello_world/ucp_client_server.c:403-578 | in every environment a stream, tag or AM exchange ends as it must, and on every return each block it allocated has been freed exactly once, no request is open and nothing refers to its ctx |
| Exchange.Process.DoWork | ucp_hello_world/ucp_client_server.c:905-950 | the same for all iterations and the FIN: the first exchange that does not succeed decides the result |
| ExchangeResults.ResultIff | ucp_hello_world/ucp_client_server.c:322-370 | on the environment alone: an exchange succeeds, fails or waits for ever exactly as its allocations, fills, arrivals, UCX call, callback and status decide; in particular it fails if the UCX call returns an error, and an eager AM needs no call |
| ExchangeResults.ReadyIff | ucp_hello_world/ucp_client_server.c:372-396 | the buffers are ready exactly if every allocation and, at a sender, every fill succeeds |
| ExchangeResults.Directions | ucp_hello_world/ucp_client_server.c:905-939 | the client sends and the server receives, by the transport chosen |
| ExchangeResults.WorkSucceedsIff | ucp_hello_world/ucp_client_server.c:913-946 | the work succeeds exactly if every iteration does, the client can register for the FIN, the FIN goes through in reverse, and the server sees the close |
| ExchangeResults.WorkFailsIff | ucp_hello_world/ucp_client_server.c:913-946 | it fails exactly if the first iteration that does not succeed fails, or after all of them the registration or the FIN does |
| ExchangeResults.WorkWaitsIff | ucp_hello_world/ucp_client_server.c:913-949 | it waits for ever exactly if the first iteration that does not succeed waits, or after all of them the FIN waits, or the server for the close |
| ScatterGather.ConcatInjective | ucp_hello_world/ucp_client_server.c:509-515 | buffers of the same shape are determined by their concatenation |
| ScatterGather.DescriptorDenotesConcat | ucp_hello_world/ucp_client_server.c:384-392 | what is read through the contiguous or the iov descriptor, each byte looked up by its buffer and index, is the concatenation of the buffers |
| ScatterGather.Scatter | ucp_hello_world/ucp_client_server.c:509-515 | the copy loop stays in bounds, ends with the offset at the message length, and the buffers then hold the message |
| ScatterGather.DeliverEager | ucp_hello_world/ucp_client_server.c:482-515 | scatter undoes gather: a message of the receiver's shape is always taken and each receive buffer ends equal to the matching send buffer; another length is dropped |
| ScatterGather.GenerateTestString | ucp_hello_world/hello_world_util.h:287-303 | the string is A to Z over and over with a final zero byte, and on failure the buffer is unchanged |
| ScatterGather.TestStringLetters | ucp_hello_world/hello_world_util.h:287-303 | it starts with A, each letter is followed by the next and Z by A, and only the last byte is zero |
| Server.ServerProcess.ConnHandleCb | ucp_hello_world/ucp_client_server.c:781-813 | the first request is kept, later ones are rejected |
| Server.ServerProcess.WaitForClient | ucp_hello_world/ucp_client_server.c:995-997 | the wait ends with the first request of the first batch that has one; the rest of that batch is rejected |
| Server.ServerProcess.StartServer | ucp_hello_world/ucp_client_server.c:844-889 | on success the listener is alive, on a failed query it has been destroyed here |
| Server.ServerProcess.ServeOne | ucp_hello_world/ucp_client_server.c:990-1025 | one turn admits the first request, creates an endpoint for it alone, and closes it exactly once before the slot is emptied or the server gives up |
| Server.ServerProcess.RunServer | ucp_hello_world/ucp_client_server.c:952-1035 | its log is the specified one for every environment; it returns exactly on a failure, and then everything created has been destroyed in reverse order; until then worker, listener and at most one endpoint are alive |
| Server.EndsIff | ucp_hello_world/ucp_client_server.c:952-1035 | the server ends exactly if a step of its start fails, or the first client that is not served with success fails, in its endpoint or in its work |
| Server.FirstBatchIsFirst | ucp_hello_world/ucp_client_server.c:995-997 | the wait for a client ends with the first batch of callbacks that has a request |
| Server.BatchIsDelivered | ucp_hello_world/ucp_client_server.c:781-813 | every request of that batch is delivered |
| Server.FirstIsAdmitted | ucp_hello_world/ucp_client_server.c:800-812 | and only the first of them is admitted |
| Server.TurnEndpoints | ucp_hello_world/ucp_client_server.c:1000-1025 | an endpoint is created for the admitted request alone, if it can be, and closed exactly if the work with the client ends |
| Server.ResourcesConserved | ucp_hello_world/ucp_client_server.c:1027-1034 | in every acceptable log what was created is what was destroyed plus what is alive, so nothing is destroyed twice |
| Server.RequestsConserved | ucp_hello_world/ucp_client_server.c:800-812 | every delivered request was admitted or rejected, exactly once |
| Server.OneClientAtATime | ucp_hello_world/ucp_client_server.c:990-1025 | between two endpoint creations the first endpoint is closed, and while one is alive no request is looked at |
| RequestPool.Pool.Allocate | ucp_hello_world/ucp_hello_world.c:99-104 | new or recycled, a block is handed out with a clear flag |
| RequestPool.Pool.Handler | ucp_hello_world/ucp_hello_world.c:106-138 | a handler sets the flag of its own operation's block, once |
| RequestPool.Pool.Post | ucp_hello_world/ucp_hello_world.c:262-267 | a posted operation gets a block no other operation has |
| RequestPool.Pool.UcxWait | ucp_hello_world/ucp_hello_world.c:140-167 | on a real request it returns exactly when that operation's own handler has run, and gives the block back with a clear flag |
| RequestPool.Pool.AnySequence | ucp_hello_world/ucp_hello_world.c:99-167 | over any sequence of posts, handler runs, waits and frees every free block has a clear flag, and blocks and flags give exactly the handlers run and the waits returned that a ledger of operations without blocks and flags gives |
| RequestPool.WaitReturns | ucp_hello_world/ucp_hello_world.c:140-167 | over any commands, a wait on a request returns if its handler ran in the posting call, in a progress call between, or runs in one of the wait's own |
| RequestPool.WaitedWasPosted | ucp_hello_world/ucp_hello_world.c:140-167 | an operation is given back only by a wait on it, after a send that returned a request |
| WakeLoop.Reachable | ucp_hello_world/ucp_hello_world.c:283-307 | under every interleaving of loop and network the invariant of probe queue, events, arming and fd holds |
| WakeLoop.NoLostWakeup | ucp_hello_world/ucp_hello_world.c:169-209 | a client blocked in epoll_wait has an empty probe queue, and if an event is unhandled the fd is readable |
| WakeLoop.QueuedMeansAwake | ucp_hello_world/ucp_hello_world.c:283-307 | with a message in the probe queue the client does not sleep again |
| WakeLoop.ReceivesOnlyConnected | ucp_hello_world/ucp_hello_world.c:283-290 | the loop ends with a message only while the endpoint has not failed |
| WakeLoop.FdClosedOutsidePoll | ucp_hello_world/ucp_hello_world.c:182-205 | the local epoll fd is closed on every way out of the poll |
| WakeLoop.NothingIsLost | ucp_hello_world/ucp_hello_world.c:283-307 | events are those arrived less those handled, every message found is in the queue, and the endpoint has failed exactly if progress once said so |
| WakeLoop.ReadableOnlyWhenArmed | ucp_hello_world/ucp_hello_world.c:189-199 | only an event that arrives while the worker is armed makes the fd readable, and progress disarms it |
| WakeLoop.BlockedUntilReturn | ucp_hello_world/ucp_hello_world.c:196-199 | an interrupted epoll_wait is entered again |
| WakeLoop.PollGoesBack | ucp_hello_world/ucp_hello_world.c:189-209 | a busy arm or a returned epoll_wait closes the fd and goes back to the probe, an error leaves the loop |
| WakeLoop.FailsIffError | ucp_hello_world/ucp_hello_world.c:169-209 | the loop fails by itself exactly if one of its calls returned an error |
| WakeLoop.GoesToSleep | ucp_hello_world/ucp_hello_world.c:291-306 | a client with nothing to do goes to sleep in both sleeping modes, and never in the busy one |
| WakeLoop.SleepsAndReceives | ucp_hello_world/ucp_hello_world.c:283-307 | there is a run in which a sleeping client is woken by a message and receives it |
| Barrier.DecodeEncode | ucp_hello_world/ucp_hello_world.c:605-620 | the address length survives its eight bytes on the wire |
| Barrier.InvNext | ucp_hello_world/ucp_hello_world.c:601-640 | every step of either process keeps the joint invariant of both byte streams |
| Barrier.AddressArrives | ucp_hello_world/ucp_hello_world.c:605-626 | the client runs only with exactly the server's address, and the exchange has then left nothing on the socket |
| Barrier.BarrierMeansPeerEntered | ucp_hello_world/hello_world_util.h:261-285 | the barrier returns 0 only if the peer's run returned 0 and the peer entered its barrier |
| Barrier.ExitZeroExactly | ucp_hello_world/ucp_hello_world.c:601-640 | main returns 0 if and only if the barrier passed or an earlier send or recv of the address exchange returned 0 although bytes were asked for; never both, and in the second case the run was not reached |
| Barrier.ExitZeroWithoutRun | ucp_hello_world/ucp_hello_world.c:605-607 | a client whose peer closes the socket at once exits with 0 |
| Barrier.ExitZeroAfterLength | ucp_hello_world/ucp_hello_world.c:612-614 | every run in which the client waits for the address goes on to one that exits with 0 without run or barrier |
| Barrier.ExitStatusIff | ucp_hello_world/ucp_hello_world.c:601-640 | main returns a status if and only if an earlier call of that process ended it with that one: what send or recv returned when short, the size of the length when malloc fails, the run's own result, or the barrier's |
| Barrier.FlagsAreHistory | ucp_hello_world/ucp_hello_world.c:628-640 | the run returned 0, the barrier was called, and it received its bytes, exactly as the steps of the process say |
| Barrier.BarrierCanPass | ucp_hello_world/hello_world_util.h:261-285 | for every address there is a run in which both processes pass the barrier and exit with 0 |

## Left out

- UCX itself, and its wire behaviour beyond the contracts named above; clocks, sockets, DNS and printing.
- Command-line parsing, address formatting and the CUDA memory types: memory operations are host copies.
- Integer widths: `complete`, `last` and the iteration counter are unbounded; an address is shorter than 2^31 bytes.
- Liveness the code does not give: C++ operations that complete at once never signal.
- `AmSession` has failure-free sessions whose peer sends n messages of the right length, all of one session by one protocol; a failure ends the server process, which `Server` and `Exchange` cover, and a wrong length is covered by `EagerReceive`.
- EagerReceive.AmReceiver.ReceiveAll: models buffers as one value each, because the bytes are the subject of `ScatterGather`.
- The joint state machine of the tag transport: whole messages in place of bytes, with the same argument as for streams; its memory use is in `Exchange`.
- Exchange.Process.SendRecv: abstracts from buffer contents, which `ScatterGather` and the two session models have.
- The exception that the callback of `recv_stream` throws on an error status; the failure modes of the hello-world program, and the blocks it leaks itself.
- `single_use_event`, `ucp_task`, the time-span helpers and the wrappers for context and worker are not modelled.
- Concurrent use of one event by several threads: workers are in single-thread mode, so calls overlap only by re-entrancy.
- A coroutine script that calls `reset` itself, and what a `set_or` does after it was misled: resets come from outside, and `EventWaiters` says which reset would mislead. The constructor argument `initial_signaled`: events start unsignalled, as every handle makes them.
- A coroutine that starts another coroutine from its own body: coroutines are started from outside.
