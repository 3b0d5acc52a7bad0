# Proofs about the self-pipe server and client

A server thread accepts connections and starts one worker thread for each, up to a bound. A client sends a delay and
gets it back one larger after the server has slept that long. Both are stopped by a byte in a pipe that every blocking
`select` watches; nobody reads the byte until all that had to see it are gone. This project models the threads, the
mutex, the condition variables, the flags, the counters, the pipes and the bytes on the connections, and proves what
the protocol is for: no quit and no wakeup is lost, the bound and the descriptors are kept, shutdown terminates,
cancelling a client is complete and leaves nothing behind, and a call that succeeds has its delay increased by one.

## How it is built

| file | what it holds |
|---|---|
| `Bytes.dfy`, `Decimal.dfy` | bytes, the 1024-byte block, `int` width; printing, `strcpy` and `atoi` |
| `Common.dfy` | outcomes of `select`, `read`, `write`; `readMessage`, `writeMessage`, `consumePipe` as loops over arrays |
| `Worker.dfy` | one worker: `runClient` and `sleep`, one system call per step |
| `ServerProtocol.dfy` | the server: acceptor, stopper, any number of workers, their peers, the clock |
| `ServerInvariants.dfy` | what every event of the server keeps |
| `ServerTheorems.dfy` | the guarantees of the server over whole runs |
| `Acceptor.dfy` | what the server thread does with its connections, and what ends its loop |
| `Pool.dfy` | the bounded pool of sessions that the server refines, and that refines it |
| `Shutdown.dfy` | the measure, progress, and the end of a shutdown |
| `Replies.dfy` | when a worker replies |
| `Call.dfy`, `ClientProtocol.dfy`, `ClientInvariants.dfy`, `ClientTheorems.dfy` | the same for the client |
| `ClientStop.dfy` | the measure, progress, and the end of a stop of the client |
| `Measures.dfy` | sums of weights, for both measures |
| `EndToEnd.dfy`, `Answered.dfy` | client and server joined by byte streams, and the contract of `sendDelayToServer` |
| `Success.dfy` | each side of the two together has a run of its own; which calls succeed |
| `ServerObject.dfy`, `ClientObject.dfy` | the two classes with their fields, one method per critical section or system call; valid means in a state that a run reaches |
| `ServerThread.dfy`, `ClientThread.dfy` | `runClient`, `sleep` and `sendDelayToServer` as sequential code over arrays; on the same answers of the kernel it and the protocols come to the same |
| `Scenarios.dfy` | runs that show where the guarantees end |

Every critical section of a mutex is one event, and so is every system call outside of one; what the kernel answers is
part of the event. A run is any sequence of enabled events, and a state is reachable if a run leads to it from the
construction, so a statement about all runs or all reachable states is a statement about all interleavings. A notified
thread and a thread that wakes spuriously both take the lock and evaluate their condition again. `Server::stop` holds
the mutex while it reads the pipe and `Client::stop` does not; both are modelled so.

A timed wait may run out at any moment. The server records, anew in every cycle, `drainExpired` if its thread gives up
waiting for a client, `exitExpired` if `stop` gives up waiting for that thread, and `pipeFault` if a call on the pipe
fails; the client records `expired` for its last stop, and `pipeFault`. A statement says which of these must not have
happened; the table below names the waits only. Of the two waits of the server only the first can lose a quit or leave
a client behind. `Scenarios.QuitCanBeLost`, `Scenarios.StopCanLeaveAClient`, `Scenarios.BothCanBeLate` and
`Scenarios.CallCanSurviveStop` are runs in which the statements fail otherwise.

`select` with something ready answers with exactly the ready set; with nothing ready it blocks, or answers a timeout if
it has one; it may fail at any time, and has to if its timeout is negative. A non-empty `read` delivers any prefix of
what has arrived, at most 1024 bytes. `accept4` returns any descriptor that is not open. Signed `int` results are
taken in 32-bit two's complement; `size_t` counters wrap, and are proved not to.

`readMessage` asks every `read` for a whole block, wherever in the buffer it is to go (`src/common.cpp:59`). A read that
stores bytes behind the buffer is an event like any other: it records `overrun` for its thread, and the bytes behind the
buffer are dropped. What the program does from there on is undefined, so in a run with an overrun the statements are
about the model alone. `Common.BufferHolds` says for which messages that cannot happen however they are cut: exactly
those of at most a block. `ServerTheorems.OnlyLongMessagesOverrun` says the same of the workers, and
`EndToEnd.NobodyOverruns` that this client and this server never do it to each other. The statements that need it are
the bounds on shutdown and stop, and those on the bytes of a reply; `Scenarios.ShutdownCanBeHeldUp` shows why.

Where the code and its comments differ the code is followed. `readMessage` does not put a split message together: it
succeeds only if one `read` delivers 1024 bytes (`src/common.cpp:78-85`, against `src/common.h:50`). A descriptor that
was accepted when quit is raised is not closed (`src/server.cpp:260-264`); it is counted as abandoned. `closeAndNotify`
decreases the counter even when it has just found it 0 (`src/client.cpp:65-70`); it never finds it so. The comments of
`src/client.h` speak of a flag `isRunning_` that the class does not have; the counter takes its place.

## Model

| member | source | states |
|---|---|---|
| Decimal.DecimalRoundTrip | src/client.cpp:152-154 | any 64-bit number, printed and copied over any previous contents of the buffer, parses back to itself |
| Decimal.BytesAfterTerminatorIgnored | src/server.cpp:29 | for any text whatever, bytes behind the terminator do not reach the parsed value |
| Decimal.AtoiReads | src/server.cpp:29 | for every text: blanks, a sign or none, digits and what follows them parse to the number that the digits stand for by their places, with that sign |
| Decimal.PrintsPlainly | src/client.cpp:154 | the text printed has a minus sign exactly for negative numbers, and the digits of the number with no leading zero |
| Decimal.TextFits | src/server.cpp:39 | the text of any 64-bit number takes at most 21 bytes with its terminator |
| Decimal.CopyText | src/client.cpp:154 | the copying loop leaves text, terminator, and the old bytes behind them |
| Common.ReadMessage | src/common.cpp:51-89 | for all answers of `read` the loop returns and leaves in the real buffer what they determine, asks for no more of them, and records an overrun exactly if one of its reads stores behind the buffer |
| Common.WriteMessage | src/common.cpp:91-117 | the stream grows by a prefix of the message, and by all of it exactly if the result is true; it asks for no more writes than that takes |
| Common.ConsumePipe | src/common.cpp:119-144 | ends, and leaves the pipe empty unless a read fails |
| Common.Framing | src/common.cpp:57-86 | for every way to cut one message into reads the loop stays in the buffer and assembles the message, but reports success exactly if the first read delivered all of it, and else reads on until a read delivers nothing |
| Common.FirstReadDecides | src/common.cpp:78-86 | for any reads that stay in the buffer, success is exactly a first read of a whole block |
| Common.BufferHolds | src/common.cpp:59 | every way to cut a peer's bytes into reads stays inside the buffer if and only if they are at most 1024 |
| Common.ByteThenBlockOverruns | src/common.cpp:59 | a byte and then a whole block: the second read stores behind the buffer |
| Common.ShortMessageRefused | src/common.cpp:60-77 | a message that stops short of 1024 bytes is never reported as read |
| Common.WriteLoopDelivers | src/common.cpp:97-114 | for every sequence of partial writes the loop delivers the bytes accepted before the first failing or empty write, and stops at 1024 |
| Worker.WorkerStaysOk | src/server.cpp:78-146 | every system call of a worker, whatever its peer sends, keeps: one close at the end, at most one reply, made after a full sleep; it has overrun exactly if it has read more than a block, and if not its reply has the bytes of the number read plus one |
| Worker.SleepIsExact | src/server.cpp:30 | `sleepingTime * 1000` is exact in an `int` exactly for -2147483..2147483 |
| ServerInvariants.AcceptorKeepsControl | src/server.cpp:242-343 | each step of the acceptor keeps the bound, the flags, the quit byte, the waiters and the bound on late effects |
| ServerInvariants.StopperKeepsControl | src/server.cpp:206-240 | each step of the stopper keeps them too |
| ServerInvariants.PopulationAfterClose | src/server.cpp:19-25 | a closing worker is one that was counted; counter, open descriptors and owners stay in step |
| ServerInvariants.CheckKeepsPopulation | src/server.cpp:260-264 | the check keeps the descriptor, hands it on, or abandons it without losing count |
| ServerInvariants.OtherWorkersKept | src/server.cpp:78-146 | a worker is changed by its own calls and its peer, and by no other thread |
| ServerInvariants.StepKeepsInv | src/server.cpp:10-343 | every event of every thread keeps all invariants |
| ServerInvariants.RunKeepsInv | src/server.cpp:10-343 | so does every run, over any number of cycles |
| ServerTheorems.CounterIsExact | src/server.cpp:19-25 | in every reachable state the counter is the number of workers not yet closed and at most the bound, expired waits and bound 0 included |
| ServerTheorems.CounterNeverWraps | src/server.cpp:266-268 | the counter changes by one where a client is admitted or closed, without wrapping, and nowhere else |
| ServerTheorems.NoWakeupIsLost | src/server.cpp:283-304 | in every reachable state a thread asleep on the condition variable has a false condition or has been notified, for all three conditions |
| ServerTheorems.NoQuitIsLost | src/server.cpp:216-240 | the pipe holds a byte from quit to the drain and as long as there is an acceptor, whichever waits expire; and unless the server thread gave a client up, as long as a worker is left, with none left at the drain |
| ServerTheorems.QuitReachesWorkers | src/server.cpp:89-101 | so after quit every select of a worker that watches the pipe sends it to close, unless the server thread gave a client up |
| ServerTheorems.QuitReachesAcceptor | src/server.cpp:323-332 | nor can the select of `run` miss it, whichever waits expire: after quit the server thread can only leave its loop |
| ServerTheorems.LateEffectsAreBounded | src/server.cpp:260-268 | in a cycle at most one client is admitted and one descriptor abandoned after quit, and not both unless a call on the pipe failed; the pipe never holds more than 2 bytes |
| ServerTheorems.CheckDecides | src/server.cpp:272-290 | in every reachable state the check hands the descriptor on exactly if there is room and no quit, sleeps exactly if the server is full and there is none, and gives up exactly after quit |
| ServerTheorems.DescriptorsAreConserved | src/server.cpp:247-269 | the open descriptors are those of live workers, pairwise different, of doAccept and the abandoned; accepted = held + closed + abandoned + in doAccept |
| ServerTheorems.EachWorkerClosesOnce | src/server.cpp:78-146 | a worker has closed its descriptor once if it has finished, else not at all, and then it is still open |
| ServerTheorems.OnlyLongMessagesOverrun | src/common.cpp:59-82 | in every reachable state a worker has stored behind its buffer exactly if it has read more than a block |
| ServerTheorems.LifecycleCloses | src/server.cpp:10-17 | whenever the server is stopped, after any number of cycles, its fields have their constructed values if and only if no worker is left, and none is left unless the server thread gave one up; the pipe was empty, or held both bytes if `stop` gave up waiting |
| ServerTheorems.CyclesStartAlike | src/server.cpp:181-204 | a start with no worker left, whichever waits expired before, leads to the state of the first start but for finished workers, abandoned descriptors, counts and time |
| Acceptor.LoopEndsExactly | src/server.cpp:315-341 | a step takes the server thread out of its loop if and only if its select failed or found the pipe readable, accept4 failed for another reason than too many files, or its check found quit raised |
| Acceptor.ServingEndsExactly | src/server.cpp:206-341 | a server that serves ceases to exactly at a call of stop, a failing select of `run`, or an accept4 failing for another reason than too many files |
| Acceptor.QuitHasCause | src/server.cpp:206-341 | in every run that leads from a serving server to quit there is such a step, taken while it served |
| Acceptor.LoopIsLeftForGood | src/server.cpp:313-343 | once out of its loop the thread accepts no descriptor and admits no client in any run until the next start |
| Acceptor.RoomIsUsed | src/server.cpp:242-270 | in every reachable state in which the thread polls without quit and with fewer clients than the bound, its own steps alone admit a client that connects, with any free descriptor |
| Acceptor.FullServerWaits | src/server.cpp:272-290 | at the bound they hold it and the thread sleeps |
| Acceptor.WaitingClientIsAdmitted | src/server.cpp:19-25 | it is admitted as soon as another client has gone, and the count is at the bound again |
| Acceptor.TooManyFilesIsSurvived | src/server.cpp:248-255 | after too many open files the server serves on and admits the next client if there is room |
| Pool.StepRefines | src/server.cpp:242-290 | each event of the server is an acquire, a release or nothing to a bounded pool of sessions |
| Pool.RunRefines | src/server.cpp:242-290 | every run of the server is a run of the pool, although the lock is released between check and increment |
| Pool.ServerRefinesPool | src/server.cpp:10-17 | from its construction on the server is such a pool and serves at most `max` sessions at a time |
| Pool.PoolRefinesServer | src/server.cpp:242-290 | every run of the pool is what some run of the server means to it: all the room is used |
| Shutdown.ThreadStepDecreases | src/server.cpp:78-343 | with quit raised every step of acceptor, stopper or worker lowers the measure and leaves quit raised, unless the worker reads behind its buffer |
| Shutdown.OtherStepKeeps | src/server.cpp:283-304 | peers, the clock and spurious wakeups leave the measure as it is |
| Shutdown.SpuriousChangesNothing | src/server.cpp:283-304 | a spurious wakeup changes nothing |
| Shutdown.ShutdownIsBounded | src/server.cpp:206-240 | after quit no run in which every worker reads at most a block has more thread steps than the measure at quit, whatever clock and spurious wakeups do |
| Shutdown.Progress | src/server.cpp:206-343 | while the measure is not 0 some thread can step without a failing call and without a wait running out, if the server thread has given no client up and the sockets that workers wait to write to are writable |
| Shutdown.NothingLeft | src/server.cpp:292-311 | with measure 0 the count is 0, the thread has exited and no stop is under way |
| Shutdown.ShutdownCompletes | src/server.cpp:206-343 | in every reachable state with quit raised, if peers send one message each: no more thread steps follow than the measure, and unless the server thread gave a client up either a thread can go on without a fault or the count is 0 and `isRunning_` false |
| Shutdown.AcceptorNeedsNobody | src/server.cpp:272-311 | in every reachable state with quit raised the server thread has a step of its own towards its exit, whatever workers and peers do |
| Shutdown.StopperNeedsNobody | src/server.cpp:206-232 | the thread in stop always has one too, and up to the join without the server thread |
| Shutdown.StopReturnsAlone | src/server.cpp:206-214 | from every state of a stop these two threads alone can bring it to its return, with every worker and every peer stuck: that is what the timed waits are for |
| Replies.OnlyTimeoutLeadsOn | src/server.cpp:36-41 | only a timeout, with nothing to read on pipe or socket and the time over, takes a worker past its sleep |
| ServerInvariants.ByteThereForWorkers | src/server.cpp:234-240 | after quit, unless the server thread gave a client up, the byte is there as long as a worker is |
| Replies.NoReplyAfterQuit | src/server.cpp:49-53 | a worker at or before its sleep at quit never writes a byte, in every run in which the server thread gives no client up, over later cycles too |
| Replies.NoReplyAfterPeerCloses | src/server.cpp:61-75 | neither does one whose peer has closed, in every run |
| Replies.ReplyHasCause | src/server.cpp:117-145 | in every run a worker that attempted a reply slept out at an earlier step, with pipe and inbox empty and its peer connected, and at a later one its last select found the socket writable |
| Replies.ReplyDiscipline | src/server.cpp:110-145 | at most one reply per worker, not before the milliseconds asked for since the read; if it read at most a block, with the bytes of the number read plus one |
| Replies.RepliesExactly | src/server.cpp:78-146 | in every run a worker that has finished and read at most a block has sent its whole reply if and only if its first select found the message and no quit, one read took it whole, the sleep ran out, the last select found room, and no write failed; anything it sent is the start of that reply |
| Call.CallStaysOk | src/client.cpp:107-198 | every system call of a call keeps: sockets created and closed at most once, the delay untouched unless it succeeds, the bytes sent those of the message; it has overrun exactly if it has read more than a block |
| Call.SelectSeesQuit | src/client.cpp:132-143 | a select evaluated with the pipe readable ends the call without an answer |
| ClientInvariants.CallEventCounts | src/client.cpp:62-72 | counting in and out changes the counter by one, without overflow or underflow |
| ClientInvariants.EventKeepsInv | src/client.cpp:30-198 | every event of every call and of the stopper keeps all invariants of the client |
| ClientTheorems.ConnectionsAreExact | src/client.cpp:121-123 | in every reachable state the counter is the number of counted calls, is positive when one closes, and nobody sleeps through 0 |
| ClientTheorems.CountingIsExact | src/client.cpp:62-72 | in every reachable state counting in and out changes the counter by one and nothing else does |
| ClientTheorems.SocketsAreClosedOnce | src/client.cpp:107-198 | on every exit path a call has closed the socket it created once; the open sockets are those of the other calls, one each |
| ClientTheorems.CancelIsComplete | src/client.cpp:36-60 | unless its wait expires, a stop reads no byte back and does not return before every call counted when it wrote has returned |
| ClientTheorems.SelectWithByteFails | src/client.cpp:166-177 | a call that evaluates a select with the byte present returns false in every run from there |
| ClientTheorems.CancelledCallsFail | src/client.cpp:138-143 | a cancelled call returns false and leaves the delay alone |
| ClientTheorems.PipeIsEmptyBetweenStops | src/client.cpp:30-34 | after any number of stops and calls the pipe is empty when no stop is in progress, and never holds two bytes |
| ClientTheorems.NothingCancelledBetweenStops | src/client.cpp:138-143 | from the end of a stop to the next one no call is cancelled |
| ClientStop.CallIsBounded | src/client.cpp:107-198 | in every run in which it reads at most a block a call takes no more steps of its own than its weight, whatever others do, and with all of them taken has returned |
| ClientStop.CountedCallCanStep | src/client.cpp:121-177 | with the stop byte in the pipe every counted call has a step it can take without a fault, though no socket be ready |
| ClientStop.StopIsBounded | src/client.cpp:30-60 | while nobody begins a call or a stop no run has more thread steps than the measure |
| ClientStop.Progress | src/client.cpp:30-60 | while a stop is in progress some thread can step without a fault |
| ClientStop.StopCompletes | src/client.cpp:30-60 | from every reachable state, while nobody begins: no more thread steps than the measure, and either a thread can go on without a fault or the stop has returned |
| EndToEnd.RunKeepsInv | src/client.cpp:107-198 | in every run of both sides each byte written is read, readable or on its way, in order |
| EndToEnd.MessageReadsBack | src/client.cpp:152-154 | the message that carries a delay is read as that delay |
| EndToEnd.ReplyIsOneMore | src/server.cpp:29-39 | the reply to the message with number n parses to n + 1 |
| EndToEnd.SuccessMeansReply | src/client.cpp:186-197 | a call that succeeds has read the whole reply of a worker that had read its whole message |
| EndToEnd.NobodyOverruns | src/common.cpp:59-82 | in every run of both sides neither a call nor the worker that serves it stores a byte behind its buffer |
| EndToEnd.DelayContract | src/client.cpp:107-198 | in every run of both sides a call given 0..2147483 that returned true has its delay one larger and its worker slept at least that long; any other left it alone |
| Answered.DelayIsAnswered | src/client.cpp:107-198 | for each of these delays there is a run in which the call returns true |
| Answered.AnswerableDelays | src/client.cpp:107-198 | of -2147483..2147483 exactly the delays from 0 on can be answered with true |
| Success.ClientSideIsARun | src/client.cpp:107-198 | every run of client and server together is a run of the client, so what holds of all its runs holds here |
| Success.ServerSideIsARun | src/server.cpp:78-343 | and of the server |
| Success.SuccessExactly | src/client.cpp:107-198 | in every run of both sides a call that has returned has returned true if and only if its socket was created and connected, its selects were in time with socket ready and no stop byte, no write failed, and its read delivered the whole block; the delay in range is then one larger |
| ServerObject.Server.constructor | src/server.cpp:10-17 | the constructed state, which is where every run begins |
| ServerObject.Server.Start | src/server.cpp:181-204 | with no worker left a start that succeeds has the flags set, the pipe empty, no client and no record of earlier cycles; one that fails changes nothing |
| ServerObject.Server.QuitRunningThread | src/server.cpp:234-240 | writes the byte, raises quit and notifies every waiter |
| ServerObject.Server.Poll | src/server.cpp:323-338 | with a connection and no byte in the pipe it goes on to accept, and only with the pipe empty; after quit the thread leaves its loop, whichever waits expire |
| ServerObject.Server.Accept | src/server.cpp:247-258 | a new descriptor is no live worker's; the thread leaves its loop exactly if the call failed for another reason than too many files |
| ServerObject.Server.CheckForMaximumNumberClients | src/server.cpp:272-290 | hands the descriptor on exactly with room and no quit, sleeps exactly when full without quit, abandons it exactly after quit |
| ServerObject.Server.Admit | src/server.cpp:266-269 | the counter is exactly one more and still within the bound, although the lock was released since the check; after quit it is the first client admitted |
| ServerObject.Server.WaitForClientsToFinish | src/server.cpp:292-311 | the thread exits exactly if its time is over or no worker is left, clears isRunning and leaves no stopper asleep; it records an expiry only with a worker left |
| ServerObject.Server.AwaitThread | src/server.cpp:218-228 | goes on to the drain exactly if the thread has exited, then with no worker left unless that gave one up; gives up exactly with its time over |
| ServerObject.Server.ConsumeQuitBytes | src/server.cpp:230 | the drain loop leaves the pipe empty unless a read fails; unless the server thread gave one up no worker is left that could miss the byte |
| ServerObject.Server.Join | src/server.cpp:210-213 | the fields are those of a new server if and only if no worker is left, and none is left unless the server thread gave one up |
| ServerObject.Server.CloseClientAndNotify | src/server.cpp:19-25 | the counter is exactly one less; the descriptor closed was open, is closed once, and every other live worker's stays open |
| ServerObject.Server.GetNumberOfClients | src/server.cpp:345-349 | returns the number of workers not yet closed, at most the bound |
| ServerThread.Sleep | src/server.cpp:27-76 | true exactly if disturbed; the buffer then is unchanged, else holds the reply |
| ServerThread.RunClient | src/server.cpp:78-146 | on every path one close, on the stream exactly the bytes that the answers of the kernel determine, no answer asked for beyond those, and an overrun exactly if the message is read and does not stay in the buffer |
| ServerThread.ReplyIsWholeExactly | src/server.cpp:89-142 | the whole reply is sent if and only if selects, first read, sleep and writes all went well; anything sent is the start of it |
| ServerThread.AnswersDecide | src/server.cpp:78-146 | every run of the server in which a new worker gets these answers and finishes sends just what RunClient sends on them, closes once, and asks for the same answers |
| ServerThread.RunClientIsARun | src/server.cpp:78-146 | for all answers that the kernel can give there is a run of the server in which the worker gets just these, from any state with it new and no stop |
| ClientObject.Client.constructor | src/client.cpp:11-22 | the constructed state, which is where every run begins |
| ClientObject.Client.WriteToPipeAndWait | src/client.cpp:36-53 | aims at exactly the counted calls; with none leaves the pipe alone, else leaves exactly one byte in it and sleeps |
| ClientObject.Client.WakeStopper | src/client.cpp:55-59 | goes on exactly if its time is over or no call is counted, and in time only with every call it aimed at returned |
| ClientObject.Client.ReadStopByte | src/client.cpp:33 | one read of the loop, with other threads free to run before the next: in time every call aimed at has returned before a byte is taken, and unless a read fails the loop ends only with the pipe empty |
| ClientObject.Client.ConsumeStopBytes | src/client.cpp:33 | the whole loop with nothing between its reads leaves the pipe empty unless a read fails |
| ClientObject.Client.CreateSocket | src/client.cpp:109-113 | a new socket is no other call's; without one the call returns false |
| ClientObject.Client.Drop | src/client.cpp:115-119 | a call that was never counted returns false with its socket closed once |
| ClientObject.Client.CountIn | src/client.cpp:121-123 | the counter is exactly one more |
| ClientObject.Client.CloseAndNotify | src/client.cpp:62-72 | the counter is exactly one less, the socket closed once, and no stopper left asleep without notice |
| ClientThread.SendDelayToServer | src/client.cpp:107-198 | on every path one close of the socket created; result, delay, bytes sent, answers asked for and overrun as the answers of the kernel determine |
| ClientThread.SendIsTrueExactly | src/client.cpp:107-198 | true if and only if the socket was created and connected, there is a pipe, both selects found the socket ready and no stop byte, the writes took a block and the first read delivered one; otherwise the delay is unchanged |
| ClientThread.AnswersDecide | src/client.cpp:107-198 | every run of the client in which a new call gets these answers and returns comes to just what SendDelayToServer comes to on them |
| ClientThread.SendIsARun | src/client.cpp:107-198 | for all answers that the kernel can give there is a run of the client in which the call gets just these, from any reachable state with it new and no stop |
| Scenarios.OneClientCanBeLate | src/server.cpp:260-268 | the bound on late effects is reached |
| Scenarios.BothCanBeLate | src/server.cpp:234-268 | with a failed write to the pipe one client is admitted and one descriptor abandoned after quit |
| Scenarios.QuitCanBeLost | src/server.cpp:304-309 | once the server thread has given a client up, and with no other wait expired, the pipe can be drained under a worker that has still to look at it |
| Scenarios.StopCanLeaveAClient | src/server.cpp:206-214 | a stop can then return with a worker live and the count at 1 |
| Scenarios.ShutdownCanBeHeldUp | src/common.cpp:57-82 | a state with quit raised from which there are runs of any number of steps: a worker reads on behind its buffer |
| Scenarios.CallCanSurviveStop | src/client.cpp:55-59 | with an expired wait a call can survive the stop that was to end it |

## Left out

- Common.ReadMessage: what the program does once a read has stored bytes behind the buffer is undefined; the model drops them and records the overrun.
- Shutdown.Progress: assumes that sockets that workers wait to write to are writable, because the last select of a worker does not watch the pipe.
- ServerObject.Server.ConsumeQuitBytes: keeps the pipe as one object that start empties, instead of two descriptor numbers.
- ServerObject.Server.Start: requires that no worker is left that an earlier stop gave up; it would select on descriptors that the new cycle may have been given.
- A worker that a stop gave up goes on in the model as before: what its select makes of the closed pipe is outside it.
- ClientObject.Client.ConsumeStopBytes: its loop runs without other threads in between; `ReadStopByte`, a single read, allows them.
- Numbers outside `int`: `atoi` and signed overflow are undefined there; the model takes the low 32 bits.
- A write to a connection that the peer has reset raises SIGPIPE, which the source never ignores and which ends the process; the model has a failing write instead.
- Several threads in `stop` at once, `stop` without a successful `start`, and destroying an object in use are outside it.
- Socket creation, `bind`, `listen`, `connect` and `ioctl` are outcomes; a failing `start` leaks descriptors that are not counted.
- `std::thread` is assumed to start its thread.
- The 2000 ms limits and other wall-clock times are events that may happen at any moment; only sleeping has a clock, in microseconds.
- The memory model of C++: the shared fields are accessed with the mutex held or before the thread starts.
- `src/log.cpp` prints and is not modelled, nor are `testApps` and the build files.
