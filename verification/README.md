# ymuduo: a verified model of its reactor core

ymuduo is a reactor-style C++ network library. This project models the pieces in which its state
is hardest to follow and proves what they keep over whole runs:

- the timer queue, over an explicit heap whose freed addresses may be handed out again, with
  callbacks that add and cancel timers while an expired batch runs;
- the task queue of an event loop: the loop thread with its program counter, and any number of
  posting threads caught between their push and their eventfd write;
- the life of a connection across the base loop and the I/O loops;
- the output path of a connection over its Buffer, against a kernel that takes any amount;
- the HTTP parser, its printer, the session that feeds it, and the whole connection from the
  bytes that arrive to what a client reads from the bytes that leave;
- the asynchronous log with its shuttling buffers;
- channel registration in EPollPoller and SelectPoller.

Each piece comes in two layers. A `...Steps` (or `...Runs`, `HttpParse`, `BufferLayout`) module is a
step system: a state, one function for each step of the code, and `Run`, which takes any sequence
of events and skips those that cannot happen at that point. The theorems quantify over every such
sequence. An `...Object` module is the program's own class with mutable fields and loops; each
method's contract says which steps it takes, so the theorems hold of what the objects do. Values
that only serve a theorem (histories, program counters) are ghost fields or say so.

Beside the step systems stand references that are kept from the events of a run alone, and that do
not use the code's own state: `OutputLedger` (which bytes write() took of which text), `TimerAsked` (the
times creators asked for), `LifeLedger` (the stage of each connection), `LoopTally` (pushes, swaps, quits
and eventfd writes), `PlainLog` (a log without spare buffers), `Wanted` and `Registered` of
`PollerSteps`, `QueueRun` of `BufferLayout`, `HttpLines` (which lines are request lines), `Requests` of
`HttpSessionRuns`, and the client of `HttpClient`. For every run the step system agrees with its reference.

Inputs from outside are parameters: the clock, the allocator's answer, what `write`, `readv` and
poll report, what callbacks do, and what other threads do in between.

## Where the code does not do what its text says

- `TcpConnection::shutdown` tests for kDisconnected, so it never half-closes a connected
  connection (`OutputSteps.ShutdownNeverHalfClosesWhileConnected`), and a response that should
  close its connection does not (`HttpWire.ClosingRepliesLeaveItOpen`).
- A message dispatches one request at most, so of two complete requests in one message the second
  waits (`HttpSessionRuns.PipelinedRequestWaits`). Every complete request is dispatched if and only
  if no group of last messages completes more requests than it has messages
  (`HttpSessionRuns.AllDispatchedIff`; `DispatchedIsLeast` gives the number in general).
- A response is printed the same way whatever the request: a reply to HEAD has its body, which a
  client takes for the next status line (`HttpClientReads.HeadBodyIsLeft`; http/http-server.cc
  answers "HEAD /" like that); a length or a transfer encoding in headers_ contradicts the printed
  length; a status code left at kUnknown is no status code. `HttpClientReads.ResponseIsReadIff` says
  exactly which replies a client reads back, and `HttpEndToEnd.ClientReadsResponses` over a whole connection.
- `appendToBuffer` prints Content-Length into 32 bytes. The field lines read back as announced if
  and only if the body is below 10^13 bytes, or the connection closes, or headers_ overrides both
  fields the cut line destroys (`HttpResponsePrint.ResponseFieldsRoundTrip`).
- `onRequest` looks for one spelling of the field name and compares its last value byte by byte,
  where section 9.3 of RFC 9112 ignores case, splits lists and joins repeated lines.
  `HttpPersistence.CloseDecisionIsStandardIff` says, over all field lines of a message, exactly when
  the two decide alike; four lemmas beside it are messages on which they do not.
- A rejected request line stays in the buffer, the request is not reset and the connection is not
  shut down. The next message meets the line again: it is answered with another 400 if its method
  is unknown, and otherwise `assert(method_ == kInvalid)` fails and, NDEBUG not being defined, the
  process aborts (`HttpSessionRuns.RejectionRepeatsOrAborts`, `AbortsIff`, `MalformedLineThenAnything`). "GET / HTTP/9" and then any byte is enough.
- `parseRequest` never returns for a context that holds a finished request; onMessage never leaves one.
- `addTimer` reads the timer's sequence number after it has posted the timer. A caller on another
  thread may read freed memory, or the id of another timer at the same address, and cancel that one
  (`TimerReturns.ReadAfterFree`, `ReadAfterReuseCancelsAnother`). `TimerReturns.ReturnIsOwnIff` says
  exactly when the id is the timer's own. On the loop thread it always is, and so it is for a
  repeating timer that nobody cancels; a one-shot timer posted from another thread can always be
  overtaken (`TimerReturns.OneShotCanBeOvertaken`).
- connectDestroyed can find kDisconnecting, when a callback calls shutdown() after the close as
  echo/echo_server.cc does (`LifecycleSteps.ClosedStateIff`); it never finds kConnected.
- `reset` does not arm the timerfd for an earliest expiration that is not positive; such a timer is
  served all the same because `addTimerInLoop` armed it (`TimerRuns.StepKeepsArmed`).

## Model

| member | source | states |
|---|---|---|
| `TimerSteps.InsertEntry` | src/TimerQueue.cc:166-176 | the ordered set gains exactly the entry, stays ordered, and its head is the smaller of the old head and the entry |
| `TimerSteps.EraseEntry` | src/TimerQueue.cc:102-102 | the ordered set loses exactly the entry and stays ordered |
| `TimerSteps.LowerBound` | src/TimerQueue.cc:128-133 | the sentry splits the set into the entries due by now and those due later |
| `TimerSteps.HowMuchTimeFromNow` | src/TimerQueue.cc:23-32 | seconds and nanoseconds are a normal timespec that stands for the larger of the distance and 100 microseconds |
| `TimerSteps.LocalChange` | src/TimerQueue.cc:90-176 | a step that touches one address and leaves that address in order leaves the whole queue in order |
| `TimerSteps.StepKeepsValid` | src/TimerQueue.cc:90-176 | creation, addTimerInLoop, cancelInLoop, each part of handleRead and each turn of reset keep one owner for every live timer, correct keys, both sets equal, and distinct sequences; every timer a step touches or deletes is live |
| `TimerSteps.CancelKeepsValid` | src/TimerQueue.cc:98-109 | a cancel of any id, in any phase, keeps the queue valid |
| `TimerSteps.BeginKeepsValid` | src/TimerQueue.cc:112-140 | taking the expired batch keeps the queue valid, with the batch disjoint from both sets |
| `TimerSteps.RecycleKeepsValid` | src/TimerQueue.cc:146-156 | re-arming or deleting one timer of the batch keeps the queue valid, under the restarted expiration |
| `TimerRuns.ReachableQueueIsConsistent` | src/TimerQueue.cc:90-176 | in every run timers_ and activeTimers_ hold the same live timers under their current keys, the held batch is disjoint from both, and the live heap is exactly what they and the queued adds own; no step of the loop touches a freed timer |
| `TimerRuns.CancelIsFinal` | src/TimerQueue.cc:98-109 | after a cancel of an added timer: an active one never runs again; one in the running batch (the caller included) runs in no later batch, is never active again and is freed when the batch ends |
| `TimerRuns.StaleCancelIsInvisible` | src/TimerQueue.cc:98-125 | a cancel whose id names no added timer, its address reused or not, changes no later heap, set, arming or firing of any run |
| `TimerRuns.ResetRearmsExactly` | src/TimerQueue.cc:143-156 | when reset has been through its batch, timers_ is what it was plus one entry for each repeating timer that was not canceled, one interval after the batch's clock; those keep interval and sequence, all others are freed for good |
| `TimerRuns.StepKeepsArmed` | src/TimerQueue.cc:90-176 | every step keeps the timerfd armed early enough, or leaves that to the end of reset, which will do it |
| `TimerRuns.DeadlineIsExact` | src/TimerQueue.cc:90-96 | after every step the deadline is exactly that of the earliest timer or 100 microseconds from now for the steps that arm, and unchanged or consumed for all others |
| `TimerRuns.NoTimerIsForgotten` | src/TimerQueue.cc:157-164 | in every run, outside handleRead, a non-empty queue has its timerfd armed no later than the larger of the earliest expiration and 100 microseconds after the last arming |
| `TimerRuns.BatchIsExactlyTheDue` | src/TimerQueue.cc:128-140 | the batch is every timer due by the clock and no other, in order of expiration, and the rest stays |
| `TimerRuns.FiringsAreInOrder` | src/TimerQueue.cc:112-125 | in every run no callback is early, none runs twice in a batch, a one-shot timer runs once at most, and when reset starts the whole batch has run in order of expiration |
| `TimerAsked.RunsAreAsAsked` | include/Timer.h:14-17 | in every run the first callback of a timer is due at the time its creator asked for, each later one one interval after the clock of the one before, and only timers asked to repeat run again |
| `TimerAsked.NoneIsEarly` | src/TimerQueue.cc:76-81 | no timer ever runs before the time asked for |
| `TimerReturns.ReturnIsOwnIff` | src/TimerQueue.cc:76-81 | in every run, what a call of addTimer under way would read is its own timer's id if and only if that timer is not freed; with no cancel of it, it is freed only by having run as a one-shot timer, and outside handleRead it then is; a wrong read is freed memory or a younger timer's id |
| `TimerReturns.LoopThreadAddReturnsOwn` | src/TimerQueue.cc:76-81 | on the loop thread the id is the timer's own, whatever other threads create meanwhile |
| `TimerReturns.RepeatingAddReturnsOwn` | src/TimerQueue.cc:76-81 | for a repeating timer that nobody cancels the id is its own, on any thread and after any run |
| `TimerReturns.OneShotCanBeOvertaken` | src/TimerQueue.cc:76-81 | from any state with a one-shot timer's add still queued, the loop has moves after which its creator does not read its id |
| `TimerReturns.ReadAfterFree` | src/TimerQueue.cc:80-80 | a run in which addTimer reads a timer that has run and is freed |
| `TimerReturns.ReadAfterReuseCancelsAnother` | src/TimerQueue.cc:80-80 | a run in which it returns another caller's id, and a cancel with it frees that caller's timer |
| `TimerQueueObject.TimerQueue.constructor` | src/TimerQueue.cc:54-62 | a new queue is the valid initial state |
| `TimerQueueObject.TimerQueue.NewTimer` | include/Timer.h:14-17 | the new timer gets the next sequence number at an address that was not live, and waits to be added |
| `TimerQueueObject.TimerQueue.ReturnId` | src/TimerQueue.cc:80-80 | the id of whatever timer is at the address now, or none |
| `TimerQueueObject.TimerQueue.AddTimer` | src/TimerQueue.cc:76-81 | on the loop thread: the id returned is the new timer's own, and that timer is active |
| `TimerQueueObject.TimerQueue.Insert` | src/TimerQueue.cc:166-176 | both sets gain the timer, and the result tells whether it became the earliest |
| `TimerQueueObject.TimerQueue.Arm` | src/TimerQueue.cc:41-52 | the timerfd's deadline becomes now plus the computed delay |
| `TimerQueueObject.TimerQueue.AddTimerInLoop` | src/TimerQueue.cc:90-96 | the posted timer becomes active, and the timerfd is armed when it is the earliest |
| `TimerQueueObject.TimerQueue.CancelInLoop` | src/TimerQueue.cc:98-109 | an active timer leaves both sets and is freed; otherwise the id is marked only while callbacks run |
| `TimerQueueObject.TimerQueue.Serve` | src/TimerQueue.cc:90-109 | creations, adds and cancels by callbacks and other threads, in any number and order, are the run of those requests |
| `TimerQueueObject.TimerQueue.GetExpired` | src/TimerQueue.cc:128-140 | splits timers_ at the lower bound and takes exactly the batch's ids out of activeTimers_ |
| `TimerQueueObject.TimerQueue.StartBatch` | src/TimerQueue.cc:112-119 | handleRead up to its callback loop is the step that takes the batch and clears the marks |
| `TimerQueueObject.TimerQueue.RunTimer` | include/Timer.h:19-19 | a callback runs on a live timer of the batch |
| `TimerQueueObject.TimerQueue.RunCallbacks` | src/TimerQueue.cc:120-122 | the callback loop, with whatever each callback and other threads request, is the run of those calls and requests |
| `TimerQueueObject.TimerQueue.RecycleOne` | src/TimerQueue.cc:147-155 | one timer of the batch is restarted from the batch's clock and inserted if it repeats and is not marked, and freed otherwise |
| `TimerQueueObject.TimerQueue.ArmNext` | src/TimerQueue.cc:157-163 | the timerfd is armed for the earliest timer left, if its expiration is valid |
| `TimerQueueObject.TimerQueue.Reset` | src/TimerQueue.cc:143-164 | the loop over the batch and the arming, with other threads' creations in between, are the run of the reset steps |
| `TimerQueueObject.TimerQueue.HandleRead` | src/TimerQueue.cc:112-125 | the whole of handleRead, with arbitrary re-entrant requests and other threads' creations at every point, is one run of the step system and ends idle and valid |
| `LoopSteps.StepKeepsValid` | src/EventLoop.cc:73-186 | every step of the loop thread and of a poster keeps the wakeup and order invariant |
| `LoopSteps.NoLostWakeup` | src/EventLoop.cc:80-154 | in every interleaving a loop in poll with pending functors, or after another thread's quit, has a positive eventfd counter or a thread about to write it |
| `LoopSteps.ExactlyOnceInOrder` | src/EventLoop.cc:130-186 | in every interleaving executed functors, the rest of the batch and pendingFunctors_ are together the pushes in lock order |
| `LoopTally.LoopFollowsTally` | src/EventLoop.cc:111-186 | in every interleaving the executed functors, the batch and pendingFunctors_ are the pushes cut at the number started and at the last swap; the flag is set exactly when some thread has quit; the counter counts the writes since its last read |
| `LoopTally.QuitEndsTheLoop` | src/EventLoop.cc:80-118 | after a quit the loop never polls again, stops at its next test and stays stopped |
| `LoopSteps.BatchIsClosed` | src/EventLoop.cc:173-186 | until the next swap nothing joins a batch, whoever pushes; what has run stays run |
| `LoopSteps.PushedBeforeSwapIsDone` | src/EventLoop.cc:173-186 | when the loop tests its condition after a swap, exactly what was pushed before the swap has run |
| `EventLoopObject.EventLoop.constructor` | src/EventLoop.cc:44-63 | a new loop is the valid initial state |
| `EventLoopObject.EventLoop.Wakeup` | src/EventLoop.cc:149-154 | the counter rises unless it is full |
| `EventLoopObject.EventLoop.QueueInLoop` | src/EventLoop.cc:130-139 | on the loop's own thread: pushed last, with a wakeup when functors are running |
| `EventLoopObject.EventLoop.ApplyAll` | src/EventLoop.cc:111-139 | what a handler or functor calls, mixed with steps of other threads, is a run of the step system that leaves the batch and the history alone |
| `EventLoopObject.EventLoop.SwapOut` | src/EventLoop.cc:174-180 | the batch is what is pending at the swap, pushes of other threads after the flag included, and pendingFunctors_ is empty |
| `EventLoopObject.EventLoop.RunBatch` | src/EventLoop.cc:182-184 | every functor of the batch runs, once and in order, whatever is pushed meanwhile |
| `EventLoopObject.EventLoop.DoPendingFunctors` | src/EventLoop.cc:173-186 | runs exactly the functors pending at the swap, those pending at its start first, and is a run of the step system |
| `EventLoopObject.EventLoop.HandleEvents` | src/EventLoop.cc:83-92 | poll's report and the handlers around the wakeup channel's are a run of the step system and run no functor |
| `EventLoopObject.EventLoop.LoopOnce` | src/EventLoop.cc:80-99 | one turn of the loop, with other threads moving at every point of it, is a run of the step system; it stops on quit, and otherwise everything pending at its start has run |
| `LifecycleSteps.NameIsNotCut` | src/TcpServer.cc:48-51 | for an IPv4 address and an int the 64-byte array cuts nothing off a connection's name |
| `LifecycleSteps.NamesAreDistinct` | src/TcpServer.cc:48-51 | two connections have the same name exactly when they have the same number |
| `LifecycleSteps.ConnChange` | src/TcpServer.cc:45-89 | a step that moves one connection, its map entry and its tasks keeps the whole server in order |
| `LifecycleSteps.StepKeepsValid` | src/TcpServer.cc:45-89 | accepting, running a queued task, entering and leaving a handler, closing and calling shutdown() anywhere keep exactly one owed task queued, on the right loop, for each connection between two stages |
| `LifecycleSteps.LivesAreOrderly` | src/TcpServer.cc:45-89 | in every interleaving names are unique, each connection is established, closed, erased and destroyed once at most and in that order, is in the map exactly until erased, and is not destroyed inside its own channel's handler |
| `LifeLedger.LivesFollowLedger` | src/TcpServer.cc:45-89 | for every schedule there are as many connections as accepts, each on the loop of its accept and in the state, interest, registration and history of its stage; queues and handlers are those of the schedule; a connection was closed if and only if a close came while its handler ran |
| `LifeLedger.CloseCloses` | src/TcpConnection.cc:94-104 | a close leaves the connection disconnected and unwatched, with its removal, or on the base loop its destruction, queued last |
| `LifecycleSteps.RegisteredIsReferenced` | src/TcpConnection.cc:185-201 | a channel in the poller's map belongs to a connection that is in the server's map or in a queued task, and connectDestroyed runs on the connection's own loop and never finds it connected |
| `LifecycleSteps.ClosedStateIff` | src/TcpConnection.cc:194-208 | a closed connection is kDisconnecting if and only if shutdown() was called on it since, in every run |
| `LifecycleSteps.CloseKeepsValid` | src/TcpConnection.cc:94-104 | a close in its own channel's handler, on the base loop or elsewhere, keeps the server valid |
| `LifecycleSteps.RemoveKeepsValid` | src/TcpServer.cc:81-89 | the queued removal leaves the connection out of the map with its destruction queued on its own loop |
| `LifecycleSteps.LoneTaskKeepsValid` | src/TcpConnection.cc:185-201 | the queued establishment and the queued destruction leave nothing owed, and the destruction comes outside the handler |
| `LifecycleSteps.RecordSteps` | src/TcpConnection.cc:94-208 | each stage makes of a connection's state, interest and registration what the next stage expects |
| `LifecycleSteps.QuietMeansOpenOrDestroyed` | src/TcpServer.cc:76-89 | when all queues are empty every connection is open and in the map, or has been closed, erased and destroyed |
| `TcpServerObject.TcpServer.constructor` | src/TcpServer.cc:10-17 | a new server is the valid initial state, counting connections from 1 |
| `TcpServerObject.TcpServer.Drive` | src/TcpServer.cc:45-89 | for every schedule of accepts, functors, handlers, closes and shutdown() calls, the server with its map, its queues and its connection objects runs exactly as the step system does, and every pointer leads to the one object of its number |
| `TcpServerObject.TcpServer.CreateConnection` | src/TcpServer.cc:48-62 | a fresh object under the next number and name, with every older pointer still right |
| `TcpServerObject.NewNameIsFree` | src/TcpServer.cc:48-62 | in every valid state the next name overwrites no entry of the map |
| `OutputSteps.SendKeepsValid` | src/TcpConnection.cc:119-181 | a send keeps the stream, write interest and the notes valid for every answer of write |
| `OutputSteps.HandleWriteKeepsValid` | src/TcpConnection.cc:68-92 | so does a writable event |
| `OutputLedger.OutputFollowsLedger` | src/TcpConnection.cc:68-181 | in every run the kernel has exactly the bytes write() said it took of the text sent, the output buffer exactly the rest, write interest is on exactly while something waits, and the notes queued are exactly those called for: completion each time write() takes the last byte, high water each time what waits crosses the mark upwards |
| `OutputSteps.OutputIsConserved` | src/TcpConnection.cc:68-181 | in every run the bytes the kernel took, then the output buffer, are the sent messages in order less those dropped whole on EPIPE or ECONNRESET, and while connected write interest is on exactly when the buffer is not empty |
| `OutputSteps.NotificationsAreTimely` | src/TcpConnection.cc:72-176 | write-complete is queued only when the kernel has every retained byte; between two high-water notes the buffered length was below the mark |
| `OutputSteps.ShutdownNeverHalfClosesWhileConnected` | src/TcpConnection.cc:203-219 | shutdown does nothing to a connected connection, and half-closes exactly a disconnected one |
| `TcpConnectionObject.TcpConnection.constructor` | src/TcpConnection.cc:28-45 | a new connection is connecting, with an empty buffer and no write interest |
| `TcpConnectionObject.TcpConnection.ConnectEstablished` | src/TcpConnection.cc:185-192 | the connection is in the state the runs start from |
| `TcpConnectionObject.TcpConnection.SendInLoop` | src/TcpConnection.cc:136-181 | over the real Buffer, exactly the step of the output system for every answer of write |
| `TcpConnectionObject.TcpConnection.BufferRest` | src/TcpConnection.cc:168-180 | the rest is buffered behind what waits, write interest is on, and an upward crossing of the mark is noted |
| `TcpConnectionObject.TcpConnection.Send` | src/TcpConnection.cc:119-130 | ignored unless connected; keeps the connection valid |
| `TcpConnectionObject.TcpConnection.HandleWrite` | src/TcpConnection.cc:68-92 | what the kernel took leaves the front of the buffer; interest ends with the last byte |
| `TcpConnectionObject.TcpConnection.HandleClose` | src/TcpConnection.cc:94-104 | disconnected, with no write interest, and the unsent bytes still there |
| `TcpConnectionObject.TcpConnection.Shutdown` | src/TcpConnection.cc:203-208 | follows the guard of the code |
| `TcpConnectionObject.TcpConnection.ShutdownInLoop` | src/TcpConnection.cc:214-219 | the write side is shut unless writing |
| `BufferLayout.EnsureWritable` | include/Buffer.h:55-105 | there is room for len, the readable bytes are the same, and a vector that grew is below 8 plus twice what it must hold |
| `BufferLayout.BufferRefinesQueue` | include/Buffer.h:32-105 | for every sequence of append, retrieve and readFd the readable bytes are those of a plain queue, the indices stay in order, and the size is at most 8 plus the larger of the first size and twice the peak |
| `BufferObject.Buffer.constructor` | include/Buffer.h:18-20 | an empty buffer of the given size |
| `BufferObject.Buffer.Retrieve` | include/Buffer.h:32-37 | drops that many bytes from the front, or all |
| `BufferObject.Buffer.RetrieveAsString` | include/Buffer.h:48-52 | returns the bytes it drops |
| `BufferObject.Buffer.ShiftDown` | include/Buffer.h:98-103 | the overlapping copy in place keeps the readable bytes |
| `BufferObject.Buffer.MakeSpace` | include/Buffer.h:94-105 | grows or shifts, and keeps the readable bytes |
| `BufferObject.Buffer.Append` | include/Buffer.h:63-67 | the readable bytes followed by the data, in the layout of the step |
| `BufferObject.Buffer.FindCRLF` | include/Buffer.h:69-72 | the first CR LF of the readable bytes, or none |
| `BufferObject.Buffer.RetrieveUntil` | include/Buffer.h:79-81 | drops the bytes before that position |
| `BufferObject.Buffer.ReadFd` | src/Buffer.cc:14-37 | what readv delivered, overflow area included, is appended in order; a failure changes nothing |
| `BufferObject.Buffer.WriteFd` | src/Buffer.cc:39-44 | what the kernel took is the front of the readable bytes, which stay |
| `HttpParse.ReadLine` | http/HttpContext.cc:42-66 | a line that goes on leaves a context ready for more; finished and rejected lines are known by their state |
| `HttpParse.Parse` | http/HttpContext.cc:38-73 | terminates from every state but a finished one; what is unread is a suffix of the input; a finished request consumed something; a rejection leaves the whole text and the request-line state; no abort from a context without a method |
| `HttpParse.TrimCutsExactlyTheSpace` | http/HttpRequest.h:77-88 | the stored value is the text with exactly the white space around it cut off |
| `HttpParse.ParseSplit` | http/HttpContext.cc:38-73 | parsing a then b is parsing both at once, wherever the cut falls |
| `HttpParse.ParseUntimed` | http/HttpContext.cc:45-49 | the receive time changes nothing but itself |
| `HttpParse.ChunkInvariance` | http/HttpContext.cc:38-73 | for all a and b, from every request-line or header state, the verdict, state, request (receive time aside) and unread bytes are those of a + b at once, a CR LF cut in two included; a finished or rejected request and an abort are not disturbed |
| `HttpRoundTrip.FieldsRoundTrip` | http/HttpContext.cc:56-69 | printed field lines are read back, later ones winning, and the parser stops behind the empty line |
| `HttpRoundTrip.RequestLineRoundTrip` | http/HttpContext.cc:6-35 | a printed request line is read back as its method, path, query and version |
| `HttpRoundTrip.MethodRoundTrip` | http/HttpRequest.h:26-60 | setMethod reads back what methodString prints |
| `HttpLines.MethodIsItsName` | http/HttpRequest.h:26-46 | each method is taken from its own name in capitals, and no method from any other text |
| `HttpLines.RequestLineIff` | http/HttpContext.cc:6-35 | a line is accepted if and only if it is one of the five method names, a target without a space and one of the two versions, with single spaces |
| `HttpLines.RequestLineMeans` | http/HttpContext.cc:10-31 | an accepted line gives the method and version named, and the target cut in front of its first question mark |
| `HttpLines.FieldLineMeans` | http/HttpContext.cc:56-66 | a line in the header state ends the head if and only if it has no colon, and otherwise stores what is behind the first colon under what is before it |
| `HttpRoundTrip.RequestRoundTrip` | http/HttpContext.cc:6-73 | a well-formed request as sections 3 and 5 of RFC 9112 write it is read back exactly, with all following bytes unread |
| `HttpResponsePrint.ResponseFieldsRoundTrip` | http/HttpResponse.cc:15-31 | the field lines read back as the announced fields with exactly the body unread, if and only if the length line fits, the connection closes, or headers_ overrides both fields |
| `Bytes.DecimalReadsBack` | http/HttpResponse.cc:18-18 | a printed number reads back as itself, so the announced Content-Length is the body's size |
| `HttpResponsePrint.LengthFitsBelow` | http/HttpResponse.cc:9-19 | the length line fits the 32-byte array exactly for bodies below 10^13 bytes |
| `HttpResponsePrint.HugeBodyGarblesItsLength` | http/HttpResponse.cc:18-20 | a body for which the round trip fails |
| `HttpResponsePrint.GarbledFieldsAreRead` | http/HttpResponse.cc:18-31 | what a reader gets from a longer body: one field that has swallowed the next |
| `HttpResponsePrint.StatusLineIsOneLine` | http/HttpResponse.cc:10-13 | the first CR LF ends the status line, and the field lines follow it |
| `HttpContextObject.HttpRequest.constructor` | http/HttpRequest.h:20-20 | an unset request |
| `HttpContextObject.HttpRequest.SetMethod` | http/HttpRequest.h:26-46 | one of five methods, or refused |
| `HttpContextObject.HttpRequest.AddHeader` | http/HttpRequest.h:77-88 | the two trimming loops store the trimmed value under the name |
| `HttpContextObject.HttpRequest.GetHeader` | http/HttpRequest.h:90-97 | the stored value, or the empty string |
| `HttpContextObject.HttpRequest.Swap` | http/HttpRequest.h:101-108 | the two requests change places, also when they are one object |
| `HttpContextObject.HttpContext.Reset` | http/HttpContext.h:25-29 | the context is as new |
| `HttpContextObject.HttpContext.ProcessRequestLine` | http/HttpContext.cc:6-35 | verdict and fields are those of the parser function, partial ones of a rejected line too |
| `HttpContextObject.HttpContext.ParseOnce` | http/HttpContext.cc:41-71 | one turn of the loop leaves what the parser function would still do on a shorter text, or its outcome |
| `HttpContextObject.HttpContext.ParseRequest` | http/HttpContext.cc:38-73 | terminates from every request-line or header state with exactly the parser function's outcome, or reports the failed assertion with everything as it was |
| `HttpContextObject.HttpContext.AssertionHolds` | http/HttpRequest.h:26-27 | the assertion fails exactly for a line with a space while a method is set |
| `HttpSessionRuns.MessageKeepsOwed` | http/HttpServer.cc:39-51 | what was dispatched plus what the batch parser finds in the rest is the same before and after a message |
| `HttpSessionRuns.SessionFollowsStream` | http/HttpServer.cc:39-51 | for every cutting and every text still to come, the batch parser finds the dispatched requests and then those left |
| `HttpSessionRuns.DispatchIsPrefixOfBatch` | http/HttpServer.cc:39-51 | for every cutting the dispatched requests are in order a prefix of the batch parser's, all of them once a line was rejected; at most one each message; never finished in between |
| `HttpSessionRuns.QuietMessageMeansCaughtUp` | http/HttpServer.cc:42-50 | after a message that dispatched nothing, everything in the text has been dispatched |
| `HttpSessionRuns.PipelinedRequestWaits` | http/HttpServer.cc:47-50 | of two well-formed requests in one message the second stays unread |
| `HttpSessionRuns.DispatchedIsLeast` | http/HttpServer.cc:39-51 | the number dispatched is the least, over every split of the messages, of the complete requests before it and the messages after it |
| `HttpSessionRuns.AllDispatchedIff` | http/HttpServer.cc:39-51 | every complete request is dispatched if and only if no group of last messages completes more requests than it has messages |
| `HttpSessionRuns.AnyCutsDispatchTheRequest` | http/HttpServer.cc:39-51 | a well-formed request cut in any way is dispatched once, exactly |
| `HttpSessionRuns.RejectionRepeatsOrAborts` | http/HttpContext.cc:42-52 | every message after a rejection, whatever it holds, is rejected once more if the line's method is unknown and aborts the process otherwise |
| `HttpSessionRuns.AbortsIff` | http/HttpRequest.h:26-27 | a run aborts if and only if a message follows the rejection of a line with a known method |
| `HttpSessionRuns.MalformedLineThenAnything` | http/HttpServer.cc:42-45 | after any first line that is no request line, any message aborts the process if the line begins with one of the five method names and a space, and gets a second 400 otherwise |
| `HttpSessionRuns.BadVersionAborts` | http/HttpContext.cc:22-30 | GET with any target and any unsupported version, and then anything, aborts |
| `HttpSessionRuns.UnknownMethodIsRefusedTwice` | http/HttpRequest.h:39-45 | a line whose text before its first space is none of the five names, as that of OPTIONS, and then anything, gets two 400s |
| `HttpSessionRuns.OptionsIsUnknown` | http/HttpRequest.h:39-45 | "OPTIONS", spelled out, is none of the five names, so that a line beginning with it is one of those |
| `HttpServerObject.HttpResponse.constructor` | http/HttpResponse.h:22-22 | an empty response with the given close flag |
| `HttpServerObject.HttpResponse.AppendToBuffer` | http/HttpResponse.cc:8-32 | the output gains the printed response, with headers_ in some order, each once |
| `HttpServerObject.HttpResponse.AppendHeaders` | http/HttpResponse.cc:23-28 | every header is printed once |
| `HttpPersistence.CloseDecisionIsStandardIff` | http/HttpServer.cc:54-57 | for the field lines of any message, closing agrees with section 9.3 of RFC 9112 if and only if no close option is missed (1.1), or a plain Keep-Alive has none beside it and any other keep-alive has one (1.0) |
| `HttpPersistence.HiddenIsMissed` | http/HttpServer.cc:54-57 | any two field lines that hide a close option are sent, parsed and then not honoured |
| `HttpPersistence.LowerCaseNameHidesClose` | http/HttpRequest.h:90-97 | a field name in lower case does |
| `HttpPersistence.OptionListHidesClose` | http/HttpServer.cc:55-55 | so does any list that begins with close |
| `HttpPersistence.RepeatedLineHidesClose` | http/HttpRequest.h:87-87 | so does a second line, which overwrites the first |
| `HttpPersistence.CapitalLetterHidesClose` | http/HttpServer.cc:55-55 | so does a capital letter |
| `HttpServerObject.OnRequest` | http/HttpServer.cc:53-65 | for every callback, what is sent is its response, printed, and the connection is shut down exactly when that response says so |
| `HttpServerObject.HttpSession.OnMessage` | http/HttpServer.cc:39-51 | reading, parsing, rejecting or dispatching and resetting over the real Buffer, after a rejection too, is one step of the session |
| `HttpWire.AnswerIsNextReply` | http/HttpServer.cc:42-65 | what a message makes the server send is the next reply its session calls for |
| `HttpWire.WireCarriesReplies` | http/HttpServer.cc:39-65 | for every cutting, handler and kernel, the bytes taken and buffered are the replies to the dispatched requests in order and then a 400 for each time a malformed line was met, less those that found the peer gone; none is lost unless write reports it |
| `HttpWire.ClosingRepliesLeaveItOpen` | http/HttpServer.cc:42-64 | whatever is replied, the connection stays connected and its write side open, until the process aborts, which happens if and only if a message follows the rejection of a known method |
| `HttpClient.PrefixReadsPrefix` | http/HttpResponse.cc:8-32 | more bytes on the wire do not change what a client has already read |
| `HttpClientReads.FieldsAreRead` | http/HttpResponse.cc:23-30 | printed field lines are read back by a client, all of them and in order |
| `HttpClientReads.StatusIsRead` | http/HttpResponse.cc:9-12 | the printed status code is read back exactly when it has three digits, with the message behind it as the reason phrase |
| `HttpClientReads.ResponseIsReadIff` | http/HttpResponse.cc:8-32 | with anything behind it, a response is read back, status line, fields, body and not a byte more, if and only if it has a final three-digit code, an uncut length line, no body where the method or the code forbids one, and otherwise no transfer encoding and no length in headers_ but the true one (which a closing response needs) |
| `HttpClientReads.HeadBodyIsLeft` | http/HttpResponse.cc:30-31 | the body of a reply to HEAD is left for the client to read as the next status line |
| `HttpClientReads.OtherLengthStopsTheClient` | http/HttpResponse.cc:18-28 | a contradicting length in headers_, in any letters, stops the client |
| `HttpClientReads.InterimIsSkipped` | http/HttpResponse.cc:10-12 | a reply with an interim code is skipped and never read as the reply |
| `HttpEndToEnd.BadRequestIsRead` | http/HttpServer.cc:43-43 | a refused client reads the status line of a 400 and no field |
| `HttpClientReads.ClosingResponseSwallowsTheRest` | http/HttpResponse.cc:15-17 | behind a closing response, which states no length, all that follows reads as more of its body |
| `HttpEndToEnd.InStepIff` | http/HttpServer.cc:53-61 | the client reads each reply on the wire from its first byte to its last if and only if each is delimited for the method of its request |
| `HttpEndToEnd.ClientReadsResponses` | http/HttpServer.cc:39-65 | for every cutting, callback and kernel, the client stays in step with the replies that were not lost if and only if each is delimited; it then reads exactly them, in order, and from a part of the wire the first of them; none is lost unless write reports it |
| `LogSteps.StepKeepsValid` | src/AsyncLogging.cc:29-107 | every append and every step of the back end keeps the buffer and text invariant, and does not crash |
| `LogSteps.RecyclingIsSafe` | src/AsyncLogging.cc:29-107 | in every interleaving no null buffer is used and no empty vector popped, an exhausted spare means a filled buffer waits, and every round starts with two empty spares |
| `LogSteps.LogIsConserved` | src/AsyncLogging.cc:29-107 | in every interleaving swapped-out, waiting and current buffers are the appended messages shorter than a buffer, in order; written and unwritten text is that less the buffers from index 2 on of batches over 25 |
| `LogSteps.NothingLostIff` | src/AsyncLogging.cc:78-89 | written, unwritten, waiting and current text are all of the submitted messages if and only if every batch over 25 holds only empty buffers from index 2 on |
| `PlainLog.LogRefinesPlain` | src/AsyncLogging.cc:29-107 | in every interleaving the log holds and writes what a plain log without spare buffers does: a message goes into the next buffer exactly when it leaves no byte over, a round takes everything, and of more than 25 buffers the first two are written |
| `AsyncLoggingObject.FixedBuffer.constructor` | include/Logger.h:25-25 | an empty buffer |
| `AsyncLoggingObject.FixedBuffer.Append` | include/Logger.h:29-34 | appended only when a byte is left over, else unchanged |
| `AsyncLoggingObject.FixedBuffer.Reset` | include/Logger.h:44-44 | empty again |
| `AsyncLoggingObject.AsyncLogging.constructor` | src/AsyncLogging.cc:11-26 | the valid initial state |
| `AsyncLoggingObject.AsyncLogging.Append` | src/AsyncLogging.cc:29-45 | with a current buffer, exactly the front end's step |
| `AsyncLoggingObject.AsyncLogging.RollCurrent` | src/AsyncLogging.cc:35-41 | the full buffer is queued last, and the spare or a new one is current |
| `AsyncLoggingObject.AsyncLogging.SwapBuffers` | src/AsyncLogging.cc:69-74 | the back end has everything, the front end two buffers |
| `AsyncLoggingObject.AsyncLogging.DropExcess` | src/AsyncLogging.cc:78-85 | only the first two buffers of an oversized batch stay |
| `AsyncLoggingObject.AsyncLogging.WriteBatch` | src/AsyncLogging.cc:87-89 | the batch is written in order while other threads append |
| `AsyncLoggingObject.AsyncLogging.RecycleBuffers` | src/AsyncLogging.cc:91-107 | two empty spares, provided the batch has as many buffers as spares are missing |
| `AsyncLoggingObject.AsyncLogging.Round` | src/AsyncLogging.cc:57-108 | a whole round, with appends between any two of its steps, is one run of the step system and ends ready for the next |
| `PollerSteps.MaxBelow` | src/SelectPoller.cc:69-77 | the largest registered fd, or -1 when there is none |
| `PollerSteps.EpollStepKeepsValid` | src/EPollPoller.cc:37-71 | every update and removal, on any fd, keeps index, channel map and kernel set in step |
| `PollerSteps.EpollMirrorsChannels` | src/EPollPoller.cc:37-123 | for every trace on any fds epoll_ctl is never refused, reading and writing are watched on an fd exactly when they were enabled and not disabled since, and the channel map holds exactly the channels updated since they were last removed |
| `PollerSteps.SelectStepKeepsValid` | src/SelectPoller.cc:27-78 | every update and removal of an fd that an fd_set can hold keeps index, channel map, the sets and maxfd_ in step |
| `PollerSteps.SelectMirrorsChannels` | src/SelectPoller.cc:27-78 | for every trace on such fds the same holds of the select sets and the channel map, exceptfds_ holds the registered fds, and maxfd_ is the largest of them or -1 |
| `PollerSteps.EventsAreWanted` | include/Channel.h:43-47 | after every trace a channel has the events last asked for, each method acting on its own mask |
| `PollerSteps.PollersAgree` | src/SelectPoller.cc:27-78 | for every trace on fds both can hold, the two pollers watch the same events and register the same channels |
| `PollerObjects.ChannelObject.constructor` | include/Channel.h:43-54 | a channel starts with no events and as new to its poller |
| `PollerObjects.ChannelObject.Change` | include/Channel.h:43-47 | each method changes the one mask it names |
| `PollerObjects.EPollPoller.UpdateChannel` | src/EPollPoller.cc:37-58 | exactly the index step, with the channel itself in the map when it was new |
| `PollerObjects.EPollPoller.RemoveChannel` | src/EPollPoller.cc:61-71 | gone from the map and, if it was there, from the kernel |
| `PollerObjects.EPollPoller.Update` | src/EPollPoller.cc:109-123 | the kernel's answer is taken over, a refusal recorded |
| `PollerObjects.SelectPoller.UpdateChannel` | src/SelectPoller.cc:27-56 | the sets follow the channel's events and maxfd_ does not fall |
| `PollerObjects.SelectPoller.RemoveChannel` | src/SelectPoller.cc:59-78 | gone from the map and all sets, maxfd_ recomputed when it was the largest |
| `PollerObjects.SelectPoller.Recalculate` | src/SelectPoller.cc:71-76 | the loop finds the largest fd whatever the order of iteration, or -1 |
| `PollerObjects.ChannelTable.Prepare` | include/Channel.h:43-58 | the channel's events change as asked and no other channel's do, unless an assertion forbids the call |
| `PollerObjects.EpollDrive` | src/EPollPoller.cc:37-123 | for every trace, channel objects and EPollPoller run exactly as the step system does |
| `PollerObjects.SelectDrive` | src/SelectPoller.cc:27-78 | so do channel objects and SelectPoller, for fds an fd_set can hold |

## Left out

- Socket, InetAddress, Acceptor, util, Thread, CurrentThread, CountDownLatch and EventLoopThread: wrappers of system calls with no property across steps.
- EventLoopThreadPool: the loop a connection goes to is an arbitrary choice of each accept.
- Logger, rollOver, file names and Timestamp formatting: the log is one output, its writes are complete, and drop notices are not part of the text.
- Cross-thread send and shutdown: both bind a raw pointer whose lifetime is the caller's; their effects are those of a call on the connection's loop.
- Two closes in one pass (a hang-up and a read of zero bytes): the lifecycle has one handleClose a connection, as its channel is not watched afterwards.
- handleRead's other outcomes: a read of zero bytes is the close of the lifecycle, a failed read only logs.
- SelectPoller::fillActiveChannels and EPollPoller::poll: only registration is modelled; what poll reports is an input.
- Startup and shutdown: quit before loop(), tasks queued by the loop's thread before loop(), the missing last flush of AsyncLogging::stop, and destructors.
- Rounding of a double to microseconds: intervals are whole microseconds.
- Clocks: readings are positive; the step from wall-clock expirations to a monotonic timerfd is taken as exact.
- Connection numbers from INT_MAX on, and for SelectPoller fds from FD_SETSIZE on, where the C++ has no defined behaviour; EPollPoller is modelled for every fd.
- A client that asks for an upgrade, and content codings: no transfer coding but chunked is undone.
- IPv6 listening addresses: the length of an address is bounded by that of IPv4, which is all InetAddress prints.
- The request body: kExpectBody is never entered and is not a state here.
- AsyncLoggingObject.AsyncLogging.Append: buffers are values with one owner, as unique_ptr gives them; the array inside one is FixedBuffer, modelled beside it and not stored in it.
- TimerQueueObject.TimerQueue.Insert: std::set is an ordered sequence with the set's operations as functions; tree nodes are not modelled.
- HttpServerObject.HttpResponse.AppendToBuffer: headers_ is iterated in an arbitrary order, of which std::map's sorted one is a case.
- HttpWire.WireCarriesReplies: the callback and the printer of its response are one arbitrary function of the request; their text is the subject of HttpResponsePrint.
- Interest in a channel's error and hang-up events, which no mask of Channel names.
