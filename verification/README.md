# Verified model of the network library

A multi-reactor network library in the style of muduo, with a log pipeline, an HTTP parser,
a database connection pool and an id generator beside it. Each module below models one of
its core files as it is written, branch by branch, and proves what the file is for. State
that threads share is modelled as a machine whose steps are the sections under a lock, the
system calls and the flag writes; a lemma about all legal schedules then holds of every
interleaving. Beside each machine stands a class with the fields and methods of the
original whose methods are proved to play such schedules (the ghost field `trace`), so that
what is proved of schedules holds of the code. `dafny verify dfyconfig.toml` checks the
whole project.

| file | what it models |
|---|---|
| event_loop.dfy | the cross-thread task queue of `EventLoop` and its wake-up protocol |
| fixed_buffer.dfy, log_stream.dfy, async_logging.dfy | log buffers, the number printer, the double-buffered pipeline |
| timer_queue.dfy | the ordered timer set, the timerfd and callbacks that add timers |
| pollers.dfy | channels and the two pollers behind one interface |
| buffer.dfy, http_request.dfy, http_context.dfy | the compacting byte queue and the resumable parser on it |
| tcp_connection.dfy | the output path of a connection |
| snowflake.dfy | bit-packed ids |
| load_counter.dfy | the load window of a thread |
| connection_pool.dfy | the pool of database connections |

## Where the code does not do what it is for

The code is modelled as it is. Where a property fails, a lemma says exactly when it holds.

- A functor pushed by the loop thread outside the handlers and functors of an iteration
  (by a destructor that runs with the batch, or before `loop()` is entered) is announced to
  nobody, and the loop sleeps on it until `poll` times out after ten seconds:
  `AlwaysCoveredIff`, `DestructorPushIsLost`, `EarlyPushIsLost`. A quit before `loop()` is entered is erased
  by entering it: `QuitFlagIff`, `EarlyQuitIsErased`.
- A log line of 4,000,000 bytes or more vanishes, and what is appended after the last swap
  is never written, because `stop()` does not drain the buffers: `AcceptedAllIff`,
  `ExitCompleteIff`, `StopLosesTail`.
- A timerfd that expires before any timer is due, which the two clocks involved allow, is
  not set again: `TimerQueue.HandleRead`, `TimerQueue.ExpireForNothing`.
- A channel removed from `PollPoller` keeps its index. Used again, it takes the slot of
  another channel or one past the end of the array: `PollUpdateKeepsIff`,
  `RemovedTakesSlot`, `RemovedIsOutOfBounds`.
- A request that is cut directly after a carriage return aborts the process, because only
  the carriage return is searched for. One cut at the end of its head or later is complete
  too early: a caller that does not reset the context is caught in the next call
  (`SplitAgreesIff`, `SplitInvariantIff`), and the server, which resets it, hands on a request whose body is cut
  short, and takes the rest for the next request (`ServedWholeIff`). After one bad request
  line the server answers nothing else on that connection: `BadLineForever`.
- The first query parameter is stored with the question mark in its key, so that its own
  name is found only when a later parameter repeats it: `FirstParamFoundIff`. A context
  that is reset keeps the parameters, and the next request shows them unless it overrides
  them all: `ResetParsesFreshIff`, `ResetIsFreshIff`, `KeptParamsShow`. (The body is kept too, but always
  overridden.)
- A message sent while output is pending, or whose write fails, is dropped: `AcceptedIff`,
  `MessageIsDropped`. A shutdown takes effect exactly when, as the loop comes to run it,
  nothing is pending or the connection has been closed meanwhile. On an open connection
  with output pending it is lost for good, because `handleWrite` tests for
  `kDisconnected`; on a closed one it cuts off what is pending: `ShutdownEffectiveIff`,
  `NoShutdownFromHandleWrite`, `ShutdownIsLost`, `ClosedShutdownCutsOutput`.
- The pool counts every connection twice, so that its producer makes one only while the
  live connections and all those ever made are together fewer than `maxSize`; with
  `maxSize` at most twice `minSize` the pool never grows: `ProducesIff`, `CanGrowIff`.
- A counter takes its thread for asleep until it is told otherwise, and the one of
  `EventLoop`, which only hears of wake-ups, never records any time spent awake:
  `LoadIsExact`, `AwakeTakenForAsleep`, `TruthfulIff`, `OnlyWakingRecordsNoRun`. (The one of `EpollPoller`
  alternates.)

## Model

| member | source | states |
|---|---|---|
| EventLoopProtocol.FunctorsRunOnceInOrder | src/net/EventLoop.cc:120-180 | In every state of every schedule, executed ++ rest of the batch ++ pending is everything queued, in lock order |
| EventLoopProtocol.HistoryStep | src/net/EventLoop.cc:120-180 | Every single step of any thread keeps that equation |
| EventLoopProtocol.NoLostWakeup | src/net/EventLoop.cc:72-180 | In every schedule whose loop-thread pushes happen while the swap lies ahead or the flag is set, queued work is always covered: eventfd readable, swap ahead, or an enqueuer before its wakeup |
| EventLoopProtocol.CoveredStep | src/net/EventLoop.cc:72-180 | A step keeps queued work covered exactly unless it is a push of the loop thread that nothing announces |
| EventLoopProtocol.AlwaysCoveredIff | src/net/EventLoop.cc:72-180 | A schedule is covered throughout exactly when every push of the loop thread in it is announced: the guard holds, the eventfd is readable, or an enqueuer is before its wakeup |
| EventLoopProtocol.ControlHolds | src/net/EventLoop.cc:161-180 | The calling flag is set exactly from before the swap to the end of the batch |
| EventLoopProtocol.NeverBlocksOnWork | src/net/EventLoop.cc:72-136 | The loop is never in poll with an unreadable eventfd and queued work unless an enqueuer is in the middle of its call |
| EventLoopProtocol.QuitFlagIff | src/net/EventLoop.cc:65-100 | The flag holds exactly the quits since `loop()` was last entered |
| EventLoopProtocol.QuitWakesLoop | src/net/EventLoop.cc:65-100 | A quit since `loop()` was entered is never slept through once its call has returned, and the loop leaves exactly for such a quit |
| EventLoopProtocol.EarlyQuitIsErased | src/net/EventLoop.cc:65-100 | A concrete schedule in which a quit before `loop()` leaves it asleep in poll |
| EventLoopProtocol.CounterCounts | src/net/EventLoop.cc:139-158 | The eventfd holds the number of writes since it was last read, up to its maximum: one read takes all |
| EventLoopProtocol.EarlyPushIsLost | src/net/EventLoop.cc:65-136 | A concrete schedule in which the loop sleeps, until poll times out, on a functor queued before `loop()` |
| EventLoopProtocol.DestructorPushIsLost | src/net/EventLoop.cc:161-180 | A concrete schedule in which the loop sleeps, until poll times out, on a functor queued while the batch is destroyed |
| EventLoopProtocol.EventLoop.PushPending | src/net/EventLoop.cc:123-127 | The locked section appends to the queue and plays one push |
| EventLoopProtocol.EventLoop.WriteEventfd | src/net/EventLoop.cc:150-158 | The write adds one to the counter or fails at its maximum |
| EventLoopProtocol.EventLoop.ForeignStep | src/net/EventLoop.cc:92-136 | Another thread pushes, quits or writes the eventfd; the loop thread's own state stands still |
| EventLoopProtocol.EventLoop.QueueInLoop | src/net/EventLoop.cc:120-136 | A call on the loop thread queues its functor and, under the guard, keeps the schedule covered |
| EventLoopProtocol.EventLoop.HandleRead | src/net/EventLoop.cc:139-147 | Reading drains the eventfd |
| EventLoopProtocol.EventLoop.TakeQueue | src/net/EventLoop.cc:163-171 | The flag is set before the whole queue is taken in one swap |
| EventLoopProtocol.EventLoop.RunBatch | src/net/EventLoop.cc:174-177 | The batch runs completely and in order while others queue more |
| EventLoopProtocol.EventLoop.DiscardBatch | src/net/EventLoop.cc:179-180 | The flag is cleared before the batch is destroyed |
| EventLoopProtocol.EventLoop.DoPendingFunctors | src/net/EventLoop.cc:161-180 | Everything queued before the call has run when it returns; what came meanwhile is run or kept |
| EventLoopProtocol.EventLoop.Poll | src/net/EventLoop.cc:75-79 | Poll returns into the handlers, with the wake-up channel active when it is readable and reported |
| EventLoopProtocol.EventLoop.Turn | src/net/EventLoop.cc:72-86 | One iteration polls once, reads a readable eventfd once when poll reports it, has run everything queued before it, and keeps pushes guarded |
| EventLoopProtocol.EventLoop.Loop | src/net/EventLoop.cc:65-89 | All the iterations are made unless somebody quits, and only then it returns; everything queued before the call has run after the first; the history equation and, without enqueuing destructors, coverage hold |
| FixedBuffers.FixedBuffer.Append | include/logger/FixedBuffer.h:12-17 | All of the data when more than its length is free, else nothing |
| FixedBuffers.FixedBuffer.Add | include/logger/FixedBuffer.h:24 | Takes over what the caller wrote behind the cursor |
| FixedBuffers.FixedBuffer.Reset | include/logger/FixedBuffer.h:26 | Empties the buffer |
| AsyncLoggingProtocol.RecyclingIsSafe | src/logger/AsyncLogging.cpp:45-85 | In every run no null buffer is used and no empty vector popped; a missing next buffer implies a filled one; rounds start with two empty spares |
| AsyncLoggingProtocol.BuffersCounted | src/logger/AsyncLogging.cpp:21-85 | A buffer is made exactly when a line does not fit and the spare is gone, and released only at the end of a round, all but two before recycling |
| AsyncLoggingProtocol.RunsUntilStopped | src/logger/AsyncLogging.cpp:47 | The back end leaves its loop only after a stop |
| AsyncLoggingProtocol.LogConserved | src/logger/AsyncLogging.cpp:21-87 | In every run file ++ unwritten ++ filled ++ current buffers are exactly the storable lines in lock order, none split |
| AsyncLoggingProtocol.AppendConserves | src/logger/AsyncLogging.cpp:21-35 | Appending conserves the log, in place or into a replacement |
| AsyncLoggingProtocol.SwapConserves | src/logger/AsyncLogging.cpp:54-60 | Swapping buffers conserves the log |
| AsyncLoggingProtocol.WriteConserves | src/logger/AsyncLogging.cpp:63-65 | Writing one buffer conserves the log |
| AsyncLoggingProtocol.AcceptedAllIff | src/logger/AsyncLogging.cpp:21-35 | No line is lost exactly when every one is shorter than a buffer |
| AsyncLoggingProtocol.ExitCompleteIff | src/logger/AsyncLogging.cpp:47-87 | At exit the file is complete exactly when no line shorter than a buffer was appended after the last swap |
| AsyncLoggingProtocol.FrontIsSinceSwap | src/logger/AsyncLogging.cpp:21-61 | In every run the front end holds exactly the storable lines appended since the last swap |
| AsyncLoggingProtocol.StopLosesTail | src/logger/AsyncLogging.cpp:47-87 | A concrete run that stops with its line unwritten |
| AsyncLoggingProtocol.ExchangeAgrees | src/logger/AsyncLogging.cpp:57 | The swap of the vectors changes owners consistently, none sharing a buffer |
| AsyncLoggingProtocol.RecycleAgrees | src/logger/AsyncLogging.cpp:71-81 | Moving the back of the written vector to a spare keeps every buffer with one owner |
| AsyncLoggingProtocol.AsyncLogging.constructor | src/logger/AsyncLogging.cpp:4-19 | Four distinct empty buffers |
| AsyncLoggingProtocol.AsyncLogging.Append | src/logger/AsyncLogging.cpp:21-35 | The code on real buffers plays one append of the machine |
| AsyncLoggingProtocol.AsyncLogging.SwapBuffers | src/logger/AsyncLogging.cpp:54-60 | The code on real buffers plays the swap, after which all that is stored is in the file or about to be written |
| AsyncLoggingProtocol.AsyncLogging.WriteOne | src/logger/AsyncLogging.cpp:63-65 | One buffer's characters go to the file |
| AsyncLoggingProtocol.AsyncLogging.WriteBuffers | src/logger/AsyncLogging.cpp:63-65 | The lines of all swapped-out buffers are in the file, in order, while the front end goes on |
| AsyncLoggingProtocol.AsyncLogging.RecycleFirst | src/logger/AsyncLogging.cpp:71-75 | The first spare is refilled from a non-empty vector |
| AsyncLoggingProtocol.AsyncLogging.RecycleSecond | src/logger/AsyncLogging.cpp:77-81 | So is the second |
| AsyncLoggingProtocol.AsyncLogging.RecycleWritten | src/logger/AsyncLogging.cpp:67-83 | Afterwards both spares are there and nothing else is kept |
| AsyncLoggingProtocol.AsyncLogging.Round | src/logger/AsyncLogging.cpp:47-85 | One swap; every storable line appended before the round is in the file when it ends |
| AsyncLoggingProtocol.AsyncLogging.ThreadFunc | src/logger/AsyncLogging.cpp:37-87 | All rounds are made unless it is told to stop; the file is a prefix of the storable lines in lock order, with all that were there at the start after the first round |
| TimerQueues.Timer.Restart | src/timer/Timer.cc:3-14 | A repeating timer expires one interval from now, any other at time zero |
| TimerQueues.LowerBoundSplits | src/timer/TimerQueue.cc:109-119 | The lower bound separates the entries below a key from the others |
| TimerQueues.InsertedKeeps | src/timer/TimerQueue.cc:166-181 | Insertion keeps order and distinctness, adds exactly the key, first exactly when below the first |
| TimerQueues.ArmedExactly | src/timer/TimerQueue.cc:71-96 | The split into seconds and nanoseconds is exact, with fewer than 10^9 of the latter: the deadline is the later of the expiration and 100 microseconds from now |
| TimerQueues.InsertConsistent | src/timer/TimerQueue.cc:166-181 | A timer that is nowhere joins the set under its current expiration |
| TimerQueues.SplitConsistent | src/timer/TimerQueue.cc:109-119 | Exactly the entries due at a time leave the set, every timer staying in one place |
| TimerQueues.TakeConsistent | src/timer/TimerQueue.cc:141-156 | An entry that is out can be taken on its own, to go back or be deleted once |
| TimerQueues.TimerQueue.AddTimerInLoop | src/timer/TimerQueue.cc:58-68 | The timerfd stays set for the first entry |
| TimerQueues.TimerQueue.AddTimer | src/timer/TimerQueue.cc:49-56 | Also from a callback, while expired timers are out of the set |
| TimerQueues.TimerQueue.ResetTimerfd | src/timer/TimerQueue.cc:71-96 | Deadline as promised, relative to the time of the call |
| TimerQueues.TimerQueue.Insert | src/timer/TimerQueue.cc:166-181 | Reports exactly whether the earliest time changed |
| TimerQueues.TimerQueue.GetExpired | src/timer/TimerQueue.cc:109-119 | Takes out exactly the due entries, as a prefix |
| TimerQueues.TimerQueue.ResetOne | src/timer/TimerQueue.cc:144-163 | One expired timer goes back one interval after a time just read, or is freed |
| TimerQueues.TimerQueue.Reset | src/timer/TimerQueue.cc:141-164 | Every expired one-shot is freed once, in order, and every repeater is back in the set under an expiration one interval after a time read since |
| TimerQueues.TimerQueue.RunCallbacks | src/timer/TimerQueue.cc:128-134 | The callback of every expired timer runs once, in order, and may add timers |
| TimerQueues.TimerQueue.HandleRead | src/timer/TimerQueue.cc:121-139 | Exactly the due timers fire, once each, and are freed or back; and exactly when the timerfd is set for the first entry afterwards |
| TimerQueues.TimerQueue.ExpireForNothing | src/timer/TimerQueue.cc:121-164 | A run that ends with a timer waiting and the timerfd unset |
| TimerQueues.TimerQueue.Perform | src/timer/TimerQueue.cc:49-181 | Each add, expiration or handler call has its effect: the timer inserted, exactly the due timers fired, freed or back |
| TimerQueues.TimerQueue.Run | src/timer/TimerQueue.cc:49-181 | Over any run of them each has its effect, every key is its timer's expiration, each live timer is in the set exactly once, none is freed twice, and the timerfd stays set for the first entry |
| Pollers.Channel.EnableReading | include/net/Channel.h:42 | Reading on, writing as before |
| Pollers.Channel.DisableReading | include/net/Channel.h:43 | Reading off, writing as before |
| Pollers.Channel.EnableWriting | include/net/Channel.h:44 | Writing on, reading as before |
| Pollers.Channel.DisableWriting | include/net/Channel.h:45 | Writing off, reading as before |
| Pollers.Channel.DisableAll | include/net/Channel.h:46 | No interest at all |
| Pollers.ShortExact | src/net/poller/PollPoller.cc:58-73 | The cast to 16 bits loses no event |
| Pollers.PollUpdateKeeps | src/net/poller/PollPoller.cc:50-80 | Slot, index and map stay in one-to-one correspondence and the events are registered |
| Pollers.UpdateIgnoresIff | src/net/poller/PollPoller.cc:64-79 | Poll looks at an updated channel exactly when it wants some event or is new; one that wants nothing is encoded as `-fd - 1` |
| Pollers.UpdateLeavesOthers | src/net/poller/PollPoller.cc:50-80 | And looks at the others as before |
| Pollers.PollUpdateKeepsIff | src/net/poller/PollPoller.cc:50-80 | An update stays in the array and keeps the correspondence exactly when the channel is new or registered |
| Pollers.RemovedIsOutOfBounds | src/net/poller/PollPoller.cc:64-107 | Added, removed and used again, the only channel has an index past the end |
| Pollers.RemovedTakesSlot | src/net/poller/PollPoller.cc:64-107 | Of two channels the first, removed and used again, takes the slot of the second, which poll is no longer asked for |
| Pollers.PollRemoveDefined | src/net/poller/PollPoller.cc:82-107 | Removal of a registered channel finds its slot and the owner of the last one |
| Pollers.PollRemoveMoves | src/net/poller/PollPoller.cc:96-106 | Every remaining channel keeps its slot's contents |
| Pollers.PollRemoveKeeps | src/net/poller/PollPoller.cc:82-107 | Swap-remove keeps the correspondence and drops one registration |
| Pollers.EpollUpdateKeeps | src/net/poller/EpollPoller.cc:87-129 | The kernel set and the three states follow the registrations; the kernel is never asked for anything it refuses |
| Pollers.EpollAddKeeps | src/net/poller/EpollPoller.cc:95-110 | A new or deleted channel is added, and was absent |
| Pollers.EpollRemoveKeeps | src/net/poller/EpollPoller.cc:132-145 | Removal drops one registration, deleting from the kernel only what is there |
| Pollers.PollAsksIff | src/net/poller/PollPoller.cc:14-31 | The array asks `poll` for exactly the interest map |
| Pollers.Play | src/net/poller/PollPoller.cc:50-107 | Over any well-formed run both pollers keep matching the registrations |
| Pollers.PollersAgree | src/net/poller/EpollPoller.cc:87-145 | After any well-formed run both pollers ask for the same events on the same descriptors |
| Pollers.ListedIff | src/net/poller/EpollPoller.cc:87-145 | In every run `channels_` of EpollPoller lists exactly the registered channels that were never disabled |
| Pollers.ActiveExactly | src/net/poller/PollPoller.cc:33-48 | The active channels are exactly those with positive revents, once each, in slot order |
| Pollers.NoneLeft | src/net/poller/PollPoller.cc:35-38 | Stopping after numEvents slots misses none |
| Pollers.PollPoller.UpdateChannel | src/net/poller/PollPoller.cc:50-80 | The code on the array and the channels does the update |
| Pollers.PollPoller.RemoveChannel | src/net/poller/PollPoller.cc:82-107 | The code does the swap-remove |
| Pollers.PollPoller.FillActiveChannels | src/net/poller/PollPoller.cc:33-48 | The loop finds all active channels and hands them their revents |
| Pollers.EpollPoller.Update | src/net/poller/EpollPoller.cc:148-187 | One call of epoll_ctl that is not refused |
| Pollers.EpollPoller.UpdateChannel | src/net/poller/EpollPoller.cc:87-129 | The code on the kernel set and the channels does the update |
| Pollers.EpollPoller.RemoveChannel | src/net/poller/EpollPoller.cc:132-145 | The code does the removal |
| ByteBuffers.Buffer.Retrieve | include/net/Buffer.h:34-44 | Drops bytes from the front, or all |
| ByteBuffers.Buffer.RetrieveUntil | include/net/Buffer.h:120-125 | Drops up to a position, aborting exactly when it is outside |
| ByteBuffers.Buffer.RetrieveAsString | include/net/Buffer.h:62-73 | Takes bytes off the front, aborting exactly when there are too few |
| ByteBuffers.Buffer.Grow | include/net/Buffer.h:152-156 | The array grows to just what is needed |
| ByteBuffers.Buffer.SlideDown | include/net/Buffer.h:157-164 | The readable bytes move to the front of the same array |
| ByteBuffers.Buffer.MakeSpace | include/net/Buffer.h:144-165 | Room is made and the readable bytes stay; a larger array is taken exactly when they and the new ones do not fit |
| ByteBuffers.Buffer.EnsureWriteableBytes | include/net/Buffer.h:76-82 | Room for as many bytes as asked |
| ByteBuffers.Buffer.Append | include/net/Buffer.h:85-92 | The queue is concatenated with the data |
| ByteBuffers.Buffer.FindCRLF | include/net/Buffer.h:114-118 | The first carriage return, with or without a line feed behind it |
| ByteBuffers.Buffer.ReadFd | src/net/Buffer.cc:11-43 | What the kernel delivers into one or both vectors is concatenated, in order |
| ByteBuffers.PerformOne | include/net/Buffer.h:34-125 | Each call, `readFd` among them, does to the array what it does to the byte queue, or aborts exactly when out of bounds |
| ByteBuffers.Perform | include/net/Buffer.h:34-125 | Any sequence of calls refines the byte queue, up to the first that aborts |
| ByteBuffers.StreamConserved | include/net/Buffer.h:34-125 | Over any sequence of calls, what was there and what came in, in order, is what went out, in order, and what is left |
| HttpRequests.MethodRoundTrip | include/http/HttpRequest.h:37-51 | Every method's name is read back |
| HttpRequests.HeaderValueTrims | include/http/HttpRequest.h:116-130 | Blanks around a header value are cut off and nothing else is |
| HttpRequests.ParamsRoundTrip | include/http/HttpRequest.h:74-89 | Printed query parameters are read back, all of them |
| HttpRequests.FirstParamKeepsQuestionMark | include/http/HttpRequest.h:74-89 | Given the query with its question mark, the first key keeps it |
| HttpRequests.FirstParamFoundIff | include/http/HttpRequest.h:74-89 | Its own name is then stored exactly when a later parameter repeats it |
| HttpRequests.KnownMethods | include/http/HttpRequest.h:44-50 | Exactly five names are methods, each the one it names |
| HttpRequests.HttpRequest.SetMethod | include/http/HttpRequest.h:37-51 | Accepted exactly for one of five names when no method is set; a set one stays |
| HttpRequests.PieceStored | include/http/HttpRequest.h:80-88 | A piece of the query is cut at its first equals sign and its value at a line feed, and dropped with nothing behind the sign |
| HttpRequests.PieceDropped | include/http/HttpRequest.h:80-88 | A piece without an equals sign is dropped |
| HttpRequests.PiecesJoin | include/http/HttpRequest.h:78-80 | The pieces are all that lies between ampersands but an empty last one |
| HttpRequests.HttpRequest.SetQuery | include/http/HttpRequest.h:74-89 | The loop over the pieces stores each key with a value |
| HttpRequests.HttpRequest.AddHeader | include/http/HttpRequest.h:116-130 | The trimming loops store the trimmed value |
| HttpRequests.HttpRequest.Reset | include/http/HttpContext.h:29-33 | What swapping with a new request leaves |
| HttpContexts.ParseResumes | src/http/HttpContext.cc:38-89 | Parsing what has arrived and then the rest ends like parsing all at once |
| HttpContexts.TimeIndependent | src/http/HttpContext.cc:47-49 | The receive time decides nothing else |
| HttpContexts.ChunksResume | src/http/HttpContext.cc:38-89 | Any number of chunks, at any times, parse like their concatenation as long as the parser waits between them |
| HttpContexts.RequestLineRoundTrip | src/http/HttpContext.cc:5-35 | A printed request line is read back |
| HttpContexts.HeadersRoundTrip | src/http/HttpContext.cc:57-73 | Printed header lines and the body are read back |
| HttpContexts.LineAcceptedIff | src/http/HttpContext.cc:5-35 | Exactly the lines of three words are accepted whose first is one of five methods and whose last one of two versions |
| HttpContexts.LineMeans | src/http/HttpContext.cc:5-35 | What method, version, path and query such a line gives |
| HttpContexts.RefusedLineLeaves | src/http/HttpContext.cc:5-35 | What a refused line leaves in the request |
| HttpContexts.SetMethodRefuses | src/http/HttpContext.cc:9 | With a method set every line is refused |
| HttpContexts.ParseRefusesIff | src/http/HttpContext.cc:38-56 | The parser reports a bad request exactly for a line that is not good, consuming nothing; a good one goes with the character behind its carriage return |
| HttpContexts.HeadersNeverRefused | src/http/HttpContext.cc:57-86 | Past the request line nothing is refused |
| HttpContexts.HeaderLineStored | src/http/HttpContext.cc:59-69 | A header line is stored under what is before its first colon |
| HttpContexts.BareLineEndsHead | src/http/HttpContext.cc:64-86 | Any line without a colon ends the head, and all behind it is the body |
| HttpContexts.BadLineForever | src/http/HttpServer.cc:79-96 | After a refused line the server hands nothing on any more, whatever arrives |
| HttpContexts.NothingAfterBadLine | src/http/HttpServer.cc:79-96 | So from a fresh context for every line that is not good |
| HttpContexts.RoundTrip | src/http/HttpContext.cc:5-89 | A printed request, parsed in one buffer from a fresh context, gives back its fields, takes every byte and is complete (sections 3.1.1 and 3.2 of RFC 7230) |
| HttpContexts.ResetParsesFreshIff | include/http/HttpContext.h:29-33 | After a reset the next request is parsed as by a new context exactly when its own query overrides every parameter that was kept |
| HttpRequests.OverriddenIff | include/http/HttpRequest.h:74-89 | New parameters lie over old ones, which make no difference exactly when all of them are overridden |
| HttpContexts.ResetIsFreshIff | include/http/HttpContext.h:29-33 | That holds of every next request exactly when no parameters were kept |
| HttpContexts.KeptParamsShow | src/http/HttpServer.cc:79-96 | Through the server, a request without a query is handed on with the parameters of the one before |
| HttpContexts.KeptParamExample | src/http/HttpServer.cc:79-96 | After `/?a=1` the request `/` has a parameter |
| HttpContexts.HeadCut | src/http/HttpContext.cc:38-73 | On any proper prefix of a head the parser waits, or aborts exactly after a carriage return |
| HttpContexts.SplitAgreesIff | src/http/HttpContext.cc:38-89 | Without a reset in between, two parts parse like the whole exactly when the cut lies in the head and not after a carriage return |
| HttpContexts.ServedWholeIff | src/http/HttpServer.cc:79-96 | The server, which resets, hands on exactly the request sent exactly for such a cut or when the first part is everything; cut past the head, it hands on the body so far |
| HttpContexts.SplitInvariantIff | src/http/HttpContext.cc:38-89 | Any number of chunks, whenever they arrive and without a reset in between, complete the request of the whole exactly when every cut lies in the head and none falls directly after a carriage return |
| HttpContexts.CompletesEarly | src/http/HttpContext.cc:74-86 | As soon as the head has arrived the request is complete, with what there is of the body |
| HttpContexts.HttpContext.ProcessRequestLine | src/http/HttpContext.cc:5-35 | The code computes the request line's function, on failures too |
| HttpContexts.HttpContext.TurnRequestLine | src/http/HttpContext.cc:42-56 | One turn of the loop ends or goes on with the same outcome, in a later state |
| HttpContexts.HttpContext.TurnHeaders | src/http/HttpContext.cc:57-73 | One turn of the loop goes on with fewer bytes |
| HttpContexts.HttpContext.TurnBody | src/http/HttpContext.cc:74-86 | Everything in the buffer becomes the body |
| HttpContexts.HttpContext.ParseRequest | src/http/HttpContext.cc:38-89 | The loop on the real buffer terminates and has the outcome of the parse function |
| HttpContexts.HttpContext.Reset | include/http/HttpContext.h:29-33 | Back to the request line, parameters and body kept |
| TcpConnections.OneStream | src/net/TcpConnection.cc:185-348 | In every run wire ++ output buffer is the accepted messages in order, and an open connection watches for writability exactly when output is pending |
| TcpConnections.StreamStep | src/net/TcpConnection.cc:185-348 | Every step keeps the stream |
| TcpConnections.AcceptedIff | src/net/TcpConnection.cc:185-256 | A message is accepted exactly when the connection is open, nothing is pending and the write does not fail; what the kernel takes is on the wire and the rest pending; else nothing changes |
| TcpConnections.ClosedForever | src/net/TcpConnection.cc:185-390 | Whatever follows a close, the connection stays disconnected and unwatched and nothing is accepted or written |
| TcpConnections.DestroyedForeverIff | src/net/TcpConnection.cc:185-348 | `connectDestroyed` does the same to a connected one, and nothing to any other |
| TcpConnections.DrainPart | src/net/TcpConnection.cc:316-320 | A write of pending output puts that much of it on the wire |
| TcpConnections.DrainWhole | src/net/TcpConnection.cc:316-325 | A write of all of it unwatches the channel |
| TcpConnections.FinAfterEverything | src/net/TcpConnection.cc:271-277 | When an open connection's write side is shut down every accepted byte is on the wire |
| TcpConnections.NothingAfterFin | src/net/TcpConnection.cc:271-348 | A shut write side stays shut; that nothing more reaches the wire is what the kernel promises of its writes |
| TcpConnections.NoShutdownFromHandleWrite | src/net/TcpConnection.cc:308-348 | The call at the end of the write handler is never reached |
| TcpConnections.PendingShutdownIsLost | src/net/TcpConnection.cc:259-348 | A shutdown that found output pending never happens |
| TcpConnections.OneShutdown | src/net/TcpConnection.cc:259-277 | In every run at most one shutdown is on its way, from a connection no longer open, and the write side is not shut before it arrives |
| TcpConnections.ShutdownEffectiveIff | src/net/TcpConnection.cc:259-390 | A shutdown takes effect, whatever follows, exactly when nothing is pending or the connection is closed as the loop runs it |
| TcpConnections.ClosedShutdownCutsOutput | src/net/TcpConnection.cc:259-390 | A message partly written, a shutdown, and a close before the loop runs it: the write side is shut in front of the rest |
| TcpConnections.MessageIsDropped | src/net/TcpConnection.cc:185-256 | Whatever part of a message is left over, the next one is dropped |
| TcpConnections.ShutdownIsLost | src/net/TcpConnection.cc:185-348 | A message partly written, then a shutdown: whatever follows, the write side stays open |
| TcpConnections.Socket.Write | src/net/TcpConnection.cc:201 | The kernel takes a prefix or fails |
| TcpConnections.TcpConnection.SendInLoop | src/net/TcpConnection.cc:185-256 | The code on the real output buffer plays one send |
| TcpConnections.TcpConnection.WriteNow | src/net/TcpConnection.cc:187-230 | Only a successful direct write leaves anything to queue |
| TcpConnections.TcpConnection.QueueRest | src/net/TcpConnection.cc:232-255 | The rest is appended and the channel watched |
| TcpConnections.TcpConnection.HandleWrite | src/net/TcpConnection.cc:308-348 | The code plays one write of pending output |
| TcpConnections.TcpConnection.Shutdown | src/net/TcpConnection.cc:259-269 | Only a connected one is shut down, at once or when the loop comes to it |
| TcpConnections.TcpConnection.ShutdownInLoop | src/net/TcpConnection.cc:271-277 | The write side is shut down unless output is pending |
| TcpConnections.TcpConnection.ConnectEstablished | src/net/TcpConnection.cc:280-290 | The connection opens |
| TcpConnections.TcpConnection.ConnectDestroyed | src/net/TcpConnection.cc:293-305 | A connected one is closed |
| TcpConnections.TcpConnection.HandleClose | src/net/TcpConnection.cc:376-390 | The connection closes and nothing is watched for |
| Snowflakes.OrDisjoint | oj/src/utils/snowflake.hpp:87 | Or of a shifted number and one below the shift is their sum |
| Snowflakes.AndMask | oj/src/utils/snowflake.hpp:74 | And with a mask of ones is the remainder |
| Snowflakes.Layout | oj/src/utils/snowflake.hpp:87 | The four fields of an id do not overlap; the offset is cut to 42 bits |
| Snowflakes.DecodesBack | oj/src/utils/snowflake.hpp:87 | The fields can be read off an id |
| Snowflakes.NonNegativeIff | oj/src/utils/snowflake.hpp:87 | An id is non-negative exactly while the offset modulo 2^42 is below 2^41; its value then, in numbers |
| Snowflakes.SameIdIff | oj/src/utils/snowflake.hpp:87 | Two ids are equal exactly when datacenter, worker and sequence are and the times differ by whole turns of 2^42 |
| Snowflakes.NextAdvances | oj/src/utils/snowflake.hpp:67-105 | One id takes the first clock reading as its time, or, with the sequence used up, the first later one; the sequence goes up by one within a millisecond and restarts at 0 in a new one |
| Snowflakes.RunAdvances | oj/src/utils/snowflake.hpp:67-88 | Over any run time and sequence go up together, at most 4096 ids to a millisecond |
| Snowflakes.IdsIncrease | oj/src/utils/snowflake.hpp:67-88 | Over any run no id repeats within 2^42 milliseconds, ids increase exactly within one signed window, and from the epoch on they increase and stay non-negative while the offset is below 2^41 |
| Snowflakes.NeverCollide | oj/src/utils/snowflake.hpp:67-88 | Generators with different numbers never give the same id |
| Snowflakes.Snowflake.Init | oj/src/utils/snowflake.hpp:51-65 | Numbers outside 0 to 31 are refused and change nothing |
| Snowflakes.Snowflake.WaitNextMillis | oj/src/utils/snowflake.hpp:97-105 | The loop stops at the first reading later than the last time |
| Snowflakes.Snowflake.NextId | oj/src/utils/snowflake.hpp:67-88 | The code takes the next point of the run and returns its id |
| LogStreams.DecimalRoundTrip | src/logger/LogStream.cpp:7-26 | What is printed is a canonical numeral that reads back as the number |
| LogStreams.CanonicalUnique | src/logger/LogStream.cpp:7-26 | And the only canonical numeral of it |
| LogStreams.DigitCountIff | src/logger/LogStream.cpp:13-17 | A number has at most k digits exactly when it is below 10^k |
| LogStreams.FitsGuard | include/logger/LogStream.h:52 | Digits, sign and NUL of any 64-bit value fit below the guard |
| LogStreams.MirroredTable | src/logger/LogStream.cpp:4-16 | With truncated division the mirrored table gives the right digit for negative remainders too |
| LogStreams.Reverse | src/logger/LogStream.cpp:23 | The in-place reversal of a stretch leaves the rest alone |
| LogStreams.LogStream.WriteDigits | src/logger/LogStream.cpp:13-17 | The loop writes the digits backwards, at most 20 |
| LogStreams.LogStream.WriteBackwards | src/logger/LogStream.cpp:9-22 | With the sign, for the minimum too, and NUL |
| LogStreams.LogStream.FormatInteger | src/logger/LogStream.cpp:7-26 | Appends the canonical numeral, NUL behind it, or nothing when fewer than 48 characters are free |
| ThreadLoadCounters.RecordsTile | src/net/ThreadLoadCounter.cpp:10-32 | In every alternating run the records and the interval going on tile the end of the thread's life tick by tick, and are at most `_max_size` |
| ThreadLoadCounters.CallKeeps | src/net/ThreadLoadCounter.cpp:10-70 | Every call in turn keeps the tiling |
| ThreadLoadCounters.ReportKeepsRecords | src/net/ThreadLoadCounter.cpp:10-32 | A report keeps every record but the oldest of a full list, and puts behind them one of the time since the matching mark |
| ThreadLoadCounters.RecordsKept | src/net/ThreadLoadCounter.cpp:10-32 | A run of reports keeps one record for each, up to `_max_size` |
| ThreadLoadCounters.Congruent | src/net/ThreadLoadCounter.cpp:14-69 | Unsigned arithmetic and the cast keep numbers modulo 2^64 and 2^32, in range |
| ThreadLoadCounters.TruthfulIff | src/net/ThreadLoadCounter.cpp:10-32 | Once time has passed, a call keeps the records true exactly when it is in turn |
| ThreadLoadCounters.LongestSuffix | src/net/ThreadLoadCounter.cpp:55-65 | `load` keeps the longest suffix of the records within `_max_usec`, or none |
| ThreadLoadCounters.LoadIsExact | src/net/ThreadLoadCounter.cpp:35-70 | The answer is the floor of 100 times the ticks awake in the window over its length, from 0 to 100, exactly when the thread was asleep at the start, something has been reported, or no time has passed |
| ThreadLoadCounters.AwakeTakenForAsleep | src/net/ThreadLoadCounter.cpp:35-70 | The counter of a thread awake from the start answers 0 where the truth is 100 |
| ThreadLoadCounters.OnlyWakingRecordsNoRun | src/net/EventLoop.cc:72-86 | A counter told only of wake-ups never records time awake |
| ThreadLoadCounters.ThreadLoadCounter.StartSleep | src/net/ThreadLoadCounter.cpp:10-20 | The code adds a record awake and drops only the oldest beyond the limit |
| ThreadLoadCounters.ThreadLoadCounter.SleepWakeUp | src/net/ThreadLoadCounter.cpp:22-32 | The code adds a record asleep |
| ThreadLoadCounters.ThreadLoadCounter.Totals | src/net/ThreadLoadCounter.cpp:37-46 | The loop sums both kinds, modulo 2^64 |
| ThreadLoadCounters.ThreadLoadCounter.Load | src/net/ThreadLoadCounter.cpp:35-70 | The trimming loop keeps sums and list in step, modulo 2^64 |
| ConnectionPools.EachConnectionOnce | src/mysql/ConnectionPool.cc:61-154 | In every interleaving each connection ever made is idle, leased or destroyed, exactly once; the queue is in order of the last refresh; `currentSize_` is the live ones plus all ever made |
| ConnectionPools.PlacesStep | src/mysql/ConnectionPool.cc:61-154 | Every step only moves connections about or adds a new one |
| ConnectionPools.QueueStep | src/mysql/ConnectionPool.cc:61-154 | Connections enter at the back with the time of the step and leave at the front |
| ConnectionPools.ExpiredIff | src/mysql/MysqlConn.cc:123-131 | A connection is expired exactly when its idle time has passed since the last refresh |
| ConnectionPools.NegativeNeverRecycles | src/mysql/ConnectionPool.cc:93 | A negative `minSize` disables the recycler |
| ConnectionPools.SizeStep | src/mysql/ConnectionPool.cc:61-119 | Every step changes `currentSize_` with the live connections and those ever made together |
| ConnectionPools.FirstYoungAllYoung | src/mysql/ConnectionPool.cc:93-108 | The first connection is young exactly when all are |
| ConnectionPools.ProducesIff | src/mysql/ConnectionPool.cc:74-80 | The producer makes a connection exactly when live plus ever made is below `maxSize` |
| ConnectionPools.SizesBounded | src/mysql/ConnectionPool.cc:13-119 | Live connections are never fewer than `minSize`, never more than `currentSize_`, and over its whole life a pool makes no more than the larger of `minSize` and `maxSize` |
| ConnectionPools.NeverTooMany | src/mysql/ConnectionPool.cc:61-82 | With `minSize <= maxSize` never more than `maxSize` are alive |
| ConnectionPools.NeverGrows | src/mysql/ConnectionPool.cc:74-119 | With `maxSize` at most twice `minSize` no connection is ever added |
| ConnectionPools.CanGrowIff | src/mysql/ConnectionPool.cc:74-119 | Some run makes the pool grow exactly when `maxSize` is more than twice `minSize` |
| ConnectionPools.ConnectionPool.constructor | src/mysql/ConnectionPool.cc:13-29 | The loop opens `minSize` connections and counts each twice |
| ConnectionPools.ConnectionPool.AddConnection | src/mysql/ConnectionPool.cc:112-119 | A refreshed connection at the back, counted once |
| ConnectionPools.ConnectionPool.ProduceConnection | src/mysql/ConnectionPool.cc:73-80 | The code plays one production |
| ConnectionPools.ConnectionPool.RecycleConnection | src/mysql/ConnectionPool.cc:85-110 | The loop destroys expired connections only, never goes below `minSize`, and when it stops above it none is expired |
| ConnectionPools.ConnectionPool.GetConnection | src/mysql/ConnectionPool.cc:141-153 | The oldest idle connection is leased |
| ConnectionPools.ConnectionPool.ReturnConnection | src/mysql/ConnectionPool.cc:145-150 | A lease goes back refreshed, at the end of the queue |

## Left out

- Scheduling: that a thread which can go on does so; fairness, deadlock of the C++ runtime.
- Data races: `load()` reads without its lock, `quit_` and the flags of the loop are read and written without one; each read or write is one step here.
- EventLoopProtocol.EventLoop.Loop: the number of iterations and what poll's report has room for are parameters; user code is any number of enqueuing calls, and when destructors enqueue only the history is promised.
- AsyncLoggingProtocol.AsyncLogging.ThreadFunc: the number of rounds is a parameter, the timed wait may end at any time, the run begins after `start()`, and the log file is the sequence of characters given to it; `LogFile` and `FileUtil` are not part of this model.
- TimerQueues.TimerQueue.Run: times and intervals are whole microseconds, not `double`; a handler is run only when the time it reads has reached the deadline, and a new timer gets an address that no live one has.
- Cancelling timers: the original cannot.
- Pollers.PollersAgree: as the original asks of its callers, live channels have distinct descriptors, only registered ones are removed and removed ones are not used again.
- Pollers.EpollPoller.UpdateChannel: its own `channels_` is not promised to list the registered channels, because one that comes back from `kDeleted` is not put there again.
- Pollers.PollPoller.FillActiveChannels: `numEvents` is the number of slots with positive revents, as `poll` returns it; `poll`, `epoll_wait` and the growth of the event list are not modelled.
- Channel callbacks, the dispatch on `revents_` and the call of `update` behind each change of interest, which here the caller of the poller makes.
- HttpContexts.HttpContext.ParseRequest: a call on a complete request is excluded, because the original never returns from it (the outcome `Stuck` of the parse function); its one caller resets before the next call.
- HttpContexts.RoundTrip: names and values with a carriage return, and targets with a blank, are outside the printed form; header names may be anything without a colon.
- HttpRequest copies and getters, `HttpResponse`, and of `HttpServer` all but the parse, hand on and reset of `onMessage`: they add only easy members.
- Characters stand for bytes throughout; `std::isspace` is that of the C locale.
- TcpConnections.TcpConnection.SendInLoop: the write-complete and high-water callbacks are not called; `send` before it only tests for `kConnected` and hands the message to the loop.
- Sockets, acceptor, connector, client and server wiring, thread pools: thin wrappers or simpler queues.
- Snowflakes.Snowflake.WaitNextMillis: the clock never goes back and does not stop for ever; with a stopped clock the original loops.
- LogStreams.LogStream.FormatInteger: stands for every instantiation of 64 bits or fewer; floating point and `Fmt`, which call `snprintf`, are not modelled.
- ThreadLoadCounters.LoadIsExact: for windows shorter than 2^64 / 100 microseconds, some 5800 years; beyond that the product wraps as in the original.
- ConnectionPools.ConnectionPool.RecycleConnection: the period of the recycler, the condition variable and time-outs are scheduling; whether the database accepts a connection is not looked at by the original either.
- ConnectionPools.ConnectionPool.ReturnConnection: a connection is a value with an identity and its refresh time; queries on it are not part of this model, nor is the destructor of the pool.
- The online judge on top, JSON, MySQL, MongoDB and Redis calls.
