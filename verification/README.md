# TWNL, verified models

TWNL is a multi-threaded TCP library built on the reactor pattern. This project models its coupled state
machines and data structures in Dafny and proves what its comments, assertions and callers rely on. The
kernel (poll, epoll, eventfd, timerfd, read, write, connect) appears as choices passed in: which events are
reported, how many bytes move, which error comes back.

| file | models |
|---|---|
| `Basics.dfy` | small definitions the other files share |
| `LogStream.dfy` | digit loops, in-place reversal, the fixed log buffer |
| `Buffer.dfy` | byte buffer with reclaimable prefix, scatter read, draining loops |
| `Channel.dfy` | event masks and callback dispatch of a channel |
| `Pollers.dfy` | the dense `pollfd` array and the epoll registration states |
| `TimerQueue.dfy`, `TimerObjects.dfy` | ordered timer set, expiry, one-shot timerfd, catch-up; the objects behind it |
| `EventLoop.dfy` | functors handed to the loop thread from any thread |
| `Connector.dfy` | non-blocking connect with retries and backoff |
| `TcpConnection.dfy`, `TcpConnectionObject.dfy` | output path, half-close and life of one connection; the object over its buffers |
| `TcpServer.dfy` | connections shared between the base loop and the I/O loops |

Where the library changes objects step by step, a class does the same, and each of its methods is proved
against a function on values; properties of whole runs are proved about those functions. Concurrency is a
state machine whose steps are the locked sections, system calls and callbacks, in any interleaving.

## What the code does not do

The models follow the code as written. Where it falls short of its own assertions or comments, a lemma gives
an example and another gives the exact condition:

- `makeSpace` tests the readable length where the reclaimable prefix (the reader index) is needed, so the
  assertion that closes `ensureWriteBytes` fails exactly on the requests described by `Trap`. A fresh buffer
  of 1024 bytes fails on a first read of 1500 bytes (`FirstReadTrap`). The buffer model takes the
  guard as a parameter: with the prefix in it there is always room (`IntendedGuardSuffices`).
- `writeFd` moves the reader index and never resets it, and `makeSpace` grows an empty buffer instead of
  compacting it, so the vector behind an output buffer has room for every byte that ever went through
  (`DrainedBufferOnlyGrows`, `OutputBufferOnlyGrows`).
- `sendInLoop` buffers what is left over only inside the branch for idle output, although the comments say
  that data sent meanwhile is queued. A send that meets pending output is dropped
  (`SendWhilePendingIsLost`, `AcceptedExactly`). The model of the connection and its class take the nesting
  as a parameter, so that results hold for the code and for the nesting the comments want, under which
  nothing is lost (`IntendedNestingLosesNothing`). To mend the nesting alone makes sends meet the guard of
  `makeSpace` (`MendedNestingMeetsGuard`); with both mended nothing fails (`IntendedSessionsRunThrough`).
- `readFdET` and `writeFdET` return 0 or -1 instead of the byte count unless they stop on `EAGAIN` or their
  first call moves nothing (`ReadLoopReturn`, `WriteLoopReturn`); bytes followed by the end of the stream, and
  a complete drain, report 0 (`BytesThenEndReturnsZero`, `FullDrainReturnsZero`).
- `queueInLoop` called on the loop thread before `loop()` wakes nobody: the functor is stranded exactly if no
  wake-up is due and no other thread calls in (`EarlyFunctorIsStranded`, `EarlyFunctorNeedsAnother`). A `quit`
  before `loop()` is forgotten (`QuitBeforeLoopIsForgotten`); one inside it never is
  (`QuitIsNotSleptThrough`).
- One dispatch runs both the close and the read callback on a hang-up without input but with urgent or
  half-close data (`CloseAndReadTogether`); exactly when that read finds the end of the stream, the assertion
  in `handleClose` fails (`DispatchFailsExactly`, `CloseThenReadFails`).
- Under edge triggering, enabling reading makes `isWriting()` true (`ReadingLooksLikeWriting`).
- A connection attempt that proceeds before the previous channel's reset has run fails the assertion in
  `connecting`, and a start or a retry timer that finds the connector busy fails the one in `startInLoop`;
  `start` does not cancel a pending retry (`AssertionFailsExactly`, `StopAndStartTooSoonFails`,
  `StartWhileRetryPendsFails`).
- `assert(n = 1)` after the map erase is an assignment; that `n == 1` holds is proved.

## Model

| member | source | states |
|---|---|---|
| LogStream.PositionalRoundTrip | twnl/Log/LogStream.cc:46-62 | in any base from 2 to 16 the printed digits of n parse back to n |
| LogStream.PositionalUnique | twnl/Log/LogStream.cc:23-62 | a digit string without leading zero that parses to n is the printed one, so value and absence of leading zeros determine the text |
| LogStream.NoLeadingZero | twnl/Log/LogStream.cc:29-34 | the text begins with 0 only for zero, and is then one digit |
| LogStream.PrintParse | twnl/Log/LogStream.cc:23-44 | printing then parsing is the identity on every integer, the most negative included, and printing is injective |
| LogStream.PositionalLength | twnl/Log/LogStream.cc:29-34 | k digits suffice exactly for the values below base^k |
| LogStream.PrintedLength | twnl/Log/LogStream.h:149 | every signed or unsigned 64-bit value prints in at most 20 characters |
| LogStream.TruncatedDigit | twnl/Log/LogStream.cc:15-33 | with division truncating to zero the remainder, negative or not, finds its digit in the symmetric table |
| LogStream.ReverseRange | twnl/Log/LogStream.cc:41 | the in-place swap loop reverses exactly the given range |
| LogStream.EmitDecimal | twnl/Log/LogStream.cc:26-34 | the do-while loop leaves the digits of the magnitude, backwards |
| LogStream.Convert | twnl/Log/LogStream.cc:23-44 | writes the decimal text and a terminator, at most 21 bytes, and nothing else |
| LogStream.ConvertHex | twnl/Log/LogStream.cc:46-62 | writes the hexadecimal text and a terminator, at most 17 bytes, and nothing else |
| LogStream.FixedBuffer.Append | twnl/Log/LogStream.h:34-41 | text is stored whole if it leaves a byte free, and otherwise not at all |
| LogStream.FixedBuffer.FormatInteger | twnl/Log/LogStream.cc:84-92 | the number's text is added exactly when 32 bytes are free |
| LogStream.FixedBuffer.FormatPointer | twnl/Log/LogStream.cc:142-154 | 0x and the hexadecimal digits are added exactly when 32 bytes are free |
| LogStream.FixedBuffer.FormatDouble | twnl/Log/LogStream.cc:156-164 | the formatted text and its terminator are written, and the text added, exactly when 32 bytes are free |
| LogStream.LogStaysInside | twnl/Log/LogStream.h:34-48 | after any insertions the cursor is strictly inside the storage, so the terminator of debugString fits |
| LogStream.LogIsWholeText | twnl/Log/LogStream.h:34-41 | the log is the concatenation of everything inserted exactly when every insertion was accepted |
| LogStream.AcceptanceInBytes | twnl/Log/LogStream.cc:84-92 | text needs one byte more than its length free, a number 32 bytes |
| LogStream.PrintedForms | twnl/Log/LogStream.cc:23-62 | how some numbers, a pointer and the null string look |
| LogStream.InsertAll | twnl/Log/LogStream.h:68-150 | any series of insertions leaves exactly the accepted ones, in order, in the buffer |
| Buffers.FirstReadTrap | twnl/Buffer.h:152-163 | a fresh buffer of size S fails its room assertion on a first read of n bytes exactly when S < n <= 2S |
| Buffers.SpaceIsMade | twnl/Buffer.h:152-163 | what becomes of indices and size: unchanged if the tail suffices, else grown by exactly the missing room or compacted to the front |
| Buffers.IndicesAfterTaking | twnl/Buffer.h:50-69 | the indices return to 0 exactly when everything is taken; a write moves the reader only |
| Buffers.ReadMovesAll | twnl/Buffer.cc:14-32 | a read moves everything offered that tail and 65536 bytes of spill area hold together, and no more |
| Buffers.ReadStoresAll | twnl/Buffer.cc:27-32 | what was moved is stored, in the tail or by an append of the spilled part |
| Buffers.IntendedGuardSuffices | twnl/Buffer.h:152-163 | with the reclaimable prefix in the guard nothing is ever trapped; with either guard the trap is exactly a result without room, and stored length and size are kept |
| Buffers.GuardsAgree | twnl/Buffer.h:153 | the two guards do the same exactly when prefix and stored length fall on the same side of what is missing |
| Buffers.Buffer.Retrieve | twnl/Buffer.h:50-69 | the first len bytes are gone, and both indices return to 0 when nothing is left |
| Buffers.Buffer.RetrieveAsString | twnl/Buffer.h:71-75 | the string returned followed by what is left is what was there |
| Buffers.Buffer.CopyDown | twnl/Buffer.h:157-158 | the overlapping forward copy brings the stored bytes to the front intact |
| Buffers.Buffer.MakeSpace | twnl/Buffer.h:152-163 | growing or compacting, the stored bytes are unchanged |
| Buffers.Buffer.EnsureWriteBytes | twnl/Buffer.h:95-100 | the closing assertion holds exactly outside the trap of the guard |
| Buffers.Buffer.Append | twnl/Buffer.h:85-89 | the bytes are added at the end, exactly when the room assertion holds |
| Buffers.Buffer.HasWritten | twnl/Buffer.h:110-113 | the bytes written into the tail join the stored ones |
| Buffers.Buffer.Scatter | twnl/Buffer.cc:20-32 | bytes that fit the tail stay in place, and longer input is completed from the spill area in order |
| Buffers.Buffer.ReadFd | twnl/Buffer.cc:14-34 | whatever the split between tail and spill area, exactly the delivered prefix of the stream is appended, or the room assertion fails exactly as characterised |
| Buffers.Buffer.WriteFd | twnl/Buffer.cc:36-46 | the bytes taken by the kernel leave the front for the wire, and only the reader index moves |
| Buffers.Buffer.ReadFdET | twnl/Buffer.cc:48-62 | the loop ends on every finite stream, and what it took followed by what is left is the stream, on every exit |
| Buffers.Buffer.WriteFdET | twnl/Buffer.cc:64-78 | the loop ends, and wire followed by buffer is conserved on every exit |
| Buffers.ReadLoopReturn | twnl/Buffer.cc:48-62 | stated on the kernel's decisions: no assertion fails exactly if no read on the way is trapped, and the byte count is returned exactly if the first decision that moves nothing is EAGAIN, or is the very first and no error (or EAGAIN was left from before); else 0 or -1 |
| Buffers.WriteLoopReturn | twnl/Buffer.cc:64-78 | the same for writing, where nothing can fail |
| Buffers.BytesThenEndReturnsZero | twnl/Buffer.cc:48-62 | any bytes that fit the tail, followed by the end of the stream, are all stored and reported as 0 |
| Buffers.FullDrainReturnsZero | twnl/Buffer.cc:64-78 | a peer that takes everything makes the loop return 0 after moving every byte |
| Buffers.FullReadTakesAll | twnl/Buffer.cc:48-62 | a stream given out in pieces is read to its end where no read is trapped |
| Buffers.NotReadyIsNoError | twnl/Buffer.cc:48-78 | errno 11 ends a loop without an error, any other errno with one |
| Buffers.Perform | twnl/Buffer.h:50-113 | over every sequence of appends, retrieves, reads and writes, under either guard, the assertions hold exactly when no request is trapped, and then the buffer is the abstract byte queue, with the wire and the vector size computed |
| Buffers.IntendedRunsThrough | twnl/Buffer.h:152-163 | with the intended guard no sequence is trapped |
| Buffers.DrainedBufferOnlyGrows | twnl/Buffer.cc:36-46 | chunks appended and written out one by one, however small, leave a vector with room for all of them together |
| Channels.SwitchesAreIndependent | twnl/Channel.h:49-55 | under level triggering the reading and writing switches do not affect each other |
| Channels.EdgeMasks | twnl/Channel.cc:26-30 | edge triggered, enabling asks for the edge flag besides the events and disabling takes all of them away |
| Channels.ReadingLooksLikeWriting | twnl/Channel.cc:18-31 | after enabling reading, isWriting is true exactly under edge triggering or if it was before |
| Channels.DispatchIsExact | twnl/Channel.cc:60-80 | one dispatch runs exactly the triggered and installed callbacks, once each, in rank order |
| Channels.DispatchRuns | twnl/Channel.cc:60-80 | in terms of the reported bits: close on a hang-up without input, error, read on input, urgent or half-close data, write, in this order |
| Channels.Channel.HandleEvent | twnl/Channel.cc:60-80 | the if-chain runs each of the four installed callbacks exactly on its bits, in order, and clears the handling flag |
| Channels.CloseAndReadTogether | twnl/Channel.cc:64-75 | close and read are triggered together exactly on a hang-up without input with urgent or half-close data |
| Pollers.UpdateKeepsTable | twnl/Poller/PollPoller.cc:60-89 | an update keeps array, indices and channels in bijection and the written entry in step with its mask |
| Pollers.RemoveKeepsTable | twnl/Poller/PollPoller.cc:91-116 | swap-and-pop keeps the bijection and every other descriptor's entry |
| Pollers.OthersKeepEntry | twnl/Poller/PollPoller.cc:60-89 | an update leaves index and entry of every other descriptor as they are |
| Pollers.EncodedForm | twnl/Poller/PollPoller.cc:82-87 | an empty mask is stored as -fd-1, from which the descriptor is recovered, any other as fd |
| Pollers.UpdateWrites | twnl/Poller/PollPoller.cc:60-89 | the entry written: where, with which mask, hidden exactly for a registered channel with an empty mask, and without reported events |
| Pollers.RemoveMovesLast | twnl/Poller/PollPoller.cc:103-115 | only the channel of the last entry gets another index, the freed one |
| Pollers.PollPoller.SwapAndPop | twnl/Poller/PollPoller.cc:104-115 | the last entry moves to the freed place, decoded if hidden, and only its channel is re-indexed |
| Pollers.ArrayWatchesMasks | twnl/Poller/PollPoller.cc:60-89 | the array watches a non-empty mask for a descriptor exactly when its channel has that mask |
| Pollers.PollPoller.UpdateChannel | twnl/Poller/PollPoller.cc:60-89 | appends and indexes a new channel, or rewrites the entry of a registered one, encoding an empty mask as -fd-1 |
| Pollers.PollPoller.RemoveChannel | twnl/Poller/PollPoller.cc:91-116 | removes the channel; only the channel of the moved last entry gets a new index |
| Pollers.PollPoller.FillActiveChannels | twnl/Poller/PollPoller.cc:43-58 | every ready entry is delivered once, in array order, with its events; the countdown does not stop early |
| Pollers.HotIsExact | twnl/Poller/PollPoller.cc:43-58 | what is delivered: the channels of exactly the entries with reported events, once for each |
| Pollers.EpollPoller.Update | twnl/Poller/EpollPoller.cc:122-141 | the kernel refuses an ADD of a present and a MOD or DEL of an absent descriptor |
| Pollers.EpollPoller.UpdateChannel | twnl/Poller/EpollPoller.cc:73-104 | registration state and kernel set stay in agreement and no call is refused |
| Pollers.EpollPoller.RemoveChannel | twnl/Poller/EpollPoller.cc:107-120 | the descriptor leaves map and kernel set, and no call is refused |
| Pollers.RunPoll | twnl/Poller/PollPoller.cc:60-116 | over every run of updates and legal removals the array watches exactly the registered masks |
| Pollers.RunEpoll | twnl/Poller/EpollPoller.cc:73-141 | over the same runs the kernel set is exactly the registered masks and no epoll_ctl call is refused |
| Pollers.RunBoth | twnl/Poller/PollPoller.cc:60-116 | both pollers watch the same descriptors with the same masks after every run |
| Pollers.InterestFollowsUpdates | twnl/Poller/PollPoller.cc:60-116 | the reference both are compared with: the last update of a descriptor is in force, and a removal changes nothing watched |
| Timers.InsertKeepsProper | twnl/TimerQueue.cc:77-78 | inserting a new timer keeps the set in (deadline, address) order without repeats |
| Timers.EraseRemovesOne | twnl/TimerQueue.cc:90 | cancelling a queued timer removes it and no other |
| Timers.ExpiredIsExact | twnl/TimerQueue.cc:119-128 | the bound (now + 1ns, null) takes exactly the entries due at now and leaves exactly the rest |
| Timers.DurationFromNow | twnl/TimerQueue.cc:30-39 | well-formed, never zero, and the distance to the deadline or one millisecond if that is more |
| Timers.HandleReadFiresDue | twnl/TimerQueue.cc:95-117 | one handler run fires exactly the due entries in deadline order, whatever callbacks add or cancel, and leaves a legal set with the timerfd armed in time |
| Timers.AddTimerArms | twnl/TimerQueue.cc:77-82 | a timer that becomes the first sets the timerfd for its deadline, or a millisecond from now if later; any other leaves it |
| Timers.HandleReadArms | twnl/TimerQueue.cc:115-116 | after the handler the timerfd is set for the deadline of the front, or a millisecond from then if later |
| Timers.HandleReadConsumes | twnl/TimerQueue.cc:98-116 | a handler run that leaves no timer has used up its expiry |
| Timers.CallbacksAct | twnl/TimerQueue.cc:104-105 | adding, cancelling and waiting in a callback have their effects |
| Timers.BatchTakesTime | twnl/TimerQueue.cc:101-113 | every timer of a batch runs its own callback, all of it |
| Timers.AlwaysArmed | twnl/TimerQueue.cc:73-117 | over every run the set is legal, and outside the handler a non-empty set has an unread expiry or a timerfd that goes off in time |
| Timers.NeverWokenEarly | twnl/TimerQueue.cc:73-117 | over every run in which no first timer is cancelled outside the handler, the timerfd is set for exactly the first deadline, or a millisecond after it was set if later |
| Timers.CancelledFrontWakesEarly | twnl/TimerQueue.cc:86-93 | after such a cancellation the timerfd still goes off for the cancelled timer |
| Timers.AlwaysAhead | twnl/TimerQueue.cc:30-51 | over every run an armed timerfd is set for a moment to come |
| Timers.FireKeepsApart | twnl/TimerQueue.cc:105-112 | a fired timer leaves the batch, returns to the set only if it repeats, and no live timer is in both |
| Timers.DueAfterFiring | twnl/Timer.h:32-36 | restarting a repeating timer uses up one due firing |
| Timers.DeadlinesAreExact | twnl/Timer.h:32-36 | a timer queued at w with interval d is due floor((now-w)/d)+1 times, at w+k*d |
| Timers.PassPaysDebt | twnl/TimerQueue.cc:95-117 | at a frozen clock each firing lowers the sum of due firings by exactly one |
| Timers.CatchUpIsExact | twnl/TimerQueue.cc:95-130 | repeated handler runs at a frozen clock end with nothing due, each timer having fired for exactly its deadlines and waiting for the first one after now |
| TimerObjects.Timer.Restart | twnl/Timer.h:32-36 | the deadline moves by one interval |
| TimerObjects.TimerQueue.InsertNode | twnl/TimerQueue.cc:77-80 | the set insertion, and whether the node became the first |
| TimerObjects.TimerQueue.AddTimer | twnl/TimerQueue.cc:73-84 | a fresh timer is queued under its deadline; exactly when it is first the timerfd is set for that deadline, or a millisecond from now if later |
| TimerObjects.TimerQueue.CancelTimer | twnl/TimerQueue.cc:86-93 | the key found through the timer's own deadline is the queued one; exactly it is erased and the object freed |
| TimerObjects.TimerQueue.GetExpired | twnl/TimerQueue.cc:119-129 | the due nodes move from the set to the batch; every live timer stays in exactly one of them |
| TimerObjects.TimerQueue.FireOne | twnl/TimerQueue.cc:101-113 | the timer is due at the time the batch was taken, as the loop asserts; then callback, restart and re-insertion, or deletion, with keys equal to deadlines throughout |
| TimerObjects.TimerQueue.Finish | twnl/TimerQueue.cc:107-112 | after its callback a repeating timer is back in the set under its new deadline, and any other is gone from set and batch |
| TimerObjects.TimerQueue.PutBack | twnl/TimerQueue.cc:107-111 | a repeating timer is back in the set under its new deadline, and in nothing else |
| TimerObjects.TimerQueue.RunBatch | twnl/TimerQueue.cc:101-113 | the loop fires the whole batch in order, as on values |
| TimerObjects.TimerQueue.HandleRead | twnl/TimerQueue.cc:95-117 | the whole handler on objects does what the handler on values does, and sets the timerfd for the front of what is left |
| TimerObjects.RunTimers | twnl/TimerQueue.cc:73-130 | the real queue and its timer objects through any run: same firings in the same order as on values, and the timerfd goes off in time |
| EventLoops.NoLostWakeup | twnl/EventLoop.cc:102-172 | in every interleaving, between the end of a batch and the return of poll, pending functors mean a readable eventfd or a thread about to write it, unless and only unless the loop thread left them stranded before loop |
| EventLoops.NoLostWakeupInside | twnl/EventLoop.cc:102-172 | if the loop thread queues nothing outside loop, pending functors always mean a readable eventfd or a thread about to write it |
| EventLoops.EarlyFunctorNeedsAnother | twnl/EventLoop.cc:102-140 | the exact condition in every interleaving on the way into poll: such a functor will be woken for exactly if a wake-up was due before or another thread pushes or quits |
| EventLoops.EarlyFunctorIsStranded | twnl/EventLoop.cc:132-140 | from any idle state: entering poll at once with such a functor, the loop will be woken exactly if a wake-up was due before; from the start it is not |
| EventLoops.ExactlyOnceFifo | twnl/EventLoop.cc:132-172 | in every interleaving the functors in lock order are the executed ones, the rest of the batch and the pending ones |
| EventLoops.QuitIsNotSleptThrough | twnl/EventLoop.cc:61-66 | a quit requested by any thread at any point inside loop stays in force, whatever happens, until the loop is left: poll does not sleep on it and the next test of the flag ends the loop |
| EventLoops.QuitBeforeLoopIsForgotten | twnl/EventLoop.cc:102-108 | a quit requested before loop is cleared |
| EventLoops.PendingIsServed | twnl/EventLoop.cc:102-172 | once all wakeups are done poll can return, and that iteration executes everything ever queued |
| EventLoops.StepKeepsInv | twnl/EventLoop.cc:102-172 | every atomic step of every thread keeps the protocol's invariant |
| EventLoops.EventLoop.QueueInLoop | twnl/EventLoop.cc:132-140 | an uninterrupted call pushes at the end and is the push step and, from another thread or within a batch, the wakeup step; the eventfd is then readable |
| EventLoops.EventLoop.Wakeup | twnl/EventLoop.cc:142-148 | the write adds one to the eventfd counter, short of overflow |
| EventLoops.EventLoop.HandleRead | twnl/EventLoop.cc:150-156 | it is the read step, after which only threads that still owe a wakeup notify the loop |
| EventLoops.EventLoop.PushBack | twnl/EventLoop.cc:133-136 | the locked section is the push step of the calling thread |
| EventLoops.EventLoop.SwapOut | twnl/EventLoop.cc:162-165 | the batch taken is everything pending, and the step made is the swap |
| EventLoops.EventLoop.RunBatch | twnl/EventLoop.cc:167-169 | every functor of the batch runs once, in order, whatever happens between |
| EventLoops.EventLoop.DoPendingFunctors | twnl/EventLoop.cc:158-172 | with functors queueing functors and other threads stepping in between, the batch executes exactly what was pending at the swap and leaves nothing without a wakeup |
| EventLoops.EventLoop.Iterate | twnl/EventLoop.cc:110-118 | from poll to the end of the batch: everything queued by the time poll is entered has been executed |
| EventLoops.EventLoop.Loop | twnl/EventLoop.cc:102-120 | the real loop, with callbacks and threads stepping in anywhere, is a run of the protocol: each turn executes all that was queued before it, in order and once, and only a quit ends it |
| Connectors.RunKeepsInv | twnl/Connector.cc:46-180 | in every run each created socket is held by the live channel, closed once or handed over once, and the next delay after k retries is min(50*2^k, 30000) |
| Connectors.EachSocketOnce | twnl/Connector.cc:46-180 | counted per socket: exactly one holder, closing or handing over |
| Connectors.BackoffDoubles | twnl/Connector.cc:174 | doubling with the cap turns the k-th delay into the next one |
| Connectors.BackoffInMilliseconds | twnl/Connector.h:39-40 | the delays are 50, 100, 200 milliseconds and so on, and never more than 30 seconds |
| Connectors.HandleErrorKeepsInv | twnl/Connector.cc:155-180 | an error event closes the channel's socket, and schedules the next attempt with the backed-off delay exactly if it is still wanted |
| Connectors.HandleWriteKeepsInv | twnl/Connector.cc:124-153 | a write event hands the socket over exactly if the connect succeeded, is no self-connection and is still wanted; otherwise it is closed |
| Connectors.ConnectAttempts | twnl/Connector.cc:46-82 | where each class of error leaves the new socket, and that no other socket is touched |
| Connectors.ConnectByErrno | twnl/Connector.cc:46-82 | as errno values: 0, 115, 4 and 106 are watched, 11, 98, 99, 111 and 101 retried, and all but the first four closed |
| Connectors.DispatchKeepsInv | twnl/Connector.cc:124-164 | an error event followed by a writable event in one dispatch settles the socket once and fails no assertion |
| Connectors.AssertionFailsExactly | twnl/Connector.cc:35-106 | in every run, with starts and stops at any time, an event fails an assertion exactly if a start or a retry timer finds the connector connecting or connected, or a wanted attempt proceeds before the previous channel was reset |
| Connectors.RetriesAreCounted | twnl/Connector.cc:84-180 | which events schedule a retry, use one up or cancel one |
| Connectors.StartWhileRetryPendsFails | twnl/Connector.cc:30-37 | one failing case is reached: a start while a retry is pending connects, and the timer then finds it busy |
| Connectors.StopAndStartTooSoonFails | twnl/Connector.cc:99-115 | the other is reached: an error event, a stop, and a start whose connect proceeds, before the loop runs the reset |
| Connectors.Connector.Connect | twnl/Connector.cc:46-82 | in errno values: it fails exactly if connect proceeds before the old channel is reset; otherwise the new socket is watched or closed, every other stays with its owner, and a retry waits exactly after an error worth one |
| Connectors.Connector.Start | twnl/Connector.cc:30-33 | fails exactly if the connector is not disconnected or the attempt proceeds before the reset; otherwise one wanted attempt is made, keeping ownership, backoff and every pending retry |
| Connectors.Connector.StartInLoop | twnl/Connector.cc:35-44 | an attempt exactly if still wanted; the assertions hold exactly on a disconnected connector whose old channel does not stand in the way |
| Connectors.Connector.Stop | twnl/Connector.cc:93-96 | the last retry is cancelled, earlier ones are not, and every socket keeps its owner |
| Connectors.Connector.RemoveAndResetChannel | twnl/Connector.cc:109-115 | the channel lets go of its socket, which the caller then has in hand, owned by nobody else, with one reset queued |
| Connectors.Connector.HandleWrite | twnl/Connector.cc:124-153 | the assertion fails exactly once connected; while connecting the socket is handed over, closed, or closed and retried as it should be; when disconnected nothing happens |
| Connectors.Connector.HandleError | twnl/Connector.cc:155-164 | the assertion holds exactly while connecting; the socket is closed, and retried if still wanted |
| Connectors.Connector.Retry | twnl/Connector.cc:166-180 | settles the socket in hand: ownership and backoff hold again, and a wanted retry waits with delay min(50*2^k, 30000), besides those already pending |
| Connectors.Connector.FireTimer | twnl/Connector.cc:173 | when a retry timer goes off, the last or an earlier one, the next attempt is made if wanted; it fails exactly if the connector is busy or the old channel in the way |
| Connectors.Connector.ResetChannel | twnl/Connector.cc:118-120 | the queued reset drops the channel and no socket with it |
| Connectors.Connector.HandleEvent | twnl/Channel.cc:60-80 | the connector's real channel dispatches a report, and no assertion fails in either callback |
| Connectors.Connector.Restart | twnl/Connector.cc:84-90 | a new attempt with the backoff starting over, failing exactly if it proceeds before the reset |
| Connectors.RunConnector | twnl/Connector.cc:30-180 | the real connector through any events: it fails exactly where the run does, and otherwise every socket it created is closed once, handed over once or held, exactly one of these |
| TcpConnections.StreamConservation | twnl/TcpConnection.cc:143-253 | over every run the bytes on the wire followed by the buffered ones are the accepted sends in order, and the channel watches for writability exactly while bytes wait |
| TcpConnections.WritableWrites | twnl/TcpConnection.cc:219-253 | a writable event gives the kernel the front of the buffer, as much as it takes; when that is all, the channel stops asking, completion is announced, and a shutting connection is half-closed |
| TcpConnections.EverythingIsSent | twnl/TcpConnection.cc:219-253 | in every run enough writable events that take at least one byte each put all buffered bytes on the wire, and half-close a connection that is shutting down |
| TcpConnections.HalfClose | twnl/TcpConnection.cc:58-70 | shutdownWrite at most once, after every accepted byte and before none, and it does happen once output has drained |
| TcpConnections.AcceptedExactly | twnl/TcpConnection.cc:126-193 | everything sent while connected is accepted exactly when no non-empty send met pending output (as the code is nested), a broken pipe or a reset |
| TcpConnections.SendWhilePendingIsLost | twnl/TcpConnection.cc:154-190 | an example of a byte that is neither written nor queued as the code is nested, and queued as the comments want it |
| TcpConnections.SendWhilePending | twnl/TcpConnection.cc:154-190 | what becomes of any send that meets pending output, under either nesting |
| TcpConnections.PartialSend | twnl/TcpConnection.cc:154-190 | what becomes of any send on idle output: the part taken is on the wire, the rest buffered |
| TcpConnections.RefusedSend | twnl/TcpConnection.cc:165-176 | a send the kernel refuses is buffered whole, or dropped on errno 32 and 104 |
| TcpConnections.IntendedNestingLosesNothing | twnl/TcpConnection.cc:177-190 | with the nesting the comments want, over every run without faults the wire and the buffer hold all that was sent, in order |
| TcpConnections.HighWaterIsExact | twnl/TcpConnection.cc:178-184 | over every run the high-water callbacks queued are the upward crossings of the mark by the buffered length |
| TcpConnections.WriteCompleteIsExact | twnl/TcpConnection.cc:155-163 | a write-complete callback is queued exactly for each send or writable event that leaves nothing outstanding, with every accepted byte on the wire |
| TcpConnections.NoAssertionFails | twnl/TcpConnection.cc:87-281 | in every run no single event fails an assertion, reads reported before a stopRead included; whole dispatches follow |
| TcpConnections.DispatchFailsExactly | twnl/Channel.cc:60-80 | in every run one dispatch on an open connection, whatever its callbacks call, fails an assertion exactly on a hang-up without input, with urgent or half-close data, whose read finds the end of the stream; otherwise it is itself a run, and closes the connection exactly on a hang-up without input or when something is to be read and the stream has ended |
| TcpConnections.CloseThenReadFails | twnl/TcpConnection.cc:254-259 | an example of the failing dispatch |
| TcpConnections.ForcedCloseCloses | twnl/TcpConnection.cc:72-85 | whatever happens between forceClose and the queued close, the connection ends closed, and was closed and reported down exactly once |
| TcpConnections.StepKeepsInv | twnl/TcpConnection.cc:58-281 | every operation keeps stream, half-close, watching and life-cycle invariants |
| TcpConnectionObjects.TcpConnection.SendInLoop | twnl/TcpConnection.cc:143-193 | over the real output buffer, under either nesting, the method does what the value model does, and fails exactly if what is to be buffered is trapped |
| TcpConnectionObjects.TcpConnection.BufferUp | twnl/TcpConnection.cc:178-190 | buffers the rest, notes the mark and watches for writability; the room assertion fails exactly on the trap |
| TcpConnectionObjects.TcpConnection.WriteDirectly | twnl/TcpConnection.cc:155-175 | what the kernel takes goes on the wire, only a broken pipe or reset is a fault |
| TcpConnectionObjects.TcpConnection.Send | twnl/TcpConnection.cc:126-130 | only a connected connection sends; stream, half-close and watching invariants are kept over the real buffer |
| TcpConnectionObjects.TcpConnection.ConnectEstablished | twnl/TcpConnection.cc:87-94 | the one up callback; the channel watches for input and not for output |
| TcpConnectionObjects.TcpConnection.HandleWrite | twnl/TcpConnection.cc:219-253 | over the real output buffer the method does what the value model does; while bytes wait, as many go to the wire as the kernel takes, and wire followed by buffer does not change |
| TcpConnectionObjects.TcpConnection.HandleRead | twnl/TcpConnection.cc:197-217 | delivered bytes are appended and reported, end of stream closes, and it fails exactly on the buffer's trap, or at the end of the stream of a connection that is not open |
| TcpConnectionObjects.TcpConnection.Shutdown | twnl/TcpConnection.cc:58-70 | a connected connection starts to disconnect, and is half-closed at once exactly if its buffer is empty, all accepted bytes being on the wire; any other is left alone |
| TcpConnectionObjects.TcpConnection.ShutdownInLoop | twnl/TcpConnection.cc:65-70 | half-closes exactly if nothing waits to be written |
| TcpConnectionObjects.TcpConnection.ForceClose | twnl/TcpConnection.cc:72-77 | an open connection stops sending and is to be closed, without a half-close |
| TcpConnectionObjects.TcpConnection.StartRead | twnl/TcpConnection.cc:105-111 | input is watched afterwards, and whether output is watched does not change |
| TcpConnectionObjects.TcpConnection.StopRead | twnl/TcpConnection.cc:117-123 | input is not watched afterwards, and whether output is watched does not change |
| TcpConnectionObjects.TcpConnection.HandleClose | twnl/TcpConnection.cc:254-265 | one down and one close callback ever, and nothing is watched any more |
| TcpConnectionObjects.TcpConnection.ForceCloseInLoop | twnl/TcpConnection.cc:80-85 | an established connection is closed afterwards, once, whether or not it was before |
| TcpConnectionObjects.TcpConnection.ConnectDestroyed | twnl/TcpConnection.cc:273-281 | the assertion on the mask fails exactly for a connection still disconnecting and watched; after the close it holds, and removal, close and down have happened once each |
| TcpConnectionObjects.PlayConserves | twnl/TcpConnection.cc:143-253 | over every session the bytes the user took, those in the input buffer and those to come are the peer's stream, and the output side is a run of the connection |
| TcpConnectionObjects.BytesMove | twnl/TcpConnection.cc:197-217 | a read event brings what the kernel delivers into the input buffer, as much as tail and spill area hold, and the user takes from its front |
| TcpConnectionObjects.CodeFailsOnReadsExactly | twnl/TcpConnection.cc:143-217 | as the code is written, a session fails exactly at a read that is trapped: sends always find room |
| TcpConnectionObjects.IntendedSessionsRunThrough | twnl/Buffer.h:152-163 | with the intended guard no session fails, under either nesting |
| TcpConnectionObjects.MendedNestingMeetsGuard | twnl/TcpConnection.cc:177-190 | with the nesting mended and the guard not, two sends that overrun the first size of the output buffer fail |
| TcpConnectionObjects.OutputBufferOnlyGrows | twnl/Buffer.cc:36-46 | in every session of the code the vector behind the output buffer has room for every byte ever buffered |
| TcpConnectionObjects.RunConnection | twnl/TcpConnection.cc:58-281 | the real object over its two real buffers, under either nesting and guard: it fails exactly where a request is trapped, ends where the session ends, and loses, repeats or reorders no accepted byte in either direction |
| TcpServers.NamesDiffer | twnl/TcpServer.cc:62-66 | different connection numbers give different names |
| TcpServers.NameForm | twnl/TcpServer.cc:62-66 | the generated name, with its empty address part |
| TcpServers.EveryLifeInOrder | twnl/TcpServer.cc:58-97 | in every interleaving of the loops each connection is established, closed, erased and destroyed at most once each in that order, with one up and at most one down callback, and every erase removes exactly one entry |
| TcpServers.QuietServerIsSettled | twnl/TcpServer.cc:84-97 | when the queues are empty a closed connection has been erased and destroyed, any other is up and in the map under its name, and no forced close is outstanding |
| TcpServers.NoServerAssertionFails | twnl/TcpConnection.cc:254-281 | no single step fails an assertion, the empty mask at Channel::remove included; whole dispatches follow |
| TcpServers.ServerDispatchFailsExactly | twnl/Channel.cc:60-80 | a whole dispatch on an open connection of the running server fails exactly in the one case above, and is otherwise part of a run of the server |
| TcpServers.StepKeepsServerInv | twnl/TcpServer.cc:58-97 | every step keeps the accounting of functors, map entries and histories |
| TcpServers.OnlyBaseLoopErases | twnl/TcpServer.cc:84-97 | no step of another loop touches the map of connections or erases anything |
| TcpServers.CloseReachesBaseLoop | twnl/TcpServer.cc:84-97 | a close on another loop queues the removal last on the base loop; one on the base loop removes at once and queues the destruction |
| TcpServers.AcceptedComesUp | twnl/TcpServer.cc:58-82 | a new connection of the base loop is up at once, any other is mapped and waits for its loop |
| TcpServers.QueuesAreFifo | twnl/TcpServer.cc:58-97 | functors run in the order in which they were queued |
| TcpServers.TcpServer.NewConnection | twnl/TcpServer.cc:58-82 | maps the connection under its generated name and establishes it directly or through its loop |
| TcpServers.TcpServer.RemoveConnection | twnl/TcpServer.cc:84-86 | removes directly on the base loop; from any other it queues the removal and touches neither the map nor anything erased |
| TcpServers.TcpServer.RemoveConnectionInLoop | twnl/TcpServer.cc:88-97 | erases exactly one entry and queues the destruction |
| TcpServers.TcpServer.OnConnection | twnl/TcpServer.cc:74-97 | an operation of a connection on its loop, with the removal after a close and the queued forced close; no assertion fails and the accounting is kept |
| TcpServers.TcpServer.RunTask | twnl/TcpServer.cc:58-97 | a loop runs its next functor, whichever of the four it is, with the accounting kept |
| TcpServers.RunServer | twnl/TcpServer.cc:58-97 | the real server through any interleaving of its loops ends where the run ends: every history is part of one whole life, and every erase removed exactly one entry |

## Left out

- System calls, sockets and addresses: they are choices of the environment, constrained by byte counts and error classes.
- `EventLoop::loop` asserts that it is not entered twice; the class takes that as given. Polling, with its timeout, is a choice of the environment.
- Edge-triggered connections: the connection model uses the level-triggered masks; the edge-triggered buffer loops are modelled alone.
- Start-up order of the event masks, and POLL mode, which never sets them.
- TimerObjects.TimerQueue.CancelTimer: only queued timers are cancelled; cancelling one that is running, in the running batch or already freed would delete an object still in use or gone, and is outside the model.
- Connectors.Connector.Stop: cancelling a timer that no longer exists is treated as doing nothing.
- Connectors.Connector.Restart: a restart while a connection is being made, whose channel would be left watched in the disconnected state, is outside the model.
- Timer callbacks are modelled by what they do to the queue and the clock; a single clock stands for the system clock and the monotonic one of the timerfd.
- Unsynchronised cross-thread reads of the connection state, raw data pointers bound in `send`, and the `send(Buffer*)` overload: sends are calls on the loop thread with copied data.
- `startRead` and `stopRead` after the close, the destructor of the server, and its restart.
- Integer width of the connection counter, buffer sizes and nanosecond counts: unbounded here; 64-bit widths are kept where numbers are printed.
- Descriptor numbers of sockets in `Connector.dfy` are replaced by the order of creation, so reuse by the kernel does not confuse two sockets.
- LogStream.FixedBuffer.FormatDouble: the text that `snprintf` makes of a double is given, of at most 31 characters.
- `Buffer::swap`, the line-end searches, logging front end, time formatting, thread start-up and the choice of the next loop.
