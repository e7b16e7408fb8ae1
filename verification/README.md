# Verification of the network library and the thread pool

This project models the parts of the repository whose correctness is spread over many
functions, and proves properties of every run of them:

- the **reactor runtime**: functor queue and wake-up of an event loop, registration of
  channels with epoll, start and stop of an IO thread, and the life of connections that
  travel between loops;
- the **byte-stream path**: the growable buffer, the frame codec, the sending half of a
  connection, and the protocol echo server that puts them together;
- **timers**, in both implementations: the indexed binary heap with its connection table,
  and the ordered timer queue with re-entrant callbacks;
- the **dynamic thread pool**: ring of tasks, two condition variables, a manager that grows
  and shrinks the set of workers, shutdown and free;
- **reading by lines** through a carry buffer.

## How it is organised

| file | what it holds |
|---|---|
| `Buffer.dfy` | the buffer as an array with two indices, refining a byte queue |
| `Codec.dfy` | encoder, decoder, the decoding loop, laws of decoding |
| `TcpConnection.dfy` | the sending half of a connection and its states, with re-entrant user callbacks |
| `EchoServer.dfy` | one client session of the echo server, end to end |
| `Poller.dfy` | channels, `epoll_ctl`, and the kernel's interest set |
| `EventLoop.dfy` | one loop and any number of peer threads: steps, laws, and the loop object whose every execution is such a run |
| `EventLoopThread.dfy` | the handshake of `startLoop`, the worker and the destructor |
| `Lifecycle.dfy`, `LifecycleLaws.dfy` | connections across any number of loops; the order in which loops do their work |
| `TimerHeap.dfy`, `ConnectionTable.dfy` | the heap of idle timers, and the slots it belongs to with what they echo |
| `TimerQueue.dfy` | the ordered timer queue and its timerfd |
| `TaskRing.dfy`, `ThreadPool.dfy`, `PoolLaws.dfy`, `PoolCode.dfy` | the ring, the pool's interleavings, what each kind of step does, and the pool's sections as an object over the ring |
| `LineReader.dfy` | `my_read` and `Readline` |
| `Option.dfy` | a value that may be missing |

Code that one thread executes is modelled by classes with methods. System calls are oracles
that may answer anything the kernel may: any number of bytes, none, would-block, failure.
User callbacks make any calls back, nested to any depth. Where threads interleave, a state
and its actions model one step per section under a lock or per move of a loop's thread; the
laws are about all finite runs. `EventLoop.Loop` and `PoolCode.Pool` connect the two forms:
each carries the run it has made, and every method keeps that run a run of the steps. The
pool can also follow every run, from its creation to its free.

## What turned out false, and when it holds

- Decoding undoes encoding exactly when every body respects the size limit; `encode` does
  not check it (`Codec.RoundTripIffAllFit`).
- `disableAll` is documented to take a descriptor out of epoll. It does so exactly when the
  channel was registered; on any other channel it registers it, with an empty mask
  (`Poller.Poller.DisableAll`). `remove` afterwards is always safe (`Poller.Poller.Unregister`).
- An event loop can block on waiting work: exactly when it polls for the first time, its own
  thread queued that work before `loop()`, and no other thread has queued or quit
  (`EventLoop.StuckIffAlone`, `EventLoop.StuckIffEarly`, `EventLoop.EarlyWorkIsStuck`). The
  comment that a read takes one from the eventfd is wrong: it takes everything, and the model
  does so.
- The pointer that `startLoop` returns can come to dangle without anybody asking the loop to
  quit any more exactly if it was asked already (`EventLoopThread.PointerIsLiveUntilQuit`). So
  asking is itself never safe: from every reachable state in which the owner can call `quit()`
  on that pointer, the loop can be destroyed between the two halves of the call
  (`EventLoopThread.QuitMayOutliveLoop`). The destructor's own use of `quit`, under the mutex,
  is safe (`EventLoopThread.HandshakeIsSafe`).
- A connection table stays consistent exactly when `recv` did not ask for a retry
  (`ConnectionTable.Table.RecvData`). A retry tears the slot: it looks free while its timer
  runs and its descriptor is open. The timer's expiry repairs it
  (`ConnectionTable.Table.ExpireProcess`). An accept keeps the table as whole as it was if and
  only if the slot it takes is not torn (`ConnectionTable.Table.AcceptOne`); if it is, the old
  descriptor is forgotten and the timer stands in the heap twice, which no back-pointer can
  express, or goes past the end of the array exactly if no slot is truly free
  (`ConnectionTable.Table.Reuse`).
- `threadpool_create` yields a pool fit for use if and only if there are slots for the first
  threads, which it does not check (`PoolCode.Pool.constructor`).
- A thread pool that may keep no thread at all can leave a queued task without a worker; for
  pools with room for a task, tasks are always attended to if and only if the minimum is at
  least one, which `threadpool_create` does not check (`ThreadPool.AttendedIffMinimum`).
- `threadpool_destroy` signals only one of the two conditions: a caller is left waiting in
  `threadpool_add` exactly if it waited at shutdown and never wakes on its own, and accepted
  tasks still queued are dropped (`ThreadPool.ShutdownFreezesTheQueue`,
  `ThreadPool.DestroyStrandsAnAdder`).
- `Readline` returns -1 exactly when the last read of the call fails, and it then loses what it
  had taken of the line: bytes are lost exactly if the last read fails and there was something
  to lose (`LineReader.Reader.ReadLine`). The rest of an overlong line stays in the carry
  buffer, not in the kernel as its comment says.
- A line need not come from the descriptor it was asked of, because the carry belongs to the
  thread: a line with room for a byte begins with whatever was carried, and it has carried
  bytes exactly if there were any (`LineReader.Reader.ReadLine`, which also says which
  descriptor they are from; `LineReader.MixedLine` is an example).
- `retrieveAsString` does not check its length: asked for more than is readable, it returns all
  there is followed by stale bytes of the storage (`NetBuffer.Buffer.RetrieveAsString`).

## Model

| member | source | states |
|---|---|---|
| `NetBuffer.Buffer.constructor` | Refactoring_mytcpserver/include/net/Buffer.h:34-37 | a new buffer is empty, has the requested room, and begins behind the prepend area |
| `NetBuffer.Buffer.RetrieveAll` | Refactoring_mytcpserver/src/net/Buffer.cpp:20-28 | the queue becomes empty, the indices return to the prepend mark, the storage is kept |
| `NetBuffer.Buffer.Retrieve` | Refactoring_mytcpserver/src/net/Buffer.cpp:12-18 | drops that many bytes from the front, everything if asked for more |
| `NetBuffer.Buffer.RetrieveAsString` | Refactoring_mytcpserver/src/net/Buffer.cpp:30-35 | the result followed by the new contents is the old contents, if there is that much; otherwise everything followed by stale bytes |
| `NetBuffer.Buffer.EnsureWritableBytes` | Refactoring_mytcpserver/src/net/Buffer.cpp:55-59 | the room is there and the queue is unchanged; nothing moves if there was room |
| `NetBuffer.Buffer.MakeSpace` | Refactoring_mytcpserver/src/net/Buffer.cpp:61-82 | always yields enough room, keeps the contents through the overlapping leftward move, and grows, to exactly the room asked for, exactly when the slack does not suffice |
| `NetBuffer.Buffer.Resize` | Refactoring_mytcpserver/src/net/Buffer.cpp:64-69 | larger storage with the same contents |
| `NetBuffer.Buffer.SlideToFront` | Refactoring_mytcpserver/src/net/Buffer.cpp:71-80 | the overlapping copy keeps the contents, since its target lies to the left |
| `NetBuffer.Buffer.Append` | Refactoring_mytcpserver/src/net/Buffer.cpp:43-53 | the bytes join the back of the queue, for every size |
| `NetBuffer.Buffer.Fill` | Refactoring_mytcpserver/include/net/Buffer.h:54-57 | bytes written at the tail and announced join the back of the queue |
| `NetBuffer.Buffer.ReadFd` | Refactoring_mytcpserver/src/net/Buffer.cpp:84-119 | exactly the bytes that one or two reads delivered join the queue; -1 only if nothing was delivered, 0 only at end of file; a second read, of up to 65536 bytes, happens exactly when the first filled the buffer |
| `Codec.Le16RoundTrip` | Refactoring_mytcpserver/src/protocol/Codec.cpp:12-33 | reading undoes writing and writing undoes reading, 16 bits |
| `Codec.Le32RoundTrip` | Refactoring_mytcpserver/src/protocol/Codec.cpp:19-41 | the same for 32 bits |
| `Codec.Layout` | Refactoring_mytcpserver/src/protocol/Codec.cpp:49-58 | the wire format in numbers: message id at byte 0, length at 2, sequence number at 6, each with its lowest byte first, the body at 10 |
| `Codec.EncodedHeader` | Refactoring_mytcpserver/src/protocol/Codec.cpp:49-58 | the length field is the body's length truncated to 32 bits; a frame within the limit reads back whole |
| `Codec.TryDecode` | Refactoring_mytcpserver/src/protocol/Codec.cpp:75-109 | the loop over the buffer delivers the frames, the leftover and the verdict that the stream defines |
| `Codec.DecodeAppend` | Refactoring_mytcpserver/src/protocol/Codec.cpp:75-109 | more input never changes what was decoded; decoding goes on from the leftover |
| `Codec.LeftoverIsStuck` | Refactoring_mytcpserver/src/protocol/Codec.cpp:96-97 | nothing decodable is left over, and the leftover is shorter than a header and a largest body |
| `Codec.FeedIsDecode` | Refactoring_mytcpserver/src/protocol/Codec.cpp:75-109 | feeding chunks onto any stuck leftover is decoding their concatenation |
| `Codec.ChunkIndependence` | Refactoring_mytcpserver/src/protocol/Codec.cpp:75-109 | however the stream is cut, frames, leftover and fatal flag are the same |
| `Codec.DecodeIsExact` | Refactoring_mytcpserver/src/protocol/Codec.cpp:81-108 | encodings of the delivered frames, then the leftover, are the input byte for byte |
| `Codec.FatalIffBadHeader` | Refactoring_mytcpserver/src/protocol/Codec.cpp:81-94 | decoding is given up if and only if behind the frames delivered stands a header announcing more than 4 MiB, and then the rest is dropped; otherwise the rest is exactly what follows the frames |
| `Codec.EncodeFirstFrame` | Refactoring_mytcpserver/src/protocol/Codec.cpp:99-105 | a decoded frame encodes to the bytes it came from |
| `Codec.RoundTripIffAllFit` | Refactoring_mytcpserver/src/protocol/Codec.cpp:49-109 | decoding concatenated encodings gives the frames back if and only if all bodies respect the limit |
| `TcpConnection.Connection.UserCallback` | Refactoring_mytcpserver/src/net/TcpConnection.cpp:136-137 | the callback is run; whatever it does, conservation and half-close laws hold before, during and after it |
| `TcpConnection.Connection.ConnectEstablished` | Refactoring_mytcpserver/src/net/TcpConnection.cpp:44-55 | from Connecting only; the connection callback runs with the invariant in force, and nothing is written |
| `TcpConnection.Connection.ConnectDestroyed` | Refactoring_mytcpserver/src/net/TcpConnection.cpp:58-66 | disconnected, nothing accepted or lost, no callback |
| `TcpConnection.Connection.SendInLoop` | Refactoring_mytcpserver/src/net/TcpConnection.cpp:165-211 | the message is accepted whole, in order, and the state kept, unless a write failed for good; after shutdown or close, and if empty, nothing happens; it is offered to the socket exactly when nothing is queued, and queued bytes stay in front of it; which callbacks run, and no others |
| `TcpConnection.Connection.Offer` | Refactoring_mytcpserver/src/net/TcpConnection.cpp:173-207 | direct write or queueing: nothing of the message is lost or reordered, interest follows the queue, a fatal failure is reported, and only that |
| `TcpConnection.Connection.Notify` | Refactoring_mytcpserver/src/net/TcpConnection.cpp:181-188 | write-complete runs exactly if nothing is queued, high-water exactly if more than the mark is; both keep the laws |
| `TcpConnection.Connection.ShutdownInLoop` | Refactoring_mytcpserver/src/net/TcpConnection.cpp:229-244 | the write half is shut at once if and only if the buffer is empty; only a connected connection changes its state |
| `TcpConnection.Connection.HandleClose` | Refactoring_mytcpserver/src/net/TcpConnection.cpp:127-138 | disconnected for good; the connection callback and then the close callback run, once in a connection's life; nothing is written |
| `TcpConnection.Connection.ForceCloseInLoop` | Refactoring_mytcpserver/src/net/TcpConnection.cpp:252-263 | the same, from user code |
| `TcpConnection.Connection.HandleWrite` | Refactoring_mytcpserver/src/net/TcpConnection.cpp:93-125 | the whole queue, if there is one, is offered to the socket once; written ++ queued == accepted for every partial write; it closes only after a fatal failure; FIN goes out exactly when a connection that was asked to shut down has drained, and no byte follows a FIN; which callbacks run |
| `TcpConnection.Connection.Drained` | Refactoring_mytcpserver/src/net/TcpConnection.cpp:112-118 | with the buffer empty, interest goes off, the callback runs, and a shutdown that was asked for is carried out |
| `TcpConnection.Connection.Flush` | Refactoring_mytcpserver/src/net/TcpConnection.cpp:107-122 | bytes move from queue to socket in order, any number of them |
| `EchoServer.Session.Establish` | Refactoring_mytcpserver/src/net/TcpConnection.cpp:44-55 | the session comes up with read interest on and its law kept |
| `EchoServer.Session.OnMessage` | Refactoring_mytcpserver/examples/protocol_echo_server.cpp:58-82 | complete frames received so far have been answered in order, before anything closes, and the rest is kept; the connection closes if and only if a header was fatal or a write failed |
| `EchoServer.Session.Reply` | Refactoring_mytcpserver/examples/protocol_echo_server.cpp:63-74 | the encodings are accepted in order and the connection stays up, unless a write fails; then only a prefix is |
| `EchoServer.Session.HandleRead` | Refactoring_mytcpserver/src/net/TcpConnection.cpp:69-91 | keeps the session's law for every read result; without data it closes the connection unless the read would merely have blocked, with data if and only if a header was fatal or a write failed |
| `EchoServer.Session.HandleWrite` | Refactoring_mytcpserver/src/net/TcpConnection.cpp:93-125 | keeps the session's law for every write result; the queue is offered once; closes only after a fatal failure |
| `EchoServer.Session.HandleClose` | Refactoring_mytcpserver/src/net/TcpConnection.cpp:127-149 | the error and hang-up callbacks end the connection and keep the session's law |
| `EchoServer.Session.Serve` | Refactoring_mytcpserver/src/net/Channel.cpp:39-47 | a readable session is read, a writable one is offered what is queued; only end of input, a fatal header or a failing call ends it |
| `EchoServer.Session.HandleEvent` | Refactoring_mytcpserver/src/net/Channel.cpp:39-57 | the session's law survives every combination of reported events, and each has its effect; an error or a hang-up ends the connection, and apart from these only end of input, a fatal header or a failing call |
| `EchoServer.Session.NothingLost` | Refactoring_mytcpserver/examples/protocol_echo_server.cpp:58-82 | unless a write failed or a header was fatal, written ++ output buffer ++ input buffer is the input, byte for byte, and the input buffer holds no complete frame |
| `EchoServer.Session.EchoesAPrefix` | Refactoring_mytcpserver/examples/protocol_echo_server.cpp:73-81 | even after failures a client receives a prefix of what it sent |
| `EchoServer.Received` | Refactoring_mytcpserver/examples/protocol_echo_server.cpp:60-61 | what a chunk adds to the frames found is what decoding leftover and chunk finds |
| `Poller.Poller.NewChannel` | Refactoring_mytcpserver/src/net/Channel.cpp:13-16 | a channel starts unregistered, with no interest; its descriptor number may have been used before, if that channel was removed |
| `Poller.Poller.UpdateChannel` | Refactoring_mytcpserver/src/net/Poller.cpp:112-173 | no epoll_ctl is refused: ADD only for an absent descriptor, MOD and DEL only for a present one; status, map and kernel set agree afterwards |
| `Poller.Poller.Register` | Refactoring_mytcpserver/src/net/Poller.cpp:119-132 | ADD of a descriptor the kernel does not have |
| `Poller.Poller.Change` | Refactoring_mytcpserver/src/net/Poller.cpp:133-147 | MOD or DEL of one it has |
| `Poller.Poller.EnableReading` | Refactoring_mytcpserver/include/net/Channel.h:61 | the kernel watches the descriptor with the channel's mask; interest in writing is as before |
| `Poller.Poller.EnableWriting` | Refactoring_mytcpserver/include/net/Channel.h:65 | the same for writing |
| `Poller.Poller.DisableReading` | Refactoring_mytcpserver/include/net/Channel.h:63 | the kernel forgets the descriptor if and only if it was registered and no interest is left |
| `Poller.Poller.DisableWriting` | Refactoring_mytcpserver/include/net/Channel.h:67 | the same for writing |
| `Poller.Poller.DisableAll` | Refactoring_mytcpserver/include/net/Channel.h:68-69 | the kernel forgets the descriptor if and only if it was registered; otherwise it is added |
| `Poller.Poller.RemoveChannel` | Refactoring_mytcpserver/src/net/Poller.cpp:175-207 | the channel is new again and neither side knows its descriptor |
| `Poller.Poller.Unregister` | Refactoring_mytcpserver/src/net/TcpConnection.cpp:64-65 | disableAll then remove leaves nothing behind, whatever the status was |
| `Poller.Poller.EmptyIffAllRemoved` | Refactoring_mytcpserver/src/net/Poller.cpp:32-37 | no channel is left if and only if each was removed, and then the kernel set is empty |
| `EventLoop.StepKeepsInv` | Refactoring_mytcpserver/src/net/EventLoop.cpp:44-130 | every step keeps conservation and the promise of a wake-up |
| `EventLoop.StepConserves` | Refactoring_mytcpserver/src/net/EventLoop.cpp:81-106 | no step loses, repeats or reorders a functor |
| `EventLoop.RunKeepsInv` | Refactoring_mytcpserver/src/net/EventLoop.cpp:44-130 | so does every run |
| `EventLoop.RunIsTold` | Refactoring_mytcpserver/src/net/EventLoop.cpp:63-130 | in every run, told by its actions alone: what was pushed, that the loop is told to quit if and only if somebody quit, how many peers have still to write, and that the eventfd counts the writes since it was last read |
| `EventLoop.FunctorsAreConserved` | Refactoring_mytcpserver/src/net/EventLoop.cpp:81-106 | executed ++ rest of the batch ++ queue is, in every run, the sequence of the functors that peers and loop asked for: first in first out, one for each step that runs one |
| `EventLoop.StuckIffEarly` | Refactoring_mytcpserver/src/net/EventLoop.cpp:63-92 | in every run the loop blocks on waiting work if and only if its own thread queued it before loop() and no peer wrote |
| `EventLoop.StuckIffAlone` | Refactoring_mytcpserver/src/net/EventLoop.cpp:63-106 | told by what happened alone: stuck if and only if it polls for the first time, its thread queued before, and no peer queued or quit |
| `EventLoop.EarlyWorkIsStuck` | Refactoring_mytcpserver/src/net/EventLoop.cpp:91 | that case occurs |
| `EventLoop.QuitIsNotLost` | Refactoring_mytcpserver/src/net/EventLoop.cpp:49-73 | a quit has its wake-up there or coming, and ends the loop at its next test |
| `EventLoop.RoundRunsEverything` | Refactoring_mytcpserver/src/net/EventLoop.cpp:49-58 | from the wait in poll, whatever ends it, the rest of the turn runs everything queued before and leaves the eventfd empty |
| `EventLoop.TurnRunsEverything` | Refactoring_mytcpserver/src/net/EventLoop.cpp:49-58 | a whole turn, from the test of the flag back to it, does so too |
| `EventLoop.Loop.IsAwake` | Refactoring_mytcpserver/src/net/EventLoop.cpp:44-130 | the object never waits in poll on work or a quit without a wake-up there or coming |
| `EventLoop.Loop.RunsWhatWasAsked` | Refactoring_mytcpserver/src/net/EventLoop.cpp:81-106 | the object has run, is running or has queued exactly what was asked of it, in order, and is told to quit if and only if somebody quit |
| `EventLoop.Loop.constructor` | Refactoring_mytcpserver/src/net/EventLoop.cpp:44-61 | the object begins at the initial state of the steps |
| `EventLoop.Loop.Peers` | Refactoring_mytcpserver/src/net/EventLoop.cpp:81-92 | other threads only append to the queue, set quit and raise the eventfd |
| `EventLoop.Loop.QueueInLoop` | Refactoring_mytcpserver/src/net/EventLoop.cpp:81-92 | the functor joins the queue; a wake-up is written exactly while functors are being run |
| `EventLoop.Loop.Quit` | Refactoring_mytcpserver/src/net/EventLoop.cpp:63-73 | from the loop's own thread: the flag, and no wake-up |
| `EventLoop.Loop.UserCode` | Refactoring_mytcpserver/src/net/EventLoop.cpp:53-55 | handlers and functors queue at will without disturbing the run |
| `EventLoop.Loop.HandleWakeupRead` | Refactoring_mytcpserver/src/net/EventLoop.cpp:123-130 | the eventfd is drained, to zero, as one step of the run |
| `EventLoop.Loop.DoPendingFunctors` | Refactoring_mytcpserver/src/net/EventLoop.cpp:94-106 | everything queued at the call has been run, in order, after what ran before |
| `EventLoop.Loop.RunFunctors` | Refactoring_mytcpserver/src/net/EventLoop.cpp:103 | the batch is run in order, each functor once, whatever functors do |
| `EventLoop.Loop.PollAndDispatch` | Refactoring_mytcpserver/src/net/EventLoop.cpp:50-56 | runs no functor and takes none from the queue |
| `EventLoop.Loop.Turn` | Refactoring_mytcpserver/src/net/EventLoop.cpp:49-58 | ends because of a quit, running nothing, or has run everything queued when it began |
| `EventLoop.Loop.Run` | Refactoring_mytcpserver/src/net/EventLoop.cpp:44-61 | for any number of turns, the loop's execution is a run of the steps; it ends only after a quit, runs in its first turn what was queued before, and makes no turn if it was told to quit before |
| `EventLoopThread.StepKeepsInv` | Refactoring_mytcpserver/src/net/EventLoopThread.cpp:16-91 | every step of owner and worker keeps the handshake's invariant |
| `EventLoopThread.RunKeepsInv` | Refactoring_mytcpserver/src/net/EventLoopThread.cpp:16-91 | so does every run |
| `EventLoopThread.HandshakeIsSafe` | Refactoring_mytcpserver/src/net/EventLoopThread.cpp:16-91 | a published pointer is to a live loop, startLoop never returns null, both sides never wait for each other |
| `EventLoopThread.NeverDeadlocked` | Refactoring_mytcpserver/src/net/EventLoopThread.cpp:16-91 | until the owner is done something other than a spurious wake-up can happen |
| `EventLoopThread.JoinIsBounded` | Refactoring_mytcpserver/src/net/EventLoopThread.cpp:24-29 | once the destructor asked, at most nine more steps happen: the quit is not lost and the join returns |
| `EventLoopThread.PointerIsLiveUntilQuit` | Refactoring_mytcpserver/src/net/EventLoopThread.cpp:46-51 | while the owner has the pointer, the loop can vanish with nobody asking it to quit any more if and only if it was asked already; until then it is live |
| `EventLoopThread.QuitMayOutliveLoop` | Refactoring_mytcpserver/src/net/EventLoop.cpp:63-73 | from every reachable state in which the owner can call quit() on the pointer, the loop can be destroyed within the call |
| `EventLoopThread.PointerIsHandedOut` | Refactoring_mytcpserver/src/net/EventLoopThread.cpp:32-52 | such states are reached |
| `EventLoopThread.LeavesAlone` | Refactoring_mytcpserver/src/net/EventLoopThread.cpp:81-91 | a worker told to quit can leave and destroy its loop whatever else stands still |
| `EventLoopThread.StaysAlive` | Refactoring_mytcpserver/src/net/EventLoopThread.cpp:81-91 | a loop that nobody asks to quit stays |
| `EventLoopThread.QuitIffAsked` | Refactoring_mytcpserver/src/net/EventLoopThread.cpp:16-30 | in every run the loop is told to quit if and only if a callback, the owner, or the destructor of a started thread asked |
| `EventLoopThread.WakeUpIsRead` | Refactoring_mytcpserver/src/net/EventLoop.cpp:123-130 | the eventfd is read empty exactly when the poll reported it |
| `Lifecycle.StepKeepsInv` | Refactoring_mytcpserver/src/net/TcpServer.cpp:54-94 | every step of every loop keeps what each connection still has to undergo, and where |
| `Lifecycle.AcceptKeepsInv` | Refactoring_mytcpserver/src/net/TcpServer.cpp:67-76 | accepting: listed, and establishing queued once, or done at once on the base loop |
| `Lifecycle.CloseIsAbout` | Refactoring_mytcpserver/src/net/TcpServer.cpp:83-94 | closing: removal queued once on the base loop, or done at once there |
| `Lifecycle.EstablishKeepsInv` | Refactoring_mytcpserver/src/net/TcpConnection.cpp:44-50 | establishing finds the connection connecting |
| `Lifecycle.RemoveKeepsInv` | Refactoring_mytcpserver/src/net/TcpServer.cpp:88-94 | removal unlists the connection and queues its destruction once, on its own loop |
| `Lifecycle.DestroyKeepsInv` | Refactoring_mytcpserver/src/net/TcpConnection.cpp:58-66 | destruction unregisters the channel while its loop is not dispatching |
| `Lifecycle.RunKeepsInv` | Refactoring_mytcpserver/src/net/TcpServer.cpp:54-94 | the invariant holds after every run |
| `Lifecycle.LifecycleIsSafe` | Refactoring_mytcpserver/src/net/TcpServer.cpp:54-94 | in every interleaving: established before destroyed, each at most once; destroyed if and only if unlisted with no functor waiting; registered if and only if connected |
| `Lifecycle.LastReferenceIsUnregistered` | Refactoring_mytcpserver/src/net/TcpConnection.cpp:33-41 | a connection without a reference has been destroyed, its channel is new, and no dispatch list names it |
| `Lifecycle.ActiveChannelsAreAlive` | Refactoring_mytcpserver/src/net/EventLoop.cpp:53-55 | every channel a loop is about to visit belongs to a live connection of that loop |
| `Lifecycle.UnregisteredBetweenPasses` | Refactoring_mytcpserver/src/net/EventLoop.cpp:49-58 | a channel is unregistered only by its own loop, outside a dispatch pass |
| `Lifecycle.FunctorsRunWhereTheyMust` | Refactoring_mytcpserver/src/net/TcpConnection.cpp:46-60 | functors run on the loop their asserts demand, in the state they demand |
| `Lifecycle.ListedUntilRemoved` | Refactoring_mytcpserver/src/net/TcpServer.cpp:74-94 | a connection leaves the table in its removal step, in no other, and never returns |
| `Lifecycle.NoResurrection` | Refactoring_mytcpserver/src/net/Channel.cpp:59-70 | a connection that lost its last reference never gets one again |
| `Lifecycle.NothingLeaks` | Refactoring_mytcpserver/src/net/TcpServer.cpp:88-94 | with all loops idle, exactly the connected connections are referenced; all others were destroyed |
| `Lifecycle.WholeLife` | Refactoring_mytcpserver/src/net/TcpServer.cpp:54-94 | a run in which a connection is accepted, established, closed, removed, destroyed and freed |
| `LifecycleLaws.QueuesAreFifo` | Refactoring_mytcpserver/src/net/EventLoop.cpp:81-106 | on every loop functors leave from the front, by being run, and come in at the back, and which ones: establishing, removal and destruction, each on its loop |
| `LifecycleLaws.EveryReportIsHandledOnce` | Refactoring_mytcpserver/src/net/EventLoop.cpp:49-56 | in every run, when a loop goes on to its functors, each channel its poll reported has been handled exactly once, and no other |
| `LifecycleLaws.PointersStay` | Refactoring_mytcpserver/src/net/Channel.cpp:59-70 | a pointer held by user code stays until released, and the guard of an event until the event is handled |
| `TimerHeap.RiseStep` | src/epoll_reactor.cpp:85-94 | one step up moves the only defect to the parent |
| `TimerHeap.SinkStep` | src/epoll_reactor.cpp:96-111 | one step down moves the only defect to the lesser child |
| `TimerHeap.ReplacedIsHole` | src/epoll_reactor.cpp:136-138 | overwriting one element leaves a defect only there |
| `TimerHeap.RootIsLeast` | src/epoll_reactor.cpp:421-422 | the root has the least deadline |
| `TimerHeap.Heap.Swap` | src/epoll_reactor.cpp:75-83 | exchanges two elements and keeps every back-pointer |
| `TimerHeap.Heap.Up` | src/epoll_reactor.cpp:85-94 | from an arbitrary element at i: afterwards only i can exceed its children |
| `TimerHeap.Heap.Down` | src/epoll_reactor.cpp:96-111 | restores heap order from there, and terminates |
| `TimerHeap.Heap.Add` | src/epoll_reactor.cpp:114-120 | a heap with exactly this element more, back-pointers exact |
| `TimerHeap.Heap.AddAgain` | src/epoll_reactor.cpp:114-120 | adding an element that is there already leaves it at two places and some back-pointer wrong |
| `TimerHeap.Heap.UpDoubled` | src/epoll_reactor.cpp:85-94 | the sift never undoes that |
| `TimerHeap.Heap.Delete` | src/epoll_reactor.cpp:123-141 | a heap with exactly this element less, from any index; nothing at all changes if it was not there |
| `TimerHeap.Heap.Refresh` | src/epoll_reactor.cpp:144-154 | a heap with the same elements and the new deadline, earlier or later |
| `TimerHeap.Heap.Move` | src/epoll_reactor.cpp:151-153 | the same for an element already in the heap |
| `TimerHeap.Echo.Receive` | src/epoll_reactor.cpp:236-243 | bytes received are kept to be sent back; none that was still to be sent is overwritten |
| `TimerHeap.Echo.Send` | src/epoll_reactor.cpp:284-290 | what send took leaves the front of what is to be sent |
| `TimerHeap.Echo.EchoesAPrefix` | src/epoll_reactor.cpp:227-303 | a client has got back a prefix of what it sent, all of it exactly while its slot waits to read |
| `ConnectionTable.Table.HeapFits` | src/epoll_reactor.cpp:60-64 | the heap holds exactly the slots in use and the torn ones, so it never outgrows its array, and has room if and only if some slot is truly free |
| `ConnectionTable.Table.ConnClose` | src/epoll_reactor.cpp:213-224 | timer, registration and descriptor of this slot go together; others are untouched; a torn slot is repaired |
| `ConnectionTable.Table.AcceptOne` | src/epoll_reactor.cpp:340-368 | the first slot that looks free is taken with a full idle timeout and an empty buffer, waiting to read; with none, or on failure, nothing changes; the table stays as whole as it was if and only if that slot is not torn |
| `ConnectionTable.Table.Assign` | src/epoll_reactor.cpp:361-368 | the statements that register it, on either kind of slot |
| `ConnectionTable.Table.RecvData` | src/epoll_reactor.cpp:227-272 | the table stays as whole as it was if and only if recv was not interrupted and did not block; otherwise exactly this slot is torn; bytes received are to be sent back, and the slot waits to write |
| `ConnectionTable.Table.Occupy` | src/epoll_reactor.cpp:361-368 | a free slot takes the descriptor, registration and timer |
| `ConnectionTable.Table.Reuse` | src/epoll_reactor.cpp:361-368 | the same statements on a torn slot leave the old descriptor open and unknown, and the timer twice in the heap, or past the array's end exactly if no slot is truly free |
| `ConnectionTable.Table.SendData` | src/epoll_reactor.cpp:275-315 | always stays consistent; a retry changes nothing; what was taken is gone from the front, and the slot turns to reading exactly when all is sent |
| `ConnectionTable.Table.Touch` | src/epoll_reactor.cpp:246 | the deadline moves to a full timeout and the slot stays registered |
| `ConnectionTable.Table.ExpireProcess` | src/epoll_reactor.cpp:417-426 | terminates having closed exactly the connections whose deadline has come, torn slots among them, which repairs these |
| `TimerQueue.InsertedIsSorted` | Refactoring_mytcpserver/include/net/TimerQueue.h:53-62 | insertion keeps the (deadline, sequence) order and adds exactly the new timer |
| `TimerQueue.InsertedAllIsSorted` | Refactoring_mytcpserver/include/net/TimerQueue.h:53-62 | so do any number of insertions |
| `TimerQueue.SortedIsUnique` | Refactoring_mytcpserver/include/net/TimerQueue.h:62 | the members determine the ordered set |
| `TimerQueue.RestartsMembers` | Refactoring_mytcpserver/include/net/Timer.h:39-45 | put back are exactly the repeating timers of a batch, each once, with its own sequence number and due its interval after now |
| `TimerQueue.Timespec` | Refactoring_mytcpserver/src/net/TimerQueue.cpp:21-32 | the value is never zero, nanoseconds are below 10^9, and it equals the difference when that is positive, a nanosecond otherwise |
| `TimerQueue.TimerQueue.ResetTimerfd` | Refactoring_mytcpserver/src/net/TimerQueue.cpp:14-35 | the timerfd goes off at the deadline, or a nanosecond after being set if that has passed, for every clock reading |
| `TimerQueue.TimerQueue.Insert` | Refactoring_mytcpserver/src/net/TimerQueue.cpp:79-96 | the set grows by the timer; the result says whether it became the first |
| `TimerQueue.TimerQueue.AddTimerInLoop` | Refactoring_mytcpserver/src/net/TimerQueue.cpp:61-77 | the timerfd stays armed for the earliest deadline |
| `TimerQueue.TimerQueue.Callback` | Refactoring_mytcpserver/src/net/TimerQueue.cpp:119 | the callback is run, once; it adds any number of timers; nothing else changes |
| `TimerQueue.TimerQueue.Run` | Refactoring_mytcpserver/include/net/Timer.h:26-30 | a timer fires not before its time, a one-shot one for the only time |
| `TimerQueue.TimerQueue.GetExpired` | Refactoring_mytcpserver/src/net/TimerQueue.cpp:124-135 | takes out exactly the timers whose time has come, in order |
| `TimerQueue.TimerQueue.RunBatch` | Refactoring_mytcpserver/src/net/TimerQueue.cpp:119 | the batch fires in order, each once, while callbacks add timers |
| `TimerQueue.TimerQueue.Reset` | Refactoring_mytcpserver/src/net/TimerQueue.cpp:137-149 | repeating timers come back, due an interval after now, and the timerfd is set to the minimum |
| `TimerQueue.TimerQueue.HandleRead` | Refactoring_mytcpserver/src/net/TimerQueue.cpp:98-122 | afterwards the queue is the unexpired timers, those added by callbacks and each expired repeating timer once, due an interval after now; fired were exactly the expired ones, by deadline and then sequence number; set for the minimum |
| `TaskRing.Ring.constructor` | src/threadpool.cpp:349-364 | a new ring is an empty queue |
| `TaskRing.Ring.Put` | src/threadpool.cpp:166-170 | the task joins the back of the queue, whatever has wrapped around |
| `TaskRing.Ring.Take` | src/threadpool.cpp:287-292 | the task at the front leaves the queue |
| `TaskRing.PlacesDiffer` | src/threadpool.cpp:166-170 | two queued tasks never share a slot |
| `ThreadPool.StepKeepsInv` | src/threadpool.cpp:63-384 | every step of workers, callers, manager and destroy keeps the pool's invariant |
| `ThreadPool.LookKeepsInv` | src/threadpool.cpp:254-298 | waiting, leaving and dequeuing keep it |
| `ThreadPool.ResumeKeepsInv` | src/threadpool.cpp:256-275 | retiring idle workers keeps it: never below the minimum, never with a task unattended |
| `ThreadPool.AddKeepsInv` | src/threadpool.cpp:145-177 | adding keeps it: the signal wakes a worker if one waits |
| `ThreadPool.GrowKeepsInv` | src/threadpool.cpp:209-221 | creating threads keeps it: no slot of a living thread is reused |
| `ThreadPool.ManageKeepsInv` | src/threadpool.cpp:180-241 | the manager keeps it, however stale the numbers it read |
| `ThreadPool.DestroyKeepsInv` | src/threadpool.cpp:63-91 | shutdown and the joins keep it |
| `ThreadPool.InitIsInv` | src/threadpool.cpp:344-375 | it holds when the pool has been created |
| `ThreadPool.RunKeepsInv` | src/threadpool.cpp:63-384 | it holds after every run |
| `ThreadPool.NoTaskIsStranded` | src/threadpool.cpp:249-298 | if threads must be kept, before shutdown a queued task always has a worker that is not waiting, and as many workers are awake as tasks are queued while others wait |
| `ThreadPool.ActiveWorker` | src/threadpool.cpp:249-298 | the same for every state with the invariant |
| `ThreadPool.IdleMeansEmpty` | src/threadpool.cpp:249-298 | before shutdown, when no worker can move and the manager is out of its section, the queue is empty and every accepted task has been run, exactly once |
| `ThreadPool.AttendedIffMinimum` | src/threadpool.cpp:344-348 | a queued task always has an active worker before shutdown, in all runs, if and only if the minimum is at least one |
| `ThreadPool.NoAdderIsStranded` | src/threadpool.cpp:149-151 | before shutdown a caller waits only while the queue is full |
| `ThreadPool.TasksAreConserved` | src/threadpool.cpp:166-312 | accepted is dequeued followed by queued, without duplicates; a dequeued task has been run to its end once, or exactly one worker has it; a call returned 0 if and only if its task was accepted; the counters are exact and live stays within its bounds |
| `ThreadPool.WorkerKeepsItsTask` | src/threadpool.cpp:286-312 | the task that leaves the queue is the one the worker takes, runs and finishes; no other worker changes |
| `ThreadPool.RunExecutes` | src/threadpool.cpp:286-312 | in every run, dequeued tasks are those finished and those held by workers, each once |
| `ThreadPool.NobodyParksAfterShutdown` | src/threadpool.cpp:71-74 | from shutdown on no worker waits for work |
| `ThreadPool.FreedAfterEveryThread` | src/threadpool.cpp:76-88 | when the pool is freed, the manager and every worker ever started have exited, and every task taken from the queue has been run, exactly once |
| `ThreadPool.MoveIsProgress` | src/threadpool.cpp:63-91 | after shutdown every move of the pool brings it nearer its end, and the queue no longer changes |
| `ThreadPool.TeardownIsBounded` | src/threadpool.cpp:63-91 | so it makes a bounded number of moves, whatever callers do |
| `ThreadPool.TeardownIsNeverStuck` | src/threadpool.cpp:63-91 | and it can always make one until it is freed |
| `ThreadPool.ShutdownFreezesTheQueue` | src/threadpool.cpp:71-74 | in every run after shutdown a caller is left waiting if and only if it waited then and did not wake on its own; queued tasks are never dequeued |
| `ThreadPool.DestroyStrandsAnAdder` | src/threadpool.cpp:71-88 | both happen: a run to the free with an accepted task not run and a caller waiting |
| `PoolLaws.WhoWakes` | src/threadpool.cpp:173-236 | a waiting worker wakes exactly on its own, by the signal of an accepted task, or by a broadcast to retire or to shut down; nobody else is moved |
| `PoolLaws.WhoIsRoused` | src/threadpool.cpp:149-295 | a waiting caller wakes exactly on its own or when a task is dequeued, and then all do; an answer is final |
| `PoolLaws.WhatALockedWorkerDoes` | src/threadpool.cpp:254-298 | it leaves if and only if it retires or the pool shuts down, otherwise takes the oldest task or waits for one; it retires if and only if it was woken to an empty queue, places are set and more threads live than must be kept |
| `PoolLaws.WhenLiveChanges` | src/threadpool.cpp:209-275 | the number of live threads changes only by creating one and by retiring one |
| `PoolLaws.WhatACallerIsAnswered` | src/threadpool.cpp:147-176 | refused if and only if shut down, waiting if and only if the queue is full, otherwise accepted at the back |
| `PoolLaws.OnlyCallersAccept` | src/threadpool.cpp:145-176 | nothing else accepts a task, and only workers dequeue |
| `PoolLaws.RefusedMeansShutdown` | src/threadpool.cpp:153-157 | in every run a refused call was refused because of the shutdown |
| `PoolLaws.WhatTheManagerDecides` | src/threadpool.cpp:184-204 | it creates threads if and only if at least ten tasks waited and there was room, on numbers current when read, and leaves only after shutdown |
| `PoolLaws.WhereThreadsAreCreated` | src/threadpool.cpp:209-221 | one thread for each slot without one that the loop comes to, while fewer than ten are created and the pool is not full; a failed creation leaves the slot empty |
| `PoolLaws.WhenGrowingEnds` | src/threadpool.cpp:209 | when ten are created, the pool is full, or every slot was seen, and not before |
| `PoolLaws.GrowingStaysInBounds` | src/threadpool.cpp:209-221 | in every run, one pass creates at most ten threads |
| `PoolLaws.WhenThreadsAreRetired` | src/threadpool.cpp:227-236 | ten places are set if and only if fewer than half of the threads were busy and more lived than must be kept; each is used up by a worker woken to an empty queue |
| `PoolCode.Pool.IsReachable` | src/threadpool.cpp:23-46 | the object is always in a reachable state, so until shutdown a queued task has an active worker |
| `PoolCode.Pool.constructor` | src/threadpool.cpp:318-384 | creation yields the initial state, over ring and array, if and only if there are slots for the first threads |
| `PoolCode.Pool.StartWorkers` | src/threadpool.cpp:371-374 | one worker in each of the first slots, the others empty |
| `PoolCode.Pool.WorkerSection` | src/threadpool.cpp:251-298 | the worker's section on ring and fields is exactly one step of the pool |
| `PoolCode.Pool.ResumeWork` | src/threadpool.cpp:256-275 | so is its part after a wait |
| `PoolCode.Pool.LookForWork` | src/threadpool.cpp:254-298 | and its part from the loop guard on |
| `PoolCode.Pool.WakeWorker` | src/threadpool.cpp:256 | a wait that returns by itself is one step |
| `PoolCode.Pool.StartTask` | src/threadpool.cpp:302-304 | counting a task in is one step |
| `PoolCode.Pool.EndTask` | src/threadpool.cpp:310-312 | counting it out is one step |
| `PoolCode.Pool.EndThread` | src/threadpool.cpp:272-284 | the end of a thread is one step |
| `PoolCode.Pool.Call` | src/threadpool.cpp:145-147 | a call of threadpool_add is one step |
| `PoolCode.Pool.AddSection` | src/threadpool.cpp:147-176 | the caller's section is exactly one step |
| `PoolCode.Pool.AcceptTask` | src/threadpool.cpp:166-174 | on the ring, the task joins the queue, the call succeeds, and the signalled worker wakes |
| `PoolCode.Pool.WakeCall` | src/threadpool.cpp:151 | a caller's wait that returns by itself is one step |
| `PoolCode.Pool.Adjust` | src/threadpool.cpp:184-237 | each move of the manager is one step |
| `PoolCode.Pool.GrowTurn` | src/threadpool.cpp:209-221 | so is one turn of its creating loop |
| `PoolCode.Pool.CreateThread` | src/threadpool.cpp:213-219 | the new worker is in its slot and counted |
| `PoolCode.Pool.GrowSection` | src/threadpool.cpp:204-224 | the creating loop ends, for every pattern of failures; between its turns other threads do anything that needs no lock, and nothing that does |
| `PoolCode.Pool.ShrinkSection` | src/threadpool.cpp:227-236 | the section that retires workers is one step |
| `PoolCode.Pool.DestroyMove` | src/threadpool.cpp:71-88 | the section that begins destruction, and each join, is one step |
| `PoolCode.Pool.Others` | src/threadpool.cpp:204-224 | while the manager is in its section nobody else takes the lock or moves the manager |
| `PoolCode.Pool.Perform` | src/threadpool.cpp:63-316 | every possible step can be made, and has exactly its effect |
| `PoolCode.Pool.Follow` | src/threadpool.cpp:63-316 | the object can follow every run |
| `PoolCode.Pool.Run` | src/threadpool.cpp:63-316 | under any scheduler it stays a run, and after shutdown only comes nearer its end |
| `PoolCode.Pool.Destroy` | src/threadpool.cpp:63-91 | whatever scheduler and callers do, destruction returns, with every thread exited, every task taken run, and the tasks queued at its beginning undone |
| `LineReader.LineGoesOn` | src/wrap.c:232-246 | bytes without a newline that do not fill the line are its beginning |
| `LineReader.LineIsTheLine` | src/wrap.c:226-250 | a line has no newline but at its end, fits, and stops short of the stream's end only for a newline or for want of room |
| `LineReader.CompleteLineIsFinal` | src/wrap.c:232-246 | a complete line does not depend on what arrives later |
| `LineReader.LinesJoinToTheStream` | src/wrap.c:226-250 | repeated calls lose nothing, and only the last line may be incomplete |
| `LineReader.CutGrows` | src/wrap.c:226-250 | lines cut off stay the same when more arrives |
| `LineReader.CutsAreLines` | src/wrap.c:226-250 | lines cut off one by one are the first lines of the whole stream |
| `LineReader.Reader.Refill` | src/wrap.c:197-213 | one read, of the whole buffer's size; the carry becomes exactly what it delivered, and the answer is the kernel's |
| `LineReader.Reader.ReadByte` | src/wrap.c:195-218 | old carry ++ new bytes is the result ++ new carry; the kernel is asked exactly when the carry is empty, failure and end are reported exactly when it says so |
| `LineReader.Reader.Pull` | src/wrap.c:233-237 | one turn of that loop loses no byte |
| `LineReader.Reader.Gather` | src/wrap.c:232-246 | the line and the carry together are what there was and what arrived; it stops for the end or a failure exactly when the last read found it |
| `LineReader.Reader.ReadLine` | src/wrap.c:226-250 | returns the line that the stream defines, terminated, however reads are sized; incomplete if and only if the stream ended; -1 if and only if the last read failed; bytes lost if and only if moreover there were any; carried bytes first, whichever descriptor they are from |
| `LineReader.MixedLine` | src/wrap.c:190-218 | a byte left over from one descriptor begins the line read from another |
| `LineReader.Reader.ReadLines` | src/wrap.c:226-250 | any number of calls return the first lines of the stream, in order; what is left is the carry, or the line in which a read failed |

## Left out

- Machine arithmetic: sizes, indices, times and counters are unbounded, except the 16- and 32-bit fields of a frame header. An eventfd counter does not saturate.
- `EventLoop`, `EventLoopThread`, `Lifecycle`, `ThreadPool`: interleaved threads are steps over values. `EventLoop.Loop` and `PoolCode.Pool` tie the imperative code of the first and the last to the steps; the other two have no such object, so aliasing of their fields is not captured.
- Steps are sections under a lock or moves of one loop's thread. Data races on fields read without a lock are not modelled, except that the manager of the thread pool decides on stale numbers and reads `shutdown` outside the lock.
- `EventLoop.Loop.Run`: is watched for any number of turns, since a loop need not end.
- `PoolCode.Pool.constructor`: takes the first threads as created and the numbers as not negative; with more first threads than slots the model stops where the source writes past its array.
- `ThreadPool.FreedAfterEveryThread`: takes the test whether a thread is alive as exact, and callers as having stopped once the pool is freed.
- `ThreadPool.TeardownIsBounded`: takes tasks to return.
- `ConnectionTable.Table.AcceptOne`: is one iteration of the accepting loop; the descriptor is one the table does not hold.
- `TcpConnection.Connection.UserCallback`: user code nests to any finite depth; it does not destroy the connection, which its caller keeps alive.
- `EchoServer.Session.Reply`: the echo server registers no callback that sends, so nothing is nested there.
- `LineReader.Reader.ReadLines`: stops at an incomplete line, though a later call might find that the stream goes on.
- `ConnectionTable.Table.Reuse`: stops short of the write past the end of the array.
- `Lifecycle.StepKeepsInv`: closing is one step, together with its callbacks; only functors that hold the shared pointer are modelled. Queued sends, shutdowns and forced closes hold a bare `this`, and a destroyed server with live connections is not modelled.
- `TimerQueue.TimerQueue.ResetTimerfd`: the two clocks it mixes are taken as one, and the clock is read at the moment the timerfd is set.
- `LineReader.Reader.ReadByte`: a read interrupted by a signal forever is not modelled.
- A timer is a value; its callback is what the queue may see of it, namely new timers.
- The main loop of `epoll_reactor` and its listening socket; that closing clears a slot's buffer, which taking the slot again does too.
- The batch of at most sixteen events per poll, timeouts of poll, and its error results.
- Sockets, addresses, the acceptor, logging, configuration, databases, JSON services and the session manager: foreign calls, or easy invariants.
- Choosing an IO loop round robin: any loop may be chosen.
- `Readn` and `Writen`: simple loops whose laws are those of the buffer's reads and writes.
