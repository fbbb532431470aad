# A verified model of the IOCP server core

The server core hands out sessions from a pool to worker threads, assembles packets from receive
completions, and sends queued messages one at a time. This project models those three parts and proves
what holds of them in every run.

* `SessionBody`, `AtomicPool`, `SessionManager`, `ConcurrentPool`, `UncheckedRelease` - the session pool of
  `ServerCore/SessionManager.cpp`. `SessionManager` is the class, method by method, proved against
  `AtomicPool`, a LIFO allocator whose operations are atomic. `ConcurrentPool` lets any number of threads
  interleave the micro-steps of the critical sections and is proved to refine `AtomicPool`, in lock order.
  `UncheckedRelease` lets them release any session at any time and says when ownership stays exclusive.
* `Bytes`, `Framing`, `Packets` - what a byte stream means as packets, and the packed packet structs.
* `RingBuffer`, `Receiver`, `ReceiverRuns`, `Cuttings` - the receive side as the code has it: the ring buffer
  over an array, the extraction loop of `ClientSession::OnRecvCompleted`, whole connections, and which
  streams it gets right however they are cut.
* `Sending`, `Delivery` - the send queue with its flag, posted sends and completions on any thread, and
  the two sides joined by a connection whose bytes are cut into completions anywhere.
* `Lives`, `Reconnects`, `Reuse` - connection after connection on the same session: what outlives a
  connection, exactly when the next one is served and carries only its own bytes, and the same for every
  session of the concurrent pool, in every interleaving of the whole server.

The two copies of the library differ. The pool follows `ServerCore/`; the receive and send sides follow
`ServerCoreLibrary/`, which is the one the servers link and the one with size checks and partial sends.
Many of those source files carry comments in EUC-KR; for them the table cites the design they implement,
in README.md, or a declaration, and names the lines of the code in its third column.

## Where the code does less than it should

Four properties do not hold of the code without a condition. Each is stated with a run that breaks it
and the exact condition under which it holds.

* **Receive side.** `RingBuffer::Read` copies up to the end of the array first, also when the request ends
  before it (`ServerCoreLibrary/RingBuffer.cpp:43-47`); the second copy then has a negative length, which
  has no meaning in C++. `OnRecvCompleted` does not look at the result of `Write`
  (`ServerCoreLibrary/ClientSession.cpp:18`), so a chunk for which there is no room is lost.
  `ReceiverRuns.AgreesExactlyWhenGood` says that the code agrees with the meaning of the stream after every
  completion if and only if every completion finds room and leads to no such request.
  * In terms of what is sent alone: packets are delivered under every interleaving and every cutting if and
    only if each packet longer than 4096 bytes starts fewer than 8192 bytes before the end of the stream, and
    none ends fewer than 4096 bytes before the first place after its start where the ring comes round, if the
    stream gets there (`Delivery.AlwaysServedExactly`). For packets of the protocol that means until 8192
    bytes have been sent (`Delivery.MessagesAlwaysServed`): eight chat lines always arrive
    (`Delivery.EightChatLines`), nine may end in the undefined copy (`Delivery.NineChatLines`).
  * A sender that waits for each packet to be dispatched is served in every run if and only if its packets are
    shorter than 8192 bytes (`Delivery.LockstepExactly`; `Delivery.FullPacketNotServed` is the run that breaks
    it). The size check accepts 8192 and the ring holds 8191:
    such a packet never arrives on a new connection, a shorter one always does (`Cuttings.LargestPacket`).
  * A peer that may send any packets of up to n bytes never loses a chunk if and only if n is at most 4096
    (`Cuttings.RoomExactly`); for each larger n, `Cuttings.FillsUp` is a connection that loses one.
* **Abnormal ids.** README.md:38 of the repository says that an abnormal id closes the connection. The
  dispatcher logs an unknown id and goes on (`ServerCoreLibrary/PacketDispatcher.cpp:32-37`).
  `Receiver.UnknownIdStaysOpen` is that case for every such packet shorter than 8192 bytes (a longer one does
  not arrive), in any pieces, at any point where nothing else is buffered. What does close an open connection
  is exactly a completion of no bytes or a header with a bad size (`Receiver.ClosesExactly` for one
  completion, `ReceiverRuns.ConnectionClosesExactly` for a connection).
* **Clean reuse.** `Session::Init` resets neither the send queue nor the sending flag
  (`ServerCore/Session.cpp:7-11`, `ServerCoreLibrary/Session.cpp:8-15`), and `Disconnect` releases the session
  without waiting for a thread between the lock section of `SendPacket` and its call of `Send`, or for a send
  whose completion has not been handled (`ServerCoreLibrary/Session.cpp:149-176`, `181-189`). Both act on
  whatever connection the session has by then.
  * A session handed out is as good as new exactly when the send side left behind is idle
    (`AtomicPool.CleanHandout`, `ConcurrentPool.ConcurrentCleanHandout`, `Reuse.HandedOut`).
  * When `OnAccepted` runs, the connection serves whatever happens from then on if and only if its wire is
    empty and the session is idle or waits only for a completion that makes it idle
    (`Reconnects.ServesExactly`). It carries only its own bytes whatever happens if and only if nothing that
    can carry an old one is there (`Reconnects.OwnBytesExactly`; the condition is `Reconnects.Leaks`).
    `Reuse.AcceptedExactly` is both for every session in every interleaving of the whole server.
  * Runs that break it: an old message is sent to the next peer (`Reconnects.SentToTheNext`), or the rest of
    one (`Reconnects.RestSentToTheNext`), or a send that failed on the old socket ends the next connection
    (`Reconnects.OldFailureEndsTheNext`). Before `OnAccepted` such a failure ends nothing
    (`Lives.GoesLiveAnyway`, `Reconnects.OldFailureBeforeOnAccepted`). An old completion can also repair the session
    (`Reconnects.OldCompletionHelps`). What does hold without condition is that every connection carries one
    unbroken piece of what was ever passed to `SendPacket` (`Lives.WireInOnePiece`).
  * A session stops sending for good exactly when its send side has called `Disconnect`, because a post was
    refused or a completion reported no bytes or an error (`Lives.StopsExactly`, `Lives.StaleForever`,
    `Reuse.StopsExactly`, `Reuse.StaleForGood`; `Reconnects.RefusedConnection` is the shortest such life).
* **Exclusive ownership.** `Release` does not ask who holds its argument, and in the copy that the pool
  follows `Disconnect` has no guard (`ServerCore/Session.cpp:213-226`): two completions of no bytes, each of
  which disconnects, release the session twice. In an interleaving in which threads release any session at
  any time, every session is in one place in every state if and only if every release is by a thread that
  holds the session at that moment (`UncheckedRelease.ExclusiveExactlyWhenHeld`); that some other thread holds
  it is not enough. `UncheckedRelease.ReleasedByAnother` and `UncheckedRelease.ReleasedTwice` end with two
  threads holding one session. The results of `AtomicPool`, `SessionManager` and `ConcurrentPool` are for
  callers that release only what they hold.

## Which runs there are

The results are about every run, so each transition system also comes with what its runs can do next, proved
over runs: a call, a release or a change of a send side can begin whoever has the lock (`ConcurrentPool.GetAnytime`,
`HolderIsFree`, `TouchAnywhere`, `WaitAtEveryPoint`); a send, a completion or the peer's end is never held back
(`Sending.GoesOn`, `Lives.Unhindered`, `Lives.OutstandingGoesOn`, `Delivery.DeliversAnytime`); and on the whole
server every life of a session happens, also while it is pooled (`Reuse.UsedAnywhere`,
`Reuse.EveryLifeHappens`).

## Assumptions

Sessions are numbered in order of construction. A thread writes to a session only while it holds it and is
outside its own pool calls, and it may pass a session on to another thread; the send side is the exception, it
may change on any thread at any time, also while the session is pooled. A completion of an error is treated
as one of no bytes: both lead to `Disconnect` (`ServerCoreLibrary/IocpCore.cpp:134-152`,
`ServerCoreLibrary/Session.cpp:97-102`). `SessionManager::Init` runs
before any thread starts. Constants are those of `ServerCommon/Defines.h` (1000 pooled sessions, completions
of up to 4096 bytes, a ring buffer of 8192 cells, names of 300 and chat lines of 1000 characters).
Integers are little-endian and plain `memcpy` semantics apply. What the operating system decides (whether a
posted send is accepted, how many bytes a completion reports, how the stream is cut) is left to the
environment. Results about the code's receive side that need more than that say so in a hypothesis on the
completions (`AllGood`, `NoEarlyEnd`), on the sender (`Lockstep`), or on the packets.

## Model

| member | source | states |
|---|---|---|
| SessionManager.Session.Init | ServerCore/SessionManager.cpp:32-32 | the ring positions and the socket are reset and nothing else changes (code: `ServerCore/Session.cpp` lines 7-11) |
| SessionManager.SessionManager.Init | ServerCore/SessionManager.cpp:5-11 | 1000 new sessions are pushed on whatever was pooled; from the empty pool this is the start of every run |
| SessionManager.SessionManager.GetEmptySession | ServerCore/SessionManager.cpp:13-26 | the top is popped, or a new session is handed out when there was none; the new state is the atomic Get |
| SessionManager.SessionManager.Release | ServerCore/SessionManager.cpp:28-34 | a held session is reset and becomes the top; the new state is the atomic release |
| SessionManager.FirstThousand | ServerCore/SessionManager.cpp:7-20 | after Init of an empty pool any 1000 Gets construct nothing and each further one constructs a session |
| AtomicPool.RunInv | ServerCore/SessionManager.cpp:13-34 | in every sequential run each session ever constructed is in one place: once on the stack or with one holder; the free ones are clean |
| AtomicPool.Conservation | ServerCore/SessionManager.cpp:5-34 | constructed = pooled + held |
| AtomicPool.AllocationBound | ServerCore/SessionManager.cpp:7-20 | the number ever constructed is the larger of the initial size and the peak number out at once |
| AtomicPool.UntouchedBottom | ServerCore/SessionManager.cpp:17-33 | while peak demand stays within k above the demand at the start, all but the top k entries stay as they are and nothing is constructed |
| AtomicPool.DrainIsPermutation | ServerCore/SessionManager.cpp:28-34 | releasing everything held, in any order, leaves each session ever constructed on the stack exactly once |
| AtomicPool.NestedUse | ServerCore/SessionManager.cpp:17-33 | nested use ends with the old stack on top of exactly the sessions it had to construct, newest at the bottom, as many as the nesting is deeper than the pool |
| AtomicPool.NestedSlides | ServerCore/SessionManager.cpp:17-33 | the same on the stack and the count alone, by induction on the bracket structure |
| AtomicPool.CleanHandout | ServerCore/SessionManager.cpp:22-33 | a session handed out has a cleared receive side and no socket; its send side is what was left behind at its last release, as touched since; it is as new if and only if that is idle |
| AtomicPool.StaleHandout | ServerCore/SessionManager.cpp:30-33 | a run after which a session is about to be handed out with an old message and the flag set (code: `ServerCore/Session.cpp` lines 7-11) |
| ConcurrentPool.Simulation | ServerCore/SessionManager.cpp:13-34 | each micro-step of each thread is one legal event of the atomic pool or none, also across the state where a session is constructed but not yet popped |
| ConcurrentPool.Refinement | ServerCore/SessionManager.cpp:13-34 | every interleaving of any number of threads does what a sequential run of the atomic pool does |
| ConcurrentPool.GetAnytime | ServerCore/SessionManager.cpp:13-15 | which interleavings there are: every interleaving goes on with a call of Get by any thread that is outside, whoever is in the section |
| ConcurrentPool.HolderIsFree | ServerCore/SessionManager.cpp:28-30 | on a thread outside, whoever is in the section, every interleaving goes on with a release, a write or a hand-over of a session exactly when that thread holds it |
| ConcurrentPool.TouchAnywhere | README.md:14-16 | and with a change of the send side of a session, also one pooled or half reset, exactly when Init pushed it or a Get has popped it (code: `ServerCoreLibrary/Session.cpp` line 107 takes a lock of its own) |
| ConcurrentPool.GoesOnExactly | ServerCore/SessionManager.cpp:15-30 | a thread in a call can go on if and only if it is in the section or waits and the lock is free |
| ConcurrentPool.WaitAtEveryPoint | ServerCore/SessionManager.cpp:13-34 | for every point of a Get, one that finds a session and one that constructs it, and of a Release, and any number of threads, an interleaving in which one thread is there and all others wait |
| ConcurrentPool.Linearizability | ServerCore/SessionManager.cpp:15-33 | the returned calls and their results are that run's calls, in the order in which the threads held the lock |
| ConcurrentPool.StackSafety | ServerCore/SessionManager.cpp:15-23 | no thread reads the top of an empty stack or pops it |
| ConcurrentPool.ExclusiveOwnership | ServerCore/SessionManager.cpp:13-34 | in every reachable state no session is pooled twice, with two threads, or both pooled and with a thread, counting the sessions inside calls |
| ConcurrentPool.NothingLost | ServerCore/SessionManager.cpp:13-34 | in every reachable state each session is pooled or with a thread, held by it or inside its call |
| ConcurrentPool.ConcurrentAllocationBound | ServerCore/SessionManager.cpp:7-20 | the exact allocation bound in every interleaving |
| ConcurrentPool.ConcurrentCleanHandout | ServerCore/SessionManager.cpp:28-33 | although a reset is three stores and send sides change meanwhile, no Get in any interleaving returns a session whose reset was half done; its send side is what was left behind, and it is as new if and only if that is idle |
| UncheckedRelease.PutKeepsOnePlace | ServerCore/SessionManager.cpp:28-34 | from any state with every session in one place, a call of Release keeps that if and only if the calling thread itself holds the session |
| UncheckedRelease.WholeRelease | ServerCore/SessionManager.cpp:28-34 | the same once the call has returned: otherwise the session is on the stack and elsewhere, or on the stack twice |
| UncheckedRelease.ReleaseAnytime | ServerCore/SessionManager.cpp:28-30 | every interleaving with unchecked releases goes on with the release of any session by any thread that is outside |
| UncheckedRelease.ExclusiveExactlyWhenHeld | ServerCore/SessionManager.cpp:28-34 | in any interleaving with unchecked releases, every session is in one place in every state if and only if every release is by a thread that holds the session then |
| UncheckedRelease.ReleasedByAnother | ServerCore/SessionManager.cpp:28-34 | a run in which one thread releases what another holds and a third gets it: two threads hold one session |
| UncheckedRelease.ReleasedTwice | ServerCore/SessionManager.cpp:28-34 | a run in which one session is released twice and then handed to two threads (code: `ServerCore/Session.cpp` lines 92-99, 140-146 and 213-226) |
| ConcurrentPool.NoDeadlock | ServerCore/SessionManager.cpp:15-30 | while a call is under way some thread can take a step |
| ConcurrentPool.CallsComplete | ServerCore/SessionManager.cpp:13-34 | without new calls the number of further micro-steps is bounded by what the calls under way have left |
| Framing.AssembleSound | README.md:25-27 | what is extracted are whole packets followed by the leftover, which is less than a header or less than its announced size, or a malformed header when the connection is closed (code: `ServerCoreLibrary/ClientSession.cpp` lines 21-64) |
| Framing.AssembleComplete | README.md:25-27 | any list of whole packets followed by a non-packet is exactly what is extracted (code: `ServerCoreLibrary/ClientSession.cpp` lines 21-64) |
| Framing.ParseIsUnique | README.md:25-27 | a byte stream reads as packets in at most one way |
| Framing.ChunkingIndependence | README.md:25-27 | however the stream is cut, packets, leftover and open or closed are those of the joined bytes up to the peer's shutdown |
| Framing.FramingRoundTrip | README.md:25-27 | whole packets delivered in any pieces come out as sent with nothing left over |
| Framing.AssemblePrefix | README.md:25-27 | part of a stream of whole packets yields a prefix of them and leaves the connection open |
| RingBuffer.RingBuffer.Write | README.md:25-27 | appends all bytes, or none when there are none or no room; one cell stays empty (code: `ServerCoreLibrary/RingBuffer.cpp` lines 5-29) |
| RingBuffer.RingBuffer.Read | README.md:25-27 | takes the first bytes in order, refuses more than is stored, and is undefined exactly for a negative length or for a wrapped layout with a request that ends before the end of the array (code: `ServerCoreLibrary/RingBuffer.cpp` lines 31-53) |
| RingBuffer.RingBuffer.Peek | README.md:25-27 | copies the first bytes and changes nothing (code: `ServerCoreLibrary/RingBuffer.cpp` lines 55-79) |
| RingBuffer.RingBuffer.GetFreeSize | README.md:25-27 | the free size is the number of cells less one less the stored bytes (code: `ServerCoreLibrary/RingBuffer.cpp` lines 93-104) |
| RingBuffer.StoredAppend | README.md:25-27 | copying in one or two pieces at the write position appends, whether or not it goes round (code: `ServerCoreLibrary/RingBuffer.cpp` lines 11-26) |
| RingBuffer.StoredDrop | README.md:25-27 | moving the read position drops the first bytes (code: `ServerCoreLibrary/RingBuffer.cpp` lines 50-50) |
| RingBuffer.ReadUndefinedExample | README.md:25-27 | a layout with four stored bytes of which two cannot be read (code: `ServerCoreLibrary/RingBuffer.cpp` lines 41-48) |
| Receiver.ClientSession.OnRecvCompleted | ServerCoreLibrary/ClientSession.h:12-12 | a completion has the outcome, the new buffer and the dispatched packets that Accept says, and handlers run for the registered ids only (code: `ServerCoreLibrary/ClientSession.cpp` lines 7-69) |
| Receiver.ClientSession.ExtractOne | README.md:25-27 | one turn waits, rejects the size, reads undefined, or takes exactly the first packet (code: `ServerCoreLibrary/ClientSession.cpp` lines 23-62) |
| Receiver.ExtractingTurn | README.md:25-27 | each turn keeps the loop invariant and shortens the buffer, and a read can only be undefined on the first turn of a completion (code: `ServerCoreLibrary/ClientSession.cpp` lines 21-64) |
| Receiver.ClientSession.Dispatch | README.md:33-34 | a packet with an unregistered id reaches no handler and changes nothing else (code: `ServerCoreLibrary/PacketDispatcher.cpp` lines 19-45) |
| Receiver.HandledExactly | README.md:33-34 | a packet reaches a handler if and only if it arrived and its id was registered (code: `ServerCoreLibrary/PacketDispatcher.cpp` lines 27-42) |
| Receiver.HandledAppend | README.md:33-34 | handlers are called packet by packet in order of arrival (code: `ServerCoreLibrary/PacketDispatcher.cpp` lines 27-42) |
| Receiver.UnknownIdStaysOpen | README.md:36-38 | at any point of a connection with nothing buffered, any whole packet shorter than 8192 bytes with an unregistered id, in any pieces, is dispatched, reaches no handler and leaves the connection open, unlike the cited line says (code: `ServerCoreLibrary/PacketDispatcher.cpp` lines 32-37) |
| Receiver.ClosesExactly | README.md:36-38 | a completion with a defined outcome closes an open connection if and only if it is empty or what is buffered is whole packets followed by a header with a bad size (code: `ServerCoreLibrary/ClientSession.cpp` lines 9-44) |
| Receiver.FirstHeader | ServerCommon/PacketStruct.h:4-9 | the first completion byte by byte: bytes 0 and 1 are the size, closed exactly for a size under 4 or over 8192, waiting exactly for one that has not arrived; otherwise the first packet has that size and its handler is that of the id in bytes 2 and 3 (code: `ServerCoreLibrary/ClientSession.cpp` lines 21-64) |
| ReceiverRuns.AgreesExactlyWhenGood | README.md:25-27 | the code agrees with the meaning of the stream after every completion if and only if every completion finds room and ends no packet early (code: `ServerCoreLibrary/ClientSession.cpp` lines 17-64) |
| ReceiverRuns.GoodChunkingIndependence | README.md:25-27 | under that condition the code's own state does not depend on how the bytes were cut (code: `ServerCoreLibrary/ClientSession.cpp` lines 17-64) |
| ReceiverRuns.ConnectionClosesExactly | README.md:36-38 | a connection whose completions are all good is closed if and only if the peer shut down or its bytes are whole packets followed by a header with a bad size |
| ReceiverRuns.SmallPacketsFit | README.md:25-27 | a stream of such packets never loses a chunk (code: `ServerCoreLibrary/ClientSession.cpp` lines 17-46) |
| ReceiverRuns.PipelinedConnection | README.md:25-27 | three completions of a well-behaved peer after which the outcome is undefined (code: `ServerCoreLibrary/RingBuffer.cpp` lines 41-48) |
| Cuttings.RoomExactly | README.md:25-27 | for the class of peers that send whole packets of up to n bytes, every completion in every reachable open state finds room if and only if n is at most 4096 (code: `ServerCoreLibrary/ClientSession.cpp` lines 17-18) |
| Cuttings.FillsUp | README.md:25-27 | for each larger n a connection whose second completion is lost (code: `ServerCoreLibrary/ClientSession.cpp` lines 17-18) |
| Cuttings.LargestPacket | README.md:25-27 | however it is cut, the first packet of a connection arrives if it is shorter than 8192 bytes and never if it has 8192, which the size check accepts (code: `ServerCoreLibrary/ClientSession.cpp` lines 38-46) |
| Cuttings.EveryCuttingExactly | README.md:25-27 | a stream of whole packets survives every cutting if and only if each packet longer than 4096 bytes starts fewer than 8192 bytes before its end and none ends fewer than 4096 bytes before the first place after its start where the ring comes round (code: `ServerCoreLibrary/RingBuffer.cpp` lines 41-48, `ServerCoreLibrary/ClientSession.cpp` lines 17-18) |
| Cuttings.ClearWhenAtMost4096 | README.md:25-27 | for packets of up to 4096 bytes that is so if and only if none ends fewer than 4096 bytes before any place where the ring comes round |
| Cuttings.SurvivesWhenShort | README.md:25-27 | for packets shorter than 4096 bytes it is so if and only if the whole stream is shorter than 8192 bytes |
| Cuttings.BreakingStream | README.md:25-27 | for every longer stream of such packets a cutting after which the outcome is undefined |
| Cuttings.BadCostsBytes | README.md:25-27 | after a completion that is not good the outcome is undefined or closed, or a byte that arrived is neither dispatched nor buffered, for the rest of the connection (code: `ServerCoreLibrary/ClientSession.cpp` lines 17-64) |
| Sending.Session.SendPacket | README.md:29-31 | the message is queued last, and a send of the front is posted exactly when none was under way (code: `ServerCoreLibrary/Session.cpp` lines 178-191) |
| Sending.Session.Send | README.md:29-31 | the unsent part of the front is posted, a refusal disconnects, an empty queue ends sending (code: `ServerCoreLibrary/Session.cpp` lines 55-91) |
| Sending.Session.OnSendCompleted | README.md:29-31 | zero bytes disconnect; otherwise the sent bytes leave the front and the next send is posted exactly when something is left (code: `ServerCoreLibrary/Session.cpp` lines 95-140) |
| Sending.StepInv | README.md:29-31 | every step of every thread and every completion keeps the invariant: one send at a time, no byte lost, repeated or reordered (code: `ServerCoreLibrary/Session.cpp` lines 55-191) |
| Sending.FinishBacklog | README.md:29-31 | a completion takes exactly its bytes off the unsent bytes and asks for another send exactly when any message is left (code: `ServerCoreLibrary/Session.cpp` lines 114-133) |
| Sending.SendMachine | README.md:29-31 | in every run at most one send is outstanding, the machine is idle exactly when nothing is queued, the wire is a prefix of all messages and all of them when idle |
| Sending.GoesOn | README.md:29-31 | which runs there are: until the session closes any message can be queued at any moment, and the one thread or send under way can go on, whether the post is accepted or refused and however many of the bytes go out (code: `ServerCoreLibrary/Session.cpp` lines 55-191) |
| Sending.NeverStuck | README.md:29-31 | while something is queued some step can be taken (code: `ServerCoreLibrary/Session.cpp` lines 106-138) |
| Sending.Drains | README.md:29-31 | every step that queues nothing brings the session nearer to idle or closes it (code: `ServerCoreLibrary/Session.cpp` lines 106-138) |
| Sending.DrainsInTime | README.md:29-31 | in every run that queues nothing and stays open the number of steps is bounded by the distance to idle that they use up (code: `ServerCoreLibrary/Session.cpp` lines 106-138) |
| Lives.WireInOnePiece | README.md:29-31 | in every life of a session every connection carries one piece of everything ever passed to SendPacket: nothing inside it lost, repeated or reordered (code: `ServerCoreLibrary/Session.cpp` lines 55-191) |
| Lives.Unhindered | README.md:14-16 | which lives there are: at any moment a message can be passed, the next socket comes exactly when the last is closed, OnAccepted exactly after that, and a live connection can end (code: `ServerCoreLibrary/Listener.cpp` lines 139-162, `ServerCoreLibrary/Session.cpp` lines 149-191) |
| Lives.OutstandingGoesOn | README.md:29-31 | a thread on its way to Send, or a send of any connection, can go on in every phase, whatever the system answers (code: `ServerCoreLibrary/Session.cpp` lines 55-140) |
| Lives.GoesLiveAnyway | README.md:14-16 | for every life in which the next socket is attached, whatever old completions fail and whatever posts are refused before OnAccepted, the connection is still there, has not been ended, and goes live (code: `ServerCoreLibrary/Session.cpp` lines 143-153) |
| Lives.StaleForever | README.md:14-16 | with the flag set and nothing outstanding, no connection of the session, now or later, carries a further byte (code: `ServerCoreLibrary/Session.cpp` lines 8-15 and 178-191) |
| Lives.StopsExactly | README.md:14-16 | in every life a session is in that state if and only if its send side has called Disconnect at some step, on whatever connection (code: `ServerCoreLibrary/Session.cpp` lines 79-102) |
| Reconnects.ServesExactly | README.md:14-16 | at any point of any life, the connection that goes live serves in every run if and only if nothing is on its wire and the session is idle or waits only for a completion that makes it idle (code: `ServerCoreLibrary/Session.cpp` lines 8-15, 143-191) |
| Reconnects.OwnBytesExactly | README.md:14-16 | it carries only its own bytes in every run if and only if no old byte is on the wire, posted on it, about to be posted, or brought to the front by a completion of an earlier connection (code: `ServerCoreLibrary/Session.cpp` lines 55-140) |
| Reconnects.SentToTheNext | README.md:29-31 | for every message a life in which it is sent on the next connection, by a thread that was on its way to Send (code: `ServerCoreLibrary/Session.cpp` lines 181-189) |
| Reconnects.RestSentToTheNext | README.md:29-31 | for every message and every proper part of it a life in which the rest is sent on the next connection, after the completion of that part (code: `ServerCoreLibrary/Session.cpp` lines 114-138) |
| Reconnects.OldFailureEndsTheNext | README.md:29-31 | a life in which the failure of a send of one connection ends the next (code: `ServerCoreLibrary/IocpCore.cpp` lines 134-152) |
| Reconnects.OldFailureBeforeOnAccepted | README.md:29-31 | for every message a life in which the same failure is handled between the attaching of the next socket and OnAccepted: the connection goes live, and the session never sends again (code: `ServerCoreLibrary/Session.cpp` lines 143-153) |
| Reconnects.OldCompletionHelps | README.md:29-31 | a life in which a late completion makes the session idle while the next connection is live |
| Reconnects.RefusedConnection | README.md:29-31 | for every message a connection ended by the refusal of its first send, which leaves the session unable to send |
| Reuse.HistoryIsTrace | README.md:14-16 | for the pool, a history of the whole server is one of its interleavings |
| Reuse.HistoryIsLife | README.md:14-16 | for each session, a history of the whole server is one of its lives |
| Reuse.UsedAnywhere | README.md:14-16 | every history goes on, on any thread outside its pool calls, with exactly what the life of a session that Init pushed or a Get has popped allows, whoever holds the session and also while it is pooled; only the socket and OnAccepted are for its holder (code: `ServerCoreLibrary/IocpCore.cpp` lines 152-190) |
| Reuse.PooledAsAlone | README.md:14-16 | every history goes on with exactly the steps of the pool that it allows alone, but that a release waits for Disconnect and a holder leaves the send side to its life |
| Reuse.EveryLifeHappens | README.md:14-16 | the converse of HistoryIsLife: from any moment with the session on top of the stack, every life it can have is its part of a history, in which it is back on the stack, and all else as it was, whenever it is closed |
| Reuse.EveryLifeFromStart | README.md:14-16 | in particular every life of a new session, from the start of the server |
| Reuse.OneConnection | README.md:14-16 | in every history a session with a socket is with exactly one thread, outside its pool calls, and not pooled |
| Reuse.HandedOut | README.md:14-16 | in every history a session that a Get returns has no socket, a cleared receive side and the send side of its life so far, and is as new if and only if that is idle (code: `ServerCore/Session.cpp` lines 7-11) |
| Reuse.AcceptedExactly | README.md:14-16 | in every history, for every connection when OnAccepted runs: exactly when it serves, and exactly when it carries only its own bytes, in every continuation of the whole server (code: `ServerCoreLibrary/Listener.cpp` lines 139-162) |
| Reuse.StaleForGood | README.md:14-16 | a session that has stopped sending is released and handed out again and again and no later connection on it carries a byte |
| Reuse.StopsExactly | README.md:14-16 | in every history a session has stopped sending if and only if its send side has called Disconnect |
| Delivery.StreamEndToEnd | README.md:25-31 | in every reachable state the arrived bytes mean a prefix of the packets sent, whatever the interleaving of the send side and the cutting of the stream, and all of them when the link is quiet |
| Delivery.DeliversAnytime | README.md:25-31 | which runs there are: whatever the send side is doing, the next completion brings any number of bytes on the way, from 1 to 4096 |
| Delivery.SendsAnytime | README.md:25-31 | whatever has arrived, the send side goes on with exactly what it can do by itself |
| Delivery.EndToEnd | README.md:25-31 | in every run with good completions the receiver has dispatched a prefix of the packets sent, and all of them when the link is quiet |
| Delivery.HandlersInOrder | README.md:33-34 | handlers have run for a prefix of the packets meant for them |
| Delivery.OnlyEarlyEndsMatter | README.md:25-31 | for packets of up to 4096 bytes the condition is only that no packet ends early (code: `ServerCoreLibrary/ClientSession.cpp` lines 17-64) |
| Delivery.MessagesDelivered | ServerCommon/PacketStruct.h:4-139 | protocol packets sent arrive decoded as a prefix of what was sent, on either channel |
| Delivery.LockstepDelivery | README.md:25-31 | a sender of packets of up to 8191 bytes that waits for each to be dispatched is served in full whatever the interleaving and cutting (code: `ServerCoreLibrary/ClientSession.cpp` lines 17-64) |
| Delivery.LockstepExactly | README.md:25-31 | for every packet size n that the size check accepts: every run in which a sender waits and sends packets of up to n bytes is served if and only if n is at most 8191 (code: `ServerCoreLibrary/ClientSession.cpp` lines 38-46) |
| Delivery.AlwaysServedExactly | README.md:25-31 | any whole packets are delivered in every run of the link, under every interleaving and cutting, if and only if their stream survives every cutting |
| Delivery.MessagesAlwaysServed | ServerCommon/PacketStruct.h:12-139 | for protocol packets: if and only if all that is ever sent is shorter than 8192 bytes |
| Delivery.EightChatLines | ServerCommon/PacketStruct.h:12-139 | chat lines of a client are delivered in every run if and only if there are at most eight |
| Delivery.NineChatLines | ServerCommon/PacketStruct.h:12-139 | for any nine chat lines a run of the link that ends in the undefined copy |
| Packets.IdSelectsKind | ServerCommon/PacketID.h:4-18 | within a channel an id selects a kind and only that kind |
| Packets.IdsOverlap | ServerCommon/PacketID.h:4-18 | the two channels share ids, and within a channel ids are unique |
| Packets.SizeOfKind | ServerCommon/PacketStruct.h:12-139 | sizeof of each packed struct |
| Packets.OneTextBytes | ServerCommon/PacketStruct.h:12-139 | the structs of one field byte by byte: the text follows the header |
| Packets.CpLoginBytes | ServerCommon/PacketStruct.h:41-55 | CP_LOGIN byte by byte: the id at 4, the password at 304 |
| Packets.SpLoginBytes | ServerCommon/PacketStruct.h:58-75 | SP_LOGIN byte by byte: the result at 4 and the unique number at 8, little-endian in two's complement, the id at 16, the password at 316 |
| Packets.SpChatBytes | ServerCommon/PacketStruct.h:94-109 | SP_CHAT byte by byte: the unique number at 4, the id at 12, the line at 312 |
| Packets.DecodesExactly | ServerCommon/PacketID.h:4-18 | for each kind, bytes decode to it on its channel if and only if they have its size and the header with that size and its number in the enumeration, all written out |
| Packets.EncodesWithHeader | ServerCommon/PacketID.h:4-18 | and each kind encodes with that header |
| Packets.EncodedIsFramed | ServerCommon/PacketStruct.h:4-139 | each encoded packet announces its own length, carries the id that the dispatcher reads, and is short |
| Packets.DecodeEncode | ServerCommon/PacketStruct.h:12-139 | decoding gives back what was encoded, for all field values |
| Packets.EncodeDecode | ServerCommon/PacketStruct.h:12-139 | only encodings are decoded |
| Packets.PackedPacket.constructor | ServerCommon/PacketStruct.h:15-20 | a new struct in memory is the encoding of the packet of its kind with every field zero |

## Left out

- Sockets, accepting connections, the completion port, worker thread start and stop: operating system calls; a completion is an input event.
- The rate limit that README.md:38 mentions: no code implements it.
- `ServerCoreLibrary/SessionManager.cpp`: one pool per session type under the same lock; it hands a new session out directly instead of pushing and popping it, which has the same effect as AtomicPool's Got on each type. The registry of active sessions and broadcasting are not modelled.
- The older receive loop of `ServerCore/Session.cpp:92-138`, which checks neither the header nor the size, and the receive loop of `ServerSession`, which is the same as ClientSession's.
- Sending.Session.Send: one call at a time on the object; threads interleaving between the lock sections are the subject of the transition system in the same module.
- Reuse.AcceptedExactly: the pool is that of `ServerCore/`, the send side that of `ServerCoreLibrary/`, whose queue items carry an offset. A socket is attached by the thread that holds the session, and the session is released by it after Disconnect.
- Lives.WireInOnePiece: bytes of a send that go out on its own socket after the connection has ended are not counted on that wire.
- Reconnects.ServesExactly: Disconnect does nothing between the storing of the socket and OnAccepted, also the first time, when the guard is not yet set; no other thread knows the session then.
- Late receive completions of an old connection; only the send side is followed across connections.
- SessionManager.SessionManager.Release: in the class, which runs one call at a time, the send side of a pooled session does not change; AtomicPool and ConcurrentPool let it.
- Receiver.ClientSession.OnRecvCompleted: a handler or a send failure on another thread that disconnects the session in the middle of a completion is not modelled, and nothing is said about the session after an undefined read.
- `RingBuffer::Remove`: nothing calls it.
- The guard by which `ServerCoreLibrary/Session.cpp:151-153` disconnects a session once is in Lives, as the phase in which Disconnect does nothing; the copy that the pool follows has none, and UncheckedRelease is about that.
- UncheckedRelease.ExclusiveExactlyWhenHeld: threads still write to and pass on only what they hold; a thread that keeps using a session after it released it is not modelled.
- Message handlers, game logic, the database, configuration and the consoles.
