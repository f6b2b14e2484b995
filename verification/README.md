# IOCP chat server: models and proofs

A Dafny model of the parts of the server where a mistake would be hard to see: the life of a
session in the AcceptEx library, which worker threads and callers share through three words; the
receive path from ring buffer to message; the lock-free stack and the lock-free object pool of the
second library; and four smaller algorithms. `dafny verify dfyconfig.toml` checks all of it.

| files | what they are about |
|---|---|
| `SessionModel`, `SessionInvariant`, `SessionProof`, `SessionSystem`, `SessionMessages`, `SessionSteps`, `SessionTheorems`, `SessionSends`, `SessionCalls`, `SessionCallbacks` | the session protocol as a step machine: the steps, the invariant, its preservation by the thread that moves and by those beside it, the whole system, ownership of messages, what each step changes, the theorems, what a call has achieved when it returns, and what the callbacks push into the chat server's queue |
| `SessionPaths`, `SessionWitness` | the loops of the protocol and repeated failing locks and a receive followed through the machine, and a run that ends with an overlong batch |
| `Session`, `Winsock` | the session as an object, and what the socket calls answer |
| `RingBuffer`, `Message`, `Framing`, `Receiver`, `Packets` | the ring, the message buffer, the parser as a function, completeRecv over the ring, and the packets that the chat server builds |
| `TaggedPtr`, `TreiberStack`, `StackCalls`, `ObjectPool`, `PoolCalls` | tagged pointers, the two lock-free structures as step machines, and what their calls have done when they return |
| `Codec`, `ChatConfig`, `ChatServer`, `ChatRuns`, `ChatCallbacks`, `Profiler`, `ConvertQuery` | the message codec, the sector index and the chat server's runs, the profiler's trimming, the query rewrite |

**The session machine.** Every interlocked operation, every unlocked read of the queue length, the
live flag or the id, and every posted request is one step of one thread; any thread may move next.
The operating system is a bag of completions per slot: a posted request completes at any later time
or fails at once with one of the hard errors. The number of slots, threads and calls is arbitrary.
The theorems hold for the runs in which the machine words do not overflow: fewer than 2^14
references and fewer than 2^14 failed locks of one released slot at a time, at most 32767 queued
messages per session, and fewer than 2^47 registrations. Callers use ids that onAccept gave them, and
pass to sendPost only messages that were built for the id they send to; the second is what the
assertion on a message's owner rests on, and what the chat server does (every `Make...Message` gives
the message the id that it is sent to). `History` in `SessionModel` is an observer's record that no
step reads.

**Results about the code as it is.**

1. The ternary at line 319 reads `mSenqQSize` twice. If the compiled code loads it twice (`reload`), a
   batch can exceed the 500 entries of `mSendMsgs`: the second load gives such a batch if and only if
   more than 500 messages are queued by then (`BatchSize`), every overlong batch and every write past
   the array begins there (`OversizeBatch`, `WritesPastEnd`), and `OversizeReached` is a run that sends
   501. With one load no batch exceeds 500 (`BatchSizes`).
2. A player need not log in to authenticate: the 20 zeros of a new player's token are accepted
   (`AuthWithoutLogin`). Every authenticated player has logged in, in every state of a run, if and only
   if no packet of the run is an expected Auth with a token of zeros from a player without a login
   (`AuthenticatedLoggedIn`).
3. The assertion at the start of authProc fails exactly when the player is already authenticated; a
   second packet after a wrong token does not fail it (`SecondAuthStops`, `AuthAfterWrongToken`).
4. A Pop of the lock-free stack fails if and only if the linked nodes are no more than other calls have
   a claim on (`PopFails`); so one can fail on a stack with a completed Push (`PopFailsOnNonEmpty`), and
   only the successful Pops are those of a sequential stack.
5. The profiler averages exactly the middle samples if and only if the three smallest are at most
   INT_MAX (`MiddleIsLeft`).
6. The second ring buffer's `DirectDequeueSize` differs from the first exactly in a state that the
   pointers never reach (`CopiesAgree`).
7. packetProc looks at the type before it looks for a player, so a peer can send the packets that are
   meant for onAccept and onRelease only: a second PlayerAlloc stops the server, and a PlayerDelete
   makes it stop at the release (`ForgedAllocStops`, `ForgedDeleteStops`). The player map is exactly the
   sessions accepted and not released, and the two assertions hold, in every state, if and only if no
   peer sends either type (`NetworkPacketsQuiet`; `RunIsSound` over the runs of the session machine).
8. The release bit hides a released slot from 2^14 - 1 failing locks, and not from the next
   (`LockPasses`, `LastLockPath`). Below that bound a lock passes the bit exactly if the slot is active
   (`LocksOnlyActive`).

The repository's own description says that sendPost calls WSASend directly when the flag was clear;
the code posts a completion to the port instead, and the model follows the code.

**Tags.** In the two lock-free structures a tag, once taken from the counter, is not taken again
(the counters have 17 bits in the pointer). Everything else, in particular the immediate reuse of
nodes, is as in the code. In the stack, the node pool is any allocator that hands out a node that is
neither linked nor owned and may change the contents of the nodes it holds.

## Model

| member | source | states |
|---|---|---|
| `SessionSystem.StepKeepsInv` | _lib/AcceptEx_IOCP_NetworkLib/AcceptEx_IOCP_NetworkLib.cpp:82-521 | Whatever one thread does next, on any slot, under any interleaving and with any outcome of a request, the whole protocol's invariant survives: count, ownership, send side, receive side, ids, order, free stack |
| `SessionTheorems.Safety` | _lib/AcceptEx_IOCP_NetworkLib/AcceptEx_IOCP_NetworkLib.cpp:82-521 | Every state of every run satisfies the invariants of the slots and of the messages |
| `SessionTheorems.ReferenceCount` | _lib/AcceptEx_IOCP_NetworkLib/AcceptEx_IOCP_NetworkLib.cpp:137-145 | While a session is active mIOcnt is exactly pending and imminent requests plus unfinished handlers plus lock holders, and at 0 some thread is heading for the release CAS; otherwise the release bit is set and the rest of the word counts failed locks |
| `SessionTheorems.ReleaseOnce` | _lib/AcceptEx_IOCP_NetworkLib/AcceptEx_IOCP_NetworkLib.cpp:137-145 | The release CAS succeeds if and only if the session is active and nothing refers to it; it is then dead, announced, not yet released, and no CAS has succeeded since the accept |
| `SessionTheorems.WinsAtMostOnce` | _lib/AcceptEx_IOCP_NetworkLib/AcceptEx_IOCP_NetworkLib.cpp:454-464 | Exactly one successful release CAS per incarnation that is over, none in one that is not, whichever of the three places it comes from |
| `SessionTheorems.ExclusiveSender` | _lib/AcceptEx_IOCP_NetworkLib/AcceptEx_IOCP_NetworkLib.cpp:317-386 | At most one send completion, real or posted, is outstanding or being handled; a clear flag means none and an empty mSendOv; a set flag without one means a dead session |
| `SessionSends.InFlightUntouched` | _lib/AcceptEx_IOCP_NetworkLib/AcceptEx_IOCP_NetworkLib.cpp:317-386 | While a completion of a session's send side is outstanding, no step of any thread writes to mSendOv or clears the OVERLAPPED in it |
| `SessionSends.InFlightUnattended` | _lib/AcceptEx_IOCP_NetworkLib/AcceptEx_IOCP_NetworkLib.cpp:317-386 | While a send completion is outstanding, no thread stands in completeSend, registerSend, sendPost or ReleaseSession where it would write to mSendOv or clear its OVERLAPPED |
| `SessionTheorems.NoLostWakeup` | _lib/AcceptEx_IOCP_NetworkLib/AcceptEx_IOCP_NetworkLib.cpp:317-339 | A non-empty queue with a clear flag has a thread that will still look at the flag; with no thread on the session, a live one has exactly one send completion on the port |
| `SessionTheorems.SendOrder` | _lib/AcceptEx_IOCP_NetworkLib/AcceptEx_IOCP_NetworkLib.cpp:340-370 | The batches given to WSASend in one incarnation concatenate to a prefix of the enqueue order; with a clear flag the queue is exactly the rest |
| `SessionTheorems.BatchSizes` | _lib/AcceptEx_IOCP_NetworkLib/AcceptEx_IOCP_NetworkLib.cpp:319-340 | No batch is empty; none exceeds 500 messages if the ternary loads the queue length once |
| `SessionSends.BatchSize` | _lib/AcceptEx_IOCP_NetworkLib/AcceptEx_IOCP_NetworkLib.cpp:319 | In every run with two loads, the second load gives a batch larger than the array if and only if more than 500 messages are queued by then, and then all of them |
| `SessionSends.OversizeOrigin` | _lib/AcceptEx_IOCP_NetworkLib/AcceptEx_IOCP_NetworkLib.cpp:319-354 | In every run, a batch of more than 500 messages, sent or under way, began with a second load that found exactly that many queued |
| `SessionSends.WritesPastEnd` | _lib/AcceptEx_IOCP_NetworkLib/AcceptEx_IOCP_NetworkLib.cpp:344-350 | A write past the last entry of mSendMsgs happens only after such a load |
| `SessionSends.OversizeBatch` | _lib/AcceptEx_IOCP_NetworkLib/AcceptEx_IOCP_NetworkLib.cpp:364 | WSASend gets a batch of more than 500 messages only after such a load |
| `SessionWitness.SendMany` | _lib/AcceptEx_IOCP_NetworkLib/AcceptEx_IOCP_NetworkLib.cpp:483-502 | Up to 500 calls of sendPost, from the constructor on, as a run: the first posts the completion, the others only queue |
| `SessionWitness.OversizeReached` | _lib/AcceptEx_IOCP_NetworkLib/AcceptEx_IOCP_NetworkLib.cpp:319-364 | A run from the constructor on, with two loads, in which WSASend is given 501 messages |
| `SessionTheorems.OneReceive` | _lib/AcceptEx_IOCP_NetworkLib/AcceptEx_IOCP_NetworkLib.cpp:223-261 | A live session has exactly one receive outstanding or about to be posted, and no session has two |
| `SessionTheorems.MessageConservation` | _lib/AcceptEx_IOCP_NetworkLib/Session.cpp:33-73 | Every message passed to sendPost is in exactly one place (deleted, queued, in mSendOv, with its sender), so it is deleted at most once; a slot that is clean and quiet has had all of them deleted |
| `SessionMessages.StepKeepsMsgInv` | _lib/AcceptEx_IOCP_NetworkLib/Session.cpp:33-73 | Each step conserves messages: what was given is what is deleted, queued, in mSendOv or in hand, each once |
| `SessionTheorems.PackInjective` | _lib/AcceptEx_IOCP_NetworkLib/Session.h:15-34 | In range, two packed ids are equal if and only if index and sequence number are |
| `SessionTheorems.LockedIsCurrent` | _lib/AcceptEx_IOCP_NetworkLib/AcceptEx_IOCP_NetworkLib.cpp:444-481 | Between a successful sessionLock and its sessionUnLock the slot is active and still carries the id that was locked |
| `SessionTheorems.IdsAreFresh` | _lib/AcceptEx_IOCP_NetworkLib/AcceptEx_IOCP_NetworkLib.cpp:149-221 | An id that onAccept is about to hand out was never handed out for any slot; onRelease gets only ids that were handed out and not released |
| `SessionTheorems.SlotPlace` | _lib/AcceptEx_IOCP_NetworkLib/AcceptEx_IOCP_NetworkLib.cpp:149-201 | Every slot index is in exactly one place: once on the free stack, behind one accept or release completion, with one thread, or active |
| `SessionTheorems.AssertionsHold` | _lib/AcceptEx_IOCP_NetworkLib/AcceptEx_IOCP_NetworkLib.cpp:203-370 | If callers send only messages built for the id, the assertions on mMsgCnt, on a dequeued message and its owner, and on the drained queue never fail; the decrement after a hard error never reaches 0 |
| `SessionCalls.DisconnectEnds` | _lib/AcceptEx_IOCP_NetworkLib/AcceptEx_IOCP_NetworkLib.cpp:504-521 | In every run: a call of disconnectSession(id) that is past its store to mLive, or has returned because the lock failed, leaves the session ended for good: whenever the slot carries that id again in the run, it is dead |
| `SessionCalls.UnlocksDead` | _lib/AcceptEx_IOCP_NetworkLib/AcceptEx_IOCP_NetworkLib.cpp:514-519 | Whoever had the lock of disconnectSession and comes to its unlock leaves an active slot with that id and mLive false |
| `SessionCalls.EndedForGood` | _lib/AcceptEx_IOCP_NetworkLib/AcceptEx_IOCP_NetworkLib.cpp:149-221 | An ended session, whoever has ended it, never comes back: no later state of the run has its id live |
| `SessionCalls.EndedStartsNothing` | _lib/AcceptEx_IOCP_NetworkLib/AcceptEx_IOCP_NetworkLib.cpp:246-262 | In every run a receive or a send on an ended session is started only by a thread that had found mLive set before the session ended |
| `SessionCalls.OnePastEach` | _lib/AcceptEx_IOCP_NetworkLib/AcceptEx_IOCP_NetworkLib.cpp:246-366 | At most one thread of a slot is past the test before WSARecv, and at most one past the one before WSASend, so an ended session starts at most one more of each |
| `SessionCalls.SendQueues` | _lib/AcceptEx_IOCP_NetworkLib/AcceptEx_IOCP_NetworkLib.cpp:483-502 | In every run a sendPost to a session that is current all through the call queues its message |
| `SessionCalls.BatchTaken` | _lib/AcceptEx_IOCP_NetworkLib/AcceptEx_IOCP_NetworkLib.cpp:317-340 | In every run registerSend goes for min(500, queued) messages with one load, and clears the flag exactly if none is queued; with two loads, unless the first finds more than 500, for as many as the second finds |
| `SessionCalls.SlotsComeBack` | _lib/AcceptEx_IOCP_NetworkLib/AcceptEx_IOCP_NetworkLib.cpp:387-397 | In every run the free slots are those about to be registered again and those whose AcceptEx failed: each completeRelease leads to a new AcceptEx |
| `SessionTheorems.StackNeverEmpty` | _lib/AcceptEx_IOCP_NetworkLib/AcceptEx_IOCP_NetworkLib.cpp:149-157 | registerAcceptEx never finds the stack of free slots empty |
| `SessionTheorems.LocksOnlyActive` | _lib/AcceptEx_IOCP_NetworkLib/AcceptEx_IOCP_NetworkLib.cpp:444-453 | In every run, sessionLock gets past the release bit if and only if the slot is active |
| `SessionTheorems.Words` | _lib/AcceptEx_IOCP_NetworkLib/AcceptEx_IOCP_NetworkLib.cpp:444-453 | Up and Down count modulo 2^16 in a signed word, and ReleaseBit is bit 14 of it |
| `SessionTheorems.LeakBound` | _lib/AcceptEx_IOCP_NetworkLib/AcceptEx_IOCP_NetworkLib.cpp:444-453 | The word alone: 2^14 - 1 increments leave the release bit of a released slot set, the next one clears it, and it reads as set again from -2^14 on |
| `SessionPaths.LockPasses` | _lib/AcceptEx_IOCP_NetworkLib/AcceptEx_IOCP_NetworkLib.cpp:444-453 | One lock of a released slot gets past the release bit if and only if 2^14 - 1 have failed before it; any other fails and leaves its increment |
| `SessionPaths.FailedLocksPath` | _lib/AcceptEx_IOCP_NetworkLib/AcceptEx_IOCP_NetworkLib.cpp:444-521 | n calls of disconnectSession on a released slot, as steps of one thread: all fail, as long as fewer than 2^14 have failed in all |
| `SessionPaths.LastLockPath` | _lib/AcceptEx_IOCP_NetworkLib/AcceptEx_IOCP_NetworkLib.cpp:444-521 | Of 2^14 such calls with the slot's old id the first 2^14 - 1 fail and the last gets the lock |
| `SessionPaths.FillBatchPath` | _lib/AcceptEx_IOCP_NetworkLib/AcceptEx_IOCP_NetworkLib.cpp:344-354 | The steps of the batch loop, uninterrupted, end with the first messages of the queue in mSendOv in their order |
| `SessionPaths.ReleaseSessionPath` | _lib/AcceptEx_IOCP_NetworkLib/Session.cpp:53-73 | The steps of ReleaseSession end with a clean slot and every message of the queue and of mSendOv deleted once |
| `SessionPaths.ReceivePath` | _lib/AcceptEx_IOCP_NetworkLib/AcceptEx_IOCP_NetworkLib.cpp:223-262 | A receive completion of a live session, handled without interruption, ends with the next receive posted and the slot as it was |
| `SessionCode.Session.EnQueueMsg` | _lib/AcceptEx_IOCP_NetworkLib/Session.cpp:33-38 | The message goes behind all others; the 16-bit length stays right until there are 32767 |
| `SessionCode.Session.DeQueueMsgOrNull` | _lib/AcceptEx_IOCP_NetworkLib/Session.cpp:39-52 | The oldest message comes out, or nothing if there is none |
| `SessionCode.Session.DrainQueue` | _lib/AcceptEx_IOCP_NetworkLib/Session.cpp:55-60 | The loop empties the queue and deletes each message once |
| `SessionCode.Session.ReleaseSession` | _lib/AcceptEx_IOCP_NetworkLib/Session.cpp:53-73 | Everything that the session owns is deleted, once; the assertion on the length holds; flag and mMsgCnt are reset |
| `SessionCode.Session.DeleteSent` | _lib/AcceptEx_IOCP_NetworkLib/AcceptEx_IOCP_NetworkLib.cpp:378-384 | Exactly the first mMsgCnt messages of mSendOv are deleted |
| `SessionCode.Session.FillBatch` | _lib/AcceptEx_IOCP_NetworkLib/AcceptEx_IOCP_NetworkLib.cpp:344-354 | The batch followed by the queue is the old queue; both assertions hold |
| `SessionCode.Session.RegisterSend` | _lib/AcceptEx_IOCP_NetworkLib/AcceptEx_IOCP_NetworkLib.cpp:317-370 | Alone, it clears the flag of an empty queue, or sends the first messages, at most 500; a dead session or a hard error sends nothing that completes, and a hard error ends the session |
| `SessionCode.Session.CompleteSend` | _lib/AcceptEx_IOCP_NetworkLib/AcceptEx_IOCP_NetworkLib.cpp:372-386 | What was sent is deleted before the next batch is taken; deleted and owned messages together stay the same; batch, flag and posting are those of registerSend |
| `SessionCode.Session.ReleaseIfUnused` | _lib/AcceptEx_IOCP_NetworkLib/AcceptEx_IOCP_NetworkLib.cpp:140 | The CAS wins if and only if the count is 0, and leaves the release value |
| `SessionCode.Session.SessionLock` | _lib/AcceptEx_IOCP_NetworkLib/AcceptEx_IOCP_NetworkLib.cpp:444-467 | For every 16-bit count: succeeds exactly on a slot without the release bit and with this id; leaves its increment in a released slot; gives it back for another id and then may win the release |
| `SessionCode.Session.SessionUnLock` | _lib/AcceptEx_IOCP_NetworkLib/AcceptEx_IOCP_NetworkLib.cpp:469-481 | For every 16-bit count: wins the release if and only if it gave back the last reference |
| `SessionCode.Session.SendPost` | _lib/AcceptEx_IOCP_NetworkLib/AcceptEx_IOCP_NetworkLib.cpp:483-502 | For every 16-bit count and any queue: the message is queued last with the flag set, or deleted; a completion with a reference is posted exactly if the flag was clear; messages are conserved; the count afterwards is exact |
| `SessionCode.Session.DisconnectSession` | _lib/AcceptEx_IOCP_NetworkLib/AcceptEx_IOCP_NetworkLib.cpp:504-521 | For every 16-bit count: clears mLive exactly if the lock succeeds, with the count as it was, unless the call itself has released the session |
| `Ring.SizesAddUp` | _lib/AcceptEx_IOCP_NetworkLib/utility/RingBuffer.cpp:29-44 | In every reachable state use + free = N - 1 and the contiguous sizes never exceed the whole |
| `Ring.CopiesAgree` | SSL_LoginServer/_lib/CNetworkLib/utility/MT_CRingBuffer/MT_CRingBuffer.cpp:180-185 | The second copy's free size is always the same; its direct dequeue size differs if and only if rear is at the beginning and front is not, which no buffer reaches |
| `Ring.MoveRearStored` | _lib/AcceptEx_IOCP_NetworkLib/utility/RingBuffer.cpp:180-194 | Moving the rear over k vacant cells, with wrap strictly past the end, appends exactly those cells |
| `Ring.RingBuffer.constructor` | _lib/AcceptEx_IOCP_NetworkLib/utility/RingBuffer.cpp:8-17 | A new buffer is empty |
| `Ring.RingBuffer.ClearBuffer` | _lib/AcceptEx_IOCP_NetworkLib/utility/RingBuffer.cpp:148-152 | The contents become empty |
| `Ring.RingBuffer.GetUseSize` | _lib/AcceptEx_IOCP_NetworkLib/utility/RingBuffer.cpp:29-33 | It is the length of the contents |
| `Ring.RingBuffer.GetFreeSize` | _lib/AcceptEx_IOCP_NetworkLib/utility/RingBuffer.cpp:40-44 | It is N - 1 less the length of the contents |
| `Ring.RingBuffer.MoveRear` | _lib/AcceptEx_IOCP_NetworkLib/utility/RingBuffer.cpp:180-194 | Appends the next k vacant cells to the contents |
| `Ring.RingBuffer.MoveFront` | _lib/AcceptEx_IOCP_NetworkLib/utility/RingBuffer.cpp:196-210 | Drops the oldest k bytes, in either representation of the end |
| `Ring.RingBuffer.Fill` | _lib/AcceptEx_IOCP_NetworkLib/AcceptEx_IOCP_NetworkLib.cpp:233-245 | Filling the two segments that registerRecv posts puts the bytes, in order, into the cells that MoveRear appends next |
| `Ring.RingBuffer.Enqueue` | _lib/AcceptEx_IOCP_NetworkLib/utility/RingBuffer.cpp:46-80 | Appends all bytes if they fit, else changes nothing |
| `Ring.RingBuffer.Peek` | _lib/AcceptEx_IOCP_NetworkLib/utility/RingBuffer.cpp:123-146 | Returns the oldest bytes without removing them, or the use size if there are too few |
| `Ring.RingBuffer.Dequeue` | _lib/AcceptEx_IOCP_NetworkLib/utility/RingBuffer.cpp:82-116 | Returns and removes the oldest bytes if there are enough, else changes nothing |
| `Messages.Int16RoundTrip` | _lib/AcceptEx_IOCP_NetworkLib/Header.h:4-8 | A length below 2^15 survives the two bytes of the header |
| `Messages.LEBytes` | _lib/AcceptEx_IOCP_NetworkLib/utility/Message.h:77-98 | A field of one, two or four bytes is stored lowest byte first, in two's complement |
| `Messages.Message.InitMessage` | _lib/AcceptEx_IOCP_NetworkLib/utility/Message.cpp:48-58 | The message is empty again, with its owner and key |
| `Messages.Message.PutData` | _lib/AcceptEx_IOCP_NetworkLib/utility/Message.cpp:71-79 | Appends if and only if there is room, else throws and changes nothing |
| `Messages.Message.GetData` | _lib/AcceptEx_IOCP_NetworkLib/utility/Message.cpp:81-91 | Removes the oldest bytes if and only if there are enough, else throws and changes nothing |
| `Messages.Message.GetUseSize` | _lib/AcceptEx_IOCP_NetworkLib/utility/Message.cpp:181-189 | It is the number of unread bytes |
| `Framing.ParseResumes` | _lib/AcceptEx_IOCP_NetworkLib/AcceptEx_IOCP_NetworkLib.cpp:263-315 | Parsing what is left together with new bytes is parsing the whole stream |
| `Framing.ChunksDoNotMatter` | _lib/AcceptEx_IOCP_NetworkLib/AcceptEx_IOCP_NetworkLib.cpp:263-315 | For every way to cut a stream, the messages delivered and the bytes left are those of one parse of the whole, up to the first length that is not positive |
| `Framing.RestIsPartial` | _lib/AcceptEx_IOCP_NetworkLib/AcceptEx_IOCP_NetworkLib.cpp:271-311 | What is left when the parser waits is shorter than the frame it starts, so nothing deliverable is held back |
| `Framing.BadRest` | _lib/AcceptEx_IOCP_NetworkLib/AcceptEx_IOCP_NetworkLib.cpp:277-281 | The parser stops for good if and only if a header with a length that is not positive is left |
| `Framing.FullMeansOversize` | _lib/AcceptEx_IOCP_NetworkLib/AcceptEx_IOCP_NetworkLib.cpp:223-232 | The ring is full after parsing only if the head frame is larger than the ring |
| `Receiver.OversizeNeverDelivered` | _lib/AcceptEx_IOCP_NetworkLib/AcceptEx_IOCP_NetworkLib.cpp:223-232 | Once a frame larger than the ring is at its head, a session delivers nothing more whatever is received, and it halts if and only if the ring is full |
| `Receiver.AllTaken` | _lib/AcceptEx_IOCP_NetworkLib/AcceptEx_IOCP_NetworkLib.cpp:223-315 | Enough receives read the whole stream, or up to the disconnect |
| `Receiver.GoodStreamTaken` | _lib/AcceptEx_IOCP_NetworkLib/AcceptEx_IOCP_NetworkLib.cpp:223-315 | Over a stream of well-formed frames, enough receives read all of it, without a disconnect |
| `Framing.FramesComeBack` | _lib/AcceptEx_IOCP_NetworkLib/AcceptEx_IOCP_NetworkLib.cpp:263-315 | Any sequence of well-formed frames is parsed back to itself, with nothing left |
| `Framing.PrefixNeverStops` | _lib/AcceptEx_IOCP_NetworkLib/AcceptEx_IOCP_NetworkLib.cpp:223-315 | While well-formed frames arrive no prefix of the stream disconnects or fills the ring |
| `Framing.RoundTripInChunks` | _lib/AcceptEx_IOCP_NetworkLib/AcceptEx_IOCP_NetworkLib.cpp:263-315 | Well-formed frames, concatenated and cut in any way, come back exactly, in order |
| `Receiver.Receiver.RegisterRecv` | _lib/AcceptEx_IOCP_NetworkLib/AcceptEx_IOCP_NetworkLib.cpp:223-261 | Posts a receive if and only if the ring is not full, the session is alive and WSARecv does not fail; disconnects if it is full |
| `Receiver.Receiver.Pieces` | _lib/AcceptEx_IOCP_NetworkLib/AcceptEx_IOCP_NetworkLib.cpp:289-302 | The contiguous piece and the piece at the beginning are together exactly the first Len bytes of the contents |
| `Receiver.Receiver.Assemble` | _lib/AcceptEx_IOCP_NetworkLib/AcceptEx_IOCP_NetworkLib.cpp:288-302 | The message gets exactly the Len bytes after the header, in one piece or two; neither PutData can overflow it |
| `Receiver.Receiver.TakePayload` | _lib/AcceptEx_IOCP_NetworkLib/AcceptEx_IOCP_NetworkLib.cpp:286-303 | Exactly the Len bytes after the header become the message and leave the ring |
| `Receiver.Receiver.CompleteRecv` | _lib/AcceptEx_IOCP_NetworkLib/AcceptEx_IOCP_NetworkLib.cpp:263-315 | Terminates on arbitrary bytes; delivers, leaves and disconnects exactly as the batch parser says |
| `Receiver.Receiver.Drive` | _lib/AcceptEx_IOCP_NetworkLib/AcceptEx_IOCP_NetworkLib.cpp:223-315 | Over any stream and any receives exactly the bytes that they can take are read, until the session halts or a WSARecv fails; deliveries and leftover are those of one parse of them |
| `Packets.MakeLoginMessage` | ChattingServer/ChattingServer.cpp:293-316 | The message is one frame, byte by byte: length 7, key, type 1, result, and seqNumber in four bytes, lowest first |
| `Packets.MakeAuthMessage` | ChattingServer/ChattingServer.cpp:318-339 | The message is one frame, byte by byte: length 4, key, type 3, SectorX and then SectorY |
| `Packets.MakeChatMessage` | ChattingServer/ChattingServer.cpp:340-364 | For 1 to 800 characters it is one frame with the right length, and it fits |
| `Packets.ChatBytes` | ChattingServer/ChattingServer.cpp:340-364 | Byte by byte: the length, the key, type 6, the 20 characters of the nickname, the number of characters of the text and the text, each in two bytes, lowest first |
| `Packets.PacketsComeBack` | ChattingServer/ChattingServer.cpp:293-364 | Whatever packets are sent and however the stream is cut, the parser gives exactly their payloads and never stops |
| `Packets.Arrive` | _lib/AcceptEx_IOCP_NetworkLib/AcceptEx_IOCP_NetworkLib.cpp:223-315 | A session that receives any packets, cut in any way, ends with exactly their payloads delivered in order, an empty ring and no disconnect |
| `TreiberStack.StepKeepsInv` | SSL_LoginServer/_lib/CNetworkLib/utility/CLockFreeStack/CLockFreeStack.h:62-153 | Every memory access of any thread keeps the chain, the ownership of nodes and tags, and the meaning of the counter, although nodes are reused at once |
| `TreiberStack.ReservedSeesNode` | SSL_LoginServer/_lib/CNetworkLib/utility/CLockFreeStack/CLockFreeStack.h:108-121 | A Pop that has reserved never reads the dummy |
| `TreiberStack.UnlinkKeeps` | SSL_LoginServer/_lib/CNetworkLib/utility/CLockFreeStack/CLockFreeStack.h:115-125 | A successful CAS of Pop removes the top, and the copies it made of the next pointer and the data are those of that top |
| `TreiberStack.StepRefines` | SSL_LoginServer/_lib/CNetworkLib/utility/CLockFreeStack/CLockFreeStack.h:62-153 | Every step leaves the values on the stack alone, or is a push of the argument, or takes the top and returns exactly it |
| `TreiberStack.RunsAreLifo` | SSL_LoginServer/_lib/CNetworkLib/utility/CLockFreeStack/CLockFreeStack.h:62-153 | In every run the successful CASes, in their order, are an execution of one sequential stack that ends with the values linked now |
| `StackCalls.CallOutcome` | SSL_LoginServer/_lib/CNetworkLib/utility/CLockFreeStack/CLockFreeStack.h:62-153 | Whatever other threads do during the call: a Push of x that returns has linked x exactly once; a Pop that returns false has done nothing; a Pop that returns a value has unlinked exactly one, that value |
| `StackCalls.NoValueIsLost` | SSL_LoginServer/_lib/CNetworkLib/utility/CLockFreeStack/CLockFreeStack.h:62-153 | In every run, for every value: Pushes begun with it = those that have linked it + those that still hold it; linked = on the stack + unlinked; unlinked = returned + about to be returned |
| `StackCalls.CallsAreLockFree` | SSL_LoginServer/_lib/CNetworkLib/utility/CLockFreeStack/CLockFreeStack.h:71-126 | A call repeats its loop only because others have succeeded: with g successful operations meanwhile a Push takes at most 5 + 3g steps without returning, a Pop 4 + 4g |
| `TreiberStack.Reservations` | SSL_LoginServer/_lib/CNetworkLib/utility/CLockFreeStack/CLockFreeStack.h:77-114 | Linked nodes = m_size + failing pops + reserved pops + uncounted pushes, and m_size + failing pops is not negative; with no call in progress m_size is the number of nodes |
| `TreiberStack.NodesHaveOneOwner` | SSL_LoginServer/_lib/CNetworkLib/utility/CLockFreeStack/CLockFreeStack.h:62-153 | No node is owned by two threads; none that any thread owns is linked |
| `TreiberStack.PopFails` | SSL_LoginServer/_lib/CNetworkLib/utility/CLockFreeStack/CLockFreeStack.h:108-113 | A Pop fails if and only if the linked nodes are no more than other calls have a claim on |
| `TreiberStack.PopFailsAlone` | SSL_LoginServer/_lib/CNetworkLib/utility/CLockFreeStack/CLockFreeStack.h:108-113 | With no other call in progress a Pop fails exactly on the empty stack |
| `TreiberStack.PopFailsOnNonEmpty` | SSL_LoginServer/_lib/CNetworkLib/utility/CLockFreeStack/CLockFreeStack.h:108-113 | A run in which a Pop fails although a completed Push is linked and no Pop has succeeded |
| `ObjectPool.StepKeepsInv` | SSL_LoginServer/_lib/CNetworkLib/utility/CObjectPoolLib/CObjectPoolLib.h:212-339 | Every memory access of Alloc and Release keeps the free list a chain of distinct nodes, apart from all nodes in use or in a call's hands |
| `ObjectPool.TakenIsTop` | SSL_LoginServer/_lib/CNetworkLib/utility/CObjectPoolLib/CObjectPoolLib.h:247-253 | When the CAS of Alloc succeeds, the next node and its tagged address that it read are those below the top now |
| `ObjectPool.OneOwner` | SSL_LoginServer/_lib/CNetworkLib/utility/CObjectPoolLib/CObjectPoolLib.h:212-339 | In every run a node is with one thread, or in use, or free, never two of them |
| `ObjectPool.AllocGivesUnused` | SSL_LoginServer/_lib/CNetworkLib/utility/CObjectPoolLib/CObjectPoolLib.h:226-285 | Alloc returns a node that is not in use, not free and in nobody else's hands |
| `PoolCalls.CallOutcome` | SSL_LoginServer/_lib/CNetworkLib/utility/CObjectPoolLib/CObjectPoolLib.h:213-332 | Whatever other threads do during the call: an Alloc that returns has taken exactly one node off the free list, or has found the list empty in this call and created one, and returns that node; a Release has put its node on the list exactly once |
| `PoolCalls.CreatesIffEmpty` | SSL_LoginServer/_lib/CNetworkLib/utility/CObjectPoolLib/CObjectPoolLib.h:222-233 | In every run a look at the top leads to a new node if and only if the free list is empty then, and else to its first node |
| `PoolCalls.AllocReuses` | SSL_LoginServer/_lib/CNetworkLib/utility/CObjectPoolLib/CObjectPoolLib.h:213-285 | With nobody in between, Alloc returns the first free node and leaves the nodes, their number and the rest of the list as they were, or creates one node if none is free |
| `PoolCalls.ReleaseFrees` | SSL_LoginServer/_lib/CNetworkLib/utility/CObjectPoolLib/CObjectPoolLib.h:289-332 | With nobody in between, Release puts its node in front of the free list and changes no count of nodes |
| `PoolCalls.CallsAreLockFree` | SSL_LoginServer/_lib/CNetworkLib/utility/CObjectPoolLib/CObjectPoolLib.h:213-332 | A call repeats its loop only because the free list has changed: with g changes meanwhile it takes at most 5 + 4g steps without returning |
| `ObjectPool.NeverNull` | SSL_LoginServer/_lib/CNetworkLib/utility/CObjectPoolLib/CObjectPoolLib.h:247-251 | The next pointer that Alloc follows is never null or dangling, even when the node is somebody else's by then |
| `ObjectPool.Accounting` | SSL_LoginServer/_lib/CNetworkLib/utility/CObjectPoolLib/CObjectPoolLib.h:226-339 | _AllocNodeCnt and _ActiveNodeCnt account for every node in every state, and the unsigned active count never goes below 0 |
| `ObjectPool.Destroy` | SSL_LoginServer/_lib/CNetworkLib/utility/CObjectPoolLib/CObjectPoolLib.h:145-168 | With no call in progress the destructor deletes exactly the free nodes, each once; each of its two checks fires if and only if a node has not been returned |
| `Codec.DecodeEncode` | SSL_LoginServer/_lib/CNetworkLib/utility/SerializeBuffer_exception/SerializeBuffer_exception.cpp:151-159 | Decoding under the same keys undoes encoding, for every length |
| `Codec.EncodeDecode` | SSL_LoginServer/_lib/CNetworkLib/utility/SerializeBuffer_exception/SerializeBuffer_exception.cpp:101-109 | Every byte string is the encoding of what it decodes to |
| `Codec.Bijection` | SSL_LoginServer/_lib/CNetworkLib/utility/SerializeBuffer_exception/SerializeBuffer_exception.cpp:101-159 | With the keys fixed, c encodes d if and only if d decodes c |
| `Codec.ChainsDetermine` | SSL_LoginServer/_lib/CNetworkLib/utility/SerializeBuffer_exception/SerializeBuffer_exception.cpp:101-159 | With the arithmetic of the two chains written out, over bytes, positions from 1 and the fixed key 0x32: it relates d and c if and only if c encodes d, and if and only if d decodes c |
| `Codec.KnownBytes` | SSL_LoginServer/_lib/CNetworkLib/utility/SerializeBuffer_exception/SerializeBuffer_exception.cpp:101-159 | Fixed bodies, one with a key and a checksum, and their bytes on the wire |
| `Codec.DependsOnThree` | SSL_LoginServer/_lib/CNetworkLib/utility/SerializeBuffer_exception/SerializeBuffer_exception.cpp:151-159 | A decoded byte depends on its encoded byte and the two before it only |
| `Codec.DamageIsLocal` | SSL_LoginServer/_lib/CNetworkLib/utility/SerializeBuffer_exception/SerializeBuffer_exception.cpp:151-159 | One changed encoded byte changes the byte in its place and at most the next two |
| `Codec.RoundTrip` | SSL_LoginServer/_lib/CNetworkLib/utility/SerializeBuffer_exception/SerializeBuffer_exception.cpp:62-173 | Encoding then decoding restores every byte behind the checksum, and the check passes |
| `Codec.PassesIffEncoded` | SSL_LoginServer/_lib/CNetworkLib/utility/SerializeBuffer_exception/SerializeBuffer_exception.cpp:161-172 | The check passes if and only if the bytes are the encoding of some checksummed message under these keys |
| `Codec.CMessage.AddUp` | SSL_LoginServer/_lib/CNetworkLib/utility/SerializeBuffer_exception/SerializeBuffer_exception.cpp:93-96 | The sum of the bytes behind the checksum |
| `Codec.CMessage.EnCoding` | SSL_LoginServer/_lib/CNetworkLib/utility/SerializeBuffer_exception/SerializeBuffer_exception.cpp:62-112 | In place: the body becomes the encoding of the checksummed body, the header gets the key, nothing else changes; body and encoding satisfy the arithmetic written out |
| `Codec.CMessage.DeCoding` | SSL_LoginServer/_lib/CNetworkLib/utility/SerializeBuffer_exception/SerializeBuffer_exception.cpp:114-173 | In place: refuses and leaves alone a body longer than _size; else decodes all of it and returns whether the checksum is right; the bytes before and after satisfy the arithmetic written out |
| `ChatServer.ChattingServer.ChatPlayerAlloc` | ChattingServer/ChattingServer.cpp:594-610 | Adds a player outside every sector and counts it; its assertion fails exactly if the session is known |
| `ChatServer.ChattingServer.ChatPlayerDelete` | ChattingServer/ChattingServer.cpp:612-632 | Removes the player from the map, from its sector and from the count; its assertion fails exactly if the session is unknown |
| `ChatServer.ChattingServer.LoginProc` | ChattingServer/ChattingServer.cpp:365-394 | Disconnects without session data; else the player gets key, token, number and account |
| `ChatServer.ChattingServer.AuthProc` | ChattingServer/ChattingServer.cpp:395-445 | Its first assertion fails exactly if the player is authenticated; with the right token the player enters the drawn sector |
| `ChatServer.ChattingServer.EnterSector` | ChattingServer/ChattingServer.cpp:428-440 | The player is in that sector of the index and in no other; the assertion that it was not in it holds |
| `ChatServer.ChattingServer.MoveSector` | ChattingServer/ChattingServer.cpp:208-247 | Neither assertion fails; the index and the coordinates change together |
| `ChatServer.ChattingServer.MoveSectorProc` | ChattingServer/ChattingServer.cpp:447-485 | Moves if and only if the player is authenticated and the place is a different one inside the world; else disconnects |
| `ChatServer.ChattingServer.Around` | ChattingServer/ChattingServer.cpp:251-270 | The cells around a place that exist, each once |
| `ChatServer.ChattingServer.SendToSector` | ChattingServer/ChattingServer.cpp:273-289 | Every player of one sector once; the assertion that it is authenticated holds |
| `ChatServer.ChattingServer.AroundLockAndSendMsg` | ChattingServer/ChattingServer.cpp:249-291 | A chat goes exactly once to each authenticated player whose coordinates both differ by at most 1, and to nobody else |
| `ChatServer.ChattingServer.ChatMessageProc` | ChattingServer/ChattingServer.cpp:487-516 | Sends if and only if the player is authenticated and the length is 1 to 800; else disconnects |
| `ChatServer.ChattingServer.Admit` | ChattingServer/ChattingServer.cpp:77-110 | Unknown sessions are dropped; the sequence number is compared and then counted up by one in either case, from 2^31 - 1 to -2^31 |
| `ChatServer.ChattingServer.PacketProc` | ChattingServer/ChattingServer.cpp:112-172 | Every packet keeps the index in step with the player map and answers as its kind, the player's state and the sequence number say |
| `ChatServer.ChattingServer.ContentsThread` | ChattingServer/ChattingServer.cpp:518-542 | Over every queue of packets the index agrees with the players, mUserCnt is their number, and each chat reaches exactly the neighbours of its sender at that time |
| `ChatServer.AuthenticatedProved` | ChattingServer/ChattingServer.cpp:395-445 | In every run an authenticated player has sent, under the expected sequence number, the token that it had then, and has not been deleted since |
| `ChatRuns.TokenOrigin` | ChattingServer/ChattingServer.cpp:186-206 | In every run from no players, a player's token is that of its last login, or the zeros it was created with if it has had none since |
| `ChatRuns.AuthenticatedToken` | ChattingServer/ChattingServer.cpp:395-445 | An authenticated player has sent either the token of its last login before that, or zeros without any login since it was created |
| `ChatRuns.AuthWithoutLogin` | ChattingServer/ChattingServer.cpp:395-445 | A run of two packets, PlayerAlloc and an Auth with zeros, that authenticates a player without a login |
| `ChatRuns.AuthenticatedLoggedIn` | ChattingServer/ChattingServer.cpp:395-445 | Every authenticated player has logged in, in every state of a run, if and only if no packet of the run is an expected Auth with zeros from a player that has not logged in |
| `ChatRuns.SecondAuthStops` | ChattingServer/ChattingServer.cpp:401 | A run whose second Auth, of an authenticated player, fails the assertion |
| `ChatRuns.AuthAfterWrongToken` | ChattingServer/ChattingServer.cpp:401-445 | After a wrong token a second Auth does not fail it |
| `ChatCallbacks.OneArrival` | ChattingServer/ChattingServer.cpp:594-632 | If the player map is exactly the sessions accepted and not released, then after one more packet of anyone it still is, with no assertion of PlayerAlloc or PlayerDelete failing, if and only if the packet is not one of these two from a peer |
| `ChatCallbacks.NetworkPacketsQuiet` | ChattingServer/ChattingServer.cpp:112-124 | Whatever the peers send: the map is exactly the sessions accepted and not released in every state, and the two assertions never fail, if and only if no peer sends one of the two types |
| `ChatCallbacks.KnownSessions` | ChattingServer/ChattingServer.cpp:594-632 | Without such packets of peers the player map holds exactly the sessions accepted and not released |
| `ChatCallbacks.ForgedAllocStops` | ChattingServer/ChattingServer.cpp:594-602 | A peer's PlayerAlloc after the one of onAccept fails the assertion of chatPlayerAlloc |
| `ChatCallbacks.ForgedDeleteStops` | ChattingServer/ChattingServer.cpp:612-618 | A peer's PlayerDelete removes the player of a live session, and the one of onRelease then fails the assertion of chatPlayerDelete |
| `SessionCallbacks.CallbacksAreDisciplined` | ChattingServer/ChattingServer.cpp:26-55 | In every run of the session machine, with any packets of peers in between, what onAccept and onRelease push announces an id once and releases it at most once and after that; the queue and the slots' records agree |
| `SessionCallbacks.RunIsSound` | ChattingServer/ChattingServer.cpp:26-55 | The library and the chat server together: in every run the map is exact and the two assertions hold in every state if and only if no peer sends one of the two types |
| `SessionCallbacks.PlayersAreSessions` | ChattingServer/ChattingServer.cpp:594-632 | In every run without such packets, the players of a server that has caught up are the ids that some slot has announced and not released |
| `Profiler.SmallestNext` | _lib/MTProfiler_Lib/MTProfiler_Lib.h:75-89 | Inserting at a fitting place and dropping the last gives the three smallest of one more sample |
| `Profiler.LargestNext` | _lib/MTProfiler_Lib/MTProfiler_Lib.h:90-104 | The same for the three largest |
| `Profiler.ExtremesFit` | _lib/MTProfiler_Lib/MTProfiler_Lib.cpp:110-124 | With more than six samples, none negative, the six extremes never exceed the total, so the check never fires |
| `Profiler.SmallestAt` | _lib/MTProfiler_Lib/MTProfiler_Lib.h:75-89 | The three smallest one by one: the sorted samples, with INT_MAX in place of what is missing or larger |
| `Profiler.ThreeSmallest` | _lib/MTProfiler_Lib/MTProfiler_Lib.h:75-89 | Of three samples or more, all at most 0x7fffffff, mMin holds exactly the three smallest |
| `Profiler.MiddleIsLeft` | _lib/MTProfiler_Lib/MTProfiler_Lib.cpp:112-127 | What is averaged is exactly the sum of the middle samples if and only if the three smallest are at most INT_MAX |
| `Profiler.ProfileEntry.constructor` | _lib/MTProfiler_Lib/MTProfiler_Lib.h:120-127 | No samples, padded arrays |
| `Profiler.ProfileEntry.InitEntry` | _lib/MTProfiler_Lib/MTProfiler_Lib.h:136-146 | Back to no samples |
| `Profiler.ProfileEntry.UpdateEntry` | _lib/MTProfiler_Lib/MTProfiler_Lib.h:72-104 | After any samples mMin is the ascending three smallest padded with INT_MAX, mMax the descending three largest padded with 0, with count and total |
| `Profiler.ProfileEntry.KeepSmallest` | _lib/MTProfiler_Lib/MTProfiler_Lib.h:75-89 | The shift-and-insert loop gives the three smallest with the new sample |
| `Profiler.ProfileEntry.KeepLargest` | _lib/MTProfiler_Lib/MTProfiler_Lib.h:90-104 | The shift-and-insert loop gives the three largest with the new sample |
| `Profiler.ProfileEntry.Trim` | _lib/MTProfiler_Lib/MTProfiler_Lib.cpp:110-127 | The numerator of the average is the total less the six extremes, never negative and without the stop if no sample is negative, and the sum of the middle samples exactly if the three smallest fit in an int |
| `ConvertQuery.Convert` | SSL_LoginServer/_lib/CDB/CDB.cpp:238-279 | Two find passes and right-to-left replacement equal one rewrite from the left; the kinds are appended in textual order |
| `ConvertQuery.FindAll` | SSL_LoginServer/_lib/CDB/CDB.cpp:244-264 | The map gets exactly the positions of one kind |
| `ConvertQuery.InOrder` | SSL_LoginServer/_lib/CDB/CDB.cpp:266-271 | The positions come out ascending, the kinds in textual order |
| `ConvertQuery.ReplaceAll` | SSL_LoginServer/_lib/CDB/CDB.cpp:273-276 | Replacing from the right end equals the rewrite from the left |
| `ConvertQuery.OneShorterEach` | SSL_LoginServer/_lib/CDB/CDB.cpp:238-279 | The output is as much shorter than the input as there are placeholders |
| `ConvertQuery.NoneLeft` | SSL_LoginServer/_lib/CDB/CDB.cpp:238-279 | No %s or %d is in the output, not even one put together from pieces |
| `ConvertQuery.KnownQuery` | SSL_LoginServer/_lib/CDB/CDB.cpp:238-279 | x%d%s becomes x??, with the kinds of %d and %s in this order |
| `ConvertQuery.ConvertAgain` | SSL_LoginServer/_lib/CDB/CDB.cpp:238-279 | Converting again changes nothing and finds nothing |

## Left out

- Sockets, handles, CancelIoEx, the completion port's internals: requests only complete or fail. That a dead session's requests do complete, so that it drains, is not claimed.
- SessionTheorems.AssertionsHold: the owner assertion at line 348 is proved for callers that send only messages built for the id they send to, as the chat server does; a message built for another id would fail it.
- A receive that completes with 0 bytes, the end of the stream, is in the machine and not in `Receiver`.
- Errors of WSARecv and WSASend other than the three that checkAndHandleIoError lists; there the code stops on an assertion.
- The push to the queue and its counter, and the pop and its counter, are one step each, as both are under the queue lock. The deletion loop of completeSend and the reset of mSendOv are one step, since only the owner of the send side gets there. Clearing the OVERLAPPED in mSendOv belongs to the step before or after it, in a thread that `InFlightUnattended` covers; clearing those of the other requests is no step.
- Of the callbacks, the chat server's use of sendPost and disconnectSession is covered as calls of other threads. A disconnectSession that the library makes inside a handler keeps the handler's reference, as in the code.
- The session ids of calls are ids that onAccept has handed out for some incarnation, also long past ones. An invented id of a slot that was never accepted, whose count is still 0, is not considered.
- The slots' shared words are a value with a step relation, and not an object with methods: an interleaving cannot be written as method calls. `SessionCode.Session` has the same statements as an object for a thread that is not interrupted.
- `SSL_LoginServer/_lib/CNetworkLib/CNetworkLib.cpp`: a second copy of the protocol whose Disconnect decrements without the release CAS. `CLockFreeQueue.h`: its Push does not read the tail again before linking, so order under reuse rests on something the code does not supply.
- `Message::Resize`, `CMessage::ReSize`, `HexLog`: the growth branch is never effectively taken; running out of room is the exception.
- The AcceptEx library's `Message::EnCoding` and `DeCoding`, which are empty.
- Of `MT_CRingBuffer.cpp`, everything but the size functions, which are what differs from the first copy.
- The stack's debug ring of the last operations, the pool's trace and test modes, and SetCapacity, which only those modes look at.
- That the tag counters wrap after 2^17 operations.
- ObjectPool.Destroy: the destructor works on the nodes as values; the freed memory itself is not part of the model.
- In the chat server: the parsing of a packet's fields and its trailing-bytes assertions (packets arrive as values; a PlayerAlloc of a peer that is too short for an address throws before the assertion), time stamps, packet counters, the queue's lock and event. A failed assertion is an answer after which the model goes on; the program stops there.
- Profiler: looking up the tag among the 30 entries, the 64-bit overflow of the total, the division, the file. ConvertQuery: the rest of CDB.
- OpenSSL, MySQL, Redis, token generation, console output, loggers, crash dumps, the echo server, the file-driven parsers, Profiler_MultiThread.
