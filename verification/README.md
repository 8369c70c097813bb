# DUBUFrameWork transport: a Dafny model

DUBUFrameWork is a reliable-UDP transport: four ordered channels, an unordered reliable stream and a
newest-only stream share one socket; lost packets are sent again until they are acknowledged; packets
too large for a datagram are split. This project models its protocol machinery and proves what it keeps.

| file | models |
|---|---|
| `Words` | 32-bit sequence numbers, and when a word tells the true number |
| `SendWindow` | the sender: 64 pending slots, acknowledgement, resending |
| `CacheBuffers`, `OrderedReceive` | the ordered receiver: ring, mask, cached packets |
| `UnorderedReceive` | the unordered and the newest-only receivers |
| `PacketFlags` | the flags byte, as written and as dispatched on |
| `Links`, `Connection`, `Runs`, `CacheRuns` | two endpoints over a network that loses, duplicates and reorders; every run |
| `Progress`, `Limits` | what a run can still achieve, and runs that reach the limits |
| `RingBuffer`, `RingProgress` | the lock-free queue, one atomic access per step; how a push or a pop ends |
| `SendBuffers`, `BufferMoves` | who owns a send buffer, one atomic access per step; where each operation leaves it |
| `Chunks`, `Reassembly`, `ChunkRuns`, `ChunkDelivery`, `SplitRuns`, `LongMessages` | splitting large packets and gathering them again |
| `Crc` | the checksum and its gate |
| `Pool`, `PoolRuns` | the size-class allocator |
| `Registry` | the session and peer tables |
| `RWLock` | the reader-writer spin lock |

State that the program updates in place is a class; each method is proved equal to a function on values
(`RecvDispatch` to `Receive`, `AckProcess` to `Ack`), and the functions are proved to refine a machine on
unbounded numbers, sets and maps. Concurrent code is a transition system. A 64-bit mask is a sequence of
64 booleans, a 16-bit flag word the set of its bits, a checksum register 32 booleans; bit 0 comes first.
A packet handed to `PacketParse` is an element of a log, and handlers leave the receive state alone.

## What is proved

- **Ordered channels.** In every state of every run, what a channel has parsed is a prefix of what was
  sent on it. Every number accepted is pending or held, also after refusals, and the buffer of a pending
  number holds its packet. As long as no send was refused, every pending packet but one at the window's
  edge is answered when it arrives. From any state, everything on the network lost, a channel can still
  finish by sending again if and only if none of its sends was refused.
- **Other streams.** The unordered stream hands every packet on at most once; from any state it can still
  hand on and release all exactly if no send was refused, and everything before the first refusal in any
  case; the newest-only stream parses growing numbers with steps below 8191.
- **32-bit numbers.** Sender and receivers equal their unbounded machines exactly under conditions on
  the numbers that are given in full, and differ wherever these fail.
- **Cache buffers.** In every run the manager has out exactly the buffers that the four channels keep and
  those others have taken.
- **Ring buffer.** For all interleavings it is a FIFO queue without data races. A push has appended its item
  when it ends, once, or was full at some moment during it; a pop has returned the front item, or was empty.
  Left alone, every thread ends within six steps, and a push or a pop succeeds exactly if there is room or
  an item.
- **Send buffers.** For all interleavings each buffer is returned once per allocation, never while the
  kernel has it, and given to the kernel only when it is not there. Sends and resends end with the buffer
  at the kernel; it goes back with the second of its acknowledgement and its completion.
- **Split packets.** All packets with the CHUNK flag share one table. If all messages are numbered
  without a gap, every one whose pieces were all handed on is parsed exactly once and whole. Among
  messages numbered in any way, one whose pieces were all handed on is parsed whole, from its own pieces,
  if and only if its own numbers have no gap, no foreign piece filed in its place was handed on before its
  last, it is not too long for `PopBig`, and nothing collected before it overran the block it was copied
  to. What a collection comes to, and when it overruns, is given for any pieces whatever.
- **Checksum.** Word-at-a-time equals byte-at-a-time equals the remainder of polynomial division; sealing
  writes that and nothing else; the gate lets exactly sealed packets through; damage within four bytes,
  none or all of them in the field, does not pass.
- **Supporting machines.** Chunks of the allocator never overlap, and it grows exactly if a class is used up;
  the registry's tables stay in bijection, and what each packet does to them is given in full; a writer is
  alone under the lock, and everyone who waits can get in.

## Where the code falls short of the obvious claim

The model follows the code. The lemmas named here show the failure or give the exact condition for success.

- `SendPacket` uses up a number before the window check. The prefix property survives, but after one
  refused send (`Limits.SomeSendIsRefused`) the channel can never finish (`Progress.FinishesIffNothingRefused`).
- The plain comparison that moves `localSeqence_` fails if a multiple of 2^32 was skipped by refusals:
  packets accepted afterwards are never sent again (`SendWindow.NextFollowsIff`, `SendWindow.LostAtTheWrap`;
  `Limits.WrapLossIsReached` is a run that gets there).
- The last number a window admits is not answered while the receiver waits for the first
  (`Runs.OrderedNeverStalls` is an equivalence; `Limits.WindowEdgeIsReached`).
- The newest-only stream mistakes a packet for a new one if it is more than 2^32 - 8191 behind, where the
  reliable streams tolerate 2^32 - 64 (`UnorderedReceive.NewestIsExact` gives all the distances that are misjudged, `UnorderedReceive.NewestTolerance` the nearest).
- The chunk table forgets a parsed message, so a second full set of pieces would be parsed again
  (`ChunkRuns.TableForgets`); it is the unordered stream's filter that makes it once. Every repeated
  piece would also cost a cache buffer, because the result of `SetBuffer` is not looked at (`ChunkRuns.RunRefines`).
- Pieces are locked one at a time, so two threads can interleave the numbers of their messages. A message
  with a gap is never collected from its own pieces (`ChunkDelivery.GappedIsNeverCollected`). Its pieces may
  be parsed as part of another message, so that a corrupted packet reaches `PacketParse`; or, if the
  messages differ in size, the copying loop writes past the block it got from `PopBig`, whose size is that
  of the message the completing piece belongs to (`SplitRuns.MessagesMix` is both; `ChunkRuns.YieldIs` and
  `ChunkRuns.FaultIffOverrun` say exactly when). An overrun is the end of everything, also for messages
  without a gap that come later (`SplitRuns.FaultShadows`). Or they may keep a message without a gap from
  being collected (`ChunkDelivery.CollectedIff`, `SplitRuns.StrangerComesFirst`).
- A split packet of up to sixteen pieces that is longer than `PopBig` allows is sent, and fails at the
  receiver when it is complete (`SplitRuns.EveryMessageOnce` is an equivalence). One of more pieces is sent,
  too, although sixteen bits cannot number them (`Chunks.FlagsRunOut`); it fails at the receiver before it
  is complete, at the sixteenth of its first sixteen pieces (`LongMessages.SixteenthFaults`).
- Moving a session to a new address re-checks the session under the write lock but not the address; the
  tables stay in agreement exactly if the address is still free (`Registry.MigrateKeepsIff`, `Registry.RaceOrphans`).
- 65536 readers can be inside the lock at once, and then the assertion in `ReadUnLock` fails; exclusion
  holds regardless (`RWLock.AssertionHoldsIff`, `RWLock.CrowdGathers`).
- The allocator has no list for types of one or two bytes (`PoolRuns.PopFailsIff`).
- A client's DISCONNECT is not handled by the server (`PacketFlags.ChainsAgreeIff`, `PacketFlags.ServerDropsDisconnect`).

## Model

| member | source | states |
|---|---|---|
| `Words.Distances` | DUBUFrameWork/Session.cpp:136-149 | for an unambiguous number the 32-bit differences the receivers compare are the true ones |
| `Words.NearIsUnambiguous` | DUBUFrameWork/Session.cpp:136-149 | every number within 2^32 - 64 of the receiver is unambiguous |
| `Words.SlotOfW` | DUBUFrameWork/ReliablePacketState.cpp:36-36 | a slot index is the same for the word and for the number, wrap included |
| `SendWindow.ReliablePacketState.UpdateSendSequenceNo` | DUBUFrameWork/PacketStateBase.cpp:22-25 | the counter goes up by one, wrapping, and the new value is returned |
| `SendWindow.ReliablePacketState.AddPendingPacket` | DUBUFrameWork/ReliablePacketState.cpp:21-44 | refused, with nothing changed, exactly if 64 or more past the start; else one slot written and the end moved |
| `SendWindow.ReliablePacketState.SendPacket` | DUBUFrameWork/Session.cpp:505-578 | numbering and window check together are `Send` |
| `SendWindow.ReliablePacketState.AckProcess` | DUBUFrameWork/ReliablePacketState.cpp:46-74 | the loop in place computes `Ack` and tells which buffer it freed |
| `SendWindow.ReliablePacketState.RepeatMessage` | DUBUFrameWork/Session.cpp:696-716 | the loop in place computes `Repeat`: the buffers given to the socket in order, each slot's SENDING bit looked at once |
| `SendWindow.ReliablePacketState.Reset` | DUBUFrameWork/ReliablePacketState.cpp:5-19 | every slot is emptied, its buffer taken out in slot order; those not with the kernel are pushed back, the others left to their completion; the state is the initial one |
| `SendWindow.ResetReturns` | DUBUFrameWork/ReliablePacketState.cpp:81-98 | a reset takes out exactly the pending buffers, each once, and pushes back exactly those of them that the kernel has released, each once |
| `SendWindow.SendRefines` | DUBUFrameWork/ReliablePacketState.cpp:21-44 | whatever was refused before: accepted exactly if within 64 of the start; the slot written was empty; the ring agrees with the map of pending packets after an acceptance and after a refusal |
| `SendWindow.SendIsExact` | DUBUFrameWork/ReliablePacketState.cpp:28-33 | the window check and the true distance agree exactly if the distance is below 64 or its word is not |
| `SendWindow.ToldIff` | DUBUFrameWork/ReliablePacketState.cpp:28-33 | misjudged are exactly the distances less than 64 past one or more full turns of 2^32, so none below 2^32 |
| `SendWindow.NextFollowsIff` | DUBUFrameWork/ReliablePacketState.cpp:38-42 | the end of the window follows an accepted number exactly if no multiple of 2^32 lies after it and up to that number; without refusals it always does |
| `SendWindow.LostAtTheWrap` | DUBUFrameWork/ReliablePacketState.cpp:38-42 | in any window with number 2^32 - 1 refused and all before it acknowledged, the next packet is accepted, never looked at by the resend loop, and its acknowledgement does not move the start |
| `SendWindow.StuckOnceLost` | DUBUFrameWork/ReliablePacketState.cpp:38-42 | from then on the end stays, and nothing from 64 past it on is accepted |
| `SendWindow.AckRefines` | DUBUFrameWork/ReliablePacketState.cpp:46-74 | whatever was refused: an acknowledgement removes exactly the packet it names and leaves the start on the first unacknowledged number or on the end |
| `SendWindow.AckIsExact` | DUBUFrameWork/ReliablePacketState.cpp:48-50 | it does so exactly if its word names no other pending number |
| `SendWindow.AdvanceRefines` | DUBUFrameWork/ReliablePacketState.cpp:68-72 | the advancing loop stops on a pending number or on the end, and changes nothing else |
| `SendWindow.RepeatSteps` | DUBUFrameWork/Session.cpp:701-715 | the resend loop takes at most 64 turns, also across the wrap |
| `SendWindow.RepeatRefines` | DUBUFrameWork/Session.cpp:696-716 | exactly the pending, due packets below the end that the kernel has released are sent again, in order, and get the new time |
| `SendWindow.ResentIffBelowNext` | DUBUFrameWork/Session.cpp:701-715 | with no delay, a pending packet's buffer is sent again exactly if a number below the end has it |
| `SendWindow.DueFromIsExact` | DUBUFrameWork/Session.cpp:705-706 | the list of due numbers is increasing and holds exactly those that are due |
| `SendWindow.DueIsElapsed` | DUBUFrameWork/Session.cpp:706-706 | on a clock that wraps after 2^32 milliseconds a packet is due exactly if the delay has passed and the kernel has released it |
| `SendWindow.ResendStamps` | DUBUFrameWork/Session.cpp:706-709 | a resend changes nothing of a pending packet but its time, and that exactly if it is sent again |
| `SendWindow.ResendWaits` | DUBUFrameWork/Session.cpp:706-709 | what was sent again is not sent once more before the delay has passed |
| `CacheBuffers.CachePacketManager.PopPacketBuffer` | DUBUFrameWork/BufferManager.cpp:91-107 | hands out the last listed buffer or a new one, now in use |
| `CacheBuffers.CachePacketManager.PushPacketBuffer` | DUBUFrameWork/BufferManager.cpp:109-117 | the buffer is listed again and no longer in use |
| `CacheBuffers.PopIsFresh` | DUBUFrameWork/BufferManager.cpp:91-107 | the buffer handed out was held by nobody |
| `CacheBuffers.PushReturns` | DUBUFrameWork/BufferManager.cpp:109-117 | giving back undoes taking |
| `CacheBuffers.CarvesIff` | DUBUFrameWork/BufferManager.cpp:91-107 | a new buffer is made exactly if all there are are in use; else one of the list is handed out |
| `CacheBuffers.TakenAgain` | DUBUFrameWork/BufferManager.cpp:91-117 | what is given back is handed out next, and the manager is then as it was |
| `OrderedReceive.OrderedChannel.RecvDispatch` | DUBUFrameWork/Session.cpp:122-215 | the branch in place computes `Receive`: new state, buffers, acknowledgement, packets parsed |
| `OrderedReceive.OrderedChannel.DrainCached` | DUBUFrameWork/Session.cpp:181-207 | the catch-up loop in place computes `Drain` |
| `OrderedReceive.OrderedChannel.Reset` | DUBUFrameWork/Session.cpp:89-107 | every slot is emptied, its buffer returned, and the channel agrees with an empty one |
| `OrderedReceive.ReceiveRefines` | DUBUFrameWork/Session.cpp:122-215 | ring, mask and last number agree with a map of cached packets before and after; same answer, same packets parsed |
| `OrderedReceive.ReceiveIs` | DUBUFrameWork/Session.cpp:136-213 | by distance: answered exactly within a window either way; the next packet is parsed first; one further ahead is kept in one new buffer, once; one behind or too far ahead changes nothing |
| `OrderedReceive.RefinementIsExact` | DUBUFrameWork/Session.cpp:136-149 | the 32-bit answer equals the unbounded one exactly for unambiguous numbers |
| `OrderedReceive.DrainRefines` | DUBUFrameWork/Session.cpp:181-207 | the loop stops before the first number not cached, and frees what it parsed |
| `OrderedReceive.ReceiveParses` | DUBUFrameWork/Session.cpp:136-213 | what is parsed are the next packets sent, without a gap; an acknowledged packet is held; nothing else becomes held |
| `OrderedReceive.ReceiveConserves` | DUBUFrameWork/Session.cpp:159-207 | the buffers in use stay those of the channel and of the others, none twice |
| `OrderedReceive.MaskCountsBuffers` | DUBUFrameWork/Session.cpp:159-207 | the channel has as many buffers out as its mask has bits set |
| `OrderedReceive.ResetReturnsAll` | DUBUFrameWork/Session.cpp:89-107 | a reset returns every buffer of the channel and no other |
| `UnorderedReceive.UnorderedStream.RecvDispatch` | DUBUFrameWork/Session.cpp:216-294 | the branch in place computes `Receive` |
| `UnorderedReceive.ReceiveRefines` | DUBUFrameWork/Session.cpp:216-294 | the mask agrees with the set of numbers handed on, bit 0 clear; a packet is handed on exactly when its number becomes held |
| `UnorderedReceive.ReceiveIs` | DUBUFrameWork/Session.cpp:222-294 | by distance: answered exactly within a window either way, handed on exactly if ahead and not held; one behind or too far ahead changes nothing |
| `UnorderedReceive.RefinementIsExact` | DUBUFrameWork/Session.cpp:222-242 | the 32-bit answer equals the unbounded one exactly for unambiguous numbers |
| `UnorderedReceive.CatchUpRefines` | DUBUFrameWork/Session.cpp:280-285 | the catch-up loop ends, and changes no number's having been handed on |
| `UnorderedReceive.NewestStream.RecvDispatch` | DUBUFrameWork/Session.cpp:297-309 | parsed exactly if ahead by more than 0 and less than 8191 as words, and then remembered |
| `UnorderedReceive.NewestIsExact` | DUBUFrameWork/Session.cpp:299-304 | the word test means "newer by less than 8191" exactly for distances not less than 8191 past a multiple of 2^32 other than 0 |
| `UnorderedReceive.NewestTolerance` | DUBUFrameWork/Session.cpp:299-304 | that covers 2^32 ahead and 2^32 - 8191 behind, and not one more behind |
| `PacketFlags.DataArrives` | DUBUFrameWork/Session.cpp:501-526 | both dispatch chains bring a data packet to the stream its sender meant |
| `PacketFlags.AnswerReturns` | DUBUFrameWork/SessionWorker.cpp:162-188 | the answer to a reliable packet is taken as an acknowledgement, for the stream the packet came on |
| `PacketFlags.ChainsAgreeIff` | DUBUFrameWork/SessionWorker.cpp:150-190 | the server's and the client's chain take the same branch exactly for the bytes that are neither PONG nor DISCONNECT |
| `PacketFlags.ServerDropsDisconnect` | DUBUFrameWork/SessionWorker.cpp:145-190 | a DISCONNECT falls into the server's REPEAT branch; there it is dropped, unless eight channels are configured, and then goes to the last |
| `Links.DeliverKeeps` | DUBUFrameWork/Session.cpp:122-215 | a delivery keeps the channel's invariant, and is answered only if the packet is then held |
| `Links.AckKeeps` | DUBUFrameWork/ReliablePacketState.cpp:46-74 | an earned acknowledgement releases its packet and no other, loses none, also after refusals |
| `Links.SenderSends` | DUBUFrameWork/ReliablePacketState.cpp:21-44 | every send, accepted or refused, keeps the window in agreement with the pending packets and leaves those before it pending |
| `Links.WindowsAgree` | DUBUFrameWork/ReliablePacketState.cpp:28-33 | the receiver stands at most 63 past the sender's start, and at least one before it unless the number it waits for was refused |
| `Links.NoStall` | DUBUFrameWork/Session.cpp:136-149 | a pending packet is answered on arrival, with the one exception at the window's edge |
| `Connection.StepKeepsInv` | DUBUFrameWork/SessionWorker.cpp:157-188 | every send, delivery, loss, acknowledgement and resend keeps the invariant of all streams, of the network and of the send buffers, and takes nothing back that any stream sent, refused or held |
| `Connection.ResentIsGenuine` | DUBUFrameWork/RUDPSocket.cpp:270-295 | what is sent again out of a buffer is a packet that was sent before |
| `Runs.RunKeepsInv` | DUBUFrameWork/SessionWorker.cpp:157-188 | the invariant holds in every state of every run |
| `Runs.OrderedIsPrefix` | DUBUFrameWork/Session.cpp:122-215 | what a channel parsed is a prefix of what was sent on it, and stops before the first refused number |
| `Runs.OrderedLosesNothing` | DUBUFrameWork/ReliablePacketState.cpp:46-74 | every accepted number is pending or held, also after refusals; the ring holds exactly these, each buffer its own packet; and the windows agree |
| `Runs.AcknowledgedIsHeld` | DUBUFrameWork/Client.cpp:157-172 | every acknowledgement under way names a packet the receiver holds |
| `Runs.OrderedNeverStalls` | DUBUFrameWork/Session.cpp:136-149 | with no send refused, a pending packet is answered, except number start + 63 while number start is awaited |
| `Runs.UnorderedIsExactlyOnce` | DUBUFrameWork/Session.cpp:216-294 | no number is handed on twice, nor before all that is a window below it; those with the CHUNK flag go to the chunk table; accepted numbers are pending or handed on; nothing is handed on from 63 past a refused number on |
| `Runs.UnorderedNeverStalls` | DUBUFrameWork/Session.cpp:222-242 | the unordered stream meets the same one exception |
| `Runs.NewestOnlyGrows` | DUBUFrameWork/Session.cpp:297-309 | with arrivals up to 2^32 - 8191 late, parsed numbers grow, each by less than 8191 |
| `Runs.NewestParsesIff` | DUBUFrameWork/Session.cpp:297-309 | an arrival is parsed exactly if it is newer than the last one parsed, by less than 8191 |
| `Runs.SendGoesOut` | DUBUFrameWork/Session.cpp:505-584 | a send gives the packet the next number of the stream meant and of no other, writes it to its buffer, and puts it on the network exactly if the window has room |
| `Runs.PendingBuffersDiffer` | DUBUFrameWork/ReliablePacketState.cpp:36-37 | in every run no buffer is pending twice on one stream |
| `Progress.FinishesIffNothingRefused` | DUBUFrameWork/Session.cpp:559-566 | from any state, an empty network included, a channel can parse everything and release every buffer exactly if no send on it was refused |
| `Progress.Finish` | DUBUFrameWork/Session.cpp:374-391 | sending again what is pending, and delivering that, finishes a channel whatever was lost |
| `Progress.Resend` | DUBUFrameWork/Session.cpp:696-716 | one resend brings every pending packet below the first refusal back onto the network |
| `Progress.AllIsLost` | DUBUFrameWork/Session.cpp:374-391 | everything on the network can get lost, with nothing else happening |
| `Progress.ParsesUpToRefusal` | DUBUFrameWork/Session.cpp:559-566 | after a refusal a channel can still parse everything before the first refused number and release exactly the buffers of that |
| `Progress.StreamFinishesIffNothingRefused` | DUBUFrameWork/Session.cpp:569-578 | from any state, an empty network included, the unordered stream can hand everything on and release every buffer exactly if no send on it was refused |
| `Progress.StreamHandsOnUpToRefusal` | DUBUFrameWork/Session.cpp:569-578 | after a refusal the stream can still hand on every number before the first refused one, and release its buffer |
| `Limits.SomeSendIsRefused` | DUBUFrameWork/ReliablePacketState.cpp:28-33 | a run in which number 64 is refused |
| `Limits.WindowEdgeIsReached` | DUBUFrameWork/Session.cpp:141-149 | a run that reaches the state in which number start + 63 is not answered |
| `Limits.WrapLossIsReached` | DUBUFrameWork/ReliablePacketState.cpp:38-42 | a run that reaches the state of `LostAtTheWrap`, with number 2^32 - 1 refused and all before it acknowledged: the next packet is accepted and never sent again |
| `Limits.AnythingCanBeSent` | DUBUFrameWork/Session.cpp:480-584 | in every run anything can be sent on any stream, out of a buffer that is free |
| `Limits.NewestCanArrive` | DUBUFrameWork/Session.cpp:297-309 | what is sent newest-only within 8190 of the last one parsed can arrive and is parsed |
| `CacheRuns.RunKeepsShared` | DUBUFrameWork/BufferManager.cpp:91-117 | in every run the buffers in use are those the four channels keep and those other users have taken, nobody the same |
| `CacheRuns.OthersTakeFresh` | DUBUFrameWork/BufferManager.cpp:91-117 | in every run other users get a buffer that nobody has, and can return any they have |
| `CacheRuns.MaskCounts` | DUBUFrameWork/Session.cpp:159-207 | in every run a channel keeps as many buffers as its mask has bits set |
| `RingBuffer.StepKeepsInv` | DUBUFrameWork/RingBuffer.h:43-101 | every atomic step of every thread keeps the queue's invariant |
| `RingBuffer.IsFifo` | DUBUFrameWork/RingBuffer.h:43-101 | a push appends when its exchange succeeds, a pop removes the front when its own does, no other step changes the content |
| `RingBuffer.PopsReturnWhatWasPushed` | DUBUFrameWork/RingBuffer.h:72-101 | every pop returns the item pushed at its position; no position is claimed twice |
| `RingBuffer.NoDataRace` | DUBUFrameWork/RingBuffer.h:52-57 | no two threads are about to touch the data of one node |
| `RingBuffer.NoWrap` | DUBUFrameWork/RingBuffer.h:35-39 | head <= tail <= head + 64 always, and no sequence number exceeds the number of pushes by 64 |
| `RingBuffer.FullIsTrue` | DUBUFrameWork/RingBuffer.h:59-63 | a push about to give up is right: the item 64 places back has not left its node, or is just being taken out of it |
| `RingBuffer.EmptyIsTrue` | DUBUFrameWork/RingBuffer.h:88-92 | a pop about to give up is right: nothing is in the queue, or the front item is still being written |
| `RingBuffer.NothingLost` | DUBUFrameWork/RingBuffer.h:43-101 | with all threads idle, what was pushed is what was popped, in order, followed by what is left |
| `RingProgress.PushEnds` | DUBUFrameWork/RingBuffer.h:43-71 | whatever the other threads do, a push that has ended has appended its item with exactly one of its steps, or has left the content alone and the queue was full at some moment during it |
| `RingProgress.PopEnds` | DUBUFrameWork/RingBuffer.h:73-101 | a pop that has ended has removed the front item with exactly one of its steps and returned it, or has left the content alone and the queue was empty at some moment during it |
| `RingProgress.SoloPush` | DUBUFrameWork/RingBuffer.h:43-71 | from any state of any run, a push left alone ends, having appended its item exactly if the queue was not full, and changed nothing else |
| `RingProgress.SoloPop` | DUBUFrameWork/RingBuffer.h:73-101 | a pop left alone ends, having removed and returned the front item exactly if the queue was not empty |
| `RingProgress.EndsAlone` | DUBUFrameWork/RingBuffer.h:47-70 | any thread at any point ends within six steps of its own if it is left alone |
| `RingProgress.AtRest` | DUBUFrameWork/RingBuffer.h:60-64 | with every thread idle, full means 64 items and empty means none |
| `SendBuffers.StepKeepsInv` | DUBUFrameWork/RUDPSocket.cpp:246-295 | every step of every session and thread keeps the ownership invariant |
| `SendBuffers.PooledIsFree` | DUBUFrameWork/BufferManager.cpp:36-63 | a pooled buffer is there once, and neither with the kernel nor pending |
| `SendBuffers.ReturnsOnce` | DUBUFrameWork/ReliablePacketState.cpp:57-66 | a return is of a buffer that was out, released by the kernel and out of its slot |
| `SendBuffers.NeverGivenTwice` | DUBUFrameWork/RUDPSocket.cpp:270-295 | a buffer given to the kernel is not there already, nor awaiting its completion |
| `SendBuffers.RepeatLosesNoUpdate` | DUBUFrameWork/RUDPSocket.cpp:275-276 | the separate read and write of the type lose no update |
| `SendBuffers.NothingLeaks` | DUBUFrameWork/RUDPSocket.cpp:347-365 | once nothing is pending or under way, every buffer is back in the pool |
| `BufferMoves.SendGives` | DUBUFrameWork/RUDPSocket.cpp:246-268 | a send ends with the buffer out of the pool, in its slot, at the kernel and marked so; nothing else changes |
| `BufferMoves.RefusalUndoes` | DUBUFrameWork/Session.cpp:559-566 | a refused send leaves everything as it was |
| `BufferMoves.RepeatGives` | DUBUFrameWork/RUDPSocket.cpp:270-295 | a resend ends with the buffer, which the kernel had released, at the kernel again, marked so, and still in its slot |
| `BufferMoves.AckReturns` | DUBUFrameWork/ReliablePacketState.cpp:46-66 | an acknowledgement takes the buffer out of its slot and returns it exactly if the kernel has released it |
| `BufferMoves.PlainGives` | DUBUFrameWork/RUDPSocket.cpp:222-244 | an unreliable send ends with the buffer at the kernel and in no slot |
| `BufferMoves.CompletionReturns` | DUBUFrameWork/RUDPSocket.cpp:347-365 | a completion takes the buffer back and returns it exactly if no session has it any more |
| `BufferMoves.SecondReturns` | DUBUFrameWork/RUDPSocket.cpp:347-365 | a pending buffer at the kernel is returned by the second of acknowledgement and completion, in either order, to the same effect |
| `BufferMoves.WholeLife` | DUBUFrameWork/RUDPSocket.cpp:246-295 | sent, completed, sent again, acknowledged, completed: every step is possible, and all is as it was |
| `BufferMoves.RepeatEnds` | DUBUFrameWork/RUDPSocket.cpp:270-295 | in every run, whatever happens meanwhile, a resend ends by giving the buffer to the kernel |
| `BufferMoves.SendEnds` | DUBUFrameWork/Session.cpp:553-584 | in every run a send ends by giving the buffer to the kernel, or, refused, by returning it |
| `Chunks.SendPacketChunk` | DUBUFrameWork/Session.cpp:655-694 | the loop gives each piece its flag and its part of the payload |
| `Chunks.CountCovers` | DUBUFrameWork/Session.cpp:657-662 | the pieces are the fewest that hold the payload |
| `Chunks.FlagsPartition` | DUBUFrameWork/Session.cpp:669-690 | every bit belongs to exactly one piece, the lowest is the piece's place, the top one marks the last |
| `Chunks.FlagsRunOut` | DUBUFrameWork/Session.cpp:669-690 | with more than sixteen pieces, the first sixteen have one bit each, the end mark with the sixteenth, and the others none |
| `Chunks.CountDown` | DUBUFrameWork/ChunkPacket.cpp:67-82 | the shifting loop finds the lowest set bit |
| `Chunks.ChunkPacketInj.Update` | DUBUFrameWork/ChunkPacket.cpp:14-59 | the piece is put into the entry of its base number, once |
| `Chunks.ChunkPacketInj.Copy` | DUBUFrameWork/Session.cpp:629-645 | the copying loop computes `Collect` and returns every buffer it copied |
| `Chunks.ChunkPacketInj.RecvChunckPacket` | DUBUFrameWork/Session.cpp:598-653 | the call in place computes `Receive`: wait, parse or fault |
| `Reassembly.FittingIsNumbered` | DUBUFrameWork/Pool.cpp:125-134 | a payload within the bound of `PopBig` needs at most eleven pieces |
| `Reassembly.SplittingIsValid` | DUBUFrameWork/Session.cpp:487-491 | everything `PopBig` can hold that is too large for one packet has a valid splitting |
| `Reassembly.PiecesFill` | DUBUFrameWork/Session.cpp:657-690 | every piece but the last fills its datagram, and the last is not empty |
| `Reassembly.PieceBase` | DUBUFrameWork/ChunkPacket.cpp:67-82 | a piece is filed under the word of its number minus its place |
| `Reassembly.SetBufferAgrees` | DUBUFrameWork/ChunkPacket.cpp:14-42 | a piece is turned away exactly if it shares a bit with one that is there, and then changes nothing; else the entry holds one piece more |
| `Reassembly.FullIsCovered` | DUBUFrameWork/ChunkPacket.cpp:44-52 | an entry is full exactly when the flags of its pieces are all 16 bits |
| `Reassembly.CollectIsWhole` | DUBUFrameWork/Session.cpp:617-645 | the copying loop restores header, subheader and payload within its buffer exactly if the packet fits |
| `Reassembly.CollectIs` | DUBUFrameWork/Session.cpp:617-645 | for any pieces: a fault exactly if the size cut to 16 bits is above the bound of `PopBig`, a place below the count is empty or shorter than the headers, or the pieces exceed that size together; else their join |
| `ChunkRuns.ReceiveRefines` | DUBUFrameWork/Session.cpp:598-653 | one arrival, whatever else is in the table: turned away, kept, or completing what is filed under its word, which is then collected, all of it and only it |
| `ChunkRuns.RunRefines` | DUBUFrameWork/Session.cpp:598-653 | any packets in any order, repeats included: what is parsed up to the first fault, whether there is one and how many buffers are out is what the set of gathered numbers says |
| `ChunkRuns.YieldIs` | DUBUFrameWork/Session.cpp:617-645 | what any set of collected packets yields, and exactly when it is a fault, from the packets alone |
| `ChunkRuns.ParsedIffNoOverrun` | DUBUFrameWork/Session.cpp:617-651 | a collection is parsed exactly if none up to it overruns, and is then the join of its pieces |
| `ChunkRuns.FaultIffOverrun` | DUBUFrameWork/Session.cpp:617-645 | there is a fault exactly if some collection overruns |
| `ChunkRuns.FaultIsTheEnd` | DUBUFrameWork/Session.cpp:628-645 | after a fault nothing that arrives is parsed |
| `ChunkRuns.CollectionsAreSound` | DUBUFrameWork/Session.cpp:615-645 | what is parsed together was filed under one word and covers every bit |
| `ChunkRuns.CollectedOnce` | DUBUFrameWork/Session.cpp:646-651 | if no packet arrives twice, none is parsed twice |
| `SplitRuns.EveryMessageOnce` | DUBUFrameWork/Session.cpp:598-653 | all split messages numbered without a gap, their pieces once each and within a window: every complete message is parsed once and whole, nothing else is, no buffer is lost, and a fault means a complete message too long |
| `SplitRuns.SplitPacketsArrive` | DUBUFrameWork/Session.cpp:253-277 | the same in every state of every run of a connection, for all packets with the CHUNK flag that were handed on |
| `SplitRuns.SplitPacketParsedIff` | DUBUFrameWork/Session.cpp:253-277 | in every run, with other messages numbered in any way: a complete message without a gap was parsed by the table, whole and from its own pieces, exactly if no piece of another one filed in its place was handed on before its last piece, it is not too long, and no earlier collection overruns |
| `ChunkDelivery.ShareEntryIff` | DUBUFrameWork/ChunkPacket.cpp:67-82 | two pieces share an entry exactly if the words of their numbers minus their places are the same |
| `ChunkDelivery.GappedIsNeverCollected` | DUBUFrameWork/Session.cpp:669-693 | a message with a gap in its numbers is never collected from its own pieces, whatever arrives |
| `ChunkDelivery.CollectedIff` | DUBUFrameWork/ChunkPacket.cpp:14-42 | for any series of arrivals, each once: a complete message without a gap is collected from its own pieces exactly if no piece of another one filed in its place comes before its last |
| `ChunkDelivery.ParsedIff` | DUBUFrameWork/Session.cpp:598-653 | and it is parsed, whole, exactly if besides it is not too long and no earlier collection overruns |
| `ChunkDelivery.OwnYield` | DUBUFrameWork/Session.cpp:617-645 | what is collected of exactly its own pieces is the message, unless it is too long |
| `SplitRuns.MessagesMix` | DUBUFrameWork/Session.cpp:617-645 | any two messages of two pieces sent in turns, whatever else is in the table: the first piece of one is parsed together with the second of the other; arriving in the other order, exactly if the latter's message is not longer, and otherwise the copying loop overruns |
| `SplitRuns.FaultShadows` | DUBUFrameWork/Session.cpp:628-645 | after such an overrun a third message, without a gap or a stranger, is not parsed |
| `LongMessages.FirstAreKept` | DUBUFrameWork/Session.cpp:606-615 | the first sixteen pieces of a message of more gather under one word, in any order and whatever else is in the table, as long as one of them is missing |
| `LongMessages.SixteenthFaults` | DUBUFrameWork/Session.cpp:615-645 | the last of these sixteen to arrive, whichever it is, is a fault |
| `SplitRuns.StrangerComesFirst` | DUBUFrameWork/ChunkPacket.cpp:16-19 | a message without a gap that is not collected, because the last piece of one with a gap comes first |
| `ChunkRuns.TableForgets` | DUBUFrameWork/Session.cpp:646-651 | after everything gathered was parsed, arrivals are treated as the first ever |
| `Crc.CRC32` | DUBUFrameWork/Packet.cpp:21-39 | word by word, then byte by byte, computes CRC-32C for every length |
| `Crc.FourMore` | DUBUFrameWork/Packet.cpp:27-30 | the word instruction is four byte instructions |
| `Crc.PolynomialTerms` | DUBUFrameWork/Packet.cpp:28-29 | the polynomial's terms are those of section 12.1 of RFC 3720 |
| `Crc.ChecksumIsRemainder` | DUBUFrameWork/Packet.cpp:21-39 | the checksum is the complemented remainder of polynomial division |
| `Crc.BurstChangesChecksum` | DUBUFrameWork/Packet.cpp:21-39 | two strings that differ only within four bytes have different checksums |
| `Crc.SealedIsAccepted` | DUBUFrameWork/Session.cpp:527-552 | a packet sealed by the sender passes the receiver's gate |
| `Crc.SealKeeps` | DUBUFrameWork/Session.cpp:551-552 | sealing changes no byte but the four of the field |
| `Crc.SealWritesRemainder` | DUBUFrameWork/Session.cpp:551-552 | what it writes there is the complemented remainder of the packet with the field cleared |
| `Crc.SealIgnoresField` | DUBUFrameWork/Session.cpp:527-552 | packets that agree outside the field are sealed alike |
| `Crc.AcceptsIff` | DUBUFrameWork/RUDPSocket.cpp:312-332 | the gate lets a packet through exactly if sealing would leave it as it is |
| `Crc.DamageIsRejected` | DUBUFrameWork/RUDPSocket.cpp:312-332 | damage within four bytes, the whole field or none of it, fails the gate; so for every aligned group |
| `Pool.StartStep` | DUBUFrameWork/Pool.cpp:28-46 | the classes follow one another and end within the block |
| `Pool.CeilIsClass` | DUBUFrameWork/Pool.h:62-62 | sizes 3 to 1024 are rounded up to a carved class, sizes 1 and 2 are not |
| `Pool.ChunksDisjoint` | DUBUFrameWork/Pool.cpp:28-46 | two chunks of a block are the same or do not overlap, and lie inside it |
| `Pool.Allocator.AddBlock` | DUBUFrameWork/Pool.cpp:13-47 | the nested loops append to each list the chunks of its class |
| `Pool.Allocator.FindBlock` | DUBUFrameWork/Pool.cpp:97-110 | the loop finds the first block that contains the address |
| `Pool.Allocator.PopChunk` | DUBUFrameWork/Pool.h:82-111 | in place, this is `Pop` |
| `Pool.Allocator.PushChunk` | DUBUFrameWork/Pool.h:57-79 | in place, this is `Push` |
| `PoolRuns.FindsOwner` | DUBUFrameWork/Pool.cpp:97-110 | for a carved chunk `FindBlock` finds the one block that contains it |
| `PoolRuns.PopKeeps` | DUBUFrameWork/Pool.h:82-111 | a pop of size 3 to 1024 succeeds, yields a chunk of its class that was not live, and keeps the invariant |
| `PoolRuns.PopGrowsIff` | DUBUFrameWork/Pool.h:97-105 | a pop asks for one block more exactly if every chunk of the class is live; else it hands out one there is |
| `PoolRuns.PushKeeps` | DUBUFrameWork/Pool.h:57-79 | a push of a live chunk makes it free again and keeps the invariant |
| `PoolRuns.PopFailsIff` | DUBUFrameWork/Pool.h:97-105 | a pop fails exactly for sizes below 3 |
| `PoolRuns.ChunksAreSafe` | DUBUFrameWork/Pool.h:57-111 | in every run live chunks do not overlap, and each lies in the one block found for it |
| `PoolRuns.FreePlusLiveIsCarved` | DUBUFrameWork/Pool.h:57-111 | in every run free and live chunks are together those carved, none both, and use counts are right |
| `PoolRuns.CanPop` | DUBUFrameWork/Pool.h:82-111 | every run can go on with a pop of any size from 3 to 1024 |
| `PoolRuns.CanPush` | DUBUFrameWork/Pool.h:57-79 | every run can go on with a push of any live chunk, which is then in the free list of its class |
| `Registry.KeyTellsAddr` | DUBUFrameWork/Server.cpp:300-304 | different addresses have different keys |
| `Registry.Bijection` | DUBUFrameWork/Server.cpp:186-197 | under the invariant sessions and peers correspond one to one |
| `Registry.RemoveKeeps` | DUBUFrameWork/Server.cpp:186-197 | a removal takes out a session and its own peer and nothing else, and keeps the invariant |
| `Registry.PacketKeeps` | DUBUFrameWork/SessionWorker.cpp:86-147 | a packet handled in one step keeps the tables in agreement and never finds its session without a peer |
| `Registry.PacketIs` | DUBUFrameWork/SessionWorker.cpp:91-147 | a packet is dispatched exactly if it names a session there is; that session moves to the packet's address, with its peer, exactly if no session has it; nothing else changes |
| `Registry.ConnectIs` | DUBUFrameWork/SessionWorker.cpp:65-84 | a client gets a new session, which with its peer is all that is added, exactly if no session has its address; else it is told the one that has |
| `Registry.NextIs` | DUBUFrameWork/SessionWorker.cpp:65-127 | along a run sessions come with a connection from a free address, go when listed, and stay otherwise |
| `Registry.MigrateKeepsIff` | DUBUFrameWork/SessionWorker.cpp:102-123 | the part under the write lock keeps the tables in agreement exactly if the new key is still free |
| `Registry.RaceOrphans` | DUBUFrameWork/SessionWorker.cpp:98-123 | a client that connects between the two locks ends up without a peer |
| `Registry.RunKeepsInv` | DUBUFrameWork/SessionWorker.cpp:65-127 | the tables agree in every state of every run |
| `Registry.AlwaysPresent` | DUBUFrameWork/SessionWorker.cpp:109-117 | in every reachable state the "Not Present" branch is not taken |
| `Registry.Server.ProcessPacket` | DUBUFrameWork/SessionWorker.cpp:52-147 | in place: connect, move or look up, with the outcome, keeping the invariant |
| `Registry.Server.RemoveSession` | DUBUFrameWork/Server.cpp:186-197 | in place, this is `Remove` |
| `Registry.Server.RemoveListed` | DUBUFrameWork/SessionWorker.cpp:264-280 | exactly the listed sessions are gone, keeping the invariant |
| `RWLock.StepKeepsInv` | DUBUFrameWork/RWLock.cpp:9-60 | every atomic step of every thread keeps the lock's invariant |
| `RWLock.WriterExcludesEveryone` | DUBUFrameWork/RWLock.cpp:9-60 | in every run a writer is alone, the count is WRITE exactly with a writer inside and else the number of readers, at most 65536 |
| `RWLock.AssertionHoldsIff` | DUBUFrameWork/RWLock.cpp:34-38 | the assertion holds for a leaving reader exactly if fewer than 65536 readers are inside |
| `RWLock.CrowdGathers` | DUBUFrameWork/RWLock.cpp:9-32 | any 65536 threads can be inside together |
| `RWLock.InsideLeaves` | DUBUFrameWork/RWLock.cpp:34-60 | a thread inside has one step, which takes it out, and the count is then the number of readers left |
| `RWLock.WriterGetsIn` | DUBUFrameWork/RWLock.cpp:40-55 | from any state of any run a thread that waits to write, or is about to ask, can still get in |
| `RWLock.ReaderGetsIn` | DUBUFrameWork/RWLock.cpp:9-32 | likewise a thread that waits to read |

## Left out

- Winsock and completion ports: a send is "given to the kernel" and "completed"; a receive is an arrival.
- `InternalClient.cpp`, whose receive code repeats `Client.cpp`.
- Round-trip averaging: the resend delay is an arbitrary value of each resend step.
- FlatBuffers verification, handler dispatch, sample servers and bots; handlers that disconnect or reset during a delivery.
- Ping and pong, statistics, logging, configuration, thread start and stop.
- `ObjectPool` and the insides of `PopBig` and `PushBig`: of these only the bound of 8192 bytes is used. Types of more than 1024 bytes do not reach the size classes.
- The contents of packet headers other than flags, sequence number, chunk information and checksum; time stamps of cached packets, which nothing reads.
- Connection.StepKeepsInv: one direction of traffic; the other is the same machine with the endpoints exchanged, and the two share no state. Arrivals whose word is ambiguous, almost 2^32 numbers late, are not steps, nor are acknowledgements as late, nor sends less than 64 past a full turn of 2^32 from the start of the window. A reset or disconnection ends a run; the client ends it on a refused send. There are four channels, as DEFAULT_CHANNEL_MASK says; the configuration can change that.
- Runs.OrderedNeverStalls: says nothing of arrivals on a channel on which a send was refused; that channel waits for good.
- SendBuffers.StepKeepsInv: two threads send for one session only under its send lock, as the program does; a reset takes no send lock and is exclusive through the server's session lock, which is modelled only as its taking turns with the session's other operations; a failing WSASendTo ends the program.
- RingBuffer.NoWrap: counters are unbounded, so that 64-bit counters wrap after 2^64 - 64 pushes is not modelled.
- CacheRuns.RunKeepsShared: the buffers that gathering takes from the same manager are among those of other users; `ChunkRuns` counts them.
- ChunkDelivery.ParsedIff: no number handed on lies a full turn of 2^32 away under the same word; `SplitRuns.EveryMessageOnce` needs no such condition. Subheaders of more than 255 bytes are outside the format. The table is not cleared by `Session::Reset`, so this is about one connection.
- Registry.RunKeepsInv: each packet and each list of removals is one step; `Registry.MigrateKeepsIff` says what the two locks of a move add. `GenerateId` gives any nonzero id not in use.
- RWLock.StepKeepsInv: the spin counts and yields, which only delay.
- PoolRuns.PopKeeps: that `malloc` returns memory apart from the blocks there are.
