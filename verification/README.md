# Verified model of the gorm C++ client

A Dafny 4.11 model of the client side of gorm: the connection that sends requests and matches
responses, the queue, pool, wake-up signal and epoll registration under it, the response reader,
the message headers, the field bit set, and the hash library.

    dafny verify --resource-limit 2000000 --verification-time-limit 0 dfyconfig.toml

## How the model is built

Classes and methods follow the C++ classes and loops (`SsQueue`, `MemPool`, `Reader`,
`ClientEvent`, `Event`, `FieldsOpt`, `Md5Ctx`, the hash functions). Each is proved against a
specification on values, and the properties below are proved about that specification. Where many
threads or many events interleave (`Wakeup`, `Connection`), the specification is a state machine
and the results are about every run of it.

| file | what it is |
|---|---|
| Ring, RingRuns, Pool, Fields | the queue and whole runs of it, the memory pool, the field bit set |
| Epoll, EpollHistory | the epoll mask and the kernel's interest list, step by step and from the whole history |
| Connection, Conservation, ResendOrder, OutputStream | one connection with a deque for its send queue: its steps, and what every run keeps |
| RingConnection, ClientEvent | the same connection with the ring it really has: when it moves like the one with the deque, what then holds of it, what it loses otherwise; and the class over array rings |
| TimeoutScan, WriteProgress, ResponseList, ResponseOrder, SilentReconnection | which requests time out, how far writes get, what reaches the response list and in which order it leaves, reconnections without a handshake |
| Wakeup, Quiescence, ProducerProgress, RequestFlow | producers and network thread around the pipe and the flags: no wake-up is lost, the thread comes to rest, no call hangs, no request disappears |
| Wire, Framing, Reader, EndToEnd | headers, cutting a stream into frames, the reader, server bytes to completed requests |
| Crc32, CrcTables, Crc16, Murmur, Fnv, Jenkins, Md5Words, Md5Block, Md5 | the hash library |
| CheckValues | published values of these hashes, derived from their specifications |
| Basics, Words | shared types, constants and arithmetic; 32-bit words |

Inputs chosen freely, hence by the worst possible environment: the server's bytes, the size of
every recv and every write, failures of write and connect, the clock, the iteration order of the
hash map, in `Wakeup` the interleaving of threads at every access to an atomic or a queue, and what
lies in memory around a hashed key. `ASSERT` in the source does nothing (src/gorm_utils.cc:72-74), so no condition of
one is taken for granted.

Hash functions work on `bv8`/`bv32`/`bv64` with the source's wrap-around; the ring's counters wrap
at 2^64 and the MD5 counters at 2^29 and 2^32; message bytes are integers from 0 to 255.

## What the proofs found

Each of these is a lemma or method of the project, with the exact condition where there is one.

- The ring stops being a deque when its live window straddles index 0 and holds more than
  2^64 mod N elements (`SafeIffInjective`); for the send queue that is when it is longer than 4096
  and longer than the number of requests accepted so far (`WithinIffSafe`). It starts with a
  `PutPre` of the handshake at index 0, so this can happen in two ways. A reconnection while 4096
  requests are unanswered and none was ever answered overwrites one of them, and it is then
  nowhere (`ReconnectIff`, `ReconnectOverRing`, `ReconnectionLosesRequest`). And 4096 requests submitted before the handshake has
  left overwrite the handshake and are sent with the last one twice (`HandshakeOverwritten`,
  `SubmitOverRing`); `GORM_Wrap::Init` (src/gorm_wrap.cc:62-94) makes business code wait for one
  handshake reply, so this needs a second connection. Within the bound the whole-run results
  hold of the ring (`RingRunRefines` and the lemmas ending in `OverRing`).
  The comment at include/gorm_ss_queue.h:4-6 speaks of lock-free operation; the code takes a mutex.
- The reader compacts only for more than four buffered bytes. When a recv fills the buffer and
  leaves at most four bytes, none included, the next recv has no room, returns 0, and the
  connection is dropped although the stream is well formed (`ReadOnce` states exactly when,
  `StrandedByte` is an instance). A reply longer than the buffer gets a block of exactly its
  length, so the connection always drops at the first byte behind it, however the recv calls
  fall (`LongReplyCloses`). The comment at include/gorm_client_event.h:28 promises a 1K buffer;
  the code takes 1 MiB.
- A wake-up signal whose 16 writes all fail leaves `m_iDataFlag` set for good: the pipe is never
  read again, and only the polled thread flag still wakes the network thread
  (`ExhaustedSignalKillsPipe`, with a reachable run in `PipeGuaranteeFails`). The pipe never holds
  more than one byte (`SignalsCoalesce`), so these failures cannot come from a full pipe.
- A reconnection with an empty map sends nothing, not even a handshake (`EmptyMapResendsNothing`),
  and a handshake is never in the map. A first connection that is lost before the handshake reply
  therefore comes back silent, and sets no start status until the server speaks unasked
  (`FirstHandshakeLost`): if it is the only connection, `GORM_Wrap::Init` gives up after its minute
  (src/gorm_wrap.cc:62-94). A null entry that an unmatched reply left behind is enough to bring the
  handshake back (`NullEntryBringsHandshake`).
- The timeout is computed in unsigned arithmetic: with a clock that has been set back every pending
  request stamped later times out at the next scan (`InTimeByTheClock`).
- A resend into a queue without room drops the requests with the smallest ids, and with them the
  handshake (`FullRingDropsOldest`).
- `GetData` truncates its `size_t` to `int` above 1 MiB (`CapacityCoversIff`, `TruncatedRequest`).
- `DelField` flips: deleting an absent field inserts it, possibly outside the bytes that are later
  enumerated (`DelKeepsTightIff`, `DeletedFieldAppears`).
- `Crc16` returns its unmasked register. Its upper half holds the high bytes of the CRCs of two
  shorter keys, and the result is the CRC exactly if both are clear (`UpperHalf`, `IsCrcIff`).
- The upgrade command 1001 cannot come out of the one-byte command field (`UpgradeUnreachable`).

## Model

| member | source | states |
|---|---|---|
| Ring.SafeIffInjective | include/gorm_ss_queue.h:20-80 | a window of live indices maps to distinct slots if and only if N divides 2^64, or it does not straddle 0, or it holds at most 2^64 mod N elements |
| RingRuns.PutBackRefinesIff | include/gorm_ss_queue.h:20-30 | Put is push-back, whatever is put, if and only if the grown window is safe |
| RingRuns.PutFrontRefinesIff | include/gorm_ss_queue.h:43-54 | PutPre, which decrements an unsigned counter, is push-front if and only if the grown window is safe |
| Ring.PutBackOverwrites | include/gorm_ss_queue.h:20-30 | otherwise exactly one live element, the one 2^64 mod N places before the new one, becomes a second copy of it |
| Ring.PutFrontOverwrites | include/gorm_ss_queue.h:43-54 | otherwise exactly one live element, the one 2^64 mod N places behind the new one, becomes a second copy of it |
| Ring.TakeFrontRefines | include/gorm_ss_queue.h:68-80 | Take is pop-front, with no condition |
| RingRuns.RunRefines | include/gorm_ss_queue.h:20-80 | over every run with safe windows the ring and a bounded deque give the same answers and the same final contents |
| RingRuns.ResponseListRefines | include/gorm_client_thread.h:111 | the response list, of capacity 2^17, refines a deque in every run without condition |
| RingRuns.SendQueueSafeIff | include/gorm_client_event.h:19 | the send queue, of capacity 10240, is safe if and only if it does not straddle or holds at most 4096 |
| RingRuns.HandshakeOverwritten | include/gorm_client_event.h:49-60 | 4096 elements put after a first PutPre on a new ring and before any take: the next Take returns the last of them in place of the first, and later returns it again |
| Ring.SsQueue.Put | include/gorm_ss_queue.h:20-30 | refused exactly when full; otherwise the new counters, slots and live sequence of PutBack |
| Ring.SsQueue.PutPre | include/gorm_ss_queue.h:43-54 | refused exactly when full; otherwise the new counters, slots and live sequence of PutFront |
| Ring.SsQueue.Take | include/gorm_ss_queue.h:68-80 | refused exactly when empty; otherwise returns the first live element and leaves the rest |
| Wakeup.NoLostWakeupInAnyRun | include/gorm_client_thread.h:29-54 | in every state of every interleaving of any number of producers with the network thread, a connection that is up and has requests queued or one half written, with no producer mid-call, has write interest that lasts, or its flag set with the thread flag set or a SignalCB running or about to run that has yet to reach it |
| Wakeup.HalfWrittenIsServed | src/gorm_client_event.cc:255-290 | a request half written always has write interest that lasts, whatever the producers do |
| Wakeup.NoLostWakeupByPipeInAnyRun | include/gorm_signal_event.h:27-52 | the same with the pipe as the only trigger, as long as no signal exhausts its 16 writes |
| Wakeup.PipeInvKept | src/gorm_signal_event.cc:47-63 | every single step, draining and clearing the flag included, keeps the pipe invariant of each connection |
| Wakeup.PollInvKept | src/gorm_client_thread.cc:76-86 | every single step, the test of the thread flag and its clearing being two, keeps the invariant behind the polled flag |
| Wakeup.SignalsCoalesce | include/gorm_signal_event.h:27-52 | however many producers signal, the pipe never holds more than one byte |
| Wakeup.ExhaustedSignalKillsPipe | include/gorm_signal_event.h:43-50 | after a signal has exhausted its writes no continuation ever reads the pipe again |
| Wakeup.PipeGuaranteeFails | include/gorm_signal_event.h:43-50 | a run from the initial state with one connection and one producer whose 16 writes fail, after which the pipe alone no longer serves a queued request |
| Wakeup.VisitReaches | include/gorm_client_thread.h:43-54 | from a SignalCB that has not passed a flagged connection, at most three steps a connection turn its write interest on |
| Wakeup.QueuedRequestGetsServed | src/gorm_client_thread.cc:76-86 | in any reachable idle state a queued request gets write interest by steps of the network thread alone |
| Quiescence.ComesToRest | src/gorm_client_thread.cc:76-86 | from any state at the top of the loop with no producer mid-call and nothing queued or half written, steps of the network thread alone lead to rest: thread flag clear, pipe empty, no write interest, after a trigger no connection flagged, and no step left but to notice a lost connection |
| Quiescence.ReachableRest | src/gorm_signal_event.cc:47-63 | so from every such reachable state; and the signal's flag is clear as well if no signal exhausted its writes |
| ProducerProgress.Finish | include/gorm_client_thread.h:29-42 | a producer that is not kept from the mutex completes its call in at most seven own steps, changes no other producer and leaves the mutex free |
| ProducerProgress.EveryCallCompletes | include/gorm_signal_event.h:27-52 | from every reachable state steps of the producers alone complete every call and free the mutex: no deadlock |
| RequestFlow.NoneDisappears | src/gorm_client_event.cc:255-290 | in every run, per connection: what is queued or half written at the end is what was at first and what entered, less what was written to its last byte or cut off |
| RequestFlow.NoneOvertakes | include/gorm_client_event.h:86-101 | while a request is half written none of its connection is taken |
| RequestFlow.DownIsIdleInAnyRun | src/gorm_client_event.cc:28-43 | in no run has a connection that is down write interest or a request half written |
| RingConnection.WithinIffSafe | include/gorm_client_event.h:139 | the send queue's window is safe if and only if the queue is not longer than 4096, or not longer than the number of requests accepted so far (modulo 2^64, 0 excepted) |
| RingConnection.StepTracks | src/gorm_client_event.cc:59-464 | from a safe window every step of the connection with its ring is the step of the connection with a deque, and if the window is safe afterwards the queues are equal too |
| RingConnection.RingRunRefines | src/gorm_client_event.cc:59-464 | over every run whose queue stays within that bound the two connections are in the same state |
| RingConnection.OutsideTheBound | include/gorm_client_event.h:139 | in every reachable state outside the bound the ring holds one request at two positions |
| RingConnection.ConservationOverRing | src/gorm_client_event.cc:64-243 | after any run within the bound with fresh ids each accepted id that wants a callback is in exactly one of ring, map, completed and lost; no other id is anywhere; nothing completes twice |
| RingConnection.ThreePlacesOverRing | src/gorm_client_event.cc:64-243 | if moreover neither the ring nor the response list, which other connections fill too, overflows: in exactly one of ring, map and completed |
| RingConnection.OrderOverRing | include/gorm_client_event.h:49-101 | with ascending submissions, in every reachable state: handshakes, then strictly ascending ids in the ring; every pending id below every queued one; this connection's requests taken in ascending order |
| RingConnection.AscendingIdsAreFresh | include/gorm_client_event.h:62-74 | ascending ids are fresh ids, so conservation holds of the same runs |
| RingConnection.WireOverRing | src/gorm_client_event.cc:255-290 | in every run from a first connection, within the bound or not, the bytes written on the connection are the complete requests in the order taken from the ring, then the written prefix of the one being sent |
| RingConnection.StepKeepsRingWire | src/gorm_client_event.cc:106-112 | every step keeps that, and a reconnection starts with an empty stream and no request half sent |
| RingConnection.SubmitOverRing | include/gorm_client_event.h:63-74 | a submission appends if the longer queue fits the bound; otherwise it also overwrites the request 4096 places before it and is queued twice |
| RingConnection.ReconnectOverRing | src/gorm_client_event.cc:64-104 | with room, the ring becomes handshake, then exactly the pending requests by ascending id, restamped, then the old queue, if the handshake fits the bound too; if only the others fit, the 4096th of them is overwritten by a second handshake |
| RingConnection.ReconnectIff | src/gorm_client_event.cc:64-104 | in an ordered state with something to resend and room, the reconnection gives handshake, pending and old queue if and only if all of them together fit the bound |
| RingConnection.OverwrittenIsNowhere | src/gorm_client_event.cc:64-104 | the overwritten request is then in neither ring nor map, neither completed nor recorded as dropped |
| RingConnection.ReconnectionLosesRequest | src/gorm_client_event.cc:64-104 | from a first connection, 4096 requests sent one by one and none answered, then a reconnection: a run with fresh ids in which no queue overflows and after which one of the requests is nowhere |
| RingConnection.WalkingOrderIrrelevant | src/gorm_client_event.cc:75-87 | two iteration orders of the hash map give the same state, with or without handshake, room or bound |
| RingConnection.FullRingDropsOldest | src/gorm_client_event.cc:88-104 | without room for all, exactly the smallest ids are dropped and the handshake is refused, so that the new connection starts without one; the others lead the ring in ascending order if the queue then fits the bound |
| Conservation.ReceiveKeeps | src/gorm_client_event.cc:403-464 | a response, known, unknown, duplicate or an error, keeps every id counted once |
| Conservation.CheckKeeps | src/gorm_client_event.cc:200-230 | the timeout scan, in any iteration order, keeps every id counted once |
| ResendOrder.SortSorts | src/gorm_client_event.cc:59-62 | sorting with the comparison of the source gives a descending permutation |
| ResendOrder.SortedListUnique | src/gorm_client_event.cc:75-87 | the sorted list does not depend on the order in which the map was walked |
| OutputStream.WriteSomeKeepsWire | src/gorm_client_event.cc:268-286 | a write of any size, failed, partial or final, keeps the form of the output stream |
| WriteProgress.WriteSomeMoves | src/gorm_client_event.cc:268-286 | position and stream advance by exactly the lesser of what is accepted and what is left, not at all on an error; the request stops being sent exactly with its last byte; nothing else changes |
| WriteProgress.WritesPour | src/gorm_client_event.cc:255-290 | for any sequence of accepted sizes the stream grows by exactly the next bytes of the backlog, as many as the writes accept, each capped by what was left of the request then being sent; the rest stays to be written |
| WriteProgress.RingWritesPour | src/gorm_client_event.cc:255-290 | the same of the connection with the ring, in every state of it |
| WriteProgress.RunWrites | src/gorm_client_event.cc:255-290 | in every run, with submissions, replies, timeouts and reconnections in between, the length of the stream is the sum of what the writes of the current connection accepted |
| TimeoutScan.ScanDecides | src/gorm_client_event.cc:200-230 | for every iteration order: a request awaits its response after the scan, unchanged, if and only if it did before and has waited at most 3000 ms modulo 2^64; no null entry is left; all others are put on the response list as timed out in walking order, the last ones lost without room; nothing else changes |
| TimeoutScan.ScanWithRoom | src/gorm_client_event.cc:219-226 | with room the completions and the response list grow by exactly these and nothing is lost |
| TimeoutScan.InTimeByTheClock | src/gorm_client_event.cc:219 | while the clock runs forward that is the plain comparison; a request stamped later than now is overdue unless by at least 2^64 - 3000 |
| ResponseOrder.FirstInFirstOut | include/gorm_client_thread.h:55-61 | in every run, with other connections filling the list too: what was collected, followed by what is still listed, is what was there at first, followed by all that was put, in order |
| SilentReconnection.EmptyMapResendsNothing | src/gorm_client_event.cc:64-67 | with an empty map a reconnection leaves ring and map as they are: no handshake |
| SilentReconnection.NullEntryBringsHandshake | src/gorm_client_event.cc:66-100 | a map of null entries alone brings exactly the handshake, stamped and first |
| SilentReconnection.SilentForever | src/gorm_client_event.cc:28-67 | a connection with nothing to send and an empty map writes nothing and keeps its status through any number of reconnections, until a submission or an unasked reply |
| SilentReconnection.FirstHandshakeLost | src/gorm_client_event.cc:182-198 | a first connection lost after a byte of the handshake was written and before its reply is such a connection |
| ClientEvent.ClientEvent.SendRequest | include/gorm_client_event.h:63-74 | over the array ring: the step of the ring machine, and the deque's submission, stamped and last, whenever the window is safe afterwards; refused exactly when full |
| ClientEvent.ClientEvent.PreSendRequest | include/gorm_client_event.h:49-60 | the same at the front |
| ClientEvent.ClientEvent.GetNextSendingRequest | include/gorm_client_event.h:86-101 | takes from the array ring; from a safe window what it takes and leaves is the deque's |
| ClientEvent.ClientEvent.Write | src/gorm_client_event.cc:255-290 | the ring machine's write for every number of accepted bytes; position and stream advance by exactly the lesser of what was accepted and what was left, with the next bytes of the request, which stops being sent exactly with its last byte; and whether the call failed |
| ClientEvent.ClientEvent.PutResponseToList | src/gorm_client_event.cc:232-243 | the put on the array ring of 2^17 entries appends to the sequence it stands for, in every state; lost when full; the send ring is untouched |
| ClientEvent.ClientEvent.GetReqMsgForResponse | include/gorm_client_event.h:116-122 | returns and removes the request awaiting the id, or leaves a null entry |
| ClientEvent.ClientEvent.OneRspFinishRead | src/gorm_client_event.cc:403-464 | match, handshake result, error or answer, as the machine's receive step, with the response list as the sequence its ring stands for; the status changes exactly for a reply with command 2 whose id awaits nothing, to success exactly if its error is 0 |
| ClientEvent.ClientEvent.NetLoopCheck | src/gorm_client_event.cc:200-230 | the loop over the map, erasing as it goes, in every iteration order: a request stays, unchanged, if and only if it has waited at most 3000 ms in unsigned 64-bit arithmetic; no null entry stays; the others fail as timed out in walking order |
| ClientEvent.ClientEvent.CollectWaiting | src/gorm_client_event.cc:75-85 | collects exactly the non-null requests of the map in walking order, restamped |
| ClientEvent.ClientEvent.PushBack | src/gorm_client_event.cc:88-96 | the loop of PutPre calls on the array ring puts the list back as on the deque whenever the window is safe at the end, and drops what the deque drops in every case |
| ClientEvent.ClientEvent.DoAfterReconnect | src/gorm_client_event.cc:64-104 | the whole resend on the array ring is the deque's whenever the window is safe at the end; nothing at all changes when the map is empty |
| ClientEvent.ClientEvent.Close | src/gorm_client_event.cc:28-43 | the ring machine's step of losing the connection, and the deque's |
| ClientEvent.ClientEvent.Reconnect | src/gorm_client_event.cc:38-44 | reset, up again and resend are the ring machine's step of reconnecting, and from a safe window the deque's whenever the window is safe at the end |
| ClientEvent.ClientEvent.ConnectToServer | src/gorm_client_event.cc:182-198 | establishes, on a new ring, the initial state all whole-run results start from |
| Wire.SetRspHeader | include/gorm_msg_helper.h:108-124 | writes the ten header bytes and nothing behind them |
| Wire.SetReqHeader | include/gorm_msg_helper.h:88-102 | writes the nine header bytes and nothing behind them |
| Wire.SetReqHeaderSeqId | include/gorm_msg_helper.h:80-85 | a packed request then decodes to the id modulo 2^24 and otherwise as before |
| Wire.RspRoundTrip | include/gorm_msg_helper.h:108-134 | a response header reads back: the error and the flag always, the command exactly below 128, the id exactly below 2^24, the length exactly below 2^32 |
| Wire.ReqRoundTrip | include/gorm_msg_helper.h:70-102 | the same for a request header, the command exactly in the range of a signed byte |
| Wire.UpgradeUnreachable | src/gorm_client_event.cc:430-434 | no response decodes to command 1001 |
| Wire.DecodedLayout | include/gorm_msg_helper.h:43-134 | of both headers: bytes 0 to 3 are the length and 5 to 7 the id, the highest byte first, byte 4 the command as a signed byte, then error and flag of a response at 8 and 9, the flag of a request at 8 |
| Wire.EncodedLayout | include/gorm_msg_helper.h:43-134 | both encoders put each field there, reduced to its width |
| Wire.LayoutInstance | include/gorm_msg_helper.h:126-134 | the ten bytes 00 00 00 0a 03 00 00 05 00 00 decode to length 10, command 3, id 5 |
| Framing.ParseKeepsBytes | src/gorm_client_event.cc:333-358 | the frames cut off and the rest, concatenated, are the stream |
| Framing.FramesAreFrames | src/gorm_client_event.cc:368-399 | everything cut off is exactly as long as its own length field says, at most 8 MiB and not empty |
| Framing.RestIsUncut | src/gorm_client_event.cc:333-358 | the rest of a cut holds no whole frame |
| Framing.ParseMore | src/gorm_client_event.cc:333-358 | cutting is incremental: later bytes only concern the rest |
| Framing.ParseOfFrames | src/gorm_client_event.cc:333-358 | cutting well-formed frames and a part of one more gives exactly these |
| Framing.RefusalStays | src/gorm_client_event.cc:368-377 | a stream that was refused stays refused with the same frames, whatever follows |
| Reader.Reader.constructor | src/gorm_client_event.cc:15-26 | a reader with an empty stream owns one new live block of exactly 1 MiB |
| Reader.Reader.BeginReadNextMsg | src/gorm_client_event.cc:368-399 | for every announced length: refused exactly above 8 MiB, astray exactly when negative as an int, else the buffered bytes are kept and the whole frame fits; a frame longer than the buffer gets one of exactly its length; nothing moves when it already fits |
| Reader.Reader.Compact | src/gorm_client_event.cc:391-394 | the overlapping move to the start of the buffer keeps the buffered bytes |
| Reader.Reader.Grow | src/gorm_client_event.cc:385-390 | a block from the pool of exactly the announced length, with the same bytes; the old block goes back and no other live block is touched |
| Reader.Reader.ParsePass | src/gorm_client_event.cc:333-358 | terminates with every whole frame dispatched, in order, none longer than the buffer; refused exactly for a newly announced length above 8 MiB, astray exactly for a negative one |
| Reader.Reader.ReadOnce | src/gorm_client_event.cc:309-358 | afterwards dispatched frames and buffered bytes are the cut of all bytes received, and room is gone if and only if recv filled it and at most four bytes, or a frame that is not accepted, are left |
| Reader.Reader.RoomOrStranded | src/gorm_client_event.cc:368-399 | between calls a frame partly received fits the buffer and there is room for the rest of it |
| Reader.Reader.Round | src/gorm_client_event.cc:309-332 | takes what fits of the next chunk, loses no byte, and asks for more exactly after a full or a filling recv |
| Reader.Reader.Read | src/gorm_client_event.cc:295-364 | for every sequence of chunks of any bytes: the dispatched frames are those of the received stream, no byte is lost or invented, the reader always owns exactly one live block of 1 to 8 MiB, and a call without room closes the connection |
| Reader.Reader.LongReplyCloses | src/gorm_client_event.cc:310-399 | over any number of calls and any chunking: once a frame longer than the buffer has been dispatched, the next call that finds data closes the connection |
| Reader.Reader.ExactlyTheFrames | src/gorm_client_event.cc:295-399 | however well-formed frames were cut into recv calls, exactly they were dispatched in order and the unfinished part is buffered |
| Reader.Reader.Reconnect | src/gorm_client_event.cc:106-112 | a new stream starts on a frame boundary with the whole buffer free |
| Reader.StrandedByte | src/gorm_client_event.cc:310-316 | a frame of 1 MiB - 1 bytes and one byte of the next close the connection although the stream is well formed |
| EndToEnd.DecodeEncode | include/gorm_msg_helper.h:108-134 | a reply within the field ranges is a well-formed frame and decodes to itself |
| EndToEnd.ReaderRecoversReplies | src/gorm_client_event.cc:295-464 | whatever the recv sizes, command, id, error, flag and body of every reply are recovered in order |
| EndToEnd.AllMatch | src/gorm_client_event.cc:403-464 | what any list of replies does, with or without room: completions are one for each reply that is the first with its id, if a request awaited that id, and all others keep waiting; the status is that of the last reply with command 2 that awaited nothing, success exactly if its error is 0, unchanged if there is none; null entries are left exactly for the replies that awaited nothing; nothing else moves |
| EndToEnd.StreamCompletesExactly | src/gorm_client_event.cc:295-464 | the same from the server's bytes: reader, decoding and matching together |
| EndToEnd.RunReceivesAll | src/gorm_client_event.cc:403-464 | receiving the replies is a run of the connection's state machine |
| Pool.ClassOfIsLeast | src/gorm_mempool.cc:49-64 | the class chosen is the least that holds the request, exists exactly up to 1 MiB, and is below twice the request above 512 bytes |
| Pool.CapacityCoversIff | src/gorm_mempool.cc:49-64 | the block holds the request if and only if the request is below 2^31 |
| Pool.TruncatedRequest | src/gorm_mempool.cc:49-85 | a request for 4 GiB and 100 bytes gets 100 |
| Pool.MemPool.constructor | src/gorm_mempool.cc:107-118 | the doubling loop sets up the twelve classes; the pool is empty |
| Pool.MemPool.FindClass | src/gorm_mempool.cc:54-63 | the search loop finds the least class |
| Pool.MemPool.GetData | src/gorm_mempool.cc:49-88 | a block that was not live, of the class's capacity, the one released last if the list has any; every live block is left alone |
| Pool.MemPool.Reuse | src/gorm_mempool.cc:64-69 | pops the last block of the list and nothing else changes |
| Pool.MemPool.Allocate | src/gorm_mempool.cc:71-87 | a new buffer under recycled or new metadata, aliasing nothing |
| Pool.MemPool.Release | src/gorm_mempool.cc:126-162 | back to its list if there is room, else the buffer is freed and the metadata kept if there is room; no other block changes |
| Pool.MemPool.GetDataCopy | src/gorm_mempool.cc:34-47 | the block starts with the data, has the truncated capacity of the larger of data and request, and holds that exactly below 2^31 |
| Pool.MemPool.ReAlloc | src/gorm_mempool.cc:90-105 | never returns less than needed; keeps the block exactly if its used size suffices |
| Pool.MemPool.NoAliasing | src/gorm_mempool.cc:34-162 | no live block shares its buffer with another live or pooled block, and none is pooled |
| Pool.MemPool.ReleaseThenGet | include/gorm_array.h:27-41 | last in, first out: a released block comes straight back and the lists are as before |
| Epoll.InStepInAnyRun | include/gorm_event.h:212-289 | through any additions, deletions, closings and reconnections the descriptor is registered exactly if the mask is non-empty, and for writing exactly if the mask says so |
| EpollHistory.MaskIsHistory | include/gorm_event.h:212-289 | in every run from the construction: an interest is in the mask if and only if the last operation on an open descriptor that names it, or closes it, added it; the interest list gains exactly one entry, with the flags that history calls for, if there is such an interest, and otherwise none; every other entry is as before |
| EpollHistory.ReadingStays | include/gorm_event.h:212-289 | reading that was added and neither deleted nor closed since stays registered, however often write interest comes and goes |
| Epoll.Event.AddEvent | include/gorm_event.h:212-251 | the mask gains exactly the new interests and keeps the old ones; ADD or MOD as the mask tells is never refused by the kernel, and mask and registration stay in step |
| Epoll.Event.DelEvent | include/gorm_event.h:253-289 | the mask loses exactly the interests named; MOD or DEL as the mask tells; mask and registration stay in step |
| Epoll.Event.Close | src/gorm_event.cc:55-82 | the descriptor is unregistered and forgotten with an empty mask |
| Fields.HistoryIsASet | include/gorm_utils.h:173-214 | if only present fields are deleted, a field is in the set exactly if the last operation on it added it, and every member lies in the bytes in use |
| Fields.BitsAreTheByte | include/gorm_utils.h:173-214 | bit k of a byte is worth 2^k: the lowest field of a byte is its lowest bit |
| Fields.DelKeepsTightIff | include/gorm_utils.h:203-214 | a deletion keeps the members inside the bytes in use if and only if the field was present, lies inside them, or is out of range |
| Fields.DeletedFieldAppears | include/gorm_utils.h:203-214 | deleting field 9 from the empty set inserts it, outside the bytes in use |
| Fields.DelTwice | include/gorm_utils.h:203-214 | deleting twice changes nothing |
| Fields.GetFields | src/gorm_utils.cc:220-266 | a strictly increasing list of exactly the fields that FieldInMode accepts, for every length, negative or above 128 included |
| Fields.FieldsOpt.AddField | include/gorm_utils.h:173-186 | refused exactly from 1024 on; otherwise the set gains the field and the bytes in use cover it |
| Fields.FieldsOpt.DelField | include/gorm_utils.h:203-214 | the set changes in exactly that field; the bytes in use do not change |
| Fields.FieldsOpt.Reset | include/gorm_utils.h:147-151 | the empty set |
| Fields.FieldsOpt.UsedFields | src/gorm_utils.cc:220-266 | enumerating the bytes in use lists the whole set if and only if all members lie in them |
| Crc32.TableIsShifts | src/gorm_hash.cc:39-104 | each of the 256 table entries is eight shifts of its index by the reflected polynomial |
| Crc32.TableRunIsBitRun | src/gorm_hash.cc:211-223 | the table-driven register is that of the bit-serial algorithm of section 8 of RFC 1952 |
| Crc32.Crc32a | src/gorm_hash.cc:211-223 | the loop computes the bit-serial CRC-32 of every key |
| Crc32.StepInjective | src/gorm_hash.cc:218-220 | each byte step is one-to-one on the register |
| Crc32.BurstDetected | src/gorm_hash.cc:211-223 | equal-length keys that differ only inside four consecutive bytes never share a CRC-32 |
| Crc32.Crc32 | src/gorm_hash.cc:133-144 | bits 16 to 30 of the CRC-32 |
| Crc32.Crc32_2 | src/gorm_hash.cc:159-172 | hashing two parts is hashing their concatenation |
| Crc32.Crc32_3 | src/gorm_hash.cc:173-189 | the same for three parts |
| Crc32.Crc32_4 | src/gorm_hash.cc:190-209 | the same for four parts |
| CheckValues.Crc32OfDigits | src/gorm_hash.cc:211-223 | the CRC-32 of the digits 1 to 9 is its published check value, and the folded hash bits 16 to 30 of it |
| Crc16.LowRunIsBitRun | src/gorm_hash.cc:121-131 | the low half of the unmasked 32-bit register is the bit-serial CRC with polynomial 0x1021 |
| Crc16.Crc16 | src/gorm_hash.cc:121-131 | the low 16 bits of the result are that CRC, for every key; the result is the CRC if and only if the key has fewer than two bytes or the CRCs without its last byte and without its last two both have a clear high byte |
| Crc16.UpperHalf | src/gorm_hash.cc:126-130 | for every key of two or more bytes the upper half of the result holds the high bytes of the CRCs without the last two and without the last byte |
| Crc16.IsCrcIff | src/gorm_hash.cc:121-131 | the exact condition under which the register is the CRC |
| Crc16.UpperHalfIsNotClear | src/gorm_hash.cc:121-131 | an instance where it is not: the key 01 00 |
| CheckValues.Crc16OfDigits | src/gorm_hash.cc:121-131 | the CRC of the digits 1 to 9 is its published check value |
| Murmur.Murmur | src/gorm_hash.cc:226-283 | the loop and the fall-through tail compute seed, block mixing, tail mixing and finish |
| Murmur.MixBlockInjective | src/gorm_hash.cc:242-254 | block mixing is one-to-one in the block and in the state |
| Murmur.FinishInjective | src/gorm_hash.cc:278-280 | the final mixing is one-to-one |
| Murmur.BlockSeparates | src/gorm_hash.cc:226-283 | equal-length keys that differ in exactly one aligned block hash differently |
| Murmur.TailSeparates | src/gorm_hash.cc:258-271 | keys that differ only in the one to three tail bytes hash differently |
| Murmur.SeedGrows | src/gorm_hash.cc:230-236 | the seed without the length's own bits grows by 0xdeadbeef with each byte, from 0 |
| CheckValues.MurmurOfNineBytes | src/gorm_hash.cc:226-283 | the hash of a key of two blocks and a tail byte, which fixes every constant and shift |
| Fnv.NarrowIsLow | src/gorm_hash.cc:593-606 | truncating every step gives the truncation of the 64-bit run on the sign-extended bytes |
| Fnv.Fnv1a64 | src/gorm_hash.cc:593-606 | the 32-bit loop returns the low half of the 64-bit FNV-1a hash |
| Fnv.Fnv164 | src/gorm_hash.cc:579-591 | returns the low half of the 64-bit FNV-1 hash |
| Fnv.OneByteSeparates | src/gorm_hash.cc:593-606 | keys that differ in exactly one byte never share an Fnv1a64 value |
| Fnv.SignExtends | src/gorm_hash.cc:593-606 | a byte from 0x80 on enters both hashes as the number 256 below it |
| CheckValues.Fnv1aOfFoobar | src/gorm_hash.cc:593-606 | the published 64-bit FNV-1a hash of foobar, and the half the source returns |
| CheckValues.Fnv1OfFoobar | src/gorm_hash.cc:579-591 | the published 64-bit FNV-1 hash of foobar, and the half the source returns |
| Jenkins.Aligned | src/gorm_hash.cc:749-792 | the word-wise path, masked loads past the end included, hashes exactly the key's bytes |
| Jenkins.HalfAligned | src/gorm_hash.cc:793-842 | the half-word path gives the same hash |
| Jenkins.ByteWise | src/gorm_hash.cc:843-888 | the byte-wise path gives the same hash |
| Jenkins.Jenkins | src/gorm_hash.cc:738-893 | the hash depends on the key alone, not on its address or on the memory around it |
| CheckValues.JenkinsPublished | src/gorm_hash.cc:711-736 | mixing, finishing and block order give the value published for "Four score and seven years ago" with initial value 0 |
| CheckValues.JenkinsOfFourScore | src/gorm_hash.cc:738-748 | its hash with the source's initial value 13 |
| CheckValues.JenkinsOfNothing | src/gorm_hash.cc:738-748 | the hash of the empty key, which is not mixed |
| Md5Block.FastFIsF | src/gorm_hash.cc:303 | the optimised F is F of section 3.4 of RFC 1321 |
| Md5Block.FastGIsG | src/gorm_hash.cc:304 | the optimised G is G of section 3.4 |
| Md5Block.MacroIsOperation | src/gorm_hash.cc:311-314 | one STEP is the operation of section 3.4 |
| Md5Block.CompressBlock | src/gorm_hash.cc:362-439 | the 64 unrolled lines are the 64 steps of section 3.4 with its word order, constants and rotations (the functions used are fixed bit by bit in Md5Words, all of it by CheckValues.Md5OfNothing) |
| Md5Words.BitwiseF | src/gorm_hash.cc:303 | F works on every bit alone |
| Md5Words.BitwiseG | src/gorm_hash.cc:304 | G works on every bit alone |
| Md5Words.BitwiseH | src/gorm_hash.cc:305 | H works on every bit alone |
| Md5Words.BitwiseI | src/gorm_hash.cc:306 | I works on every bit alone |
| Md5Words.ChoiceOfF | src/gorm_hash.cc:303 | x chooses between y and z |
| Md5Words.ChoiceOfG | src/gorm_hash.cc:304 | z chooses between x and y |
| Md5Words.ParityOfH | src/gorm_hash.cc:305 | the parity of the three |
| Md5Words.ValuesOfI | src/gorm_hash.cc:306 | y inverted where z is clear, x exclusive-or y where it is set |
| Md5Words.RotatedUp | src/gorm_hash.cc:311-314 | bit j of a word rotated by s at most j was bit j - s |
| Md5Words.RotatedAround | src/gorm_hash.cc:311-314 | bit j of a word rotated by s above j was bit j + 32 - s |
| CheckValues.Md5OfNothing | src/gorm_hash.cc:341-547 | the digest of the empty message is d41d8cd98f00b204e9800998ecf8427e, as in section A.5 of RFC 1321: auxiliary functions, table, rotations, padding and output |
| CheckValues.TrailerOfHundred | src/gorm_hash.cc:517-525 | the length trailer of 100 bytes, the low-order byte first |
| Md5.FoldOfExtension | src/gorm_hash.cc:461-495 | chaining value and tail of an extended message follow from those of the message |
| Md5.CountersAdvance | src/gorm_hash.cc:467-471 | the carry logic keeps lo at the bytes modulo 2^29 and hi at the bytes div 2^29 modulo 2^32 |
| Md5.BitCount | src/gorm_hash.cc:517-525 | the trailer made of lo and hi is the 64-bit bit count of section 3.2 |
| Md5.Md5Ctx.Init | src/gorm_hash.cc:449-459 | the context of the empty message |
| Md5.Md5Ctx.Body | src/gorm_hash.cc:341-447 | the chaining value is folded over all the blocks given |
| Md5.Md5Ctx.Update | src/gorm_hash.cc:461-495 | from the context of msg to the context of msg + data, whatever the split |
| Md5.Md5Ctx.Final | src/gorm_hash.cc:497-547 | the digest of sections 3.1 to 3.5, and the context is wiped |
| Md5.Md5OfChunks | src/gorm_hash.cc:449-547 | for every sequence of updates the result is the digest of the concatenation |
| Md5.Md5Signature | src/gorm_hash.cc:561-568 | the digest of the key |
| Md5.Md5Hash | src/gorm_hash.cc:549-559 | the first four bytes of the digest as a little-endian word |

## Left out

- Sockets, epoll_wait, clocks, logging and sleeps: only their results appear, as inputs.
- In `Connection` and `RingConnection` a timeout scan, a reconnection with its resend and a write are
  one step each: no submission falls between two `PutPre` calls of a resend, and no response is
  collected between two puts of a timeout scan. `Wakeup` does interleave there.
- Memory ordering weaker than sequential consistency; queue operations are atomic under their mutex.
- Request and response bodies: packing, parsing and coroutine hooks are generated code, so a
  request is an immutable byte sequence with an id, a callback flag and a time stamp, and the
  handshake is a request that wants no callback. Requests are values: aliasing of message objects
  between queue, map and `sendingRequest` is not captured.
- The start status belongs to the thread in the source, so another connection of the thread may set
  it too; `Connection` says what this one's replies do to it.
- The upgrade flow (`BeginToUpgrade`, `ReconnectAllClientWithServer`): its command cannot arrive.
- The number of reconnection attempts in `Close`: a reconnection succeeds or fails.
- The pool's free lists and the metadata store are sequences with the source's bounds instead of
  fixed arrays with an index; the null pointer, `m_cStaticFlag`, `m_pMemPool` and the redirection of
  `GORM_MemPoolData::Release` are not modelled, and a block is released only while it is live.
- Reader.Reader.Read: when a length that is negative as an int is announced the model stops with
  `Astray`, because the source then moves backwards, possibly out of its buffer. A frame shorter
  than a header is handed out as it is; `OneRspFinishRead` would read its header from the bytes behind.
- Reader.Reader.ParsePass: handing out a frame always succeeds, because `OneRspFinishRead` fails only
  when the thread object is missing.
- Memory failures of `new`.
- The bulk `Take` of the ring and `GORM_Queue`: only dead code uses the first; the second adds nothing.
- `GORM_FieldsOpt` copying, assignment, construction from a string and `AddField(iIdx, iMode)`: they do
  not maintain the number of bytes in use. Negative field numbers index outside the array.
- `Hsieh`, `Fnv132`, `Fnv1a32` and `Crc32_1` (the same body as `Crc32`).
- The MD5 constants are those of RFC 1321, not derived from the sine function; the copy of a block
  into `block[16]` on big-endian machines and the big-endian build of `Jenkins`.
- Windows branches, configuration, singletons, thread start and stop, build scripts.
