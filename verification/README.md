# nf-engine: a Dafny model of the server's data paths

nf-engine is a sharded network server. Bytes come from a socket into a ring buffer, a framer
cuts them into packets, a lock-free queue hands each packet to a worker, the worker routes it
through the session table to a shard, and the shard's answers go back through another lock-free
queue and through sends that may be partial. This project models those paths and proves what
they keep, for every interleaving, every split of the byte stream and every legal result of a
system call.

`dafny verify dfyconfig.toml` checks the whole project.

## What is proved

- **Lock-free queues** (`MpscQueue`, `MpscTheorems`, `SpscQueue`, `QueueObjects`). Producers,
  consumer and eventfd move one atomic access at a time in an order chosen by an arbitrary
  schedule. Over every run with any number of producers: counters stay ordered and within one
  capacity, a reservation always finds an empty slot although the head it checked is stale
  (`ReservationIsSafe`), batches are exactly the tickets in order and each producer's tickets are its
  calls in call order without the refused ones (`ExactlyOnceInOrder`), `dequeueAll` ends while
  producers keep going (`ScanTerminates`), and a reactor blocked on a zero eventfd has missed nothing
  (`NoLostWakeup`). The objects `Mpsc` and `Pipe`, with word-sized counters and a slot array changed
  in place, run in lockstep with those machines; `Mpsc.Enqueue` does so under any interruption.
- **Ring, framing and receive loops** (`RingBuffer`, `Framing`). The ring refines a bounded byte
  queue across the wrap; the receive loop's frames and left-over bytes equal the one-shot parse of
  everything received, whatever the chunks; an event reads all pending bytes unless the ring fills up
  or the calls end first (`RxConnection.Receive`); and a stream comes in through the ring if and only
  if none of its frames is longer than the ring (`PassesIffFramesFit`).
- **Transmit loops** (`RingTransmit` for TCP and IPC, `TlsTransmit`, `Egress`). Every event moves exactly
  the bytes that the socket takes, for every list of partial sends (`SendLoop`, `FlushQueue`); bytes on
  the wire stay there, and followed by what is still held they are what was accepted; EPOLLOUT is
  registered when it has to be, at every event-loop boundary (`ProcessTxQueue`, `OnWritable` in both). From
  the threads to the wire, what one thread sends to a TCP connection leaves in the order it was sent, and
  a packet is missing only if the connection was closed or its ring had no room (`AnswersLeaveInOrder`).
- **Shards, sessions and routing** (`Shard`, `Sessions`, `Routing`, `Pipeline`). A shard's run is a
  sequential execution in enqueue order (`RunIsSequential`), each iteration handles the oldest event
  and carries out its answers (`IterationEffect`), each request gets its one right answer, a login's
  decided by the stored password (`AnswersMatchRequests`), no event waits for ever (`EventsGetHandled`,
  `TicksDrainBacklog`), and ticks do not drift unless one is more than two intervals late (`NoDrift`,
  `GridIsKept`). The descriptor index is the inverse of the session table exactly under a condition on
  each call (`ExactIffOrderly`), and until it is erased a session is what the last packets and answers
  with its id made it (`SessionStays`), so every answer finds its way (`LoginAnswerFindsItsWay`,
  `LobbyAnswerFindsItsWay`, `PingAnswerFindsItsWay`). From the socket to the shards, a shard sees each
  connection's packets in stream order and as the events they stand for (`ShardsSeeStreamOrder`);
  every frame is at all times in exactly one place (`EveryFrameAccounted`), dropped only for a full
  queue or a rejection by the router (`OverflowedForCause`, `RejectedForCause`), and routed once its
  worker has taken what was before it (`QueuedGetsRouted`).
- **Wire formats** (`Wire`, `Ipc`). Builders, framer and parsers undo each other, with the exact size
  limits at which they stop doing so; a whole conversation sent to a connection is recovered if and
  only if every body fits the ring (`Conversation`); an IPC reply is recovered if and only if the
  server's sends take all of it, under any split (`Answer`).

## Where the code does not do what one might expect

- `MpscQueue::enqueue` reads tail before head. Its "false" means "refused", not "full":
  `RefusedWhileEmpty` gives a run that is refused by an empty queue, `RefusedIffFullOrOvertaken` the
  exact condition.
- The compare-exchange compares machine words, so a producer that sleeps through a whole turn of the
  64-bit counter between its load and its compare-exchange can overfill the queue
  (`TurnoverOverfills`, for every capacity and word size). The queue theorems therefore speak of timely runs, in which
  this does not happen; `ShortRunsAreTimely` shows that any run of up to 2^64 atomic steps is timely,
  and `StaleMatchBreaksFullQueue` that a stale match does harm exactly when the queue is full.
- The 64 KiB length check of the framers can never fire on a 16-bit length (`LengthNeverInvalid`),
  while the longest frames are longer than the ring: a connection that sends one is closed on a full
  ring (`OversizedFrameFillsRing`, `Conversation`).
- `SessionManager::create` indexes the descriptor of any login, but `erase` removes the entry of the
  session's TLS descriptor. A login over TCP leaves a stale entry (`TcpLoginLeavesStaleEntry`);
  `ExactIffOrderly` gives the exact condition on each call.
- `LobbyBuilder` cuts the body length to 16 bits: beyond 3854 markets its packet is no frame
  (`LobbyFrameIffCountFits`). It sizes its buffer by a 16-bit count, so its loop stays inside the buffer
  if and only if there are fewer than 65536 markets (`BuildLobby`).
- `IpcClient::send` lets payloads of up to 65536 bytes through. One of 65535 bytes makes a frame longer than
  the server's ring and ends in a full-ring close, one of 65536 bytes is announced as empty; requests of
  up to 65534 bytes arrive (`RequestFramedIff`, `Submit`). An IPC reply of 65535 bytes never fits the transmit ring and is dropped
  (`ReplyAdmittedIff`).
- A session keeps one address, that of its last packet over any protocol, and a ping's answer is sent to it.
  `PingAnswerFindsItsWay` gives the exact condition under which the answer goes back to where the ping came
  from; one TCP packet in between is enough for it not to (`PingAnswerGoesAstray`).
- `ShardWorker` waits without a condition, so a notify that comes while the worker is busy is lost and the
  next wait lasts until the tick although events are queued (`NotifyLost`, `WaitsUntilTick`). A backlog is
  then taken at one event per tick at worst (`TicksDrainBacklog`).

## Conventions

Results of `recv`, `send`, `SSL_read`, `SSL_write`, `SSL_accept`, `read` and the database lookup are
arbitrary inputs; a requested amount is limited to what such a call may legally report, and when a
list of results runs out the next call would block. Clock readings are arbitrary but non-decreasing,
random session ids arbitrary but not zero, and the server time of a ping answer is an argument.
Atomic accesses are sequentially consistent. Connections in a reactor's table are values; the rings
of the receive side are objects.

## Model

| member | source | states |
|---|---|---|
| `Words.CapacityTest` | shared/algorithm/MpscQueue.h:18-21 | the constructor's bit test accepts exactly the powers of two |
| `Words.MaskIsRemainder` | shared/algorithm/MpscQueue.h:62-63 | `& mask` is the remainder by the capacity, for every word |
| `Words.WrapSubExact` | shared/algorithm/MpscQueue.h:49-51 | when unsigned subtraction is exact and what it gives when it wraps |
| `MpscQueue.IndexDiffers` | shared/algorithm/MpscQueue.h:62-63 | tickets less than a capacity apart never share a slot, also across counter wrap-around |
| `MpscQueue.RunKeepsInv` | shared/algorithm/MpscQueue.h:40-102 | after every timely schedule, what each slot holds is determined by its ticket's owner, free slots are clear, and batches, producers and wakeups are consistent |
| `MpscTheorems.ReservationIsSafe` | shared/algorithm/MpscQueue.h:44-66 | published head ≤ local head ≤ tail ≤ published head + capacity, and a compare-exchange about to succeed finds an empty slot |
| `MpscTheorems.ExactlyOnceInOrder` | shared/algorithm/MpscQueue.h:40-102 | all batches plus the batch in the making are the first tickets in order, none null, lost, repeated or reordered; what they hold of one producer is a prefix of its calls in call order without the refused ones |
| `MpscTheorems.TicketsKeepProgramOrder` | shared/algorithm/MpscQueue.h:44-60 | one producer's tickets are exactly its calls, recorded when they start, in call order, minus those that returned false and the one still undecided |
| `MpscTheorems.ScanStopsAtGap` | shared/algorithm/MpscQueue.h:80-96 | the scan goes on exactly while the next ticket has been marked ready; a reserved but unpublished ticket stops it |
| `MpscTheorems.NoLostWakeup` | serverd/protocol/tcp/TcpReactor.cpp:79-84 | reactor blocked, eventfd zero, no producer between compare-exchange and wakeup: everything enqueued has been delivered and all slots are free (TLS and IPC reactors use the same handshake) |
| `MpscTheorems.ScanTerminates` | shared/algorithm/MpscQueue.h:77-101 | one `dequeueAll` takes at most 3·capacity + 3 steps and returns at most capacity items, whatever producers do meanwhile |
| `MpscTheorems.ShortRunsAreTimely` | shared/algorithm/MpscQueue.h:46-57 | every run of up to 2^wordBits steps is timely |
| `MpscTheorems.StaleMatchBreaksFullQueue` | shared/algorithm/MpscQueue.h:53-57 | a match after a whole counter turn keeps the queue intact exactly when it is not full |
| `MpscTheorems.RefusedIffFullOrOvertaken` | shared/algorithm/MpscQueue.h:46-51 | false is returned exactly when the queue is full at the tail seen, or the consumer has passed that tail by a distance whose remainder by the word is between 1 and word − capacity |
| `MpscTheorems.RefusedWhileEmpty` | shared/algorithm/MpscQueue.h:46-51 | in every configuration some run refuses a producer although the queue is empty |
| `MpscTheorems.TurnoverOverfills` | shared/algorithm/MpscQueue.h:46-57 | for every capacity and word size, an untimely run puts more tickets than slots in the queue |
| `SpscQueue.PipeIsBoundedFifo` | shared/algorithm/SpscQueue.h:38-75 | after any schedule each step acts on a FIFO of at most capacity items; refusal exactly when full at the head load, null exactly when empty at the tail load |
| `SpscQueue.SleepingWorkerIsIdle` | serverd/protocol/tcp/TcpWorker.cpp:49-87 | a worker asleep on a zero eventfd, with no wakeup on its way, has handled everything |
| `SpscQueue.PlayKeepsInv` | shared/algorithm/SpscQueue.h:38-75 | after every schedule the live slots hold exactly the linked items, with no condition on counter wrap-around |
| `QueueObjects.Mpsc.Enqueue` | shared/algorithm/MpscQueue.h:40-71 | the retry loop on words and slots, with other threads moving between any two accesses and spurious failures: the call is the producer's part of a run of the step machine whose other moves are exactly the interruptions so far, it counts as one call, refused exactly if it returns false, and the invariant is kept; uninterrupted it is accepted exactly when the queue is not full |
| `QueueObjects.Mpsc.DequeueAll` | shared/algorithm/MpscQueue.h:73-102 | returns the items from head up to the first ticket that is not ready and publishes the head |
| `QueueObjects.Pipe.Enqueue` | shared/algorithm/SpscQueue.h:38-57 | appends one item to the FIFO or refuses exactly when it is full |
| `QueueObjects.Pipe.Dequeue` | shared/algorithm/SpscQueue.h:59-75 | removes and returns the front, or null exactly when empty |
| `RingBuffer.ByteRingBuffer.WriteLen` | shared/algorithm/ByteRingBuffer.cpp:28-35 | the longest contiguous free stretch at the tail, as a function of the abstract queue |
| `RingBuffer.ByteRingBuffer.ReadLen` | shared/algorithm/ByteRingBuffer.cpp:64-71 | the longest contiguous stretch at the head, as a function of the abstract queue |
| `RingBuffer.ByteRingBuffer.Produce` | shared/algorithm/ByteRingBuffer.cpp:37-41 | exactly the bytes placed at the tail become the end of the queue |
| `RingBuffer.ByteRingBuffer.Consume` | shared/algorithm/ByteRingBuffer.cpp:73-77 | drops the front bytes, across the wrap |
| `RingBuffer.ByteRingBuffer.Write` | shared/algorithm/ByteRingBuffer.cpp:43-54 | appends the longest prefix that fits, in at most two rounds |
| `RingBuffer.ByteRingBuffer.Read` | shared/algorithm/ByteRingBuffer.cpp:79-90 | removes and returns exactly the front bytes, in at most two rounds |
| `RingBuffer.ByteRingBuffer.Peek` | shared/algorithm/ByteRingBuffer.cpp:92-103 | copies exactly the front bytes, across the wrap |
| `Framing.LengthNeverInvalid` | serverd/protocol/tcp/TcpFraming.cpp:24-29 | the invalid-length result is unreachable; more data is needed exactly for an incomplete frame |
| `Framing.CutSplits` | serverd/protocol/tcp/TcpFraming.cpp:13-39 | the one-shot parse splits a stream into complete frames and an incomplete rest |
| `Framing.CutUnique` | serverd/protocol/tcp/TcpFraming.cpp:13-39 | no other split into complete frames and an incomplete rest exists |
| `Framing.CutAppend` | serverd/protocol/tcp/TcpReactor.cpp:292-322 | later bytes are cut together with the left-over ones |
| `Framing.ChunkingIndependent` | serverd/protocol/tcp/TcpReactor.cpp:276-324 | cutting chunk by chunk gives the parse of the whole stream, for every way to chop it |
| `Framing.FullRingHoldsOversizedFrame` | serverd/protocol/tcp/TcpReactor.cpp:277-285 | a ring-sized rest in mid-stream belongs to a frame longer than the ring |
| `Framing.OversizedFrameFillsRing` | serverd/protocol/tcp/TcpReactor.cpp:277-285 | a ring's worth of an oversized frame, behind any frames, fills the ring, and its next byte cannot come in |
| `Framing.PassesIffFramesFit` | serverd/protocol/tcp/TcpReactor.cpp:277-285 | any stream comes in byte by byte with room left each time if and only if all its complete frames fit the ring and its incomplete frame does not overfill it |
| `Framing.RxConnection.TryExtractFrame` | serverd/ipc/IpcFraming.cpp:10-39 | the peeked header gives the result the contents of the ring call for |
| `Framing.RxConnection.ExtractAll` | serverd/protocol/tcp/TcpReactor.cpp:292-322 | hands over all frames of the parse of the ring and leaves its rest; never reports a bad length |
| `Framing.RxConnection.ReceiveChunk` | serverd/ipc/IpcReactor.cpp:247-287 | after received bytes, frames and ring are the parse of everything received so far |
| `Framing.RxConnection.ReceiveOnce` | serverd/protocol/tcp/TcpReactor.cpp:276-343 | one turn of the loop: closes for a full ring exactly when the ring was full, otherwise exactly on end of stream or error; goes on exactly after data or an interruption; takes exactly the bytes the call hands over |
| `Framing.RxConnection.Receive` | serverd/protocol/tcp/TcpReactor.cpp:261-345 | a whole readiness event: frames and ring stay the parse of the stream, the full-ring close happens exactly when the rest of the parse fills the ring, any other end is the one the calls report, and all pending bytes are read if the calls go on long enough |
| `Framing.RxConnection.ReceiveAll` | serverd/protocol/tcp/TcpReactor.cpp:261-345 | a connection's life over any readiness events: what has been read is a prefix of the stream sent, and all of it if the events deliver it and the ring never fills up |
| `RingTransmit.TxReactor.LoadPackets` | serverd/protocol/tcp/TcpReactor.cpp:402-426 | per connection, the packets that fit one after the other are accepted whole, the others dropped whole, whatever other connections' packets lie between |
| `RingTransmit.TxReactor.SendLoop` | serverd/protocol/tcp/TcpReactor.cpp:450-479 | for every list of send results, exactly the bytes these take leave the front of the ring for the wire, and the loop fails exactly when it meets an error |
| `RingTransmit.TwoStretches` | serverd/protocol/tcp/TcpReactor.cpp:450-479 | at most two sends matter: how many bytes they move and whether they break the connection, in closed form |
| `RingTransmit.UnhinderedEmpties` | serverd/protocol/tcp/TcpReactor.cpp:450-479 | two sends that take all they are offered empty the ring, wherever its data wraps |
| `RingTransmit.TxReactor.FlushTxBuffer` | serverd/protocol/tcp/TcpReactor.cpp:434-482 | only this connection changes: it stays with EPOLLOUT for what is left, or is closed, exactly after an error or (IPC) after its last byte |
| `RingTransmit.FlushSettles` | serverd/protocol/tcp/TcpReactor.cpp:434-482 | for every list of send results: wire ++ ring = accepted packets is kept, the wire only grows, EPOLLOUT is registered exactly for a non-empty ring, and a close means an error or (IPC) completion |
| `RingTransmit.TxReactor.OnWritable` | serverd/protocol/tcp/TcpReactor.cpp:103-106 | the event moves exactly the bytes the sends take and keeps the boundary invariant |
| `RingTransmit.TxReactor.FlushDirty` | serverd/protocol/tcp/TcpReactor.cpp:428-431 | any order of the dirty set gives each connection the fate it has on its own |
| `RingTransmit.TxReactor.ProcessTxQueue` | serverd/ipc/IpcReactor.cpp:321-355 | a whole batch keeps the boundary invariant, and each connection ends as its accepted packets and its own send results decide, whatever the others do |
| `RingTransmit.BatchSettles` | serverd/ipc/IpcReactor.cpp:321-399 | the same for a whole batch; exactly the packets that fit one after the other are accepted |
| `TlsTransmit.WriteKeepsIntact` | serverd/protocol/tls/TlsReactor.cpp:408-419 | a write moves bytes from the front packet to the wire, conserving the total, and repeats the same bytes after a blocked write |
| `TlsTransmit.PushAllIntact` | serverd/protocol/tls/TlsReactor.cpp:204-215 | queuing packets conserves the total and does not disturb a write to be repeated |
| `TlsTransmit.TlsReactor.SendFront` | serverd/protocol/tls/TlsReactor.cpp:403-432 | the write loop on the front packet, in the states the following rows count |
| `TlsTransmit.TlsReactor.FlushQueue` | serverd/protocol/tls/TlsReactor.cpp:394-435 | the packet loop under its budget, in the states the following rows count |
| `TlsTransmit.QueueIsPlanned` | serverd/protocol/tls/TlsReactor.cpp:394-435 | the flush fails exactly when its calls run into a fatal error before the budget is used, and registers EPOLLOUT exactly when it stops short |
| `TlsTransmit.FailsIffFatal` | serverd/protocol/tls/TlsReactor.cpp:408-431 | a flush that uses up its budget or its queue never fails; any other fails if and only if the first call that is not a success is a fatal one |
| `TlsTransmit.QueueFinished` | serverd/protocol/tls/TlsReactor.cpp:394-435 | after a flush the handshake counts as finished exactly if the last call made said so, or if it did before and no call was made |
| `TlsTransmit.QueueIsCut` | serverd/protocol/tls/TlsReactor.cpp:394-435 | what is left is the old queue without the packets sent and with only the front offset advanced, by exactly the bytes taken |
| `TlsTransmit.QueueIsSent` | serverd/protocol/tls/TlsReactor.cpp:408-419 | exactly the next bytes of the queue are added to the wire, as many as the calls take, and they are the parts the new calls took |
| `TlsTransmit.WritesAllPlan` | serverd/protocol/tls/TlsReactor.cpp:394-435 | when every write takes everything, exactly the budget is used, or the queue emptied |
| `TlsTransmit.TlsReactor.FlushTx` | serverd/protocol/tls/TlsReactor.cpp:382-436 | only this connection changes; exactly the bytes the calls take leave the front of its queue for the wire, what is there stays there, EPOLLOUT is registered when they stop short, and it is closed exactly on a fatal error |
| `TlsTransmit.TlsReactor.UpdateInterest` | serverd/protocol/tls/TlsReactor.cpp:438-461 | EPOLLOUT registered exactly while the handshake is unfinished or the queue is not empty |
| `TlsTransmit.TlsReactor.Receive` | serverd/protocol/tls/TlsReactor.cpp:365-378 | a read never withdraws EPOLLOUT and registers it when SSL wants to write |
| `TlsTransmit.TlsReactor.DriveHandshake` | serverd/protocol/tls/TlsReactor.cpp:234-264 | queue and wire are untouched; for every handshake result and every end of the read that follows: whether the connection is closed, whether the handshake counts as finished, and whether EPOLLOUT is registered, each exactly |
| `TlsTransmit.TlsReactor.OnReadable` | serverd/protocol/tls/TlsReactor.cpp:266-281 | the event keeps the boundary invariant and the transmit traffic; the connection is closed exactly when the handshake fails or the read ends it, and is otherwise left with exactly the interest and handshake state these call for |
| `TlsTransmit.TlsReactor.OnWritable` | serverd/protocol/tls/TlsReactor.cpp:283-299 | during the handshake as `DriveHandshake`; then exactly what the calls take is sent, within 256 packets, EPOLLOUT is left registered exactly while something is left to do, and the connection is closed exactly on a fatal error |
| `TlsTransmit.TlsReactor.PushPackets` | serverd/protocol/tls/TlsReactor.cpp:202-215 | every packet for a live connection is queued, in order, and exactly those connections become dirty |
| `TlsTransmit.TlsReactor.ServeOne` | serverd/protocol/tls/TlsReactor.cpp:217-221 | interest first, then flush: a finished connection with packets left has EPOLLOUT registered even when the budget runs out; closed exactly on a fatal error |
| `TlsTransmit.TlsReactor.ProcessTxQueue` | serverd/protocol/tls/TlsReactor.cpp:192-222 | a whole batch keeps the boundary invariant; each connection sends exactly what its calls take of its old and new packets, in order, and is closed exactly on a fatal error |
| `Egress.AnswersLeaveInOrder` | serverd/protocol/tcp/TcpReactor.cpp:374-432 | in every run of threads, reactor and socket, the bytes on a connection's wire and in its ring are packets to it, each whole and once, in ticket order, those of one thread in the order of its calls; every distributed packet to it is among them unless the connection was closed or its ring had no room for it |
| `Egress.UnhinderedTurnEmptiesRing` | serverd/protocol/tcp/TcpReactor.cpp:391-479 | in every run, a batch distributes everything delivered, and where the socket takes all it is offered, a batch that adds something or a writability event leaves everything accepted on the wire |
| `Wire.FramesParse` | serverd/packet/PacketParser.cpp:31-57 | every frame the receive loop cuts is accepted, with the rest of the frame as its body |
| `Wire.ParseInverts` | serverd/packet/PacketParser.cpp:31-60 | a payload parses if and only if its header and announced body are there, and the parsed fields written out again are its beginning |
| `Wire.PacketRoundTrip` | serverd/packet/ParsedPacketTypes.h:3-11 | a built packet is one frame and parses back to its opcode, session id and body |
| `Wire.StreamRoundTrip` | serverd/packet/ParsedPacketTypes.h:3-11 | any list of packets is framed and parsed back to the same list, and comes in through the ring exactly when every body has at most 65520 bytes |
| `Wire.Conversation` | serverd/protocol/tcp/TcpReactor.cpp:276-324 | packets sent to a new connection, over any events: the frames it hands over are the first packets sent; if everything is delivered, the list is recovered if and only if every body has at most 65520 bytes, otherwise the connection closes on a full ring |
| `Wire.BuildLoginSuccess` | serverd/execution/login/LoginBuilder.cpp:23-50 | the packet with the session id and result code 1 |
| `Wire.BuildLoginFail` | serverd/execution/login/LoginBuilder.cpp:52-79 | the packet with session id 0 and result code 0 |
| `Wire.BuildPing` | serverd/execution/ping/PingBuilder.cpp:23-62 | the packet with nonce, client time and server time |
| `Wire.BuildLobby` | serverd/execution/lobby/LobbyBuilder.cpp:34-79 | header with the body length cut to 16 bits, count, entries; the loop stays inside the buffer exactly for fewer than 65536 markets |
| `Wire.LobbyFrameIffCountFits` | serverd/execution/lobby/LobbyBuilder.cpp:41-52 | the lobby packet is a frame exactly for up to 3854 markets |
| `Wire.LobbyRoundTrip` | serverd/execution/lobby/LobbyBuilder.cpp:39-78 | for up to 3854 markets it fits a ring and reads back as the ids and 15-byte-truncated aliases |
| `Wire.ParseLoginReq` | serverd/execution/login/LoginParser.cpp:31-71 | accepts exactly bodies of two length-prefixed fields plus optional trailing bytes, and returns the fields |
| `Wire.LoginLayoutUnique` | serverd/packet/ParsedPacketTypes.h:15-31 | a body has at most one reading as a login request |
| `Wire.ParsePingReq` | serverd/execution/ping/PingParser.cpp:33-49 | accepts exactly 16-byte bodies |
| `Wire.PingRoundTrip` | serverd/execution/ping/PingParser.cpp:39-51 | nonce and client time are recovered |
| `Sessions.SessionsWithinIndex` | serverd/session/SessionManager.cpp:46-85 | in every run there are at most as many sessions as index entries |
| `Sessions.ExactIffOrderly` | serverd/session/SessionManager.cpp:24-85 | from an exact index, a call leads to an exact index if and only if it is a TLS login under a fresh id, does not move a session to another TLS descriptor, or neither creates nor binds |
| `Sessions.DuplicateTestMatchesScan` | serverd/session/SessionManager.cpp:52-55 | after every orderly run the index is exact and the duplicate-login test agrees with a scan of the table |
| `Sessions.TcpLoginLeavesStaleEntry` | serverd/session/SessionManager.cpp:46-85 | after a failed login over TCP the descriptor's next login is refused although no session exists |
| `Sessions.SessionManager.CreateSession` | serverd/session/SessionManager.cpp:46-70 | both maps after a login, including an id that already exists; refused exactly for an indexed descriptor |
| `Sessions.SessionManager.BindSession` | serverd/session/SessionManager.cpp:24-44 | the session rebound to the packet's connection; refused exactly for id 0 or an unknown id |
| `Sessions.SessionManager.EraseSession` | serverd/session/SessionManager.cpp:72-85 | session and the index entry of its TLS descriptor removed |
| `Sessions.FreshSession` | serverd/session/SessionManager.cpp:57-64 | a new session is not authenticated, has the descriptor of its protocol and no other, and leaves the others alone |
| `Sessions.SessionStays` | serverd/session/SessionManager.cpp:24-136 | over any calls that do not erase it, a session keeps exactly the state last set, the descriptor of the last packet of each protocol and the address of the last packet |
| `Sessions.NoSessionFromNothing` | serverd/session/SessionManager.cpp:46-85 | a session that is unknown or has just been erased stays unknown until a login draws its id |
| `Shard.OneAnswerPerRequest` | serverd/execution/login/LoginContext.cpp:22-57 | the answers of the sequential execution: exactly one for each login, lobby or ping request, for its session and with its numbers; a login succeeds if and only if the stored password is the one given or, without a database, both fields read "test" |
| `Shard.ShardWorker.HandleTick` | serverd/shard/ShardWorker.cpp:70-80 | the tick and resync statements, in place, do what the step function says, of which the following three rows speak |
| `Shard.GridIsKept` | serverd/shard/ShardWorker.cpp:70-80 | from any state on, as long as no tick is more than two intervals late, the tick time moves by exactly one interval per tick |
| `Shard.NoDrift` | serverd/shard/ShardWorker.cpp:70-80 | in every run without such a tick, the next tick is due exactly one interval more than the ticks so far after the start, however late each tick was |
| `Shard.LateTickRestartsGrid` | serverd/shard/ShardWorker.cpp:76-79 | a tick noticed more than two intervals late makes the next one due one interval after the time it was noticed |
| `Shard.ShardWorker.Run` | serverd/shard/ShardWorker.cpp:15-82 | the worker object among enqueuing threads ends in the fold of its steps, of which the following rows speak |
| `Shard.RunIsSequential` | serverd/shard/ShardWorker.cpp:15-82 | every interleaving: handled ++ in hand ++ queued = enqueued, answers are those of the sequential execution, ticks never exceed (now − start) / interval |
| `Shard.IterationEffect` | serverd/shard/ShardWorker.cpp:29-81 | an iteration from the end of its wait on, whatever is enqueued during it: the oldest event is handled and all its answers carried out, a tick runs exactly when the clock has reached the tick time, with the resync rule |
| `Shard.EventsGetHandled` | serverd/shard/ShardWorker.cpp:21-81 | after six worker steps for each outstanding event, not counting those that only wait on, all events enqueued before have been handled, in order, however many arrive meanwhile |
| `Shard.WaitsUntilTick` | serverd/shard/ShardWorker.cpp:26-27 | with no notify since it began, a wait goes on until the tick time even if events are queued |
| `Shard.WaitEndsIff` | serverd/shard/ShardWorker.cpp:26-27 | a wait ends exactly on a notify, a spurious wakeup or at the tick time |
| `Shard.NotifySeenIff` | serverd/shard/ShardWorker.cpp:120-124 | an event is appended to the queue, and its notify is seen exactly by a worker that is waiting |
| `Shard.NotifyLost` | serverd/shard/ShardWorker.cpp:110-125 | a run in which an event enqueued while the worker is busy is in the queue when the worker begins to wait without a notify |
| `Shard.TicksDrainBacklog` | serverd/shard/ShardWorker.cpp:21-81 | in every run, as many ticks as there are outstanding events (one more in mid-iteration) are enough to handle them all, in order |
| `Shard.AnswersMatchRequests` | serverd/shard/ShardWorker.cpp:40-68 | in every run the i-th answer sent is the right one, in the sense of `OneAnswerPerRequest`, for the i-th login, lobby or ping request enqueued, and none is missing for the events handled |
| `Shard.LookupOfItsStep` | serverd/execution/login/LoginContext.cpp:95-109 | in every run, the database answer that decides a login is the one of the very step that handles it |
| `Routing.KnownSessionsAreServed` | serverd/ingress/RxRouter.cpp:33-55 | a ping of a known session reaches the shard of its id with its numbers, a lobby request exactly when its body is empty |
| `Routing.RoutedIff` | serverd/ingress/EventFactory.cpp:9-25 | of a known session's packets exactly these are dispatched: logins of two fields, lobby requests without a body, pings of 16 bytes |
| `Routing.StrangersChangeNothing` | serverd/ingress/RxRouter.cpp:27-44 | packets of unknown sessions and logins of an indexed descriptor are dropped and change nothing |
| `Routing.KnownSessionBound` | serverd/session/SessionManager.cpp:24-44 | any packet of a known session binds it to where the packet came from, even if its body is then rejected |
| `Routing.CreateEvent` | serverd/ingress/EventFactory.cpp:9-25 | the event the layout of the body calls for, or none |
| `Routing.Route` | serverd/ingress/RxRouter.cpp:17-56 | whatever is dispatched goes to the shard of its session, and that session exists |
| `Routing.ShardsInTurn` | serverd/ingress/RxRouter.cpp:58-64 | the shard depends on the upper half of the id alone, and successive upper halves go round all shards in turn |
| `Routing.HandleIncoming` | serverd/ingress/RxRouter.cpp:17-56 | session table and dispatch after one packet, with every way to be rejected |
| `Routing.HandleOutgoing` | serverd/egress/TxRouter.cpp:15-62 | packet and table after one answer: descriptor and address come from the table before the state change; refused exactly for an unknown session or opcode |
| `Routing.NothingElseIsSent` | serverd/session/SessionManager.cpp:87-123 | an answer is sent exactly for a known session and one of the four kinds of answer, with its payload |
| `Routing.LoginAnswerFindsItsWay` | serverd/egress/TxRouter.cpp:16-31 | over any calls that do not erase the session, a TLS login is routed as its session's login, and its answer goes over TLS to the descriptor of the last TLS packet with its id, the login included; success makes the session authenticated, a refusal frees session and descriptor, and nothing else changes |
| `Routing.LobbyAnswerFindsItsWay` | serverd/egress/TxRouter.cpp:16-31 | over any calls that do not erase the session, a TCP lobby request is routed to its shard, and its answer goes over TCP to the descriptor of the last TCP packet with that id; the session is then in the world |
| `Routing.PingAnswerFindsItsWay` | serverd/packet/PacketBuilder.cpp:16-39 | over any calls that do not erase the session, a UDP ping's answer goes through the socket of the last UDP packet with its id, back to the source of the ping if and only if the last packet with that id, over any protocol, came from there; the table is unchanged |
| `Routing.PingAnswerGoesAstray` | serverd/packet/PacketBuilder.cpp:16-39 | a TCP packet of the session between a ping and its answer sends the answer to that packet's port |
| `Pipeline.ShardsSeeStreamOrder` | serverd/protocol/tcp/TcpReactor.cpp:316-321 | in every run everything at a shard is a frame of its connection's stream, the event that packet stands for, of a session whose id selects that shard; packets of one connection are in strictly increasing position |
| `Pipeline.EveryFrameAccounted` | serverd/protocol/tcp/TcpWorker.cpp:49-87 | in every run each frame of each stream is in exactly one place, byte for byte: queued, at a shard, or dropped for a full queue or a rejection; nothing else is in any place (the following rows say when each happens) |
| `Pipeline.ReceiveEffect` | serverd/protocol/tcp/TcpReactor.cpp:292-322 | received bytes append the frames they complete, in order, to the queue of the connection's worker while it has fewer than 65536 packets; the others are dropped, and nothing else changes |
| `Pipeline.WorkersInTurn` | serverd/protocol/tcp/TcpReactor.cpp:319-321 | successive descriptors go round all workers in turn |
| `Pipeline.QueuesAreBounded` | serverd/protocol/tcp/TcpWorker.cpp:49-64 | in every run no queue has more than 65536 packets |
| `Pipeline.OverflowedForCause` | serverd/protocol/tcp/TcpWorker.cpp:56-63 | in every run a packet dropped as overflow was dropped when bytes on its connection left its worker's queue full |
| `Pipeline.DeliverEffect` | serverd/protocol/tcp/TcpWorker.cpp:84-87 | the packet at the front of a queue leaves it and, by the session table of that moment, becomes the last arrival of its session's shard or is rejected; nothing else changes |
| `Pipeline.RejectedForCause` | serverd/ingress/RxRouter.cpp:17-56 | in every run a rejected packet was at the front of a queue and the router had no place for it, by the session table of that moment |
| `Pipeline.QueuedGetsRouted` | serverd/protocol/tcp/TcpWorker.cpp:66-87 | in every run, a packet at position i of a queue is at a shard or rejected once its worker has taken more than i packets, and until then has moved up by as many |
| `Pipeline.KnownSessionsArrive` | serverd/ingress/RxRouter.cpp:33-55 | in every run, the lobby request or ping of a known session at the front of a queue arrives at its shard as the event the client meant |
| `Pipeline.TableFollowsCalls` | serverd/ingress/RxRouter.cpp:27-38 | the session table of every run is the one that the create and bind calls of the delivered packets lead to |
| `Ipc.BuildFrame` | serverd/ipc/IpcMessage.cpp:63-79 | length header and body, cut to 65535 bytes |
| `Ipc.FramesValidate` | serverd/ipc/IpcMessage.cpp:52-61 | built frames pass `validate` and hold the first 65535 bytes of the body; every frame the receive loop cuts passes, and of what passes, the loop can cut exactly what fits its ring |
| `Ipc.ReadExact` | mgmtd/ipc/IpcClient.cpp:33-52 | exactly the next bytes of the stream under any split and interruptions; fails without errors only if the stream is too short |
| `Ipc.WriteAll` | mgmtd/ipc/IpcClient.cpp:14-31 | puts a prefix on the wire, all of it on success |
| `Ipc.ReadReply` | mgmtd/ipc/IpcClient.cpp:105-131 | recovers the body of the frame at the front of the stream |
| `Ipc.RequestFramedIff` | mgmtd/ipc/IpcClient.cpp:61-103 | a request comes in through the server's ring as one frame exactly for payloads of at most 65534 bytes; 65535 bytes fill the ring, 65536 are announced as none |
| `Ipc.Submit` | serverd/ipc/IpcReactor.cpp:225-300 | a request on a new connection, over any events: if they deliver it, it arrives as one message, with its length and its payload byte for byte, if and only if it has at most 65534 bytes; with 65535 bytes the connection closes on a full ring |
| `Ipc.ReplyAdmittedIff` | serverd/ipc/IpcReactor.cpp:343-349 | an idle connection's ring admits a reply exactly for bodies of at most 65534 bytes |
| `Ipc.UsefulFlushesComplete` | serverd/ipc/IpcReactor.cpp:357-399 | without errors, as many flushes that take something as there are bytes get everything out, however little each takes |
| `Ipc.Transmit` | serverd/ipc/IpcReactor.cpp:321-399 | over a first flush and any number of events, with any split of sends, exactly the bytes the sends take get on the wire, and the connection completes exactly when they take them all; nothing of a frame longer than the ring |
| `Ipc.Answer` | mgmtd/ipc/IpcClient.cpp:105-131 | end to end under any split of sends and reads: the client gets the body if the sends take the whole frame and nothing otherwise; they do if none fails and as many flushes as there are bytes take at least one; of bodies over 65534 bytes nothing reaches the wire |

## Left out

- C++ memory orders: atomic accesses are taken to be sequentially consistent.
- Reuse of descriptor numbers by the kernel, and events for a descriptor closed earlier in the same epoll batch: streams and sessions are keyed by descriptor, so nothing is claimed across a reuse.
- Aliasing between the connections of one reactor: they are values in its table, updated one at a time.
- The ClientHello peek that hands a TCP connection over to TLS: it ends the TCP run and starts a TLS connection with an empty queue.
- UDP receive and transmit, whose interrupted send is queued again without a wakeup.
- The round-robin choice of an IPC worker, whose requests carry no order between connections.
- Scheduling of the shard worker's thread: how soon an event is handled is bounded in steps of the worker and in ticks, not in time.
- Other workers between a packet's call on the session table and its enqueue to the shard: `Pipeline` takes the two in one step.
- The full-ring close in `Pipeline`: its streams are arbitrary, so its theorems include those that come in through the ring.
- Interruptions of `Mpsc.DequeueAll` and of the `Pipe` methods: those objects' calls are shown uninterrupted, while the step machines interleave them.
- The market context, the management daemon's HTTP side, the database pool, logging, start and stop, scripts: input/output or easy members.
- The management daemon's own copies of the ring buffer and of the IPC framer, which repeat the server's.
