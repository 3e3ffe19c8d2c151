# udp2raw: a verified model

udp2raw carries UDP traffic inside a raw connection that looks like TCP, ICMP or UDP to the network.  A client
and a server authenticate each other with two handshakes, number and encrypt their packets, and multiplex many
local peers ("conversations") over one connection; the server can move a ready connection to a new address
("recovery").  This project models that logic in Dafny and proves what it promises.  `dafny verify dfyconfig.toml`
checks everything.

## What is proved

- **The server's connection table** (`ServerTable`, `ServerSteps`, `ServerSweep`, `ServerEvents`, `ServerIds`, `Server`,
  `ServerHandlers`).  `Server.ConnManager` holds mutable connection objects under three indexes (address, const id,
  64-bit descriptor number) and swaps two pointers on recovery.  `View()` is the table as a value; every method
  equals a step on that value, and every step keeps one invariant: counters and indexes agree, each live
  descriptor has one owner in one role, every object sits under its own address, the cleanup cursor is live.  Hence
  every assertion in the erase, the destructor and the event loop holds, in every reachable state, but for two that
  need non-zero const ids; when those fail is stated exactly.
- **Who is kept** (`ServerSurvival`, `CodeSurvival`).  Exactly which events renew the time a connection was heard at, and
  that, over every run of the server's code with any clients, a connection heard from in the last four minutes is
  still served.
- **The server's event loop** (`ServerLoop`).  A batch of events is handled in order up to the first number that an
  earlier event of the batch closed, and the numbers an event closes are given in terms of the table: timers of
  connections due for erase, descriptors of conversations due for eviction.
- **The protocol** (`Packets`, `ClientSteps`, `Client`, `Sessions`, `Handshake` and its companions).  Any number
  of clients, the server's table, and a network that drops, duplicates, reorders and misroutes but does not forge.
  Over whole runs: ready ends hold mirrored ids, ids are paired one to one for ever, and no packet is delivered
  twice, across reconnects and recoveries although a reset leaves the window's marks in place.  `HandshakeProgress`
  shows the other side: from every reachable state any client can be connected, in every mode.  `HandshakeLink` shows
  that the protocol is what the server's code does: every event of the loop, with the windows, send numbers and packets
  of the objects on the heap, is a run of protocol steps, so both results hold of the code.
- **The client's timeouts** (`ClientRuns`): over any run a ready client stays ready if and only if it stays in touch both
  ways, told from the run alone, and one that is not begins a new handshake.
- **The sliding window** (`AntiReplay`): the ring equals a plain set of spent numbers, for any stale contents.
- **libev's timers** (`TimerHeap`, `Pending`, `Reify`, `Timers`, `TimerOrder`): the 4-ary heap in its array with
  back-indices, the pending queues, the chain that runs expired timers in ascending order of expiry, and the beat that a
  repeating timer keeps.
- **Conversations** (`Clock`, `Lru`, `FdManager`, `ConvManager`): bounded eviction is exact, the clock is monotone
  for any raw clock, descriptor numbers are never reused.
- **Packets** (`Crc`, `BlockModes`, `CodecSpec`, `Codec`, `Gro`, `Wire`): round trips for every cipher and
  authentication over any block permutation, what every packet is byte by byte, which forgeries are refused, framing, and
  the way of a payload from one end to the other.
- **Hashes and keys** (`HashSpec`, `Hashing`, `KeyDerivation`): streaming equals one-shot hashing; HMAC, HKDF-Expand
  and PBKDF2 over any compression function.
- **The raw network** (`Checksum`, `TcpOptions`, `FakeTcp`): the Internet checksum, TCP options, sequence numbers.

## Conditions

- Ids drawn at random are distinct; packets are not forged (`HandshakeSteps.FreshIds`, `HandshakeSteps.Enabled`).
- Peers announce non-zero const ids, as `main.cpp` line 81 draws them (`ServerTable.NonZeroIds`); in every valid
  table exactly the assertions in lines 212 and 125 of `connection.cpp` depend on it (`ServerIds.TwoClaimsNeedAnId`).
- Anti-replay is enabled.  Clearing of connections and conversations is enabled.
- 64-bit clocks and sequence numbers do not wrap.  Creating and registering a descriptor succeeds or fails before
  the table is touched.

## Results that limit the code

- The server ends when `epoll_wait` reports a number together with an event that closes it: the `return` in line 765
  of `server.cpp` leaves the event loop, and `main` returns.  This happens if and only if an earlier event of the
  batch closes the number (`ServerLoop.RoundIsHandled`); `ServerLoop.ServerEnds` and `ServerLoop.ServerCanEnd` give a
  reachable table and a batch: the global timer, then the timer of a connection not heard from for five minutes.
- A peer that announces const id 0 becomes ready like any other, and erasing its connection fails in lines 212 and 125
  of `connection.cpp` (`ServerIds.ZeroIdFails`).  A run leads to such a connection if and only if some second handshake
  with id 0 was promoted and no later cleanup erased it (`ServerIds.ZeroIdsCome`).
- A plaintext of up to 1800 bytes is always accepted by the sender, but its packet is refused by the peer when the
  encoding is longer than 1800 bytes (`CodecSpec.RoundTrip`, `CodecSpec.LimitIsOnBothSides`).
- Number 0 is special in the window: it passes at most once, and only after a larger number
  (`AntiReplay.ZeroAcceptedIff`).
- A handshake packet that is read as a channel packet can spend a number before its type is looked at
  (`Wire.BareIsModelled`).
- After an uplink timeout the client is idle with a new id and still sends a due heartbeat (`Client.ClientConn.Beat`).
- Two folds of the checksum lose a carry from 131077 bytes on (`Checksum.LengthsThatWork`).
- The comments at `connection.h` line 148 and `connection.cpp` line 253 speak of a tenth per pass; the code looks at
  size/30+1 conversations and size/50+1 connections, and the model follows the code.
- In the bounded search of libev's `downheap` the fourth child can never be the one found; the test for it is
  dead code (`TimerHeap.FindMinChild`).

## Model

| member | source | states |
|---|---|---|
| AntiReplay.AcceptedIffNewAndRecent | connection.cpp:26-62 | over any run after a reset, whatever stale marks the ring kept, a number of at least 1 passes if and only if it was not accepted before in the run and is less than 4000 behind the largest accepted one |
| AntiReplay.ZeroAcceptedIff | connection.cpp:26-62 | number 0 passes if and only if its slot held no stale mark, it was not accepted before, and the largest accepted number is between 1 and 3999 |
| AntiReplay.AcceptedAtMostOnce | connection.cpp:31-62 | no number passes twice between two resets |
| AntiReplay.FilterRemembers | connection.cpp:31-62 | the set that the window stands for is exactly the set of numbers accepted so far, plus a stale 0, and its maximum is the largest accepted number |
| AntiReplay.Window.constructor | connection.cpp:21-25 | a window over uninitialised memory stands for an empty filter, but for slot 0 |
| AntiReplay.Window.GetNewSeqForSend | connection.cpp:18-20 | send numbers are handed out one by one from any start |
| AntiReplay.Window.ReInit | connection.cpp:26-30 | a reset empties the filter although the ring keeps its marks |
| AntiReplay.Window.IsValid | connection.cpp:31-62 | the 4000-slot ring gives the verdict of the plain set of spent numbers and moves to the set's next state, for any ring contents |
| AntiReplay.Window.ClearBetween | connection.cpp:42-43 | only the slots of skipped numbers are cleared: marks of numbers still inside the new window survive |
| Clock.Clock.CurrentTimeUs | common.cpp:407-423 | the reading follows the raw clock forward and stands still when it jumps back |
| Clock.Clock.CurrentTime | common.cpp:425-427 | a reading is that of the raw clock plus the correction, or the one before if that is larger, in milliseconds; it is never smaller than the one before |
| Clock.Clock.ReadMany | common.cpp:407-423 | a run of calls yields the readings of the specification |
| Clock.ReadingsFollowForwardSteps | common.cpp:407-423 | for any raw clock the readings advance by exactly the raw clock's forward steps |
| Clock.ReadingsNeverDecrease | common.cpp:407-423 | for any raw clock, over any run, a later reading is not smaller than an earlier one or than the start |
| Lru.WithoutIsRemoval | common.h:507-511 | removing by key and removing at the iterator are the same |
| Lru.UnlinkKeepsLinked | common.h:456-456 | after an unlink every map entry still leads to its own node and the order of stamps stays |
| Lru.PushKeepsLinked | common.h:477-481 | after a push to the front with a stamp that is not older the list is newest first and the map still leads to every node once |
| Lru.Lru.Update | common.h:453-469 | the key moves to the front with the current reading, the rest keeps its order; both assertions hold |
| Lru.Lru.NewKey | common.h:470-484 | a new key enters at the front with the current reading; both assertions hold |
| Lru.Lru.PeekBack | common.h:500-506 | the last entry, which is the oldest |
| Lru.Lru.Erase | common.h:507-511 | exactly the key's entry goes, from the map and the list |
| Lru.Lru.Clear | common.h:491-494 | map and list are empty together |
| FdManager.FdManager.constructor | fd_manager.cpp:42-46 | a table that has handed out nothing |
| FdManager.FdManager.ToFd | fd_manager.cpp:15-18 | both maps agree on the descriptor of a live number |
| FdManager.FdManager.Create | fd_manager.cpp:35-41 | the number was never handed out before, exceeds 2^32-1, and is entered in both maps |
| FdManager.FdManager.SetInfo | server.cpp:164-164 | the owner of one live number is set, the others keep theirs |
| FdManager.FdManager.Fd64Close | fd_manager.cpp:19-29 | the number, its descriptor and its owner go, nothing else does |
| ConvManager.ExpiredAreLast | connection.h:138-171 | in the list the expired conversations are exactly the last ones, as many as a count over the whole list finds |
| ConvManager.QuotaIs | connection.h:147-152 | a pass takes at most one conversation more than the whole thirtieths of the list, if there are any |
| ConvManager.PassIsSound | connection.h:138-171 | a pass takes conversations off the old end only, each without activity for 180000 ms, and leaves such a one only when it has taken size/30+1 |
| ConvManager.PassesDrainExpired | connection.h:138-171 | with no activity, as many passes as there are expired conversations always leave exactly the unexpired ones |
| ConvManager.DrainList | connection.h:153-169 | what the loop leaves is the list without its last min(quota, expired) entries |
| ConvManager.DrainMaps | connection.h:119-130 | the loop keeps both maps inverse and closes the descriptors of the dropped conversations, each once, and no others |
| ConvManager.ConvManager.constructor | connection.h:51-57 | empty and consistent for any initial value of the time of the last pass, which the constructor leaves unset |
| ConvManager.ConvManager.GetNewConv | connection.h:88-94 | the number drawn is not in use |
| ConvManager.ConvManager.UpdateActiveTime | connection.h:107-111 | the conversation becomes the newest; maps and the order of the others stay |
| ConvManager.ConvManager.InsertConv | connection.h:112-118 | the two maps stay inverse and the new conversation is the newest |
| ConvManager.ConvManager.EraseConv | connection.h:119-130 | one conversation leaves both maps and the list, and its data is passed to the clear function |
| ConvManager.ConvManager.CloseAll | connection.h:75-78 | the clear function runs once for every conversation |
| ConvManager.ConvManager.Clear | connection.h:71-87 | nothing is left, and every descriptor was closed |
| ConvManager.ConvManager.EraseBackIfExpired | connection.h:154-168 | the oldest conversation goes if and only if it expired |
| ConvManager.ConvManager.EvictExpired | connection.h:153-169 | the loop does what the step-by-step specification does |
| ConvManager.ConvManager.ClearInactive0 | connection.h:138-171 | one pass leaves the list without its last min(quota, expired) entries, keeps the remaining conversations as they were and closes the descriptors of the others |
| ConvManager.ConvManager.ClearInactive | connection.h:131-137 | a pass runs if and only if more than a second passed since the last, in unsigned arithmetic, so a last time in the future counts as due |
| ConvManager.DueUnlessRecent | connection.h:132-132 | in 64-bit arithmetic a pass is due unless the last one was within the last second, so also when the uninitialised time lies in the future |
| ConvManager.ConvManager.ConvForPeer | client.cpp:526-538 | a peer address keeps its conversation; a new one is made if and only if fewer than 10000 are live, so there are never more |
| Connection.Blob.constructor | connection.h:191-216 | fresh window and conversations, shared with nobody |
| Connection.ConnInfo.constructor | connection.cpp:97-100 | an idle connection without a blob |
| Connection.ConnInfo.Prepare | connection.cpp:101-109 | the blob is new, its conversations close their descriptors in the server's table |
| Connection.ConnInfo.EnterHandshake1 | server.cpp:513-518 | address, id, state and time of a new connection |
| Connection.ConnInfo.EnterReady | server.cpp:217-240 | the connection is ready with an empty filter, a given first number and no conversations, and counts as heard from and as heartbeat sent now |
| Connection.ConnInfo.RecvSafer | connection.cpp:464-535 | of a batch exactly the packets of the session that are new to the window are delivered, in order, the window spends the number of every packet of the session, delivered or not, and the rollers move with the delivered ones only |
| Connection.ConnInfo.RollOn | connection.cpp:519-532 | a roller that differs from the last one is noted, with a reading taken now; an equal one leaves both as they are; the own roller moves on by one modulo 256 exactly for a heartbeat or with `hb_mode` 0 |
| Connection.ConnInfo.SendSafer | connection.cpp:393-447 | one packet with both ids, the next number and the own roller; the numbers go on by one |
| Connection.ConnInfo.Recover | connection.cpp:64-80 | address, times and ids come from the other connection; const id, timer and conversations stay; the window is reset and the rollers start anew |
| Connection.ConnInfo.TakeOver | server.cpp:291-300 | recovery ends with the connection counted as heard from now, and everything else as the recovery leaves it |
| Connection.ConnInfo.GoIdle | server.cpp:302-303 | state and const id are given up together |
| Packets.ParsedSpends | connection.cpp:490-498 | a batch delivers nothing that was spent before and no number twice, and spends all it delivers |
| Packets.RollersFollow | connection.cpp:519-532 | after any deliveries the peer's roller is that of the last packet, and the own one has moved once per heartbeat, with `hb_mode` 0 once per packet |
| Packets.RollerTime | connection.cpp:520-523 | the peer's roller time is that of the last delivery whose roller differed from the one before it, and stays if there is none |
| ServerTable.ReadyCount | server.cpp:208-221 | in a valid table the counter, the size of the const-id index and the number of ready connections are one number, at most 1000, and the index leads to the one ready connection of each id |
| ServerTable.AddressedByPeer | server.cpp:268-281 | every handshaking or ready connection sits under its own recorded address, so the two branches that end the program cannot run |
| ServerTable.SoleOwner | server.cpp:761-782 | a live descriptor number belongs to exactly one ready connection, as its timer or as one conversation, not both, and its owner pointer is that connection |
| ServerSteps.AdmitKeeps | server.cpp:490-518 | a new connection under a free address keeps the invariant |
| ServerSteps.RetireKeeps | server.cpp:211-215 | a turned-away handshake keeps the invariant |
| ServerSteps.PromoteKeeps | server.cpp:217-246 | the first connection of a const id keeps the invariant, and const id 0 is the only way to a ready connection with id 0 |
| ServerSteps.GrabKeeps | server.cpp:258-304 | the pointer swap is between two different objects, each under its own address; it keeps the invariant, the address index stays injective, and the ready object keeps exactly what it held |
| ServerSteps.HeardKeeps | server.cpp:87-99 | a heartbeat keeps the invariant |
| ServerSteps.OpenConvKeeps | server.cpp:102-174 | a new conversation with a new descriptor number keeps the invariant |
| ServerSteps.DropConvsKeeps | connection.h:119-130 | dropped conversations had live descriptors, and dropping them keeps the invariant |
| ServerSteps.EraseKeeps | connection.cpp:202-235 | erasing a connection the cursor is not on keeps the invariant, and all it closes was live until then |
| ServerSteps.EraseNoTrace | connection.cpp:202-235 | after an erase no index entry and no live descriptor leads to the deleted object |
| ServerSteps.TickKeeps | common.cpp:407-427 | the passing of time keeps the invariant |
| ServerSweep.TurnFacts | connection.cpp:255-282 | one turn of the cleanup loop moves the entry it looked at to the end of the cyclic order, or out of it, and keeps the cursor live |
| ServerSweep.QuotaIs | connection.cpp:252-256 | a pass looks at one entry more than the whole fiftieths of the table, if there are any |
| ServerSweep.SweepErasesTheTimedOut | connection.cpp:243-286 | a pass erases exactly the timed-out connections among the next min(size/50+1, size) in cyclic order, closes exactly what they held, and leaves every other connection as it was |
| ServerSweep.VictimsTimedOut | connection.cpp:264-276 | what is erased timed out in its state, and a ready one had no conversation left, so a pass closes timers only |
| ServerSweep.SweepRotates | connection.cpp:255-282 | after a pass of n turns the entries it did not visit come first in the cyclic order, in their order |
| ServerSweep.PassErases | connection.cpp:243-286 | a pass erases an entry if and only if it is among the next min(size/50+1, size) and is a ready connection not heard from for more than 240000 ms without conversations, or a handshake of more than 10000 ms |
| ServerSweep.PassesGrow | connection.cpp:252-256 | a larger table needs no fewer passes |
| ServerSweep.PassesEraseTheTimedOut | connection.cpp:243-286 | with no arrivals, `PassesFor(size)` passes from any saved cursor, at any later times, erase every connection that had timed out without conversations when they began, none that has not by the last, and change no other |
| ServerEvents.IndexedIsReady | server.cpp:258-261 | a hit in the const-id index is a live ready connection of that id under its address |
| ServerEvents.StepKeeps | server.cpp:380-561 | every event, from any valid table, leads to a valid table |
| ServerEvents.RunKeeps | server.cpp:709-789 | the invariant holds in every reachable state |
| ServerEvents.EmptyInv | connection.cpp:141-147 | the table of a server that just started is valid |
| ServerEvents.RunHasNonZeroIds | main.cpp:81-81 | over any run in which no peer announces const id 0 no ready connection ever has it |
| ServerEvents.RunForward | fd_manager.cpp:19-41 | over any run numbers once handed out stay so, and closed ones stay closed |
| ServerEvents.NumbersAreNotReused | fd_manager.cpp:35-41 | over any run a number once handed out that is live at the end was live at the start, for the same descriptor of the same connection |
| ServerEvents.HandshakeOutcome | server.cpp:196-312 | after a second handshake the const id is served at the new address with the new ids, by the old object with its timer and conversations if the id was ready before, unless the table was full or the handshake is older than the connection; then nothing but the state of the handshake changed |
| ServerEvents.MessageIsDone | server.cpp:70-194 | field by field: a heartbeat, or with `hb_mode` 0 data, renews the time; data of an unknown conversation opens it for the descriptor it got while there are fewer than 10000; nothing else changes |
| ServerSurvival.SweepSpares | connection.cpp:264-276 | a cleanup leaves a ready connection heard from in the last 240000 ms exactly as it was |
| ServerSurvival.HeardIffRenewed | server.cpp:70-312 | over any event the time a connection was heard at becomes now exactly for a message that shows its peer alive, or a second handshake that makes it ready or that it recovers; otherwise it stays |
| ServerSurvival.RunSpares | server.cpp:709-789 | over any run of at most 240000 ms from the time it was heard, a ready connection stays, ready and heard from since then |
| ServerSurvival.HeardSurvives | server.cpp:87-99 | after a heartbeat, or with `hb_mode` 0 data, the connection survives whatever comes in the next 240000 ms, all cleanups included |
| ServerIds.TwoClaimsNeedAnId | connection.cpp:121-235 | of the assertions on the way of an erase, line by line, all hold in a valid table but for those in lines 212 and 125, which fail exactly for a ready connection with const id 0 |
| ServerIds.SweepZero | connection.cpp:243-286 | a cleanup removes const id 0 from the index if and only if its connection is among the next entries and due for erase |
| ServerIds.StepZero | server.cpp:208-221 | after an event some ready connection has id 0 if and only if one had it before and was not erased, or the event promoted a handshake with id 0 |
| ServerIds.ZeroIdsCome | server.cpp:196-312 | over any run from a table without id 0, some ready connection has id 0, and some erase would fail in line 212, if and only if a handshake with id 0 was promoted and no later cleanup erased that connection |
| ServerIds.StaleIsReachable | server.cpp:490-561 | a connection with any const id, not heard from for five minutes, is reachable from the start |
| ServerIds.ZeroIdFails | connection.cpp:202-224 | a table reachable from the start in which the next cleanup turn is an erase that fails in lines 212 and 125 |
| Server.ConnManager.constructor | connection.cpp:141-147 | an empty manager is valid: no entry in any index, no object, no iteration order, and no cleanup so far |
| Server.ConnManager.NewObject | connection.cpp:187-201 | a fresh object for the address that no other connection shares anything with |
| Server.ConnManager.InsertConn | connection.cpp:187-201 | the object table follows the step of the table: one new entry, anywhere in the iteration order |
| Server.ConnManager.SetIdle | server.cpp:213-213 | a handshake is retired and nothing else changes |
| Server.ConnManager.MakeReady | server.cpp:217-246 | counter, index, blob, timer and its owner are set together; the timer's number is new; the window starts empty, with its first number |
| Server.ConnManager.GrabConn | server.cpp:258-303 | the swap of two pointers in the map and the move of the session into the old object are the recovery step, and the window starts a new era |
| Server.ConnManager.SetOppositeId | server.cpp:353-353 | the id the client announced is recorded |
| Server.ConnManager.SetHeard | server.cpp:87-99 | the time of the last heartbeat is recorded |
| Server.ConnManager.RecvSafer | connection.cpp:552-621 | what a batch delivers is what the connection's window lets pass; it moves that window and the rollers by exactly this, and no other connection or index |
| Server.ConnManager.SendSafer | connection.cpp:393-447 | a ready connection sends one packet with its ids, its next number and its roller; nothing but its next number changes |
| Server.ConnManager.StampHeartbeat | server.cpp:61-61 | the time of the last heartbeat sent is recorded and nothing else changes |
| Server.ConnManager.OpenNewConv | server.cpp:140-164 | a new descriptor number, owned by the connection and entered as its newest conversation |
| Server.ConnManager.TouchConv | server.cpp:178-178 | the table stays as it is; only the conversation's time moves |
| Server.ConnManager.ClearConvs | server.cpp:37-38 | a due cleanup takes the expired conversations off the old end of the list, at most size/30+1; what remains is a part of what there was, and the descriptors of the others are closed |
| Server.ConnManager.EraseAt | connection.cpp:202-235 | every assertion on the way holds given a non-zero const id; timer and conversations are closed, the object leaves all indexes |
| Server.ConnManager.EraseConn | connection.cpp:202-235 | the body of the erase, given what its assertions claim, is the erase step of the table |
| Server.ConnManager.CanErase | connection.cpp:204-226 | in a valid table with non-zero ids everything the erase asserts is true |
| Server.ConnManager.DeleteObject | connection.cpp:121-139 | the destructor's assertions hold and deleting the blob closes the remaining conversations |
| Server.ConnManager.CleanupTurn | connection.cpp:255-282 | one turn of the loop on the objects is one turn on the table |
| Server.ConnManager.ClearInactive0 | connection.cpp:243-286 | the pass on the objects is the pass on the table: bounded, from the saved cursor |
| Server.EraseFacts | connection.cpp:206-226 | what the assertions of the erase need follows from the invariant |
| ServerHandlers.ClearInactive | connection.cpp:236-242 | a pass at most once a second; what erased connections held inside goes with them, the others keep theirs |
| ServerHandlers.OnPreReady | server.cpp:196-312 | the code takes the branch and leaves the table that the specification of the second handshake prescribes; it sends a heartbeat unless the handshake began before the connection it would recover, or 1000 connections are ready; the connection that serves the session has an empty window, its send numbers go on, and the heartbeat carries its ids and the next number |
| ServerHandlers.BecomeReady | server.cpp:217-246 | the first connection of a const id starts with an empty window, and its heartbeat uses the first number |
| ServerHandlers.GrabReady | server.cpp:258-304 | after recovery the old object has an empty window and fresh rollers, and its heartbeat uses the next of its old numbers |
| ServerHandlers.OnHandshake1 | server.cpp:313-376 | a first handshake is answered with both ids; a second one counts only if it names the connection's own id, and then does to table and windows what the specification says |
| ServerHandlers.ShakeOutcome | server.cpp:196-376 | a payload that does not name the own id changes nothing; one that is turned away leaves an idle connection; after any other its const id is served at the connection's address with both ids, heard from now, with an empty window, fresh rollers and one heartbeat sent |
| ServerHandlers.Deliver | server.cpp:102-191 | a payload goes to the conversation's own descriptor, which is opened first if the conversation is new and there is room; the conversation becomes the newest |
| ServerHandlers.SendTo | server.cpp:176-184 | the payload of a live conversation goes to the descriptor its number stands for |
| ServerHandlers.OnReady | server.cpp:70-194 | after a heartbeat, and with `hb_mode` 0 after data, the connection was heard from at the reading taken in this call; after any other message it was heard from when it was; data of an unknown conversation opens it for the given descriptor while there are fewer than 10000, its conversation is the newest then, and the payload goes to its descriptor and nowhere else |
| ServerHandlers.OnReadyBatch | server.cpp:544-549 | the messages of one raw packet are handled in order |
| ServerHandlers.OnChannel | server.cpp:535-551 | the window filters the whole packet before the first message is handled; table, window, rollers and conversations afterwards are exactly those of the specification |
| ServerHandlers.OnRawRecv | server.cpp:380-561 | a raw packet is a SYN that is acknowledged with its number plus one unless the address is ready, or opens a connection, advances one handshake or delivers a filtered batch, by the state of the connection at its address; state, reply, packets sent and deliveries are as specified, and from any valid table it leads to a valid one |
| ServerHandlers.PacketOutcome | server.cpp:380-520 | field by field: a plain SYN of an address that is not ready is acknowledged by its number plus one modulo 2^32, unless a dummy socket does it; a first handshake of an unknown address is let in while there are fewer than 10000 entries, with the new id, and answered with both ids; nothing else of an unknown address changes anything |
| ServerHandlers.OnTimer | server.cpp:19-68 | a connection's timer drops the expired conversations; a heartbeat with its ids and the next number goes out if and only if the last was 600 ms ago or more at the reading taken, in 64-bit arithmetic |
| ServerHandlers.OnUdp | server.cpp:563-607 | data from a conversation's descriptor goes to the peer under the conversation's number, unless receiving failed or there were more than 1800 bytes |
| ServerHandlers.OnFdEvent | server.cpp:761-790 | a live number leads to a live ready connection, as its timer or as one of its conversations, so all assertions on the way hold; a dead one changes nothing here and is reported, and the loop ends on it (`ServerLoop.OnEvents`) |
| ServerLoop.OnEvents | server.cpp:724-790 | the events of a batch are handled one by one in order, each as specified, and the loop ends at the first number that is not live |
| ServerLoop.OnEvent | server.cpp:728-787 | one event of the loop: only a dead number stops it |
| ServerLoop.ListedCloses | connection.h:138-171 | a due cleanup closes exactly the descriptors of conversations without activity for three minutes that are among the last size/30+1 of the list |
| ServerLoop.CleanCloses | connection.cpp:236-286 | a due global cleanup closes exactly the timers of ready connections without conversations that were not heard from for four minutes and are among the next entries |
| ServerLoop.TimerCloses | server.cpp:19-68 | a connection's timer closes exactly the descriptors of its own conversations due for eviction |
| ServerLoop.EventCloses | server.cpp:724-790 | each event closes exactly the numbers the table says, and no closed number opens again |
| ServerLoop.RoundIsHandled | server.cpp:763-766 | the loop handles the whole batch if and only if no event's number is closed by an earlier event of the batch; otherwise it ends at the first such event |
| ServerLoop.CleanupThenNumber | server.cpp:728-766 | for the global timer followed by a number, read off the table: the server ends if and only if the cleanup is due and the number is the timer of a connection due for erase among the next entries |
| ServerLoop.TimerThenNumber | server.cpp:761-790 | for a timer followed by a number: the server ends if and only if the cleanup of conversations is due and evicts the conversation the number belongs to |
| ServerLoop.ServerEnds | server.cpp:763-766 | from a reachable table, a batch of the global timer and one connection's timer ends the server however the clock goes on |
| ServerLoop.ServerCanEnd | server.cpp:763-766 | such a round exists |
| ClientSteps.TimerStates | client.cpp:22-311 | the timer never leads into handshake2 or ready |
| ClientSteps.TimerIds | client.cpp:91-172 | a call keeps id and window, or takes a fresh id and is idle, or takes a fresh id together with an empty window and is then no further than handshake1 |
| ClientSteps.TimerSends | client.cpp:209-311 | at most one packet per call, of the state the client is in; the heartbeat after an uplink timeout carries the new id |
| ClientSteps.ReadyTimer | client.cpp:277-305 | field by field: a ready client gives up its session, with a fresh id, if and only if it heard no heartbeat for more than 10000 ms or the server's roller did not change for more than 12000 ms; a heartbeat goes out if and only if it did hear one and sent none for 600 ms |
| ClientSteps.ShakeTimer | client.cpp:173-276 | field by field: a handshake state ends after more than 5000 ms; until then its packet goes out again exactly when the last is more than 1000 ms ago |
| ClientSteps.IdleTimer | client.cpp:91-172 | field by field: an idle or disabled client gets a fresh id, an empty window and the first state of its mode, unless it finds no address of its own |
| ClientRuns.ReadyWhileInTouch | client.cpp:277-337 | over any run of timer calls, deliveries and messages a ready client stays ready if and only if at each timer call it was heard from in the last 10000 ms and the server's roller changed in the last 12000 ms, both told from the run; then it keeps its ids |
| ClientRuns.ParsingIsRun | connection.cpp:464-537 | parsing a batch is such a run, of the packets it delivers |
| ClientRuns.HandlingIsRun | client.cpp:487-492 | handling the messages of a batch is such a run |
| ClientRuns.OutOfTouchReconnects | client.cpp:91-305 | a client out of touch has ended its session and begun a new handshake after two timer calls, with a fresh id and an empty window |
| ClientRuns.HandshakeGoesOn | client.cpp:404-476 | a SYN-ACK, and an answer naming the client's id, lead to the next handshake state, whose packet goes out at once; any other answer changes nothing |
| ClientRuns.FirstMessageMakesReady | client.cpp:320-333 | the first message in handshake2 makes the client ready, in touch from now, and a heartbeat goes out at once |
| ClientSteps.ParseFacts | connection.cpp:464-537 | parsing a batch is the window's filter and leaves state and ids alone |
| ClientSteps.HearAllFacts | client.cpp:312-371 | only the first delivered message of a session makes a client ready, and only it can make it send |
| ClientSteps.HearGrows | client.cpp:487-492 | the message loop is the specification's fold |
| Client.ClientConn.constructor | connection.cpp:97-109 | an idle client with its own window and conversations |
| Client.ClientConn.SendSafer | connection.cpp:393-447 | one packet with both ids and the next number |
| Client.ClientConn.Restart | client.cpp:98-172 | an idle client gets a fresh id together with an empty filter, and the state its mode starts with, timed by the reading taken; without an address of its own it stays idle |
| Client.ClientConn.Shake | client.cpp:173-276 | the state ends if more than 5000 ms old at the first reading; otherwise its packet goes out if the last is more than 1000 ms ago at the second, and the third is noted; a dummy socket sends nothing |
| Client.ClientConn.Beat | client.cpp:277-305 | it ends idle, with the fresh id, if and only if no heartbeat came for more than 10000 ms at the first reading or the roller did not change for more than 12000 ms at the second; a heartbeat, with the id it ends with, goes out if and only if one came and the last sent is 600 ms ago at the third; after a downlink timeout nothing is sent |
| Client.ClientConn.OnTimer | client.cpp:22-311 | the whole timer call is the specified transition, after a pass over the conversations: a ready client ends its session exactly on one of the two timeouts, an idle or disabled one starts over |
| Client.ClientConn.OnSynAck | client.cpp:404-421 | a SYN-ACK in place leads to handshake1 and a timer call |
| Client.ClientConn.OnBare | client.cpp:427-476 | an answer that names the client's id and is in place leads to handshake2 with the server's id; any other changes nothing |
| Client.ClientConn.ParseSafer | connection.cpp:490-534 | ids, window and type are checked in this order, and only a delivered packet moves the rollers |
| Client.ClientConn.Roll | connection.cpp:519-532 | a changed roller of the server is noted with a reading taken now, an equal one changes nothing; the own one moves on exactly for a heartbeat or with `hb_mode` 0 |
| Client.ClientConn.ParseBatch | connection.cpp:552-621 | the whole raw packet is parsed before anything of it is handled |
| Client.ClientConn.OnSafer | client.cpp:312-371 | a heartbeat, or with `hb_mode` 0 data, renews the time from a reading of this call; a payload goes to the peer of its live conversation and nowhere else |
| Client.ClientConn.OnChannel | client.cpp:312-494 | a raw packet in handshake2 or ready is the specified parse followed by the specified handling; from an unexpected address it moves the window and is dropped |
| Client.ClientConn.OnUdp | client.cpp:501-543 | a local peer keeps one conversation; data is sent only when ready |
| Sessions.QuietSessions | server.cpp:70-194 | time, messages, expiry and cleanup start no session and change none |
| Sessions.ArrivalSession | server.cpp:490-520 | a new connection starts one session in handshake and touches no other |
| Sessions.AnswerSessions | server.cpp:196-376 | a second handshake ends a session in handshake exactly when it is turned away, and otherwise turns it into an established one with exactly the handshake's ids, in this connection or in the ready one of the same const id |
| Sessions.PreReadySessions | server.cpp:196-312 | both branches of the second handshake, seen as sessions |
| Sessions.GrabSessions | server.cpp:258-304 | recovery replaces the old session of the const id by the new one |
| Handshake.ReadyClientHasServer | client.cpp:321-328 | a ready client's server id was made ready with the client's own id and const id |
| Handshake.ReadyServerHasClient | server.cpp:217-221 | a ready connection's client id reached handshake2 holding the connection's own id, in a client of that const id |
| Handshake.OneToOne | server.cpp:313-376 | no client id was ever served under two server ids |
| Handshake.AtMostOnce | connection.cpp:490-498 | no packet is delivered twice on a side, and each was sent by the session's partner |
| HandshakeClients.MoveKeeps | client.cpp:22-500 | any client move with fresh ids that sends at most one packet and reaches handshake2 at most once per id keeps the protocol's invariant |
| HandshakeClients.ClientTimerKeeps | client.cpp:22-311 | the timer keeps the invariant |
| HandshakeClients.ClientSynAckKeeps | client.cpp:390-425 | the SYN-ACK keeps the invariant |
| HandshakeClients.ClientBareKeeps | client.cpp:426-476 | an answer to handshake1, even a replayed or misrouted one, keeps the invariant |
| HandshakeClients.ClientSaferKeeps | client.cpp:477-494 | a batch of channel packets in any order with any duplicates keeps the invariant |
| HandshakeClients.ClientSendsKeeps | client.cpp:501-543 | sending data keeps the invariant |
| HandshakeClients.ClientReconnectsKeeps | client.cpp:632-635 | a forced reconnect with a fresh id keeps the invariant |
| HandshakeClients.ClientResetKeeps | network.cpp:2336-2339 | a received RST keeps the invariant |
| HandshakeServer.ServerOpensKeeps | server.cpp:457-521 | a first handshake from a new address keeps the invariant |
| HandshakeServer.ServerAnswersAgainKeeps | server.cpp:339-351 | a repeated first handshake keeps the invariant |
| HandshakeServer.ServerShakesKeeps | server.cpp:313-376 | a second handshake keeps the invariant whichever branch it takes |
| HandshakeServer.ShakesIsPossible | server.cpp:313-376 | whatever a second handshake does to the table, it is one of the protocol's steps, for the connection the const id leads to |
| HandshakeServer.ServeHistory | server.cpp:352-370 | the partner of a newly served id reached handshake2 with exactly that id |
| HandshakeServer.ServeLogs | connection.cpp:75-75 | when a window is reset for a new session nothing was delivered to that session's id yet |
| HandshakeServer.ReceivedKeeps | connection.cpp:464-537 | a batch at the server keeps the invariant |
| HandshakeServer.ServerSaferKeeps | server.cpp:535-551 | handling the delivered messages keeps the invariant |
| HandshakeServer.ServerQuietKeeps | server.cpp:728-741 | timers and cleanup keep the invariant |
| HandshakeServer.ServerSendsKeeps | server.cpp:563-607 | sending data keeps the invariant |
| HandshakeServer.StepKeeps | server.cpp:380-561 | every step of clients, server and network keeps the invariant |
| HandshakeRuns.RunKeeps | client.cpp:22-500 | the invariant holds in every reachable state |
| HandshakeRuns.RunsAgree | server.cpp:313-376 | agreement over whole runs with fresh ids and a network that drops, duplicates, reorders and misroutes: ready clients and ready connections hold mirrored ids, and client ids and server ids are paired one to one |
| HandshakeRuns.RunsDeliverOnce | connection.cpp:490-498 | at-most-once delivery over whole runs, across reconnects and recoveries, on both sides, and only from the partner |
| HandshakeRuns.RunGrows | server.cpp:196-312 | who reached or served which id is never revised |
| HandshakeProgress.CanConnect | client.cpp:22-500 | from every reachable state of the protocol, whatever state a client is in and in every raw mode, a run connects it, with mirrored ids at both ends and the other clients untouched, if the server has room for its const id or a connection to recover, and the client comes from a new address |
| HandshakeProgress.Begins | client.cpp:98-247 | an idle client comes to ask, in fake TCP after a SYN-ACK |
| HandshakeProgress.Opens | server.cpp:457-521 | a new address is let in while there is room, and answered |
| HandshakeProgress.Confirms | client.cpp:426-476 | the answer makes the client confirm |
| HandshakeProgress.TableServes | server.cpp:196-312 | a confirmation of the newest connection is never turned away when there is room or a connection to recover |
| HandshakeProgress.Serves | server.cpp:313-376 | the confirmed session is served and a heartbeat goes out whose number the client's window accepts |
| HandshakeProgress.Enters | client.cpp:321-332 | the heartbeat makes the client ready |
| HandshakeProgress.RunNumbers | server.cpp:234-237 | over any run the next number of a ready connection is not 0, which a fresh window would refuse, because it has sent a heartbeat |
| HandshakeLink.BatchIsEvents | server.cpp:544-549 | the messages of one raw packet are a run of the table's events, and keep it valid |
| HandshakeLink.OpenIsRun | server.cpp:446-520 | what a packet from a new address does is the protocol's opening step, with the same answer |
| HandshakeLink.AgainIsRun | server.cpp:337-350 | a handshake payload that confirms nothing is answered again or changes nothing, as in the protocol |
| HandshakeLink.ConfirmIsRun | server.cpp:351-369 | a second handshake is the protocol's answering step: the same connection serves it, its window is reset, its send number goes on, and the same heartbeat is sent |
| HandshakeLink.ChannelIsRun | server.cpp:535-551 | a batch is the protocol's receiving step: the same packets are delivered, and the window moves to the same filter |
| HandshakeLink.TimerIsRun | server.cpp:19-68 | a connection's timer is expiry, time and perhaps a send of the protocol, with the same heartbeat |
| HandshakeLink.ConvIsRun | server.cpp:563-607 | data of a conversation is a send of the protocol, with the same packet |
| HandshakeLink.CleanIsRun | connection.cpp:236-286 | a global cleanup is time and a cleanup of the protocol; erased connections take their windows along |
| HandshakeLink.EventIsRun | server.cpp:724-790 | every event of the server's loop, on the objects of the heap, is a run of the protocol from any state that shows them, sending the same packets, delivering the same messages and drawing the same id |
| HandshakeLink.PlayIsRun | server.cpp:709-789 | any interleaving of client steps and events of the server's code is a run of the protocol |
| HandshakeLink.CodeIsSafe | server.cpp:709-789 | over every run of any clients with the server's code, ready ends hold mirrored ids and the right const id, and the code delivers no packet twice and none that the session's partner did not send |
| CodeSurvival.RunIsTableRun | server.cpp:709-789 | every run of the protocol is, on the table, a run of its events |
| CodeSurvival.BatchHeard | server.cpp:70-100 | a batch renews the time its connection was heard at if one of its messages shows the peer alive, and leaves it otherwise |
| CodeSurvival.HeardStays | server.cpp:709-789 | over every run of any clients with the server's code, a ready connection heard from in the last 240000 ms is still there, ready and heard from since |
| CodeSurvival.HeardPeerStays | server.cpp:70-100 | a ready connection of which the code delivers a heartbeat, or with `hb_mode` 0 data, stays for the next 240000 ms whatever comes |
| TimerHeap.UpOrders | libev/ev.c:2333-2353 | sifting up restores the order of the heap when one element is too early |
| TimerHeap.DownOrders | libev/ev.c:2253-2293 | sifting down restores the order when one element is too late, by swapping with a least child |
| TimerHeap.AdjustOrders | libev/ev.c:2356-2363 | one changed element anywhere is brought to its place |
| TimerHeap.ReheapOrders | libev/ev.c:2366-2374 | any array becomes a heap front to back |
| TimerHeap.RootIsFirst | libev/ev.c:3348-3352 | the root of an ordered heap expires no later than any timer |
| TimerHeap.UpKeeps | libev/ev.c:2333-2353 | sifting up only permutes |
| TimerHeap.DownKeeps | libev/ev.c:2253-2293 | sifting down only permutes |
| TimerHeap.ReheapKeeps | libev/ev.c:2366-2374 | rebuilding only permutes |
| TimerHeap.EnteredOk | libev/ev.c:3907-3929 | starting a timer adds exactly its entry to an ordered heap |
| TimerHeap.RemovedOk | libev/ev.c:3932-3960 | stopping a timer takes exactly its entry out of an ordered heap |
| TimerHeap.ChangedOk | libev/ev.c:3963-3987 | rearming replaces exactly one entry in an ordered heap |
| TimerHeap.Upheap | libev/ev.c:2333-2353 | the loop with its hole, C division at the root included, leaves the sifted heap, every back-index equal to its position |
| TimerHeap.FindMinChild | libev/ev.c:2264-2282 | the unrolled and the bounded search both find the first least child |
| TimerHeap.Downheap | libev/ev.c:2253-2293 | the loop with its hole leaves the sifted heap, every back-index equal to its position |
| TimerHeap.Adjustheap | libev/ev.c:2356-2363 | the direction is chosen by comparison with the parent |
| TimerHeap.ReheapAll | libev/ev.c:2366-2374 | the whole array is rebuilt in place |
| TimerHeap.Insert | libev/ev.c:3916-3922 | in the array: the new entry at its place |
| TimerHeap.Remove | libev/ev.c:3943-3957 | in the array: the last entry fills the gap |
| TimerHeap.Change | libev/ev.c:3970-3975 | in the array: the cached expiry is renewed and the entry moved |
| TimerHeap.Requeue | libev/ev.c:3360-3370 | in the array: the rescheduled root sinks |
| Pending.FeedReversedShape | libev/ev.c:1995-2026 | feeding a list backwards leaves old slots in place and puts those that were not pending on top, in reverse |
| Pending.NewOnesRunFirst | libev/ev.c:2020-2026 | run from the top, the newly fed watchers come first, in the order of the list, then what waited before |
| Pending.HigherPriorityFirst | libev/ev.c:3302-3319 | whatever waits in a queue runs behind all of the queues of higher priority and before all of those of lower priority |
| Reify.TurnFacts | libev/ev.c:3356-3377 | one turn takes exactly the root out of the late timers |
| Reify.RunIsExact | libev/ev.c:3348-3382 | the loop ends, leaves no timer late, and hands over exactly the late timers, each once, in ascending order of expiry |
| Reify.RunLeaves | libev/ev.c:3356-3377 | afterwards the heap holds the timers that were not late, unchanged, and the repeating ones among the others, one interval after their expiry or now, whichever is later; the others are gone |
| Reify.OneRound | libev/ev.c:3348-3382 | a repeating timer is handed over in a round exactly when it is late, and unless the round comes more than an interval late it then expires one interval later |
| Reify.KeepsItsBeat | libev/ev.c:3362-3365 | over rounds none of which is late by more than an interval, whatever happens to other timers between, a repeating timer that ran k times expires exactly k intervals after its first expiry |
| Timers.EvLoop.PendingIsWaiting | libev/ev.c:3117-3124 | a watcher is pending exactly when it waits in the queue of its priority, and then its field is its slot |
| Timers.EvLoop.Init | libev/ev.h:686-708 | a new watcher is neither active nor pending |
| Timers.EvLoop.EvFeedEvent | libev/ev.c:1995-2011 | a pending watcher gathers events in its slot, another one gets a slot on top; verify_watcher stays |
| Timers.EvLoop.ClearPending | libev/ev.c:3805-3813 | the slot is given to the watcher that does nothing; verify_watcher stays |
| Timers.EvLoop.PriAdjust | libev/ev.c:3832-3839 | the priority is brought into range: below -2 it becomes -2, above 2 it becomes 2 |
| Timers.EvLoop.EvTimerStart | libev/ev.c:3907-3929 | an inactive timer enters the heap at its absolute expiry, an active one is left alone; verify_heap stays |
| Timers.EvLoop.EvTimerStop | libev/ev.c:3932-3960 | the timer is neither pending nor active, its entry is gone and its expiry relative again; verify_heap stays |
| Timers.EvLoop.EvTimerAgain | libev/ev.c:3963-3987 | the timer is active if and only if it repeats, and then expires one interval from now; verify_heap stays |
| Timers.EvLoop.ReifyRoot | libev/ev.c:3356-3375 | the late root expires at least one interval later and not before now, at one of the two, if it repeats, and is stopped otherwise; heap and queues are those of the specified turn |
| Timers.EvLoop.ReifyLoop | libev/ev.c:3354-3379 | the loop is the specified run |
| Timers.EvLoop.FeedReverseDone | libev/ev.c:2020-2026 | each queue receives its part of the list, last to first |
| Timers.EvLoop.TimersReify | libev/ev.c:3348-3382 | heap and queues after the call, for any pending events before it; each repeating timer that was handed over is active again, one interval after its old expiry or now, whichever is later |
| Timers.EvLoop.Pop | libev/ev.c:3306-3315 | the top event is taken and its watcher no longer pending; verify_watcher stays |
| Timers.EvLoop.EvInvokePending | libev/ev.c:3302-3319 | runs all events from the highest priority down, each queue from its top, and leaves nothing pending |
| TimerOrder.ExpiredRunInOrder | libev/ev.c:2013-2026 | through both reversals the expired timers of one priority that were not pending run first, in ascending order of expiry, each once |
| TimerOrder.RunTimers | libev/ev.c:3302-3382 | one round of reify and invoke: the heap stays valid, no timer stays late, exactly the late ones were handed over, and in every priority they run in ascending order of expiry |
| Crc.FastIsEightBits | encrypt.cpp:119-132 | the eight masked constants are eight steps of the bitwise division |
| Crc.Constants | encrypt.cpp:119-122 | the constants are shifts of the polynomial |
| Crc.BitsLinear | encrypt.cpp:124-131 | the division is linear over exclusive or |
| Crc.Crc32h | encrypt.cpp:115-135 | the value is the reflected CRC-32 of section 8 of RFC 1952, computed bit by bit |
| Crc.CheckValue | encrypt.cpp:115-135 | the digest of the digits 1 to 9 is CBF43926, the check value of this CRC |
| BlockModes.CbcRoundTrip | lib/aes_faster_c/aes.cpp:824-884 | CBC decryption inverts CBC encryption over any block permutation |
| BlockModes.CfbRoundTrip | lib/aes_faster_c/aes.cpp:890-930 | CFB-128 decryption inverts encryption for any length, over any block function |
| BlockModes.CbcChains | lib/aes_faster_c/aes.cpp:864-881 | each block of a CBC ciphertext is the cipher of its plaintext block combined with the ciphertext block before it, or the vector |
| BlockModes.CfbChains | lib/aes_faster_c/aes.cpp:903-930 | each byte of a CFB ciphertext is its plaintext byte combined with the cipher of the ciphertext block before, or of the vector |
| BlockModes.CbcEncrypt | lib/aes_faster_c/aes.cpp:864-881 | the loop over blocks with the register updated in place computes CBC; other lengths are refused |
| BlockModes.CbcDecrypt | lib/aes_faster_c/aes.cpp:846-862 | the loop that saves each ciphertext block first inverts it |
| BlockModes.CfbCrypt | lib/aes_faster_c/aes.cpp:890-930 | the byte-wise loop with its register offset computes CFB-128 in both directions, from offset 0 |
| CodecSpec.InitKeysMirror | encrypt.cpp:76-101 | the two roles derive mirrored keys: each encrypts with what the other decrypts with |
| CodecSpec.KeysDiffer | encrypt.cpp:76-101 | if different labels lead to different keys, the four derived keys of an end are all different |
| CodecSpec.PadRoundTrip | encrypt.cpp:273-291 | removing the padding gives the data back whatever the padding bytes in between are |
| CodecSpec.XorKeyTwice | encrypt.cpp:251-266 | the key stream cancels itself |
| CodecSpec.CipherRoundTrip | encrypt.cpp:325-419 | each cipher is inverted by its counterpart |
| CodecSpec.XorPacket | encrypt.cpp:251-266 | under the xor cipher each byte is combined with the key byte at its offset modulo 16 |
| CodecSpec.CbcPacket | encrypt.cpp:325-342 | a cbc packet is the text, padded to whole blocks with the number of bytes added at the end, chained from a block of zeros |
| CodecSpec.CfbPacket | encrypt.cpp:343-361 | a cfb packet is the text, its first block enciphered before under the key of the direction unless the old format is asked for, under a key stream chained from a block of zeros |
| CodecSpec.Djb2Law | encrypt.cpp:149-166 | the first simple hash starts at 5381 and takes 33 times itself combined with each byte |
| CodecSpec.SdbmLaw | encrypt.cpp:149-166 | the second simple hash starts at 0 and takes 65599 times itself plus each byte |
| CodecSpec.BigEndianBack | encrypt.cpp:161-164 | the four bytes of a digest make up the word, most significant first |
| CodecSpec.AuthRoundTrip | encrypt.cpp:167-249 | each authentication accepts what it produced and cuts it off exactly |
| CodecSpec.ForeignTag | encrypt.cpp:167-249 | a text under the tag of another is accepted if and only if their MD5 digests, checksums, both simple hashes or HMACs agree |
| CodecSpec.EncodedIs | encrypt.cpp:494-557 | what goes out is the cipher of the text and its tag under the shared key, or with HMAC the ciphertext under the key of the direction and its own tag |
| CodecSpec.DecodedIff | encrypt.cpp:514-577 | a packet decodes to a text if and only if it has at most 1800 bytes and deciphers to the text and its own tag, or with HMAC ends in its own tag and deciphers to the text |
| CodecSpec.ForgeryRefused | encrypt.cpp:514-577 | a packet with the tag of another text is refused unless their digests agree |
| CodecSpec.RoundTrip | encrypt.cpp:494-578 | for every cipher and authentication the peer recovers the plaintext if and only if the encoded length is at most 1800, no buffer exceeding 2200; otherwise it refuses the packet |
| CodecSpec.LimitIsOnBothSides | encrypt.cpp:536-560 | an accepted plaintext of 1800 bytes that the peer refuses under cbc with md5 |
| Codec.Padding | encrypt.cpp:273-283 | in place: the least whole number of blocks with room for one more byte, whose last byte is the number added; the data stay |
| Codec.DePadding | encrypt.cpp:284-292 | cuts off as many bytes as the last one says, and refuses an empty text, more than 16, or more than there are |
| Codec.XorCrypt | encrypt.cpp:251-272 | each byte is combined with the key byte at its offset modulo 16 |
| Codec.SimpleHash | encrypt.cpp:149-166 | the two hashes in network byte order |
| Codec.CipherEncrypt | encrypt.cpp:459-475 | the chosen cipher, on buffers |
| Codec.CipherDecrypt | encrypt.cpp:476-493 | the chosen cipher backwards; cbc refuses what is not whole blocks or claims more than 16 bytes of padding, cfb refuses less than a block, the others nothing |
| Codec.AuthCal | encrypt.cpp:421-439 | behind the data stand, by mode, nothing, their MD5 digest, their CRC-32 most significant byte first, their two simple hashes, or the HMAC of the first 20 key bytes and the data |
| Codec.AuthVerify | encrypt.cpp:440-458 | accepts if and only if the last 16, 4, 8 or 20 bytes are that value of the bytes before them, and cuts them off |
| Codec.MyEncrypt | encrypt.cpp:531-557 | on 2200-byte buffers: refused if and only if the plaintext is longer than 1800 bytes, never out of bounds |
| Codec.MyDecrypt | encrypt.cpp:558-577 | on 2200-byte buffers: any bytes are handled within bounds |
| Gro.MaskRoundTrip | connection.cpp:435-440 | the receiver takes the length mask off, whatever follows in the buffer |
| Gro.FrameBytes | connection.cpp:425-441 | on the wire stand the length, most significant byte first, and the packet: as they are, or with the length masked by two key bytes, or with the first block enciphered |
| Gro.DecodedApart | connection.cpp:604-612 | a packet that is rejected changes nothing for those before and behind it |
| Gro.SplitGlued | connection.cpp:581-615 | any frames glued together come apart again in order, whatever they contain |
| Gro.DecodeEncoded | connection.cpp:604-612 | each packet decodes to what was encoded |
| Gro.GluedPacketsArrive | connection.cpp:577-615 | encoded, framed, glued, split and decoded, the packets are as before, in order |
| Gro.SendFrame | connection.cpp:430-441 | on buffers: the frame of the encoded packet |
| Gro.NextFrame | connection.cpp:581-603 | on buffers: the next frame, or the end when its length does not fit |
| Gro.RecvMulti | connection.cpp:581-615 | terminates on any bytes with the packets that decode, a rejected one disturbing no other |
| Wire.SaferRoundTrip | connection.cpp:406-423 | the receiver reads ids, number, type, roller and payload as the sender wrote them, and never takes a channel packet for a handshake |
| Wire.BareRoundTrip | connection.cpp:300-308 | three ids survive a handshake packet, which is never taken for a channel packet |
| Wire.SaferLayout | connection.cpp:406-423 | the ids are at offsets 0 and 4, the number at 8, an h or d at 16, the roller at 17 and the payload from 18, numbers in network byte order |
| Wire.BareLayout | connection.cpp:294-310 | behind 16 random bytes a b, and three ids in network byte order |
| Wire.MessageMeans | client.cpp:329-342 | an h is a heartbeat; a d of four bytes or more is data of the conversation with that number in network byte order, a shorter one neither |
| Wire.ParseIsModelled | connection.cpp:464-537 | on bytes the code does what the protocol model says of the packet |
| Wire.BareIsModelled | connection.cpp:490-507 | a handshake packet read as a channel packet can move the window by its random bytes but is never delivered |
| Wire.ParseSafer | connection.cpp:464-537 | on the receiver's buffer, stale bytes behind a short packet included |
| Wire.FreshArrive | connection.cpp:490-537 | packets of the session with fresh numbers within one window are all delivered, in any order |
| Wire.BatchIsModelled | connection.cpp:552-621 | for any channel packets of any session the code does with their bytes what the protocol model says of the batch |
| Wire.PayloadsArrive | connection.cpp:393-447 | from send_safer to the delivery: numbered, encoded, framed and glued payloads arrive complete and in order, for every cipher and authentication |
| HashSpec.FoldConcat | lib/md5.cpp:256-261 | compressing two runs of blocks is compressing their concatenation |
| HashSpec.DigestIs | lib/md5.cpp:278-301 | the digest is that of the message, a byte 80, zeros and its length in bits in eight bytes, in as few blocks as that takes |
| HashSpec.HmacMeans | lib/pbkdf2-sha256.cpp:350-404 | HMAC is the digest of the zero-filled or hashed key combined with 5C and the digest of that key combined with 36 and the message |
| HashSpec.HkdfIs | lib/pbkdf2-sha256.cpp:953-990 | each digest of the output is the HMAC of the one before it, the info and its number as a byte |
| HashSpec.Pbkdf2Is | lib/pbkdf2-sha256.cpp:455-481 | each digest of the output is the exclusive or of a chain of HMACs that starts from the salt and the block number in network byte order |
| HashSpec.Pbkdf2Blocks | lib/pbkdf2-sha256.cpp:439-489 | these digests stand one behind the other |
| HashSpec.CountedIsLength | lib/md5.cpp:239-243 | the totals count a message exactly if and only if no single piece has 2^32 bytes or more |
| Hashing.LengthWords | lib/md5.cpp:284-289 | the two totals give the number of bits modulo 2^64 |
| Hashing.CarryOut | lib/md5.cpp:239-243 | the comparison after the addition is the carry |
| Hashing.Context.constructor | lib/md5.cpp:91-100 | a context that has seen nothing |
| Hashing.Context.Starts | lib/pbkdf2-sha256.cpp:82-113 | a used context starts afresh |
| Hashing.Context.Count | lib/md5.cpp:239-243 | the totals follow the message |
| Hashing.Context.Update | lib/md5.cpp:228-266 | a piece of any length: whole blocks of everything fed so far are compressed, the rest waits in the buffer |
| Hashing.Context.Finish | lib/md5.cpp:278-301 | the digest of everything fed, with padding and length fed through update itself |
| Hashing.HashPieces | lib/pbkdf2-sha256.cpp:249-330 | for any pieces the digest is that of the concatenation, with the length the totals could count |
| Hashing.HashStream | lib/pbkdf2-sha1.cpp:256-326 | streaming equals one-shot hashing for any cut of the message into pieces below 2^32 bytes |
| KeyDerivation.HmacContext.Starts | lib/pbkdf2-sha256.cpp:350-379 | long keys are hashed first; the inner pad is fed and the outer one kept |
| KeyDerivation.HmacContext.Pads | lib/pbkdf2-sha256.cpp:363-370 | both pads are the key block combined with the constants |
| KeyDerivation.HmacContext.Update | lib/pbkdf2-sha256.cpp:381-384 | the text grows by the piece |
| KeyDerivation.HmacContext.Finish | lib/pbkdf2-sha256.cpp:389-404 | HMAC (RFC 2104) of everything fed since the start |
| KeyDerivation.HmacPieces | lib/pbkdf2-sha1.cpp:345-415 | HMAC of a message given in any pieces |
| KeyDerivation.CeilOf | lib/pbkdf2-sha256.cpp:942-952 | the number of rounds is the least that covers the output, and at most 255 exactly when the standard allows the length |
| KeyDerivation.HkdfExpand | lib/pbkdf2-sha256.cpp:916-999 | succeeds exactly for keys of at least one digest and lengths up to 255 digests, and then yields the first bytes of T(1), T(2), ... of section 2.3 of RFC 5869 |
| KeyDerivation.Pbkdf2Block | lib/pbkdf2-sha256.cpp:455-481 | one block of section 5.2 of RFC 8018; an iteration count of 0 counts as 1 |
| KeyDerivation.Pbkdf2 | lib/pbkdf2-sha256.cpp:439-489 | the first bytes of T_1, T_2, ... of section 5.2 of RFC 8018 |
| Checksum.AnswerIsChecksum | common.cpp:639-660 | for up to 131076 bytes, so for every packet, two folds give the checksum of RFC 1071 |
| Checksum.LengthsThatWork | common.cpp:655-657 | the code is right for every message of a length if and only if the length is at most 131076 |
| Checksum.Csum | common.cpp:639-660 | the loop with its odd last byte |
| Checksum.CsumWithHeader | common.cpp:662-691 | with an even header the value is that of header and data as one message |
| Checksum.ByteOrderDoesNotMatter | common.cpp:639-691 | the checksum bytes in memory are the same on big-endian and little-endian hosts |
| Checksum.AcceptedFields | network.cpp:2068-2093 | which values of the field a receiver accepts: the computed one and, if that is 0, also 65535 |
| Checksum.Seal | network.cpp:1586-1609 | a packet with its zeroed field filled in is accepted by receivers of either byte order |
| Checksum.Verify | network.cpp:2068-2096 | a packet is accepted exactly when its checksum over the pseudo header is 0 |
| Checksum.OneWordChanged | network.cpp:2093-2096 | a change of one aligned word goes unnoticed exactly when it swaps 0 and 65535 in a packet that is not otherwise zero |
| TcpOptions.Parse | network.cpp:2112-2165 | terminates on any bytes without reading past the options |
| TcpOptions.ParseEncode | network.cpp:2112-2165 | of any list of well-formed options, padded by zeros or not, the last timestamp is found |
| TcpOptions.BrokenRefused | network.cpp:2112-2165 | behind any options one that is cut off, a timestamp of other than ten bytes, or a length below two is refused, and the last timestamp before it remains |
| TcpOptions.PutOptions | network.cpp:1646-1696 | the options fill exactly the space the data offset announces |
| TcpOptions.SentIsEncoded | network.cpp:1646-1696 | what is sent is a list of well-formed options |
| TcpOptions.StampArrives | network.cpp:2112-2165 | the receiver reads the two timestamps the sender wrote, in a SYN and in any other segment |
| FakeTcp.LargerIsLarger | common.cpp:774-836 | the wrapped comparison agrees with the true order of positions less than half the number space apart |
| FakeTcp.ThreeTests | network.cpp:2583-2595 | the three wrapped comparisons amount to one distance test |
| FakeTcp.NextPacketFits | network.cpp:2571-2596 | in the window modes, from any state, the next number is at most window - 1800 ahead of the peer's acknowledgement, and the next packet ends within the window |
| FakeTcp.RawInfo.AfterSend | network.cpp:2558-2604 | mode 0 keeps the number, mode 1 always moves it on by the data modulo 2^32, mode 2 exactly when the draw is 3 modulo 5; a window mode moves it on if fewer than three acknowledgements were repeated and 1800 more bytes then fit into the window, and goes back to the acknowledgement otherwise; what is not data keeps it |
| FakeTcp.RawInfo.OnAckField | network.cpp:2309-2315 | repeated acknowledgements are counted |
| FakeTcp.RawInfo.AfterRecv | network.cpp:2605-2634 | in a window mode the acknowledgement takes the end of a data segment that starts at it, in the others of one that ends less than 2^31 ahead of it, and else stays |
| FakeTcp.AckEndsChain | network.cpp:2618-2622 | over any run the acknowledgement is the end of a gap-free chain of segments that arrived, in the order of their arrival, and counts their bytes |
| FakeTcp.InOrderIsAcknowledged | network.cpp:2618-2622 | in every mode a stream that arrives in order is acknowledged in full, wherever the numbers wrap |
| FakeTcp.SegmentsJoin | network.cpp:2565-2596 | over any run of sends and acknowledgements that does not run out of the window, the segments sent join end to start: one stream, cut into pieces |
| FakeTcp.OneWindowFlows | network.cpp:2571-2596 | what is sent without waiting does not run out of the window if it fits into it up to one packet |
| FakeTcp.FlowIsAcknowledged | network.cpp:2558-2634 | end to end: such a stream, arriving in order, is acknowledged up to the number the sender goes on with |
| FakeTcp.AckMovesForward | network.cpp:2614-2617 | in the other modes the acknowledgement only moves forward |

## Left out

- Hashing.Context.Count: follows the 32-bit casts of `lib/md5.cpp`; the comparison in `lib/pbkdf2-sha256.cpp` uses the whole length, which differs only for single pieces of 2^32 bytes or more.
- Hashing.HashStream: is stated for pieces below 2^32 bytes, since the totals miscount longer ones (`HashSpec.CountedIsLength`).
- Gro.SendFrame: is stated for encodings of at least 14 bytes; every channel packet has 18 or more (`Wire.FitIsSendable`).
- Codec.MyEncrypt: takes the code's own assertion that a cfb plaintext has 16 bytes or more as a precondition.
- KeyDerivation.HmacContext.Starts: is stated for keys below 2^32 bytes, since the hash miscounts longer ones (`HashSpec.CountedIsLength`).
- KeyDerivation.HmacContext.Update: is stated for pieces below 2^32 bytes, for the same reason.
- KeyDerivation.HmacPieces: is stated for keys and pieces below 2^32 bytes, for the same reason.
- KeyDerivation.HkdfExpand: is stated for keys and infos below 2^32 bytes, for the same reason.
- KeyDerivation.Pbkdf2Block: is stated for passwords and salts below 2^32 bytes, for the same reason.
- KeyDerivation.Pbkdf2: is stated for passwords and salts below 2^32 bytes, for the same reason.
- FakeTcp.RawInfo.AfterSend: leaves out the icmp sequence number, which a client counts up by one.
- FakeTcp.RawInfo.AfterRecv: leaves out the echoed timestamp, which is copied unconditionally, and the icmp sequence number.
- ServerHandlers.BecomeReady: sends the heartbeat after the window is reset and the timer made, the code before; neither is read by the send.
- ServerHandlers.OnRawRecv: takes what the parsers made of the packet as given; that a payload too long for a buffer is dropped is part of the parsers.
- ServerLoop.OnEvents: is one call of `epoll_wait`; the loop around it and a failing `epoll_wait` are not modelled.
- Server.ConnManager.CleanupTurn: stores the cursor at every turn instead of once after the loop; the loop reads its local copy only.
- HandshakeRuns.RunsDeliverOnce: is about windows with anti-replay enabled; with it disabled the code accepts every number.
- Sockets, epoll, pcap, BPF filters, iptables, configuration, options, logging, signals and the fifo: I/O and user interface. Descriptors, raw clock readings and random numbers are parameters.
- A failing `epoll_ctl` (`server.cpp` lines 158-162), which closes a descriptor without telling the descriptor table.
- AES rounds and key schedules, MD5 and SHA compression: arbitrary functions of the right shape. The static keys of `aes_key_optimize` are taken as fixed.
- The address, port and TCP position checks of raw receives at the client appear as flags; the TCP sequence fields of the handshake packets are not part of the client's state.
- The addresses of raw packets are pairs of numbers, and hash tables have an arbitrary iteration order; an insertion beyond the reserved size makes the cursor dangle.
- `max_fail_time`, which is 0 unless configured.
- Clock readings taken only for log messages.
- Resizing of libev's arrays is one allocation; callbacks leave the loop alone while timers are handed over; periodics, idle, child, stat and io watchers and the time-jump rescheduling.
- The icmp header and the IP header, whose checksums are instances of `Checksum.Seal`.
- Sender lists and hash maps are Dafny sequences and maps; the order of updates inside one erase differs where no one can observe it.
