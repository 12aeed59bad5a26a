# Proofs about five small systems programs

Five independent programs are modelled here, each in the form its source has: a UNIX-style buffer cache, a
private DHCP-like lease protocol, an array-based Dijkstra, a private FTP-like file transfer, and the front
end of a small shell. Programs that work by changing things are classes and methods with loops; each such
method is proved to compute a function of its inputs or of the old state, and the theorems are lemmas about
those functions. `dafny verify dfyconfig.toml` checks everything.

**Buffer cache** (`BufferPool`, `BufferRuns`, `BufferLaws`, `BufferCache`). `BufferCache.Cache` has real
headers with `hashFp`/`hashBp`/`freeFp`/`freeBp` links: one circular list per hash value and one circular
free list, threaded through the same headers. `Valid()` says that following the links in either direction
visits exactly the lists of a value `view: Pool`. Every operation is proved to turn the old `view` into the
one the specification in `BufferPool` gives. `BufferRuns` proves what holds over runs: who may hold a
buffer, what a miss remaps, which buffer is replaced; `BufferLaws` says outright how the cache starts and
what single operations do. The numbers of buffers and queues are arbitrary.

**Lease protocol** (`DhcpMessages`, `DhcpServer`, `DhcpServerRuns`, `DhcpAnswers`, `Rings`, `DhcpDaemon`,
`DhcpClient`, `DhcpClientTurns`, `DhcpLease`, `DhcpRenewal`). `DhcpDaemon.Daemon` is the server: pool and
client list are circular lists on the heap (`Rings`), a client points at the pool entry it holds, and the
timeout sweeps unlink clients while they walk the list. `DhcpClient.Program` is the client. `DhcpAnswers`
and `DhcpClientTurns` give, in the values that go over the wire, what each side answers to any message and
does with any tick. `DhcpServerRuns` covers every run of the server against arbitrary datagrams.
`DhcpRenewal` shows that leases can be kept. `DhcpLease` composes one server with any number of clients,
under these assumptions:

- clients run the client program, and an endpoint runs it once;
- between two ticks messages may be lost, reordered and repeated, but not corrupted or forged;
- a tick is one step: no message survives it, and every node counts down and runs its idle branch
  (`DhcpLease.LateAckSharesAddress` shows why);
- a message the server has no defined outcome for stops it for good, while the clients go on;
- for exclusivity, the configured addresses are pairwise distinct.

**Dijkstra** (`ShortestPath`, `Dijkstra`). The number of nodes and `INF` are arbitrary. Entries equal to
`INF` are added like any number, as in the code, and shown to be harmless. No assumption is made on the
diagonal: `D[root]` is `cost[root][root]` on return. `Run` returns false exactly where the code goes on with
index -1.

**File transfer** (`FtpFrames`, `FtpSession`, `FtpReplies`, `FtpDialogue`, `FtpPeer`). `FtpPeer.Peer` fills
buffers from a socket that may split the stream anywhere, builds messages byte by byte, serves commands and
gives them; `FtpFrames` and `FtpSession` say what streams mean, `FtpReplies` gives the reply to every
command in the values that go over the wire, and `FtpDialogue` puts a client and the server together, over
any sequence of commands. Files, directories, listings, refusals, failing reads and the resolution of names
are part of a `World` value.

**Shell** (`ShellLine`, `ShellExec`, `ShellLexer`, `ShellParse`, `ShellRoundTrip`, `ShellCommand`,
`ShellRedirects`, `ShellTexts`, `ShellWaits`). Lexing with pushback, reading a line with continuation,
splitting words in place, checking redirections, and the recursive start of a pipeline that rewrites
descriptors 0 and 1. Starting a process records the descriptors it is started with.

Where code and expectation differ, the code is followed:

- setting or clearing the lock bit by hand breaks the cache invariant exactly when the block is cached and
  its bit changes (`BufferPool.StepKeepsInv`); a failing input is `BufferPool.HandSetLockBreaks`;
- a datagram of 12 bytes crashes the server if and only if its type or code has no name in the tables used
  for logging, or it is a request or release from an endpoint without a record, or a wrong release of a
  lease in use. A datagram of any other length is acted on through whatever client pointer the last message
  left, and crashes the server if and only if there is none or its client is gone
  (`DhcpServerRuns.CrashCondition`); failing inputs are `DhcpServerRuns.StrayStopsServer`. Honest clients
  can bring a crash about without any message being lost or repeated: a release overtakes a request
  (`DhcpLease.HonestRunStopsServer`);
- a server record left in `Init` is covered by no timer. A record is in `Init` if and only if a malformed
  first DISCOVER put it there and no well-formed one came since (`DhcpServerRuns.InitOverRuns`), and a quiet
  server gets every address back if and only if there is none (`DhcpServerRuns.QuietServerReclaims`); a
  failing input is `DhcpServerRuns.MalformedDiscoverLeaks`;
- Dijkstra stops not only when nodes are apart: finite edges that add up to `INF` stop it too
  (`ShortestPath.ApartStops`, `ShortestPath.FarStops`);
- `is_addr_pool_empty` returns the number of addresses left (`DhcpDaemon.Daemon.IsAddrPoolEmpty`);
- a request stores its lifetime in the server's record even when it is refused
  (`DhcpDaemon.Daemon.GetEvent`);
- retrieving an empty file is answered without an announcement, so the client refuses a transfer that lost
  nothing (`FtpSession.RetrieveGivesFile`);
- an error in a listing is followed by an end frame that the client does not read, and will take for the
  reply to its next command (`FtpSession.ListingInStep`); a failing read of a file is followed by none, and
  the client stays in step (`FtpSession.RetrieveGivesFile`). Over any sequence of commands, client and
  server are in step if and only if every listing is complete and every file being put can be read
  (`FtpDialogue.DialogueInStep`);
- an error behind the first line of a listing, or behind the first block of a file, breaks the grammar of
  replies, and nothing else does (`FtpSession.SessionGrammatical`);
- at the end of its input, unless a line is complete, the shell reads on forever
  (`ShellParse.Shell.ReadCommand`);
- a pipeline can wait for itself: for `a < missing | b`, the process that waits for `b` still holds the pipe
  `b` reads (`ShellWaits.StuckPipeline`). Waits end if and only if there is no command to the right of the
  rightmost file that cannot be opened, or output is redirected between the two (`ShellWaits.WaitsEnd`);
- `<` anywhere on a shell line feeds the first command only, and of several redirections the leftmost wins
  (`ShellExec.PipelineIsWired`).

## Model

| member | source | states |
|---|---|---|
| BufferPool.MaskTellsFlag | buffer/buffer.c:107-112 | masking the status byte with a flag's bit is nonzero exactly if that flag is set |
| BufferPool.SetMaskSetsOneFlag | buffer/buffer.c:113-118 | for every status byte, masking a bit in or out changes that flag and no other |
| BufferPool.FlagKeepsInv | buffer/buffer.c:113-118 | changing a flag keeps the cache invariant if and only if it is not the lock flag or leaves it as it was |
| BufferPool.DwrPrefix | buffer/blockfunc.c:34-43 | the length of the longest run of delayed-write buffers at the front of the free list |
| BufferPool.DrainedOneMore | buffer/blockfunc.c:34-43 | taking one more delayed-write buffer off the list locks exactly the first k+1 of the original list and keeps the invariant |
| BufferPool.GetBlkMiss | buffer/blockfunc.c:24-49 | however many delayed-write buffers were drained, the loop's exit agrees with the one-shot specification |
| BufferPool.GetBlkKeepsInv | buffer/blockfunc.c:3-51 | a request keeps the invariant: each buffer on the queue of its block, blocks distinct, free exactly when unlocked |
| BufferPool.BrelseKeepsInv | buffer/blockfunc.c:53-86 | a release keeps the same invariant |
| BufferPool.RebindKeepsInv | buffer/blockfunc.c:45-46 | moving a buffer to another block's queue keeps the invariant if that block is not cached |
| BufferPool.StepKeepsInv | buffer/blockfunc.c:3-108 | every operation keeps the invariant; setting or clearing the lock bit by hand does so exactly when the block is not cached or its bit is that already |
| BufferPool.HandSetLockBreaks | buffer/blockfunc.c:88-97 | right after initialisation, setting the lock bit of any block that starts free breaks the invariant |
| BufferPool.PartlyFreedInv | buffer/buffer.c:18-27 | during initialisation the invariant holds however many of the initially free buffers have been put on the list |
| BufferLaws.ByteIsRead | buffer/buffer.h:8-13 | the byte composed of the bits 1, 2, 4, 8, 16 and 32 is read back as the six flags it was composed of |
| BufferLaws.ChangeSetsOneFlag | buffer/blockfunc.c:88-108 | setting or clearing a flag of a block gives its buffer that flag and leaves the other five, the other buffers, the queues and the free list alone |
| BufferLaws.QueueOfBlock | buffer/buffer.c:8 | a buffer is on the queue numbered by its block modulo the number of queues, and on no other |
| BufferLaws.MissMovesVictim | buffer/blockfunc.c:44-46 | a miss takes its victim, and no other buffer, off the queue of its former block and puts it at the end of the queue of the new one |
| BufferLaws.InitialPoolStarts | buffer/buffer.c:11-28 | the initial cache, said outright: blocks, statuses, free list and queues |
| BufferLaws.HeldFromStart | buffer/buffer.c:18-24 | after any run that left it alone, releasing a block that started held puts its buffer last on the free list, unlocked, valid and not marked otherwise |
| BufferRuns.HeldUntilReleased | buffer/blockfunc.c:7-86 | a locked buffer keeps its block through any operation, and is unlocked exactly by a release of its own block while its contents are valid |
| BufferRuns.HeldAlongRun | buffer/blockfunc.c:3-108 | along any run without such a release, a held buffer stays locked, keeps its block, and is what a search for that block finds |
| BufferRuns.GrantIsExclusive | buffer/blockfunc.c:3-51 | a request never hands out a buffer that is held; what it hands out is locked and holds the block asked for |
| BufferRuns.HitTouchesOneBuffer | buffer/blockfunc.c:8-23 | a hit changes one buffer: held, it is marked awaited; free, it is locked, handed out and cut from the free list in place |
| BufferRuns.MissRemapsOneBlock | buffer/blockfunc.c:24-49 | a miss fails exactly if every unlocked buffer is delayed-write; else it locks that prefix and the victim, which is no longer valid, changes no other status, and remaps exactly one block |
| BufferRuns.ReleaseTouchesOneBuffer | buffer/blockfunc.c:69-85 | a release clears the awaited mark; a valid buffer goes to the front (marked old) or end of the free list, unlocked and not old; an invalid one stays held |
| BufferRuns.IdleReleaseDoesNothing | buffer/blockfunc.c:57-64 | releasing a block that is not cached or not held changes nothing |
| BufferRuns.ReleaseUndoesHit | buffer/blockfunc.c:3-86 | releasing a buffer just obtained restores the cache, except that the buffer is now last on the free list |
| BufferRuns.FreeListStep | buffer/blockfunc.c:75-79 | a release adds its buffer at one end of the free list; any other operation only takes buffers off |
| BufferRuns.FreeListInReuseOrder | buffer/buffer.c:69-99 | over every run: first the buffers released as old, newest first, then the others, oldest release first |
| BufferRuns.VictimIsFirstInReuseOrder | buffer/blockfunc.c:34-48 | over every run, a miss takes the first buffer in that order that is not delayed-write |
| BufferRuns.VictimIsLeastRecentlyReleased | buffer/blockfunc.c:34-48 | in runs that release no buffer as old, the victim is the least recently released buffer that is not delayed-write |
| BufferCache.Cache.SearchHash | buffer/buffer.c:30-37 | walking one ring finds the header of the block, or null exactly if no buffer holds it |
| BufferCache.Cache.InsertTail | buffer/buffer.c:47-53 | the four pointer writes turn the ring of q into the ring of q + [i] |
| BufferCache.Cache.UnlinkHash | buffer/buffer.c:61-67 | the pointer writes turn the ring of q into the ring of q without its k-th entry |
| BufferCache.Cache.AddBufToHashlist | buffer/buffer.c:55-59 | files a header at the tail of its block's queue, all other queues keeping their links |
| BufferCache.Cache.RemoveFromHash | buffer/buffer.c:61-67 | takes a header off its queue, all other queues keeping their links |
| BufferCache.Cache.InsertFreelistHead | buffer/buffer.c:69-76 | unlocks the header and puts it in front of the free ring |
| BufferCache.Cache.InsertFreelistTail | buffer/buffer.c:78-85 | unlocks the header and puts it at the end of the free ring |
| BufferCache.Cache.RemoveFromFreelist | buffer/buffer.c:87-94 | locks the header and takes it out of the free ring, wherever it stands |
| BufferCache.Cache.GetOldestBuffer | buffer/buffer.c:96-99 | the header at the front of the free list, or the list head if the list is empty |
| BufferCache.Cache.IsFreelistEmpty | buffer/buffer.c:101-105 | holds exactly if the free list is empty |
| BufferCache.Cache.GetBlk | buffer/blockfunc.c:3-51 | the looping, relinking program ends, keeps links and invariant, and has the result and effect specified for the request |
| BufferCache.Cache.TakeHit | buffer/blockfunc.c:8-23 | the hit branch on the heap: lock and unlink, or mark awaited |
| BufferCache.Cache.TakeMiss | buffer/blockfunc.c:24-49 | one turn of the miss branch on the heap: fail, drain one, or rebind |
| BufferCache.Cache.Brelse | buffer/blockfunc.c:53-86 | the release on the heap keeps links and invariant and has the specified effect |
| BufferCache.Cache.SetStat | buffer/blockfunc.c:88-97 | sets one flag of the buffer that holds the block, if any |
| BufferCache.Cache.ResetStat | buffer/blockfunc.c:99-108 | clears one flag of the buffer that holds the block, if any |
| BufferCache.Cache.Perform | buffer/blockfunc.c:3-108 | any run of operations on the linked headers keeps links and invariant and is the run the theorems about runs speak of |
| BufferCache.Cache.InitBuf | buffer/buffer.c:11-28 | from distinct blocks and distinct free blocks among them, sets up a valid cache: buffer i holds block i with valid contents and no other mark, locked unless its block is listed as free; the free list is in the given order, and every queue has the buffers of its blocks in order |
| Dijkstra.ValueCheck | dijkstra/dijkstra.c:29-41 | ValueErr exactly if an entry lies outside 0..INF; otherwise NameNotAssigned exactly if a name is missing |
| Dijkstra.Exist | dijkstra/dijkstra.c:44-51 | true exactly if the target is among the first len entries |
| Dijkstra.Solver.AddNprime | dijkstra/dijkstra.c:58-62 | appends to the visited array; the counter wraps only when the array is full, so no entry is overwritten |
| Dijkstra.Solver.ClearNprime | dijkstra/dijkstra.c:63-68 | leaves no node visited |
| Dijkstra.Solver.Initialize | dijkstra/dijkstra.c:73-78 | after the root's row is copied, the loop invariant holds with only the root settled |
| Dijkstra.Solver.SelectNearest | dijkstra/dijkstra.c:83-90 | finds a least label among the unvisited nodes; -1 exactly if none is below INF; fin exactly if all are visited |
| Dijkstra.Solver.RelaxThrough | dijkstra/dijkstra.c:92-98 | lowers exactly the unvisited labels that the new node improves, and their predecessors |
| Dijkstra.Solver.Settle | dijkstra/dijkstra.c:91-98 | one round keeps the invariant with one more node settled |
| Dijkstra.Solver.Run | dijkstra/dijkstra.c:71-101 | completes if and only if every node has distance below INF; then D holds the least path costs, Nprime lists every node in order of distance, and p is a shortest-path tree; with a zero diagonal the root is no exception |
| ShortestPath.CheapPathIsFinite | dijkstra/dijkstra.c:94-95 | a path that costs less than INF uses no INF entry, so adding INF as a number never yields a smaller value |
| ShortestPath.Crossing | dijkstra/dijkstra.c:85-95 | a walk to an unsettled node costs at least the least unsettled label |
| ShortestPath.SettleNext | dijkstra/dijkstra.c:91-98 | settling a least unsettled node and relaxing through it keeps order, tree labels, frontier and lower bounds |
| ShortestPath.FollowTree | dijkstra/dijkstra.c:95-96 | following p from the j-th settled node reaches the root within j steps, along edges that add up to its label |
| ShortestPath.SettledIsOptimal | dijkstra/dijkstra.c:71-101 | the label of a settled node is the least cost of any path that uses no INF entry |
| ShortestPath.AllSettled | dijkstra/dijkstra.c:71-101 | once all nodes are settled, labels are distances, the visited array is ordered by distance, and p is a shortest-path tree |
| ShortestPath.ZeroDiagonal | dijkstra/dijkstra.c:78 | if the root's diagonal entry is zero, its label is its distance too, and the whole visited array is ordered by distance |
| ShortestPath.StuckIsUnreachable | dijkstra/dijkstra.c:84-91 | when no unsettled label is below INF, some node has no path costing less than INF |
| ShortestPath.ApartStops | dijkstra/dijkstra.c:84-91 | two nodes joined by nothing but INF entries are a matrix on which the program does not complete |
| ShortestPath.FarStops | dijkstra/dijkstra.c:84-91 | so are three nodes in a chain of finite edges whose sum reaches INF |
| ShortestPath.FullOrder | dijkstra/dijkstra.c:58-62 | a duplicate-free visited list has at most n entries, and n entries exactly if it holds every node |
| DhcpServerRuns.RespondFaithful | mydhcp/mydhcpserver.c:90-98 | no message changes whose record it is or which address it holds, nor lets a lease or wait exceed its maximum |
| DhcpServerRuns.CrashCondition | mydhcp/mydhcpserver.c:43-80 | a turn has no defined outcome if and only if its message has a type or code without a name, is a request or release from an endpoint without a record, or a wrong release of a lease in use; or its datagram has the wrong length while the client pointer is unset, null, or left from a client that is gone |
| DhcpServerRuns.StrayStopsServer | mydhcp/mydhcpserver.c:58-80 | a datagram of the wrong length crashes the server as the first it hears, and right after any release of a lease |
| DhcpAnswers.RequestAnswered | mydhcp/mydhcpserver.c:455-520 | an allocation asked for while one is awaited, or an extension of a lease in use, is granted exactly if time, address and mask fit: an ACK with the time asked for, and a record in use for that time; else it is refused, the record dropped and the address put last in the pool |
| DhcpAnswers.DiscoverAnswered | mydhcp/mydhcpserver.c:427-442 | a well-formed DISCOVER of a known client is answered, by an offer for the maximal time, exactly if its record is in Init |
| DhcpAnswers.ReleaseAnswered | mydhcp/mydhcpserver.c:522-535 | a right release of a lease in use drops the record in silence, a wrong one crashes the server, and before the lease is in use neither does anything |
| DhcpAnswers.NonsenseAnswered | mydhcp/mydhcpserver.c:488-509 | a DISCOVER with other fields set, or a request for something else, drops the record unless it is in Init |
| DhcpAnswers.OtherAnswered | mydhcp/mydhcpserver.c:90-117 | a request at the wrong time only leaves its time in the record, and a message no client sends leaves nothing |
| DhcpAnswers.NamelessCrashes | mydhcp/mydhcpserver.c:142-154 | a message with a type above 5 or a code above 4 crashes the server, whoever sent it |
| DhcpAnswers.StrangerAnswered | mydhcp/mydhcpserver.c:48-57 | a DISCOVER from an unknown endpoint gets the first address of the pool, offered if it is well-formed, or a refusal if there is none |
| DhcpAnswers.StrangerIgnored | mydhcp/mydhcpserver.c:43-59 | any other message of an unknown endpoint is ignored, except the lease requests and releases that crash the server |
| DhcpAnswers.StrayAnswered | mydhcp/mydhcpserver.c:58-80 | a datagram of the wrong length drops the record of the last sender in silence, unless it is in Init |
| DhcpAnswers.QuietTick | mydhcp/mydhcpserver.c:33-79 | a tick without messages, record by record: leases and waits run down by one, a wait that runs out is followed by a second offer and then by nothing; the new list, the pool and everything sent, in order |
| DhcpAnswers.LeaseRunsDown | mydhcp/mydhcpserver.c:33-68 | a lease that no message comes for lasts exactly its time and is then gone |
| DhcpAnswers.OfferRunsOut | mydhcp/mydhcpserver.c:545-560 | an offer that is not taken up is repeated once, with the tenth tick, and its record is gone with the twentieth |
| DhcpAnswers.ShutdownReturns | mydhcp/mydhcpserver.c:82-85 | stopped, the server puts the addresses of its clients behind those of the pool, front to back |
| DhcpServerRuns.ReceiveKeepsInv | mydhcp/mydhcpserver.c:43-59 | handling any message keeps addresses conserved, clients distinct and timers bounded |
| DhcpServerRuns.TurnKeepsInv | mydhcp/mydhcpserver.c:29-81 | so does every turn of the main loop, timer, timeout sweeps and datagrams of the wrong length included |
| DhcpServerRuns.RunConserves | mydhcp/mydhcpserver.c:29-85 | over every run, pool and client addresses are a permutation of the configuration, clients are distinct, and shutdown brings every address back |
| DhcpServerRuns.TurnIsQueueStep | mydhcp/mydhcpserver.c:324-408 | a turn takes new clients' addresses off the front of the pool and appends exactly the addresses of the clients it drops, in the order it drops them |
| DhcpServerRuns.PoolIsFifo | mydhcp/mydhcpserver.c:324-408 | over every run, addresses handed out followed by the pool are the initial pool followed by the addresses of the clients dropped, in order |
| DhcpServerRuns.IdleLeavesNothingDue | mydhcp/mydhcpserver.c:61-77 | after the sweeps no lease has run out and no record, in whatever state, has a wait that timed out |
| DhcpServerRuns.NothingDueOverRuns | mydhcp/mydhcpserver.c:29-81 | over every run, so it is at the end of each turn without a message |
| DhcpServerRuns.TickShortensLives | mydhcp/mydhcpserver.c:33-77 | a tick without messages shortens every record's remaining life by at least one |
| DhcpServerRuns.InitTurn | mydhcp/mydhcpserver.c:29-81 | after a turn a record is in Init exactly if it was and no well-formed DISCOVER came from its endpoint, or a malformed one just created it |
| DhcpServerRuns.InitOverRuns | mydhcp/mydhcpserver.c:487-497 | over every run: an endpoint has a record in Init if and only if it sent a malformed DISCOVER when it had no record and the pool was not empty, and no well-formed DISCOVER since |
| DhcpServerRuns.QuietServerReclaims | mydhcp/mydhcpserver.c:33-77 | from any reachable state, max(2 * MESSAGE_TIMEOUT, ttl_max) quiet ticks leave exactly the records in Init, unchanged and in order; every address is back if and only if there were none, that is, if and only if the run stranded no address |
| DhcpServerRuns.MalformedDiscoverLeaks | mydhcp/mydhcpserver.c:487-497 | after one DISCOVER with a nonzero code, its record and the first address are never given back |
| Rings.InsertTail | mydhcp/mydhcpserver.c:324-330 | the pointer writes turn the ring of q into the ring of q + [new] |
| Rings.InsertHead | mydhcp/mydhcpserver.c:378-384 | the pointer writes turn the ring of q into the ring of [new] + q |
| Rings.TakeFirst | mydhcp/mydhcpserver.c:332-339 | the pointer writes take the first cell out of the ring |
| Rings.Unlink | mydhcp/mydhcpserver.c:386-391 | the pointer writes turn the ring of q into the ring of q without its k-th cell |
| Rings.Length | mydhcp/mydhcpserver.c:341-350 | walking the ring counts its cells |
| DhcpDaemon.Daemon.InsertAddrPool | mydhcp/mydhcpserver.c:324-330 | relinks an address that is neither in the pool nor held to the end of the pool, all else staying as it was |
| DhcpDaemon.Daemon.FetchAddrPool | mydhcp/mydhcpserver.c:332-339 | relinks the pool without its first address, which is then neither in the pool nor held |
| DhcpDaemon.Daemon.IsAddrPoolEmpty | mydhcp/mydhcpserver.c:341-350 | a walk of the pool returns the number of addresses left, nonzero exactly if the pool is not empty |
| DhcpDaemon.Daemon.CreateClient | mydhcp/mydhcpserver.c:357-384 | yields null exactly if the pool is empty; else a fresh record in Init that holds the first address heads the list |
| DhcpDaemon.Daemon.ChangeState | mydhcp/mydhcpserver.c:394-408 | enters the state and restarts the wait; on termination the address returns to the pool and the record leaves the list |
| DhcpDaemon.Daemon.ReturnAddress | mydhcp/mydhcpserver.c:401-407 | relinks the held pool entry to the end of the pool, unlinks the client and gives its memory back, no address being in the pool and held, or held twice |
| DhcpDaemon.Daemon.SendAckOk | mydhcp/mydhcpserver.c:455-471 | grants the noted lifetime to the client and keeps the same in the record |
| DhcpDaemon.Daemon.SendAckNg | mydhcp/mydhcpserver.c:473-485 | refuses the request and drops the record |
| DhcpDaemon.Daemon.SendOffer | mydhcp/mydhcpserver.c:427-442 | offers the record's address for the maximal lifetime and waits |
| DhcpDaemon.Daemon.FsmFunc | mydhcp/mydhcpserver.c:90-98 | runs the table's action for state and event; the one null handler is a crash |
| DhcpDaemon.Daemon.GetEvent | mydhcp/mydhcpserver.c:110-117 | classifies a message by type, code and fields, noting the lifetime of any request in the record |
| DhcpDaemon.SweepStep | mydhcp/mydhcpserver.c:61-77 | acting on the first due record leaves the rest of the sweep's work unchanged and one record fewer to act on |
| DhcpDaemon.ActedIsQuiet | mydhcp/mydhcpserver.c:61-77 | a record kept by a sweep's action is not due again in that sweep, so restarting makes progress |
| DhcpDaemon.Daemon.SweepAt | mydhcp/mydhcpserver.c:62-67 | one timeout call keeps the sweep's goal, and a restart comes with fewer records left to act on, whatever the send returned |
| DhcpDaemon.Daemon.SweepAll | mydhcp/mydhcpserver.c:61-77 | a restarting sweep ends, and leaves list, pool and messages as one pass in list order does, with nothing left to act on |
| DhcpDaemon.Daemon.FindClient | mydhcp/mydhcpserver.c:44-47 | the walk stops at the client of the endpoint, or at the head if it has none |
| DhcpDaemon.Daemon.OnMessage | mydhcp/mydhcpserver.c:43-57 | finds or creates the sender's record and answers, and leaves the pointer where the specification says; crashes if and only if type or code have no name, the sender has no record and sends a request or release, or sends a wrong release of its lease |
| DhcpDaemon.Daemon.OnStray | mydhcp/mydhcpserver.c:58-80 | a datagram of the wrong length acts on the client the pointer was left at, whoever sent it; crashes if and only if the pointer is unset or null or the client's memory was given back |
| DhcpDaemon.Daemon.Iterate | mydhcp/mydhcpserver.c:29-81 | one turn of the program, whatever the length of the datagram, is the turn the server proofs speak about, and leaves the client pointer where they say |
| DhcpDaemon.Daemon.Serve | mydhcp/mydhcpserver.c:29-81 | the main loop over any turns is the run the server proofs speak about |
| DhcpDaemon.Daemon.ReleaseAll | mydhcp/mydhcpserver.c:82-85 | the shutdown loop ends and returns every address, front to back |
| DhcpDaemon.RunServer | mydhcp/mydhcpserver.c:26-88 | the whole program, from reading the configuration to the shutdown loop: unless a turn crashes it, the pool ends up a permutation of the configuration and the client list empty |
| DhcpClient.Program.FsmFunc | mydhcp/mydhcpclient.c:86-93 | runs the table's action: what is sent, the next state, the restarted wait |
| DhcpClient.Program.GetEvent | mydhcp/mydhcpclient.c:318-357 | classifies a reply; any grant overwrites lifetime and address, and a refused offer stops the client in any state |
| DhcpClient.Program.NextEvent | mydhcp/mydhcpclient.c:49-68 | the event of a turn, message and signals before timers, half lifetime before timeouts |
| DhcpClient.Program.Iterate | mydhcp/mydhcpclient.c:28-70 | one turn of the program is the turn the lease proofs speak about, except that a message whose type or code has no name has no defined outcome |
| DhcpClientTurns.OfferTaken | mydhcp/mydhcpclient.c:227-242 | an offer is taken exactly while one is awaited, asking for the address and time offered; at other times both are only noted |
| DhcpClientTurns.OfferRefused | mydhcp/mydhcpclient.c:318-325 | a refused offer ends the client while one is awaited, and stops it at any other time |
| DhcpClientTurns.AckTaken | mydhcp/mydhcpclient.c:275-280 | an ACK starts or renews the lease exactly while one is awaited, for the whole of its time |
| DhcpClientTurns.AckRefused | mydhcp/mydhcpclient.c:335-342 | a refused request ends the client while an answer is awaited, and does nothing at other times |
| DhcpClientTurns.OthersIgnored | mydhcp/mydhcpclient.c:350-357 | what only clients send does nothing |
| DhcpClientTurns.StrayEnds | mydhcp/mydhcpclient.h:38-64 | a datagram of the wrong length ends a client that awaits anything, and does nothing to one that does not |
| DhcpClientTurns.SignalsEnd | mydhcp/mydhcpclient.c:261-273 | hung up, a client with an address gives it back and ends; interrupted, it stops and keeps silent |
| DhcpClientTurns.WaitingTick | mydhcp/mydhcpclient.c:282-310 | a tick of a waiting client: its wait runs down, or its message goes out once more, or it ends |
| DhcpClientTurns.HoldingTick | mydhcp/mydhcpclient.c:60-68 | a tick of a client with an address: its time runs down, with an extension asked for at half of it and the end at its end |
| DhcpClientTurns.UnansweredEnds | mydhcp/mydhcpclient.c:60-68 | unanswered, a client sends its DISCOVER or request once more, with the tenth tick, and ends with the twentieth |
| DhcpClientTurns.LeaseEnds | mydhcp/mydhcpclient.c:60-68 | without an answer, a client with an address asks for an extension once, at half of its time, and ends with the last of it |
| DhcpClientTurns.NobodyAnswers | mydhcp/mydhcpclient.c:25-26 | from its start, a client that hears nothing sends two DISCOVERs, ten ticks apart, and stops after twenty |
| DhcpLease.AnswerOk | mydhcp/mydhcpserver.c:43-59 | serving a live client's message keeps its lease backed and every grant in flight backed by its record |
| DhcpLease.ClientTurnOk | mydhcp/mydhcpclient.c:49-69 | a client's own step keeps its lease backed, and what it sends fits its record |
| DhcpLease.ClientTickOk | mydhcp/mydhcpclient.c:32-69 | a tick keeps every lease backed, whether or not the server still runs: it runs out at the client no later than at the server |
| DhcpLease.TickSends | mydhcp/mydhcpserver.c:69-77 | the only messages a tick makes the server send are offers of addresses it still holds for the client |
| DhcpLease.StepKeepsInv | mydhcp/mydhcpserver.c:29-81 | every step of the composed system, a delivery that crashes the server included, keeps the invariant behind exclusivity |
| DhcpLease.HolderIsBacked | mydhcp/mydhcpclient.c:28-70 | in every reachable state, a client using an address has a server record in use for it that expires no earlier |
| DhcpLease.LeasesAreExclusive | mydhcp/mydhcpclient.h:38-64 | in every reachable state, two running clients in in_use or wait_ext_ack use different addresses |
| DhcpLease.DeliveredExchangeGrants | mydhcp/mydhcpserver.h:40-57 | from any state that meets the invariant, with the server up, a new client whose messages are delivered gets the first pool address for the full lifetime |
| DhcpRenewal.RenewalGrants | mydhcp/mydhcpserver.c:537-543 | from any state that meets the invariant, with the server up, a client at half of its time that is heard and hears the answer has its address for the whole lifetime again, and so has its record |
| DhcpRenewal.LeaseIsKept | mydhcp/mydhcpclient.h:55-62 | so a client whose messages get through keeps its address over any number of renewals |
| DhcpRenewal.UnansweredInSystem | mydhcp/mydhcpclient.h:38-54 | in the composed system, a client whose messages are lost has its message on the way again after exactly ten ticks, and has stopped after twenty |
| DhcpLease.LateAckSharesAddress | mydhcp/mydhcpclient.c:318-357 | a run with one address and a lifetime of one tick in which an ACK that outlives a tick leaves two running clients using the same address |
| DhcpLease.LateMessageStopsServer | mydhcp/mydhcpserver.c:499-535 | a request or a repeated release that arrives after the release of a running client stops the server |
| DhcpLease.HonestRunStopsServer | mydhcp/mydhcpserver.c:499-520 | a run from the start, with no message lost or repeated, in which an honest client's release overtakes its request and the server is stopped |
| FtpFrames.DecodeEncode | myftp/common.c:40-62 | reading a header back gives type, code, length and payload, with the rest of the stream behind |
| FtpFrames.JoinChunks | myftp/common.c:133-140 | the blocks a file is read in join to the file |
| FtpFrames.ChunkAt | myftp/common.c:133-140 | the k-th block is the READBLK bytes at k * READBLK, or what is left of them |
| FtpFrames.RecvFrames | myftp/common.c:150-167 | data frames of any lengths and an end frame are received as their payloads in order, the stream left behind the end frame |
| FtpFrames.AcceptedIsFrames | myftp/common.c:150-167 | conversely, whatever is accepted as a transfer is data frames up to the first end frame, with exactly their payloads written |
| FtpFrames.FileRoundTrip | myftp/common.c:124-169 | for every file, sending and then receiving gives the file back and consumes exactly the frames sent |
| FtpSession.StoreKeepsFile | myftp/myftpd.c:314-334 | storing under a name that resolves to no directory leaves the client's file on the server, other files and the rest of the stream untouched |
| FtpSession.RetrieveGivesFile | myftp/myftpd.c:289-312 | retrieving gives the client what can be read and leaves it at the next frame, whether the file can be opened and read or not; it is accepted if and only if all of it could be read and it is not empty |
| FtpSession.RetrieveGrammar | myftp/myftpd.c:258-266 | a non-empty readable file is answered by exactly one announcement, then data frames, then exactly one end frame |
| FtpSession.StoreThenRetrieve | myftp/myftpd.c:289-334 | storing and then retrieving in one session gives the file back |
| FtpSession.ReplyGrammatical | myftp/myftpd.c:184-334 | the reply to any single command has data frames only between an announcement and an end frame, unless it is a listing that breaks off behind its first line or a file that does behind its first block |
| FtpSession.SessionGrammatical | myftp/myftpd.c:74-102 | everything sent in a session, whatever commands it holds, is so if and only if no listing it asks for breaks off behind its first line and no file behind its first block |
| FtpSession.ListingInStep | myftp/myftpd.c:268-283 | the client gets the lines of a listing, and stands at the next frame if and only if the listing was complete; else an end frame is left over |
| FtpReplies.RefusedPath | myftp/myftpd.c:224-242 | a refused path is answered by a permission error for CWD, LIST, RETR and STOR alike, LIST adding an end frame |
| FtpReplies.MissingPath | myftp/common.c:89-105 | a path where there is nothing is answered by a missing-file error for CWD, LIST and RETR, LIST adding an end frame |
| FtpReplies.EnteringReplied | myftp/myftpd.c:204-222 | CWD enters a directory, changing nothing but the working directory, and answers an unknown error for a file; a leading `~` is the home directory |
| FtpReplies.ListingReplied | myftp/myftpd.c:268-283 | LIST sends exactly the lines of the listing in order, then the error it ended in, if any, then an end frame |
| FtpReplies.FetchingReplied | myftp/myftpd.c:289-312 | RETR sends exactly the blocks of 1024 bytes of the file behind one announcement, then an end frame, or an error if reading failed; a directory is opened and cannot be read |
| FtpReplies.StoringReplied | myftp/myftpd.c:314-334 | STOR makes the file exactly what was received, changing no other, and answers an unknown error for a directory |
| FtpReplies.NamelessReplied | myftp/myftpd.c:184-210 | commands without a name: PWD tells the directory, QUIT ends in silence, LIST lists the working directory, CWD, RETR and STOR are errors of syntax |
| FtpReplies.OthersReplied | myftp/myftpd.c:86-100 | anything that is no command is skipped behind its header, in silence |
| FtpReplies.CutOffReplied | myftp/myftpd.c:204-213 | a name that the stream cuts off is not answered |
| FtpReplies.SessionEnds | myftp/myftpd.c:74-102 | a session ends with the stream or with QUIT, nothing behind being served, and a PWD with a payload crashes it |
| FtpReplies.SessionGoesOn | myftp/myftpd.c:74-102 | otherwise replies follow each other, and each command finds the world the one before it left |
| FtpReplies.AcceptedReply | myftp/myftpc.c:364-376 | the client accepts a transfer exactly if it is announced and comes to its end frame |
| FtpReplies.AcceptedLines | myftp/myftpc.c:216-232 | whatever is accepted as lines is data frames up to the first end frame, their payloads shown in order |
| FtpReplies.AcceptedListing | myftp/myftpc.c:197-232 | the client accepts a listing exactly if it is announced and its lines come to their end, and shows what the announcement carries first |
| FtpDialogue.WhatIsSpoken | myftp/myftpc.c:404-417 | the client sends a file if and only if the server is going to store it |
| FtpDialogue.ReplyTaken | myftp/myftpc.c:134-233 | whatever follows on the stream, the client reads exactly the reply to its command, unless that is a listing that is not complete |
| FtpDialogue.ExchangeAtRest | myftp/myftpc.c:134-420 | a command, carried out by both sides, leaves nothing unread and nothing awaited if and only if the listing asked for is complete and the file put can be read; then it has the effect it should have |
| FtpDialogue.DialogueInStep | myftp/myftpc.c:18-28 | over any sequence of get, put, dir, cd and pwd, refused and failing ones included, both sides are at rest after each command if and only if every listing is complete and every file put can be read |
| FtpDialogue.DialogueIsSession | myftp/myftpd.c:74-102 | a dialogue in step is a session of the server, which ends in the world the commands lead to, having sent exactly their replies |
| FtpDialogue.PutThenGet | myftp/myftpd.c:289-334 | what a client puts is what a later get of the same path gives it, over any commands in between that do not store there, changes of directory included |
| FtpPeer.Peer.RecvMsg | myftp/myftpd.c:61-72 | reads exactly the bytes asked for, however the socket splits them, or fails exactly if the stream is too short |
| FtpPeer.Peer.RecvPayload | myftp/common.c:154-161 | any frame length up to 65535 is written in READBLK pieces; a cut-off payload is written in whole pieces only |
| FtpPeer.Peer.RecvFile | myftp/common.c:144-169 | the receiving loop writes and leaves what the stream means, also when it fails |
| FtpPeer.Peer.BuildMsg | myftp/common.c:42-57 | the buffer filled byte by byte is the header, the length in network byte order, and the payload |
| FtpPeer.Peer.SendMsg | myftp/common.c:40-65 | puts the encoding of the frame on the stream; any frame but a data frame inside a transfer arms the announcement |
| FtpPeer.Peer.SendData | myftp/myftpd.c:258-266 | a data frame, after an announcement exactly if it is the server's first in the transfer |
| FtpPeer.Peer.SendFile | myftp/common.c:124-142 | puts the bytes of the blocks that can be read on the stream as data frames in order, announced once, and not at all if there are none; fails exactly if a read does |
| FtpPeer.Peer.FtpGet | myftp/myftpd.c:289-312 | the retrieval command replies as specified, with an error in place of the end frame when a read fails, and leaves the announcement armed |
| FtpPeer.Peer.FtpPut | myftp/myftpd.c:314-334 | the storage command replies, receives and stores as specified and leaves the announcement armed |
| FtpPeer.Peer.Cd | myftp/myftpd.c:204-222 | enters a directory, the home sign expanded, and says so; otherwise the error tells a refused name, a missing one and a file apart |
| FtpPeer.Peer.Dir | myftp/myftpd.c:268-283 | sends the lines of the listing as data frames, then any error, then an end frame |
| FtpPeer.Peer.ServeOne | myftp/myftpd.c:80-100 | dispatches one command as specified; the announcement is armed before and after each |
| FtpPeer.Peer.ClientHandler | myftp/myftpd.c:74-102 | the bytes a whole session of the program sends are those of the session the grammar is proved of |
| FtpPeer.Peer.ClientGet | myftp/myftpc.c:364-376 | the client's get asks, writes what its view of the reply says, and leaves the stream as the dialogue says |
| FtpPeer.Peer.ClientDir | myftp/myftpc.c:197-232 | the client's dir asks, shows the lines its view of the reply gives, a payload of the announcement included, and leaves the stream as the dialogue says |
| FtpPeer.Peer.ClientPut | myftp/myftpc.c:404-420 | the client's put sends the bytes of the transfer if and only if the server agrees, and no end frame if its own read fails |
| FtpPeer.Peer.ClientCd | myftp/myftpc.c:166-178 | the client's cd asks and reads one header |
| FtpPeer.Peer.ClientPwd | myftp/myftpc.c:137-155 | the client's pwd asks, reads one frame if it is told the directory and one header otherwise, and shows the directory |
| FtpPeer.Peer.RecvLines | myftp/myftpc.c:216-232 | the receiving loop for lines shows and leaves what the stream means, also when it fails |
| ShellLexer.PlainPrefix | mysh/parseline.c:82-91 | the number of characters before the first special one |
| ShellLexer.Input.GetToken | mysh/parseline.c:54-96 | the program with one-character pushback reads the first token of the stream and leaves what follows it |
| ShellLexer.GetArgs | mysh/parseline.c:135-152 | splitting in place makes each argv entry a terminated copy of its word, and turns only blanks into terminators |
| ShellParse.LineShape | mysh/parseline.c:36-49 | a line read ends in its only newline or end of input, which follows neither a redirection nor a pipe |
| ShellParse.LineIsTokens | mysh/parseline.c:21-49 | a line is the tokens read for it without their newlines, and the one that ends it |
| ShellParse.ReadsFirstTokens | mysh/parseline.c:32-35 | the tokens read are the first tokens of the input, none skipped, whether or not they make up a line |
| ShellParse.NewlineDropped | mysh/parseline.c:36-49 | a newline is dropped if and only if nothing, or a redirection or pipe, stands before it |
| ShellParse.LineWords | mysh/parseline.c:32-34 | only command tokens, and what the input ends in, have words, and no token is marked a target before checking |
| ShellParse.AcceptedIsExecutable | mysh/parseline.c:98-133 | an accepted line starts with a command; exactly the blocks behind redirections are marked targets, and each redirection holds its target's first word |
| ShellParse.AcceptedExactly | mysh/parseline.c:98-133 | of the lines that can be read, exactly those are accepted that begin with words, have every redirection between two command tokens, and `&` only last |
| ShellParse.Shell.ReadCommand | mysh/parseline.c:14-52 | the nested reading loops, which overwrite dropped newlines, read the line at the start of the input, or read forever, or leave their arrays, exactly as specified |
| ShellParse.Shell.ParseLine | mysh/parseline.c:98-133 | succeeds if and only if the line has words first, redirections only between commands, `&` only before the end; then marks exactly the targets and sets bg for a final `&` |
| ShellRoundTrip.WordsOfLaid | mysh/parseline.c:135-152 | splitting words laid out with blanks between them gives the words back |
| ShellRoundTrip.LexOperator | mysh/parseline.c:62-72 | every operator is read back as itself, `>` before anything but `>` included |
| ShellRoundTrip.LayoutRoundTrip | mysh/parseline.c:14-96 | however a token sequence is spaced and broken over lines, it is read as exactly those tokens and words, and the input is left behind it |
| ShellExec.Process.ExecRecursive | mysh/execline.c:195-291 | the recursion over mutable descriptors starts and opens what the right-to-left scan says, and leaves the descriptor it says as output |
| ShellExec.Process.StartRightmost | mysh/execline.c:201-285 | one level of the recursion: makes a pipe, redirects on the way to the rightmost command, starts it with the right descriptors, and turns the output into its pipe |
| ShellExec.ScanRedirects | mysh/execline.c:207-235 | walking right to left, the leftmost redirection passed is the one in force |
| ShellExec.PipelineIsWired | mysh/execline.c:195-291 | the mutation equals the declared wiring; if a file cannot be opened, exactly the commands to its right are started; the output left over is the pipe of the last command started, unless redirected since |
| ShellExec.NeighboursShareAPipe | mysh/execline.c:250-284 | a command whose output is not redirected writes into the very pipe the next command reads |
| ShellCommand.WiredOnce | mysh/execline.c:195-291 | the declared wiring starts each command exactly once, from right to left |
| ShellCommand.AcceptedLineIsWired | mysh/parseline.c:14-133 | every accepted line starts exactly its commands, each once and wired as declared, or those right of the rightmost file that cannot be opened |
| ShellRedirects.RedirectionRead | mysh/parseline.c:98-133 | in an accepted line a redirection stands between commands, and its file is the first word of the one behind it |
| ShellRedirects.OutputFile | mysh/execline.c:217-230 | a command of an accepted line behind which stands `>` or `>>` before the next command writes to the file of the leftmost of these, truncated for `>` and appended to for `>>` |
| ShellRedirects.InputFile | mysh/execline.c:210-216 | the first command of an accepted line reads the file of the leftmost `<` on the line |
| ShellRedirects.OtherwiseWired | mysh/execline.c:250-284 | without redirections, commands read and write what the line inherits at its ends and the pipes in between |
| ShellRedirects.OpenedInOrder | mysh/execline.c:207-235 | the files opened are those of the redirections, each once, from right to left, each in its mode |
| ShellRedirects.FilesAfter | mysh/execline.c:210-230 | starting a line empties exactly the files some `>` names, whatever they held, keeps those only `>>` names, creates the missing ones empty, and leaves all others as they were |
| ShellTexts.TwoWordsRead | mysh/parseline.c:14-96 | two words typed around an operator are read as those words and that operator |
| ShellTexts.InputText | mysh/execline.c:210-216 | typed `a < w`, accepted, starts a on the file w |
| ShellTexts.OutputText | mysh/execline.c:217-223 | typed `a > w` starts a with its output to w, emptied |
| ShellTexts.AppendText | mysh/execline.c:224-230 | typed `a >> w` starts a with its output to the end of w |
| ShellTexts.PipeText | mysh/execline.c:250-284 | a typed pipe of two words starts the right one on the pipe the left one writes to |
| ShellTexts.BackgroundText | mysh/parseline.c:98-133 | typed `a &` is accepted and starts a with the inherited descriptors |
| ShellTexts.NothingTyped | mysh/parseline.c:36-41 | input that ends before anything but blanks and line ends is read forever |
| ShellTexts.WordAtEnd | mysh/parseline.c:42-47 | input that ends inside the first token makes the program leave its arrays |
| ShellTexts.GreaterAtEnd | mysh/parseline.c:62-72 | input that ends in `>` behind a word is a line that starts the word and opens nothing |
| ShellTexts.TokenTooLong | mysh/parseline.c:82-96 | a token of 256 characters or more makes the program leave its arrays |
| ShellTexts.TooManyWords | mysh/parseline.c:135-152 | so does a token of 64 words or more |
| ShellTexts.TooManyTokens | mysh/parseline.c:22-27 | and so does a line of more than 255 tokens |
| ShellWaits.OnlyLeftNeighbourWrites | mysh/execline.c:250-284 | of the commands of a line, only the next one to the left can write what a command reads |
| ShellWaits.WaitsEnd | mysh/execline.c:207-285 | no started command reads a pipe that the process waiting for it could write, if and only if no command stands right of the rightmost file that cannot be opened, or output is redirected between the two |
| ShellWaits.StuckPipeline | mysh/execline.c:207-285 | a line whose first command's input cannot be opened starts its second command on a pipe that the process waiting for it holds |
| ShellCommand.Runner.RunLine | mysh/execline.c:166-169 | reading, checking and starting, put together, do what the parser and the wiring specify; a refused line starts nothing, opens nothing and leaves the descriptors alone |

## Left out

- Integer width: integers are unbounded. In the code `ttl`, `D` and `pos` are machine integers, and `pos` in `send_file` overflows for files over 2 GB.
- BufferCache.Cache.SetFlag: headers hold the six flags, not the byte; `BufferPool.SetMaskSetsOneFlag` ties the two, and the two unused bits are not modelled.
- BufferCache.Cache.GetBlk: does not cover negative block numbers, which the command reader refuses; messages and the never-called sleep and wakeup are left out.
- Cache commands, display, `cache_data` and `insert_head`, which nothing calls.
- DhcpDaemon.Daemon.CreateClient: `malloc` does not fail. The list links are in a cell of their own around each record.
- DhcpDaemon.Daemon.OnMessage: where the code reads past a table of names, reads the null address of the list head or calls the null handler of `release_ng`, the outcome is a crash with no next state.
- DhcpClient.Program.Iterate: of a message whose type or code has no name, only that its outcome is undefined.
- DhcpDaemon.Daemon.OnStray: an uninitialised pointer is modelled as null; using memory given back, like reading null, is a crash with no next state.
- DhcpLease.LeasesAreExclusive: does not cover a message that survives a tick, which breaks it (`DhcpLease.LateAckSharesAddress`), forged messages, datagrams of the wrong length, or an endpoint that runs the client again.
- DhcpClient.Program.SendDhcp: does not model a failing send, whose result the client ignores.
- Lease protocol sockets, signal handlers, the configuration file and logging.
- FtpPeer.Peer.Cd: how the system resolves a name from a working directory is a function of the world; an unset `HOME` is not modelled.
- FtpPeer.Peer.Dir: what a listing yields, its lines and any failure behind them, is given by the world, and does not follow what is stored.
- FtpPeer.Peer.FtpGet: reads return full blocks until one fails or the file ends, and a file does not change while it is sent.
- FtpPeer.Peer.ClientDir: what is printed of a payload that the stream cuts off.
- FtpDialogue.DialogueInStep: the commands the client never sends, because its own files cannot be opened.
- FtpPeer.Peer.SendMsg: `send` sends the whole frame and does not fail.
- FtpPeer.Peer.ServeOne: a PWD with a payload is read into null and has no defined outcome; names longer than `PATH_MAX` are not modelled.
- FtpPeer.Peer.FtpPut: a missing directory in the name, and a write that fails, are not modelled.
- FtpPeer.Peer.RecvMsg: the client's `select` timeout is not modelled.
- File transfer: connecting, `fork`, signals, the client's command line and local commands.
- ShellParse.Shell.ReadCommand: where a token is too long, or there are too many tokens or words, the code leaves its arrays; nothing is said of what it does then.
- ShellLexer.GetArgs: the limit of `NARGS` words is checked where a line is read, not here.
- ShellExec.Process.ExecRecursive: `pipe`, `fork` and `dup2` do not fail, descriptor numbers other than 0 and 1 are not modelled, and what an opened file contains is not modelled.
- Shell job control, terminal groups, signals, built-in commands, `search_path` and `execve`.
- `mycp`, `tcpcli`, `udpcli` and the stand-alone `getargs`: plain input and output, or copies of code modelled here.
