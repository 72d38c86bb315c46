# Verified model of msgtrans

msgtrans is a tokio transport library. This project models the parts of it whose correctness is not visible
from reading one function, and proves what they promise:

- `LockFreeMap`, `LockFreeMapProofs`, `LockFreeMapTheorems`, `LockFreeMapProgress`, `LockFreeHashMap`: the sharded copy-on-write hash
  map, once as a step system in which any number of threads interleave at every atomic access, and once as the
  object a single thread uses. `LockFreeQueue`: the queue and its late counters.
- `PoolOwnership`, `PoolCounters`, `PoolFlags`, `PoolBounds`, `ConnectionPool`, `PoolHysteresis`: who owns a pooled
  connection, what the pool's counters and flags mean and how large it gets under every interleaving, the pool as one
  caller drives it, and when growing and shrinking undo each other. `MemoryPool`: the buffer pool for one caller; `MemoryPoolRaces`:
  its limits and its counter of cached bytes when gets, returns and clears interleave.
- `PacketCodec`, `Compression`, `StreamDecoder`: the wire format with its parsers and serialisers, payload
  compression between arbitrary builds, and reassembly of packets from a stream.
- `TransportLocks`, `TransportLockCalls`, `TransportOutcomes`, `RequestCorrelation`, `SessionClose`, `SessionCalls`:
  the lock protocol of one transport, which calls can break it and what calls come to, requests and their responses
  over an unreliable network, and adding and closing server sessions.
- `ConnectionWorker`, `ActorPipeline`: the command worker and the batching actor.
- `Prelude` (with `Words`), `Runs` (with `Counting`): what these share.

Two forms are used. Code that one caller at a time drives is a class whose methods have the program's loops
and branches, each proved against a function of the old state. Code whose point is that several callers
interleave is a step system: a state value with one program counter per thread, a step for every atomic
access, and the runs these generate. Its theorems hold in every state of every run, for any number of threads.
Timeouts, spurious failures of a weak compare-and-exchange, message loss and duplication, and everything an
underlying connection answers are arbitrary. Variables that only observe a run are named in the comment above
each state.

Where the code does not meet a property that its documentation or shape suggests, the project keeps the code,
proves exactly when the property holds, and gives a concrete run or input where it does not:

- The TCP event loop puts every read into a fresh buffer (src/adapters/tcp.rs:250-261), although the buffer's
  own contract for `Ok(None)` (src/adapters/tcp.rs:92-97) is "not yet": `EventLoopWorksExactlyWhenReadsArePackets`.
- Unknown type and compression codes are read as 0, so re-serialising is not the identity:
  `ReserializeExactlyWhenCodesKnown`.
- One read of the event loop returns at most 8192 bytes, so it cannot deliver a longer packet at all:
  `LoopCanDeliverExactlyWhenPacketsFitReads`.
- Returning a connection twice is not noticed: `ConnectionPool.Pool.ReturnConnection`.
- A validated pool configuration can thrash, in both directions: `NeverShrinksAfterExpandingExactlyWhen` with
  `ValidConfigMayThrash`, `NeverExpandsAfterShrinkingExactlyWhen` with `ValidConfigMayExpandAfterShrink`.
- `len()` of the queue can wrap round to a huge number; it can be relied on exactly if no more than one thread uses
  the queue: `LenIsTrustworthyExactlyWhenAlone`, `LenOfEmptyQueueMayBeHuge`.
- A connect during a close can leave a session without its adapter, and a close during a connect can make it
  panic, depending only on what is called: `AdapterLostExactlyWhen`, `ConnectPanicsExactlyWhen`, with the runs of
  `ConnectDuringCloseLosesAdapter` and `CloseDuringConnectPanics`.
- A response may answer an older request of the same id; a waiter can rely on its answer exactly if every earlier
  waiter of its id has failed to send its request: `OwnAnswerExactlyWhenIdIsFree`. Two id counters that both start
  at 1 share one pending table: `TwoCountersCrossResponses`.
- A failed compression is still labelled as compressed, and Zstd decompression is capped at 1 MiB:
  `TransparentExactlyWhenNoGuardFails`, `ZstdTransparentExactlyWithinCapacity`.
- A buffer returned under a class it is too small for comes back too small:
  `SmallBufferComesBackExactlyWhenIllegal`.
- The 0 that clearing the buffer pool stores can be wrong for good, exactly if a clear is combined with a return that
  can be kept or a get that can hit: `BytesStayRightExactlyWhen`. A class can exceed its limit by less than the number
  of its returns in progress at once: `IdleWithinBound`, `BoundIsReached`.
- The server's session tables are lock-free maps whose writes may give up, which the code ignores. A session is in a
  table exactly if its add was written there and no remove was: `InTableExactlyWhenWritten`, `TablesAgreeExactlyWhen`,
  with the run of `GivenUpWriteLeavesTablesApart`. If none gave up, the tables agree: `TablesAgreeAtRest`.

## Model

| member | source | states |
|---|---|---|
| LockFreeMapTheorems.Linearizable | src/transport/lockfree.rs:94-241 | in every state of every run the shards together are the sequential map after the successful CASes in order; every returned call is the one that was asked for and took effect once, between its start and its end, with the value it returned; calls that do not overlap keep their order; calls that gave up had no effect |
| LockFreeMapTheorems.CallsReturnLastWritten | src/transport/lockfree.rs:94-241 | in every run a returned call got the value of the last insert of its key before its own linearization point, or nothing if every one of them has a remove behind it |
| LockFreeMapTheorems.ContentsAreLastWritten | src/transport/lockfree.rs:118-241 | and in every state the shards hold a key exactly with the value of its last insert, unless a remove came behind it |
| LockFreeMapTheorems.LostRaceMeansProgress | src/transport/lockfree.rs:124-181 | a pending CAS can succeed exactly if no other write to its shard succeeded since its load, so a lost race means another operation made progress |
| LockFreeMapTheorems.RetriesAccounted | src/transport/lockfree.rs:124-181 | a call that returned lost fewer than 100 CASes and one that gave up exactly 100; at rest every call asked for has returned, versions count successful CASes, and failed CASes are the counted retries plus the calls that gave up, modulo the word |
| LockFreeMapTheorems.TraversalIsWeaklyConsistent | src/transport/lockfree.rs:244-321 | under concurrent writers a traversal reports only pairs that were in the map when their shard was loaded, no key twice, and every key untouched since it began exactly if the map had it |
| LockFreeMapTheorems.QuietTraversalIsExact | src/transport/lockfree.rs:244-300 | without a writer since it began, a traversal yields exactly the map and `len` its size |
| LockFreeMapProgress.CallCompletesAlone | src/transport/lockfree.rs:94-241 | from any state of any run, a call that is left alone returns within five steps with what the map holds for its key, having inserted, removed or left everything as asked |
| LockFreeMapProgress.WriterMayGiveUp | src/transport/lockfree.rs:160-181 | a writer that loses a hundred races in a row gives up and has changed nothing |
| LockFreeMapProgress.TraversalCompletesAlone | src/transport/lockfree.rs:244-321 | a traversal that is left alone visits every shard, one step for each, and has collected the map |
| LockFreeMapTheorems.MaskIsRemainder | src/transport/lockfree.rs:68-91 | for a power-of-two shard count the masked hash is the remainder, so the index is in range and every shard is reachable |
| LockFreeMapTheorems.MaskedLayoutIsWellFormed | src/transport/lockfree.rs:68-91 | any hash and any power-of-two count give a layout that assigns each key to one existing shard |
| LockFreeHashMap.HashMap.Get | src/transport/lockfree.rs:94-115 | returns what the whole map holds for the key, by looking into one shard |
| LockFreeHashMap.HashMap.Write | src/transport/lockfree.rs:118-241 | insert and remove change the whole map at their key, return the old value, bump one version and count their retries; after 100 failed CASes they fail and change no shard |
| LockFreeHashMap.HashMap.Len | src/transport/lockfree.rs:263-276 | the sum over the shards is the number of entries |
| LockFreeHashMap.HashMap.Snapshot | src/transport/lockfree.rs:244-260 | lists exactly the entries of the map, each key once |
| LockFreeHashMap.MergeUpdate | src/transport/lockfree.rs:118-181 | editing the shard of a key inserts the value into the whole map, or removes the key from it, and changes nothing else |
| LockFreeQueue.FifoAndConservation | src/transport/lockfree.rs:396-417 | in every run what was popped followed by what is queued is what was pushed |
| LockFreeQueue.PoppedIsReturned | src/transport/lockfree.rs:408-417 | every item popped is returned by one pop, none twice, all of them once no operation is under way |
| LockFreeQueue.OperationCompletes | src/transport/lockfree.rs:396-417 | from any state a push or pop that is left alone completes in three steps |
| LockFreeQueue.SizeCorrected | src/transport/lockfree.rs:396-417 | each counter is its true count corrected by the updates that threads between transfer and update still owe, modulo the word |
| LockFreeQueue.LenIsExactExactlyWhen | src/transport/lockfree.rs:408-427 | `len` is exact exactly if as many increments as decrements are owed, and wraps round exactly if more increments are owed than items and owed decrements |
| LockFreeQueue.LenIsTrustworthyExactlyWhenAlone | src/transport/lockfree.rs:396-427 | whatever a thread outside an operation reads from `len` in runs of n threads is the length if and only if n is at most 1 |
| LockFreeQueue.LenOfEmptyQueueMayBeHuge | src/transport/lockfree.rs:408-427 | for any two or more threads, a run whose queue is empty while `len` is the largest word |
| LockFreeQueue.CountersAtRest | src/transport/lockfree.rs:370-417 | when no operation is under way, all three counters are exact |
| LockFreeQueue.Queue.Push | src/transport/lockfree.rs:396-405 | appends the item and keeps the counters exact modulo the word |
| LockFreeQueue.Queue.Pop | src/transport/lockfree.rs:408-417 | takes the oldest item, or nothing from an empty queue, and keeps the counters exact |
| PoolOwnership.ExclusiveOwnership | src/transport/pool.rs:303-366 | in every run each connection of the map is in exactly one place: queue, an operation, a client, or lost; so two holders never share an id |
| PoolOwnership.NoLostUpdate | src/transport/pool.rs:308-348 | the separate read and write-back of a connection never overwrites another update; its use count is the number of recorded acquisitions |
| PoolCounters.CountersCorrected | src/transport/pool.rs:303-366 | in every run `total`, `available` and `active` are the sizes they stand for, corrected by the updates that operations in progress still owe, modulo the word, and every connection is accounted for |
| PoolCounters.CountersAtRest | src/transport/pool.rs:270-540 | when no operation is in progress `total` is the size of the map, `active` the connections with clients, `available` the queue and what a failed removal lost, and total is available plus active |
| PoolFlags.FlagTellsUse | src/transport/pool.rs:303-366 | in every run a connection is marked in use exactly while a client has it, is about to get it or has just given it back, unless the last write of the mark gave up; queued ones are marked available |
| PoolBounds.SizeStaysWithinBounds | src/transport/pool.rs:259-562 | in every run of interleaved gets and returns, expansions and shrinks between them, and map writes that give up, the map and `total` stay between the initial size and the larger of initial and maximum size; whenever nothing is in progress the counters are exact and `available` is at most `total` |
| PoolBounds.ManagerReachesGoal | src/transport/pool.rs:381-562 | at its end an expansion has reached exactly the floor of size times factor, less the map writes that gave up; a shrink four fifths of the size, bounded by the minimum and the idle connections, and besides the rounds that removed nothing |
| PoolBounds.OneFactorPerExpansion | src/transport/pool.rs:446-447 | in every run the strategy has advanced once for each completed expansion and otherwise not changed |
| PoolBounds.ManagerCanGoOn | src/transport/pool.rs:381-562 | an expansion or shrink that has begun can always go on |
| ConnectionPool.Pool.InitializePool | src/transport/pool.rs:259-293 | creates the initial size, all available, and establishes the accounting, or fails at the first map write that gives up |
| ConnectionPool.Pool.GetConnection | src/transport/pool.rs:303-335 | hands out the connection available for longest, marked in use once more, or fails on an empty queue; keeps the accounting |
| ConnectionPool.Pool.ReturnConnection | src/transport/pool.rs:338-366 | makes the connection available again or reports it unknown; the accounting survives exactly if it was not already available |
| ConnectionPool.Pool.SmartExpand | src/transport/pool.rs:381-466 | refuses below the threshold, fails above the maximum, and otherwise ends at exactly the floor of total times factor with fresh connections appended and the next factor selected |
| ConnectionPool.Pool.ForceExpand | src/transport/pool.rs:474-485 | expands whatever the utilization and restores the threshold |
| ConnectionPool.Pool.TryShrink | src/transport/pool.rs:488-562 | removes exactly the oldest available connections the shrink decision names, from queue and map, and never goes below the initial size |
| PoolHysteresis.ExpandsExactlyWhen | src/transport/pool.rs:381-416 | an expansion is refused exactly below the threshold, fails exactly above the maximum, and otherwise goes for the floor of total times the current factor |
| PoolHysteresis.ShrinksExactlyWhen | src/transport/pool.rs:488-520 | a shrink is refused exactly at the minimum or above the threshold, and otherwise removes as many idle connections as lead to four fifths or the minimum |
| PoolHysteresis.FactorsInTurn | src/transport/pool.rs:568-581 | after n expansions the factor is the n-th further one, and the last one for good |
| PoolHysteresis.NoShrinkAfterExpansion | src/transport/pool.rs:386-412 | if the shrink threshold times the factor is below the expansion threshold, a threshold-triggered expansion is not undone by a shrink, for every size, floors included |
| PoolHysteresis.NeverShrinksAfterExpandingExactlyWhen | src/transport/pool.rs:386-515 | that condition is exact: expansions of pools of every size are safe if and only if it holds, or holds with equality that no pool meets |
| PoolHysteresis.NeverShrinksAfterExpandingExactlyWhenBelow | src/transport/pool.rs:386-515 | for rational thresholds and factors, as all floating-point ones are, the strict inequality alone is exact |
| PoolHysteresis.NoExpansionAfterShrink | src/transport/pool.rs:489-515 | after a shrink an expansion is not needed, for every size, floors included, if the shrink threshold is low enough |
| PoolHysteresis.NeverExpandsAfterShrinkingExactlyWhen | src/transport/pool.rs:386-515 | shrinks of pools of every size are safe if and only if, at every size, the most used pool that shrinks is idle or ends below the expansion threshold |
| PoolHysteresis.NeverExpandsAfterShrinkingIsChecked | src/transport/pool.rs:386-515 | that is an inequality of the thresholds and a check of finitely many sizes |
| PoolHysteresis.ValidConfigMayExpandAfterShrink | src/transport/expert_config.rs:82-114 | validation accepts a configuration that shrinks and at once expands |
| PoolHysteresis.PresetsAreSteady | src/transport/expert_config.rs:34-79 | the default strategy and all three presets meet both conditions for every factor |
| PoolHysteresis.ValidConfigMayThrash | src/transport/expert_config.rs:82-114 | validation accepts a configuration that expands and at once shrinks |
| PoolHysteresis.Validate | src/transport/expert_config.rs:82-114 | accepts exactly the configurations with ordered sizes, ordered thresholds inside the unit interval and factors above 1, and otherwise names a condition that is violated |
| PoolHysteresis.ExpansionGrowsExactlyWhen | src/transport/pool.rs:398-416 | an expansion that reports success creates a connection exactly if the factor adds at least one |
| PacketCodec.HeaderRoundTrip | src/packet.rs:179-222 | a header of version 1 is read back as written, whatever follows it |
| PacketCodec.WrittenLayout | src/packet.rs:179-190 | the sixteen bytes of a header: version, codes 0 to 2 for compression and type, business type, and big-endian id, lengths and reserved flags at their offsets |
| PacketCodec.ReadLayout | src/packet.rs:193-222 | the same layout is read back from any sixteen bytes that start with 1, whatever follows |
| PacketCodec.RoundTrip | src/packet.rs:407-464 | parsing a well-formed packet's bytes followed by anything returns the packet |
| PacketCodec.RoundTripExactlyWhenWellFormed | src/packet.rs:407-464 | a packet survives the wire if and only if its version is 1 and its length fields describe its parts |
| PacketCodec.ParsedIsWellFormed | src/packet.rs:193-222 | parsing succeeds exactly on a complete packet of version 1 and yields a well-formed packet |
| PacketCodec.ParsedParts | src/packet.rs:425-464 | a parsed packet's parts are the bytes behind the header that the two big-endian length fields announce; any other input is refused with the first thing wrong: too short, version, extension header, payload |
| PacketCodec.ParseIgnoresTail | src/packet.rs:425-464 | parsing depends on nothing beyond the declared length |
| PacketCodec.HeaderRewritten | src/packet.rs:26-69 | a parsed header is written back as read except that unknown codes become 0 |
| PacketCodec.ReserializeExactlyWhenCodesKnown | src/packet.rs:407-464 | serialising a parsed packet gives back the consumed bytes if and only if both codes are known |
| PacketCodec.PacketFromBytes | src/packet.rs:425-464 | the owning parsers compute the one parse function, errors included |
| PacketCodec.SharedFromBytes | src/packet.rs:655-694 | the slicing parser agrees with it on every input, errors included, and copies nothing |
| PacketCodec.PacketToBytes | src/packet.rs:407-422 | the owning serialisers produce the one wire form |
| PacketCodec.SharedToBytes | src/packet.rs:634-652 | the shared serialiser produces the same bytes |
| PacketCodec.SharedRoundTrip | src/packet.rs:818-833 | a packet converted to a shared one and back is the same packet |
| PacketCodec.BuiltPacketSurvivesExactlyWhenPartsFit | src/packet.rs:311-330 | a packet built with the setters survives the wire if and only if its parts fit their length fields |
| Compression.HeaderDescribesPacketExactlyWhenPartsFit | src/transport/transport.rs:452-533 | the header of a packet built with options describes its parts if and only if they fit their fields, compressed or not, and is otherwise what the options ask for, including the label of a compression that failed |
| Compression.ReceivedIsDecodedWireForm | src/transport/transport.rs:374-388 | what a receiver hands over after building, serialising, parsing with any tail and decoding |
| Compression.TransparentExactlyWhenReversed | src/transport/transport.rs:374-388 | data always arrives, and arrives as sent if and only if the receiver reverses the sender's wire form |
| Compression.TransparentExactlyWhenNoGuardFails | src/packet.rs:383-404 | between equal builds whose codecs get back what they compress, payloads come back if and only if raw data is not mistaken for compressed data and the data is not too large for Zstd |
| Compression.TransparentBetweenEqualBuilds | src/packet.rs:383-404 | between equal builds payloads come back for any codec that inverts itself on the data, rejects it both ways, or is missing |
| Compression.ZstdTransparentExactlyWithinCapacity | src/packet.rs:520-547 | for a flawless Zstd, data that changes under compression comes back exactly up to 1 MiB; beyond it the compressed bytes are handed over |
| Compression.TransparentAcrossBuildsExactlyWhen | src/packet.rs:492-547 | when only one side has the algorithm, exactly when the data still comes back |
| Compression.RawDataMayBeMistakenForCompressed | src/transport/transport.rs:459-479 | a codec and data that arrive as something else |
| StreamDecoder.ReadBuffer.TryParseNextPacket | src/adapters/tcp.rs:98-130 | one look at the buffer: consumes exactly the declared length, leaves the buffer alone when incomplete or too big, and conserves bytes |
| StreamDecoder.LookAtBuffer | src/adapters/tcp.rs:98-130 | for every buffer, from its bytes: waits below 16 bytes or below the announced length, refuses payloads above 1 MiB first and other versions last, and otherwise takes exactly the announced packet |
| StreamDecoder.ReadBuffer.FillFromStream | src/adapters/tcp.rs:133-147 | appends what was read and counts it |
| StreamDecoder.ReadBuffer.ParseAvailable | src/adapters/tcp.rs:92-130 | parsing until nothing complete is left yields the drain of the buffer |
| StreamDecoder.ChunkingDoesNotMatter | src/adapters/tcp.rs:98-147 | for every byte string and every cutting into reads, the packets, the final error and the leftover are those of one read |
| StreamDecoder.ReassemblyExactlyWhenSendable | src/adapters/tcp.rs:98-147 | well-formed packets, however their bytes are cut, come out exactly, in order and with nothing left, if and only if no payload exceeds 1 MiB |
| StreamDecoder.DrainConserves | src/adapters/tcp.rs:98-130 | draining conserves bytes, accepts only sendable packets, leaves less than one maximal packet, and stops at the packet it refuses |
| StreamDecoder.CompleteTakesDeclaredLen | src/adapters/tcp.rs:117-129 | a successful parse takes a well-formed packet of its declared length, at least 16 bytes |
| StreamDecoder.RunEventLoop | src/adapters/tcp.rs:245-297 | the event loop with its buffer per read delivers and closes as its specification says |
| StreamDecoder.EventLoopWorksExactlyWhenReadsArePackets | src/adapters/tcp.rs:250-281 | the event loop delivers what was sent, without taking it for a close, if and only if every read returned exactly one packet |
| StreamDecoder.LoopClosesAtFirstBadRead | src/adapters/tcp.rs:250-297 | behind packets that came one to a read, any read that is not a complete acceptable packet closes the loop, whatever would follow |
| StreamDecoder.LoopCanDeliverExactlyWhenPacketsFitReads | src/adapters/tcp.rs:250-261 | some cutting into reads of at most 8192 bytes makes the loop deliver the packets if and only if none is longer than a read |
| StreamDecoder.FramedReceive | src/adapters/websocket.rs:316-361 | over frames every well-formed packet arrives; a binary frame arrives as raw bytes exactly if it does not parse |
| StreamDecoder.MessageKinds | src/adapters/websocket.rs:341-359 | pings and pongs are heartbeats, a close frame is the peer's close, a raw frame is refused, and text arrives as a one-way packet with id 0 |
| TransportLocks.SessionImpliesAdapter | src/transport/transport.rs:139-168 | while connects and closes stay apart, a present session id implies a present adapter; no send meets the missing-adapter branch and no connect panics |
| TransportLocks.DeadlockFree | src/transport/transport.rs:139-258 | in every state of every run of sends, closes, connects and reads, some unfinished call can move |
| TransportLocks.RunsAreShort | src/transport/transport.rs:139-313 | no run has more than nine moves per call, so every schedule finishes every call |
| TransportOutcomes.SendReportsAnswer | src/transport/transport.rs:139-168 | however calls interleave, a send reports success exactly if the connection accepted the packet, failure exactly if it refused it, and that connection is the transport's own until it has answered |
| TransportOutcomes.GuardedStays | src/transport/transport.rs:139-258 | while a call holds the guard of the session id or of the adapter, nobody changes it |
| TransportOutcomes.ClosedAtMostAsOftenAsOpened | src/transport/transport.rs:180-231 | a session is closed at most as often as it was connected, and stays closed behind its close unless it was connected again |
| TransportOutcomes.CloseClearsOnlyItsSession | src/transport/transport.rs:180-231 | while connects and closes stay apart, the session id changes only by a connect, or to none by a close of that session |
| TransportLockCalls.AdapterLostExactlyWhen | src/transport/transport.rs:139-313 | without that discipline, some run of a set of calls leaves a session without its adapter if and only if one of two connects is also closed, and lets a send meet the missing adapter if and only if there is a send besides |
| TransportLockCalls.ConnectPanicsExactlyWhen | src/transport/transport.rs:288-299 | some run makes a connect panic if and only if some session is both connected and closed |
| TransportLockCalls.ConnectDuringCloseLosesAdapter | src/transport/transport.rs:180-313 | for any such calls, the run in which the second connect falls between the two cleanup steps of the close |
| TransportLockCalls.CloseDuringConnectPanics | src/transport/transport.rs:180-299 | for any such calls, the run in which the close falls between opening the gate and unwrapping the adapter |
| RequestCorrelation.ResponsesCorrelate | src/transport/transport.rs:69-92 | over a network that loses, delays and duplicates, a resolved waiter got the only response of a responder built for a sent request of its own id |
| RequestCorrelation.ResponseAnswersOwnRequest | src/transport/transport_server.rs:557-587 | if every earlier waiter of the same id failed to send, a waiter is resolved only with the reply to its very own request |
| RequestCorrelation.OwnAnswerExactlyWhenIdIsFree | src/transport/transport.rs:77-92 | that condition is exact: otherwise the run can go on so that an older request's reply resolves the waiter |
| RequestCorrelation.WaitersConserved | src/transport/transport.rs:69-92 | waiters created are those pending, resolved, or dropped by an overwrite or a clear |
| RequestCorrelation.ResolvedAtMostOnce | src/event.rs:686-699 | a waiter is resolved at most once and never changes afterwards |
| RequestCorrelation.WaiterFate | src/transport/transport.rs:69-92 | a waiter is pending until it is resolved, a later one takes its id or the table is cleared, each of which ends it; its caller hears the answer exactly if it was still listening |
| RequestCorrelation.ClearDropsPending | src/transport/transport.rs:89-91 | the table can be cleared at any time, which drops every pending waiter |
| RequestCorrelation.SendMayFail | src/transport/transport.rs:363-365 | a request not yet sent may fail to be sent; then it is never answered, while its waiter stays in the table |
| RequestCorrelation.LateAnswerIsUnheard | src/transport/transport.rs:81-88 | runs in which an answer comes after its caller has given up, and before |
| RequestCorrelation.CounterRepeatsExactly | src/transport/transport.rs:69-74 | one wrapping counter repeats an id exactly after a multiple of 2^32 requests |
| RequestCorrelation.TwoCountersCrossResponses | src/transport/client.rs:408-416 | a run in which two counters starting at 1 give one caller the response to the other's request |
| SessionClose.ClosedAtMostOnce | src/transport/transport_server.rs:254-313 | over all interleavings at most one close or force-close per session passes the gate and sends the event, exactly one has if any was refused, and no two work on one session |
| SessionCalls.CloseTakesEffect | src/transport/transport_server.rs:254-313 | a close that has returned leaves the gate passed, unless the session had no state; if it passed the gate itself it has sent the event with its own reason, disconnected the transport and removed the session, up to writes that gave up |
| SessionCalls.ClosedBeforeRemoved | src/transport/connection_state.rs:60-65 | when a close comes to removing the session, its state says Closed |
| SessionCalls.OtherCallsTakeEffect | src/transport/transport_server.rs:207-251 | an add, a removal and a report of the peer's close that have returned have made their table writes, the last with its event |
| SessionCalls.NoCallIsStuck | src/transport/transport_server.rs:207-313 | a call that has not returned can move, unless it waits for its session to be added |
| SessionCalls.RunsAreShort | src/transport/transport_server.rs:207-313 | no run has more than ten steps for each call |
| SessionClose.IgnoredExactlyWhenClosing | src/transport/connection_state.rs:62-70 | messages are ignored for exactly the sessions without a state and those whose gate was passed |
| SessionClose.StagesOnlyAdvance | src/transport/connection_state.rs:36-90 | along every run a session goes from unknown to Connected, Closing, Closed, removed, never back, one stage at a time unless it is removed |
| SessionClose.TablesAgreeAtRest | src/transport/transport_server.rs:207-251 | unless a table write of the session gave up, the three session tables agree whenever no add or remove of it is under way, and a removed session is in none of them |
| SessionClose.InTableExactlyWhenWritten | src/transport/transport_server.rs:207-251 | in every state of every run a session is in one of the tables if and only if the write of its add to that table went through and no remove's did |
| SessionClose.TablesAgreeExactlyWhen | src/transport/transport_server.rs:207-251 | so the tables agree on a session if and only if that holds for all three or for none |
| SessionClose.WithoutStateNeverCloses | src/transport/connection_state.rs:36-58 | a session whose state write gave up can never be closed: no call passes its gate and no event is sent |
| SessionClose.GivenUpWriteLeavesTablesApart | src/transport/transport_server.rs:218-222 | a run in which one write gives up and two tables keep a session that cannot be closed |
| ConnectionWorker.PerformedInOrder | src/transport/lockfree_connection.rs:172-203 | over all interleavings commands are performed in the order the channel accepted them, each at most once |
| ConnectionWorker.OneReplyPerCommand | src/transport/lockfree_connection.rs:183-282 | each accepted command gets exactly one reply: the outcome of performing it, or a closed channel if it never was |
| ConnectionWorker.NothingAfterClose | src/transport/lockfree_connection.rs:216-248 | a successful or timed-out close is the last command performed, and nothing else makes the worker leave commands behind; the flag and the event follow only a successful one |
| ConnectionWorker.ClosedOnlyByClose | src/transport/lockfree_connection.rs:305-321 | the flag is down exactly if some caller has had its close confirmed, and a caller finds the channel closed only behind a close that succeeded or timed out |
| ConnectionWorker.NothingEverAfterClose | src/transport/lockfree_connection.rs:216-248 | after such a close nothing is performed in any later state |
| ConnectionWorker.StatsDescribeSends | src/transport/lockfree_connection.rs:70-86 | the counters are the numbers of Sends that succeeded and that did not, and every command replied to has been counted |
| ConnectionWorker.BytesDescribeSends | src/transport/lockfree_connection.rs:70-86 | the bytes are those of the payloads of the Sends that succeeded |
| ConnectionWorker.AnyOutcomeMayHappen | src/transport/lockfree_connection.rs:183-282 | no outcome of a command is ruled out, except that status queries succeed |
| ConnectionWorker.AnswersAlign | src/transport/lockfree_connection.rs:287-341 | every caller gets the outcome of its own command, or an error exactly when that command was not performed |
| ConnectionWorker.CollectBatch | src/transport/lockfree_connection.rs:441-450 | the results of a batch are the answers of its sends, in the order of its packets |
| ConnectionWorker.BatchResultsAlign | src/transport/lockfree_connection.rs:427-453 | under any schedule the k-th result of a batch is the outcome with which its k-th packet was sent, or an error exactly if it was not |
| ConnectionWorker.NoCallIsStuck | src/transport/lockfree_connection.rs:287-340 | while a call has not returned, something can happen |
| ConnectionWorker.RunsAreShort | src/transport/lockfree_connection.rs:172-340 | every run is bounded by seven steps per call plus three, so every call returns |
| ConnectionWorker.Worker.Run | src/transport/lockfree_connection.rs:172-283 | the worker loop over a given channel: replies, statistics and the close event, with the commands behind a close dropped |
| ActorPipeline.AcceptedPacketsInOrder | src/transport/actor.rs:209-394 | packets accepted from commands reach the connection in order and without gaps through both queues, and directly pushed ones likewise; only the stop of the data task discards |
| ActorPipeline.AcceptsExactlyItsSends | src/transport/actor.rs:209-306 | the adapter accepts exactly the sends for its own session, in the order it takes them, and only a stop for its session or being abandoned ends it |
| ActorPipeline.StopEndsCommandTask | src/transport/actor.rs:228-306 | a stop of the session reaches the command task behind everything accepted, and nothing else ends that task |
| ActorPipeline.AnswersDecideFates | src/transport/actor.rs:331-377 | each packet is delivered, failed or discarded as the connection answered, and the data task stops at the first answer that says the connection is down, at no other |
| ActorPipeline.BatchesAccountForSends | src/transport/actor.rs:308-394 | batches hold between 1 and max(1, limit) packets; while the connection is up sent plus errors is the batched total plus the progress in the current batch |
| ActorPipeline.BatchesAreFull | src/transport/actor.rs:313-325 | a batch is closed only when it has reached the limit or the queue is empty |
| ActorPipeline.CountersDescribeSends | src/transport/actor.rs:88-108 | the sent, error and batch counters are the numbers of packets delivered and failed and of batches, modulo the word |
| ActorPipeline.BytesDescribeSends | src/transport/actor.rs:88-108 | the bytes counted are the payloads of the packets delivered |
| ActorPipeline.ShutdownIsLast | src/transport/actor.rs:439-475 | the internal channel is never closed while the adapter listens, and by the time the command task stops everything accepted has been forwarded |
| ActorPipeline.NothingBehindTheEnd | src/transport/actor.rs:439-475 | nothing is accepted or forwarded behind a shutdown, and a stopped data task handles nothing more |
| ActorPipeline.TasksCanGoOn | src/transport/actor.rs:209-475 | while something is queued for a task that runs, or a batch is under way, a task can go on |
| ActorPipeline.QueuesAreDrained | src/transport/actor.rs:209-475 | with nothing new queued, what is queued is dealt with in a bounded number of steps under any schedule |
| ActorPipeline.InputIsOpen | src/transport/actor.rs:180-207 | anybody may push to the data queue at any time, and command the adapter while it listens |
| ActorPipeline.DataTask.Collect | src/transport/actor.rs:313-325 | takes the longest batch the queue and the limit allow, from the front |
| ActorPipeline.DataTask.Process | src/transport/actor.rs:327-389 | sends a batch up to the first result that stops the data task, drops the rest, and records the batch only if it did not stop |
| MemoryPool.BuffersConserved | src/transport/memory_pool.rs:205-436 | after any operations gets are hits plus creations, every buffer preallocated or kept is idle, handed out again or cleared, limits never grow, and only preallocation exceeds them |
| MemoryPool.HandedBufferIsLargeEnough | src/transport/memory_pool.rs:233-292 | if buffers are returned under a class they are large enough for, every buffer handed out is empty and has the capacity of its class |
| MemoryPool.SmallBufferComesBackExactlyWhenIllegal | src/transport/memory_pool.rs:295-364 | for every class whose idle buffers are large enough, a return keeps them so exactly if it is legal or the class is full; a kept buffer is handed out again after those before it, large enough exactly if its return was legal |
| MemoryPool.ReturnKeepsExactlyWhen | src/transport/memory_pool.rs:295-342 | a return keeps the buffer exactly if its capacity is between 1 byte and 10 MiB and the class is below its limit, and counts it exactly in the first case |
| MemoryPool.AdjustCutsExactlyWhen | src/transport/memory_pool.rs:367-387 | all limits are cut to four fifths exactly if the counted megabytes exceed the threshold |
| MemoryPool.Pool.Preallocate | src/transport/memory_pool.rs:205-230 | stocks each class by its count; every counter stays exact |
| MemoryPool.Pool.Get | src/transport/memory_pool.rs:233-292 | hands out the buffer idle for longest, emptied, or a new one; every counter stays exact |
| MemoryPool.Pool.Return | src/transport/memory_pool.rs:295-364 | rejects, discards or keeps the buffer as its capacity and the limit say; every counter stays exact |
| MemoryPool.Pool.Adjust | src/transport/memory_pool.rs:367-399 | cuts every limit to four fifths, rounded down, exactly when the cached bytes exceed the threshold |
| MemoryPool.Pool.Clear | src/transport/memory_pool.rs:404-436 | empties every class, returns how many buffers that were, and the 0 it stores for the cached bytes is exact |
| MemoryPoolRaces.IdleWithinBound | src/transport/memory_pool.rs:233-364 | in every run, if at most m returns of a class are in progress at once, the class holds no more than it started with, or than its limit plus m less 1 |
| MemoryPoolRaces.BoundIsReached | src/transport/memory_pool.rs:333-352 | a run in which the returns of a class all find it below its limit and bring it to that bound |
| MemoryPoolRaces.BytesStayRightExactlyWhen | src/transport/memory_pool.rs:233-436 | for any pool and any calls, every run leaves the counter of cached bytes right once all have returned if and only if no clear is combined with a return to a class with a limit above 0 or a get from a class that is not empty |
| MemoryPoolRaces.GetDuringClear | src/transport/memory_pool.rs:264-268 | for any such calls, the run in which a get subtracts its buffer after the clear stored 0 |
| MemoryPoolRaces.ReturnDuringClear | src/transport/memory_pool.rs:333-436 | for any such calls, the run in which a return is kept and counted before the clear stores 0 |

## Left out

- The concurrent protocols are step systems on values rather than classes, because a class cannot express that
  several callers interleave inside a method; aliasing of the shared objects is not captured there.
- Memory orderings, epoch reclamation and unsafe pointers: an access to an atomic is one step, and a published
  shard map gets a pointer no earlier map had. The null checks of the map's loads never fail in this model.
- A panicking task, and a caller that stops waiting for a worker's reply.
- Sockets, TLS, QUIC and the tokio, flume, crossbeam and DashMap internals: channels are FIFO, table accesses atomic.
- `f64` rounding: thresholds, factors and utilization are exact rationals, `as usize` is the floor.
- Several handles on one pool or server: their clones copy or reset id counters. One handle is modelled.
- ConnectionPool.Pool.SmartExpand: a pool's strategy is always the default one (src/transport/pool.rs:252), so that its factors are at least 1 is part of the pool's invariant; a strategy with a smaller factor, which nothing sets, would subtract below zero.
- ConnectionPool.Pool.GetConnection: after initialisation the map writes of this class do not give up; `PoolOwnership` and `PoolCounters` have the runs in which they do.
- MemoryPool.Pool.Clear: exact for one caller at a time; what it is among concurrent callers is stated in `MemoryPoolRaces`, where the limits are not adjusted meanwhile.
- The queue-depth gauge of the worker, which is approximate by design.
- `RequestManager`, which nothing else uses: a lock-free map in place of the table of `RequestTracker`, whose `clear` is not one step but a snapshot and then a removal for each of its keys.
- `compress_payload`, the setters and the flag accessors act on packet values here, not on a packet in place.
- Actor termination: the joined tasks keep a data sender alive, so only safety and conservation are stated.
- Latency, timestamps, tracing, performance history and the events of the pools.
- Builders, registries, URI parsing, retry delays, certificates and middleware: no hard property.
