# Verified model of shark-socket

A Dafny 4.11 model of the parts of the shark-socket gateway whose correctness is hardest to
see from the code: the protocols that admit, dispatch and index work concurrently, the CoAP
engine, the stream framers and codecs, and the structures that must agree with a simpler one.

`dafny verify dfyconfig.toml` checks the whole project.

Code that runs under several goroutines (worker pools, quota, session index, shared frames,
CoAP message handling) is a step machine: one step per lock, load, compare-and-swap, store
or channel operation, any number of threads, and statements over every run. Objects that one
caller at a time updates in place are classes whose methods keep the source's loops and are
proved against functions of the old state. Pure code is functions and lemmas.

| file | what it holds |
|---|---|
| `Pool.dfy`, `PoolSafety.dfy`, `PoolScaling.dfy`, `PoolOverlap.dfy` | the fixed and the elastic worker pool with all three full-queue policies |
| `Quota.dfy` | the two-dimensional connection quota, as an object and as a step machine |
| `Sessions.dfy`, `SessionWalk.dfy` | the 64-shard session table and Broadcast, as an object and as a step machine, and snapshots taken meanwhile |
| `Frames.dfy` | reference counts of broadcast frames across sessions, write loops and Close |
| `CoapMessage.dfy`, `CoapRoundTrip.dfy`, `Blockwise.dfy`, `Observe.dfy` | CoAP messages, block-wise transfer and observers |
| `CoapServer.dfy`, `CoapDedup.dfy`, `Retransmit.dfy`, `RetransmitTable.dfy` | CoAP message handling with its dedup table, and retransmission |
| `Framer.dfy`, `Tlv.dfy`, `Bytes.dfy`, `Basics.dfy` | TCP framers, LwM2M TLV, big-endian integers, shared definitions |
| `RateLimit.dfy`, `Acceptor.dfy`, `MessageLog.dfy`, `PluginChain.dfy` | limiter, token bucket, durable log, plugin order and rollback |

## Where the code does not do what its comments say

Each of these is kept as the code has it, shown by a concrete run or input, and given the
exact condition under which the promise holds.

- Overlapping scaling evaluations can take the elastic pool below its minimum, because the
  worker count is read before a worker is retired. With at most k evaluations at a time the
  pool keeps `minWorker + 1 - k` workers, every count down to that is reached in every
  configuration whose limits differ, and so the minimum is kept if and only if evaluations do
  not overlap or the limits are equal (`WorkersStayAboveFloor`, `FloorIsAttained`,
  `MinimumKeptIff`).
- A shared frame can keep a reference for ever: an enqueue that lands after Close has drained
  the queue and is not taken by the write loop, and a failing SetWriteDeadline, both strand it,
  and nothing else does (`LateEnqueueLeaks`, `DeadlineFailureLeaks`, `PinnedForever`,
  `ReturnedIffNoneStranded`).
- The write loop can block in the receive that session.go says cannot block: Close may have
  drained the queue since its length was read, and then only a late enqueue ends the wait
  (`WriteLoopGetsStuck`, `StuckUntilEnqueued`).
- Frames whose Send succeeded are lost behind one the framer refuses in the same batch,
  because the batch then ends without its flush; all are delivered exactly when the batch left
  nothing in the buffer (`Writer.WriteLoop`, `UnflushedFramesAreLost`).
- Register can refuse for capacity while the table has room, exactly when the threads between
  their two updates fill that room (`CapacityRefusedIff`, `RefusedWithRoom`).
- CloseAll returns when a snapshot comes back empty, but a session registered into a shard the
  snapshot has passed is not in it and stays (`EmptyWalkLeaves`, `NothingLeftIff`,
  `LeftBehind`).
- Broadcast with fewer than two sharing recipients offers the payload twice to every session
  that does not share (`OfferedExactlyOnce`, `FallbackOffersTwice`).
- The two line readers differ on a line of exactly `MaxFrameBytes`, and on the error of some
  unfinished lines (`LineReadersAgree`, `UnfinishedLine`). A length-prefixed frame is checked
  against the limit modulo 2^32 on reading but not on writing (`FrameReadsBack`).
- A CoAP handler can start twice for one message between two clears of the dedup table, exactly
  when a request was waiting for its plugins at the clear (`TwiceOnlyIfWaiting`,
  `WaitingRunsTwice`, `TwiceBetweenClears`). Counted by when a request was taken in, it is at
  most once (`HandlerRunsOnce`).
- A response is recorded for repetitions even when its session is already closed or the write
  fails and it is not sent; the client then gets it first as the answer to a repetition
  (`RecordedWasSentIff`, `DuplicateGetsItFirst`).
- A notification tracked under the key of one a tick is about to retransmit is retransmitted
  before its first timeout (`ScheduleKeptIff`, `ReusedKeyIsEarly`).
- A CoAP message with an option value of 65536 bytes or more is accepted by Marshal and does
  not come back from Parse (`RoundTripIff`, `LongValueIsLost`), and a server that answers with
  smaller blocks than asked for can echo a block number that does not fit its 20 bits
  (`EchoFits`, `EchoReadsAsBlock0`).
- An observe registration that the caps refuse leaves an empty entry for its resource, so the
  registry is bounded by its relations and the refusals, not by the caps alone
  (`ListedResources`, `Registry.Register`).
- Observer keys concatenate remote and token around a slash; they identify a relation because
  remotes hold no slash (`KeyIsInjective`, `KeyCollides`).
- The limiter reads its clock before it takes the lock. A message that a sweep or other messages
  of its key overtake is decided as of the last of them: it is let through wrongly exactly when
  its window was full and more has expired since than was added, and refused wrongly exactly
  when what was added has taken the room that was left and that expiries made
  (`Limiter.OvertakenDiffersIff`, `OvertakenBySweep`, `OvertakenByMessage`). When such a message
  is let through, a window can hold one message too many, exactly when `rate` others crowd it
  (`LateAcceptHoldsIff`, `LateBreaksTheWindow`).
- The accept rate holds of the time the clock has gone forward. Once the clock has stepped back
  it does not hold of the readings (`Acceptor.ForwardIntervalHolds`, `StepBackBreaksTheBound`).
- The message log's counter wraps to zero when the largest possible number is stored
  (`Log.constructor`).
- The plugin comparator subtracts priorities, which orders them exactly when the subtraction does
  not overflow (`CompareIsOrder`). A list of up to 20 plugins is sorted exactly when each finds
  its place among those before it (`SortsIff`, `OverflowMisorders`), and a chain that is in order
  can lose it at the next Append (`SortingAgainMisorders`).

## Model

| member | source | states |
|---|---|---|
| `PoolSafety.HandledAtMostOnce` | internal/transport/shared/pool_core.go:104-196 | in every reachable state of either pool a task was handled at most once, only if its Submit was accepted, and a task whose Submit returned an error is neither handled nor queued |
| `PoolSafety.NothingIsLost` | internal/transport/shared/pool_scalable.go:250-329 | an accepted task that was not handled yet is in the queue, with a worker or with the Stop call that drains the queue |
| `PoolSafety.StoppedPoolIsQuiet` | internal/transport/shared/pool_scalable.go:250-272 | once a Stop has returned, the queue is empty, every worker has exited and each task was handled exactly once if accepted and never otherwise |
| `PoolSafety.StoppedForever` | internal/transport/shared/worker_pool.go:98-123 | no later run enqueues, handles or accepts anything more |
| `PoolSafety.ChannelsClosedOnce` | internal/transport/shared/pool_scalable.go:194-298 | no channel is closed twice and the active workers never exceed the maximum, in every interleaving |
| `PoolSafety.StepKeepsInv` | internal/transport/shared/pool_core.go:104-196 | every step of Submit, worker, Stop, addWorker and scaling keeps the invariants about tasks, locks, the mutex, closing and retirement |
| `PoolScaling.WorkersStayAboveFloor` | internal/transport/shared/pool_scalable.go:115-248 | with at most k scaling evaluations at a time, from the end of Start until Stop at least minWorker + 1 - k workers are active, and at least minWorker when the two limits are equal |
| `PoolOverlap.FloorIsAttained` | internal/transport/shared/pool_scalable.go:160-248 | for every elastic configuration with minWorker < maxWorker, every count from minWorker down to minWorker + 1 - k is reached by an open, started pool, on a run in which each evaluation follows 1024 submits of its own |
| `PoolOverlap.MinimumKeptIff` | internal/transport/shared/pool_scalable.go:160-248 | all runs with at most k evaluations at a time keep minWorker workers if and only if k is 1 or the limits are equal |
| `PoolScaling.ShrinksOnlyAfterHold` | internal/transport/shared/pool_scalable.go:194-248 | a step that takes an active worker from an open pool takes exactly one, for a retiring evaluation whose own decision ended scaleDownHold consecutive low-water decisions |
| `PoolScaling.WindowsAreDisjoint` | internal/transport/shared/pool_scalable.go:194-248 | when evaluations do not overlap, taking m workers needs m times scaleDownHold low-water decisions: none counts twice |
| `Quota.PeerQuota.Acquire` | internal/transport/shared/quota.go:82-117 | the verdict, with the peer's ceiling checked first, and the new counts: both dimensions are charged or neither |
| `Quota.PeerQuota.Release` | internal/transport/shared/quota.go:120-133 | both dimensions are refunded and an emptied peer entry goes |
| `Quota.RefundUndoesCharge` | internal/transport/shared/quota.go:82-133 | Release after a successful Acquire restores the table |
| `QuotaMachine.TotalAccountsForEveryone` | internal/transport/shared/quota.go:82-133 | for any threads at lock, load, swap and store granularity, the total is the sum of the peer counts plus unattributed holders plus threads between their two updates |
| `QuotaMachine.CeilingsHold` | internal/transport/shared/quota.go:82-133 | the total is never negative, it and every peer stay within their ceilings, stored counts are positive and each equals the peer's holders |
| `QuotaMachine.QuiescentIsEmpty` | internal/transport/shared/quota.go:82-133 | when every slot is returned the total is zero and the tables are empty |
| `QuotaMachine.StoreIsNotLost` | internal/transport/shared/quota.go:82-117 | the count written at the end of Acquire is the one read at its start plus one: no update in between is overwritten |
| `Sessions.SessionManager.Register` | internal/runtime/session_manager.go:66-95 | the sharded table answers and changes as one map, a duplicate is reported ahead of capacity |
| `Sessions.SessionManager.Unregister` | internal/runtime/session_manager.go:97-107 | removes exactly the session of that ID |
| `Sessions.SessionManager.Get` | internal/runtime/session_manager.go:109-115 | looks up as in one map |
| `Sessions.SessionManager.Snapshot` | internal/runtime/session_manager.go:137-153 | lists every registered session once and nothing else |
| `Sessions.SessionManager.CloseAll` | internal/runtime/session_manager.go:217-234 | empties the table, however many sessions are registered between its snapshots, unless the context is cancelled, and reports whether some Close failed |
| `SessionWalk.EmptyWalkLeaves` | internal/runtime/session_manager.go:137-153 | after a snapshot that came back empty, taken while others register and unregister, the table is exactly what entered shards already passed and has not left |
| `SessionWalk.NothingLeftIff` | internal/runtime/session_manager.go:213-234 | when others only register, the table is then empty if and only if none of them entered a shard already passed |
| `SessionWalk.LeftBehind` | internal/runtime/session_manager.go:213-234 | for every session whose shard is not the last, a run in which the snapshot is empty and the session stays |
| `Sessions.Broadcast` | internal/runtime/session_manager.go:169-211 | who is offered the payload and in which order, the frame's remaining references, and the first refusal |
| `Sessions.OfferedExactlyOnce` | internal/runtime/session_manager.go:188-211 | every snapshotted session is offered the payload exactly once if and only if at least two share or all do |
| `Sessions.FallbackOffersTwice` | internal/runtime/session_manager.go:200-204 | in the fallback a session that does not share is offered it twice |
| `SessionMachine.CounterAccountsForEveryone` | internal/runtime/session_manager.go:66-107 | for any interleaving the counter is the sum of the shard sizes plus claimed-not-inserted and deleted-not-decremented threads, and never exceeds the maximum |
| `SessionMachine.AnswersAsOneTable` | internal/runtime/session_manager.go:66-95 | a duplicate is reported exactly when one map would report it, and an insertion is one a single map would make |
| `SessionMachine.CapacityRefusedIff` | internal/runtime/session_manager.go:66-95 | capacity is refused if and only if the table's size and the threads between their updates reach the maximum, so wrongly exactly when the table alone does not |
| `SessionMachine.RefusedWithRoom` | internal/runtime/session_manager.go:66-107 | a reachable state with an empty table in which a Register is refused for capacity |
| `Frames.RefsAreAccountedFor` | internal/core/frame.go:23-36 | in every interleaving of Broadcast, write loops and Close, a frame's count is the recipients not yet offered plus queue entries plus entries in a writer's or closer's hands plus those lost to a failing deadline |
| `Frames.SettledFrame` | internal/transport/tcp/session.go:154-205 | once none of the first three remain, the count is zero if and only if nothing was lost |
| `Frames.ReturnedIffNoneStranded` | internal/transport/tcp/session.go:154-306 | when the broadcast is over and every session is gone or idle, a stuck write loop included, the count is zero if and only if no step of the run enqueued the frame to a session that was gone, abandoned it at a failing deadline, or ended a write loop that left it queued after the drain |
| `Frames.CalmRunsReturnEverything` | internal/transport/tcp/session.go:230-306 | on a run whose enqueues all precede the end of Close and whose deadlines do not fail, the count is zero once every session is gone or idle |
| `Frames.StuckUntilEnqueued` | internal/transport/tcp/session.go:262-279 | a write loop waiting on a queue that Close has drained stays so in every run without another enqueue |
| `Frames.WriteLoopGetsStuck` | internal/transport/tcp/session.go:262-279 | and such a state is reachable |
| `Frames.PinnedForever` | internal/core/frame.go:13-15 | a stranded reference is never given back, whatever follows |
| `Frames.LateEnqueueLeaks` | internal/transport/tcp/session.go:154-205 | a run in which an enqueue after Close's drain strands a reference |
| `Frames.DeadlineFailureLeaks` | internal/transport/tcp/session.go:256-261 | a run in which a failing SetWriteDeadline drops the entry it had received |
| `CoapMessage.NextOption` | internal/transport/coap/message.go:77-154 | one turn of the option loop: every read is in range and the offset strictly advances |
| `CoapMessage.ParseOptions` | internal/transport/coap/message.go:77-125 | the loop computes the options and payload of the specification, on arbitrary bytes |
| `CoapMessage.MarshalMessage` | internal/transport/coap/message.go:156-206 | the encoding loop over sorted numbers writes the specified bytes or reports the token or type error |
| `CoapMessage.ParseUndoesMarshal` | internal/transport/coap/message.go:51-262 | Parse(Marshal(m)) is m for every type up to 3, token up to 8 bytes and option values up to 65535 bytes |
| `CoapRoundTrip.RoundTripIff` | internal/transport/coap/message.go:51-262 | whatever Marshal accepts comes back from Parse if and only if every option value is shorter than 2^16 bytes |
| `CoapMessage.ReencodingIsStable` | internal/transport/coap/message.go:51-262 | for every accepted datagram up to 64 KiB, parsing, marshalling and parsing again gives the same message |
| `CoapMessage.LongValueIsLost` | internal/transport/coap/message.go:197-262 | a 65536-byte option value is marshalled without error and comes back empty |
| `Blockwise.OptionRoundTrip` | internal/transport/coap/blockwise.go:48-91 | a block option with any uint32 NUM and uint8 SZX survives Marshal and parse if and only if NUM is below 2^20 and SZX at most 6 |
| `Blockwise.ReencodeIsShortest` | internal/transport/coap/blockwise.go:45-69 | re-encoding an accepted value gives the same number in its shortest form |
| `Blockwise.MarshalOption` | internal/transport/coap/blockwise.go:48-69 | the zero-dropping loop computes the specified bytes |
| `Blockwise.ParseOption` | internal/transport/coap/blockwise.go:71-91 | the accumulating loop decodes as specified, or refuses more than three bytes and SZX 7 |
| `Blockwise.SameOffset` | internal/transport/coap/blockwise.go:112-171 | whatever legal block is asked for, the reply starts at that byte offset, has the smaller of the two sizes or what is left, names the offset by its number and sets M exactly when bytes remain; past the end it is refused |
| `Blockwise.TransferIsComplete` | internal/transport/coap/blockwise.go:112-171 | whatever size the first request asks for, or leaves to the server: the blocks 0 .. ceil(len/size)-1 at the size of the first answer, joined, are the body, M is clear only on the last and every later block is refused |
| `Blockwise.TransferFitsTheWire` | internal/transport/coap/blockwise.go:48-91 | a body of at most 2^20 blocks can be requested and echoed to its end |
| `Blockwise.EchoFits` | internal/transport/coap/blockwise.go:161-171 | after renegotiation the echoed option survives the wire if and only if the offset is below 2^20 blocks of the server's size |
| `Blockwise.EchoReadsAsBlock0` | internal/transport/coap/blockwise.go:48-171 | the first echo that does not survive, for every body over 2^24 bytes: the client reads it as block 0 |
| `Blockwise.WithoutOption` | internal/transport/coap/server.go:933-942 | without a Block2 option a small body goes out whole and a large one as block 0 at the server's size |
| `Retransmit.NeverEarly` | internal/transport/coap/retransmit.go:80-106 | for any clock readings: at most four retransmissions, the k-th not before t0 + (2^k - 1)T, abandonment only after the fourth and not before t0 + 31T |
| `Retransmit.TickNotEarly` | internal/transport/coap/retransmit.go:97-106 | a new deadline is never in the past |
| `Retransmit.ScheduleInTimeouts` | internal/transport/coap/retransmit.go:23-33 | the same bounds as 1, 3, 7, 15 and 31 timeouts |
| `Retransmit.RegularTicksAreOnTime` | internal/transport/coap/retransmit.go:80-106 | with ticks from t0 on at most g apart, g up to two timeouts, everything due has happened and less than g late |
| `Retransmit.DueIsDone` | internal/transport/coap/server.go:628-690 | with 250 ms ticks and any jitter, the k-th retransmission and the abandonment happen within 250 ms of their bounds |
| `Retransmit.InitialTimeout` | internal/transport/coap/retransmit.go:45-50 | the first timeout is in [2s, 3s) and follows the draw |
| `Retransmit.Scheduler.RetransmitDue` | internal/transport/coap/server.go:698-755 | one tick over the pending table: each entry waits, is sent once and advanced, is dropped when unreachable, or is abandoned, as its own schedule says |
| `RetransmitTable.ScheduleKeptIff` | internal/transport/coap/server.go:628-755 | over every run of ticks, trackings and acknowledgements, with a tick's transmissions interleaved with the others, all notifications keep their schedule if and only if no transmission finds under its key an entry that is not due |
| `RetransmitTable.DistinctKeysKeepSchedule` | internal/transport/coap/server.go:628-755 | that is so when no key is tracked again while a tick is about to transmit it |
| `RetransmitTable.ReusedKeyIsEarly` | internal/transport/coap/server.go:727-737 | a run in which such a key is retransmitted at the moment it is tracked |
| `Observe.Registry.Register` | internal/transport/coap/observe.go:59-99 | keeps the nested maps and counters equal to the flat table, which changes as specified: same relation kept, another token replaces, caps refuse only new relations; a refusal may leave one empty resource entry |
| `Observe.Registry.Remove` | internal/transport/coap/observe.go:103-141 | removes the relation if its token matches and nothing else |
| `Observe.Registry.RemoveByToken` | internal/transport/coap/observe.go:113-141 | removes exactly the relations of that remote and token |
| `Observe.Registry.RemoveBySession` | internal/transport/coap/observe.go:144-159 | removes exactly the relations of that remote, counts and all empty resource entries included |
| `Observe.Registry.NextSeq` | internal/transport/coap/server.go:563-581 | hands out the relation's number and advances it, modulo 2^32 |
| `Observe.Registry.HasObservers` | internal/transport/coap/observe.go:164-168 | tells exactly whether the remote holds a relation |
| `Observe.RegisteringIsFair` | internal/transport/coap/observe.go:59-99 | both caps are kept, and replacing changes neither the total nor the remote's count |
| `Observe.ListedResources` | internal/transport/coap/observe.go:9-25 | the outer map lists exactly the observed resources and the empty ones, so its size is at most the relations plus the empty entries |
| `Observe.KeyIsInjective` | internal/transport/coap/observe.go:189-191 | for slash-free remotes the key determines remote and token |
| `CoapDedup.HandlerRunsOnce` | internal/transport/coap/server.go:384-528 | over every run, at most one handler start for all CON requests of one remote and message ID taken in between two clears, and none for a Block1 request |
| `CoapDedup.DuplicatesAreInert` | internal/transport/coap/server.go:427-436 | a run and the same run without its repeated requests end in the same state, except for the answers to the repetitions |
| `CoapDedup.ReplaysTheSameBytes` | internal/transport/coap/server.go:903-990 | once a response is recorded, every repetition until the next clear gets exactly those bytes, whatever happens in between, and before that an empty acknowledgement |
| `CoapDedup.RecordedWasSentIff` | internal/transport/coap/server.go:453-494 | over every run, a recorded response was sent by its own request if and only if nothing closed that request's session first and the write did not fail; a refused UDP request closes nothing when another closer was faster |
| `CoapDedup.DuplicateGetsItFirst` | internal/transport/coap/server.go:453-468 | a run in which a plugin refuses and the client gets the response only as the answer to a repetition |
| `CoapDedup.TwiceOnlyIfWaiting` | internal/transport/coap/server.go:814-826 | two starts between clears for one remote and message ID imply that one of the requests was waiting for its plugins at the clear |
| `CoapDedup.WaitingRunsTwice` | internal/transport/coap/server.go:427-446 | and from any such state, with the requests of each remote handled one after the other, a repetition does start the handler twice |
| `CoapDedup.TwiceBetweenClears` | internal/transport/coap/server.go:348-446 | such a run from the initial state, for every remote and plain request |
| `CoapServer.StepKeeps` | internal/transport/coap/server.go:384-528 | every step keeps the invariants about dedup entries, requests in progress, handler starts, recorded and sent responses and closed sessions |
| `CoapServer.ParsedIsDecoded` | internal/transport/coap/server.go:384-388 | every message Parse delivers is one the server's steps accept |
| `CoapServer.SeqBytesValue` | internal/transport/coap/server.go:1002-1013 | the observe number on the wire is the sequence number modulo 2^24 |
| `Framer.Conn.ReadLength` | internal/transport/tcp/framer.go:50-71 | the plain reader returns the frame and leaves the stream of the specification, for every way the stream arrives |
| `Framer.BufReader.ReadLength` | internal/transport/tcp/framer.go:76-100 | the buffered reader gives the same result and error on every stream, and the same remaining stream when it accepts |
| `Framer.Conn.ReadLine` | internal/transport/tcp/framer.go:125-148 | the byte-wise line reader, its limit and what it consumes |
| `Framer.BufReader.ReadLine` | internal/transport/tcp/framer.go:155-192 | the buffered line reader, for every buffer size |
| `Framer.BufReader.ReadSlice` | internal/transport/tcp/framer.go:163-192 | up to the delimiter, a whole buffer without one, or the end |
| `Framer.LineReadersAgree` | internal/transport/tcp/framer.go:125-192 | on a stream with a delimiter the readers agree if and only if the content is not exactly the limit; what the plain one accepts the buffered one reads alike |
| `Framer.UnfinishedLine` | internal/transport/tcp/framer.go:125-192 | without a delimiter both fail, and with the same error exactly when the limit does not fall between the whole buffers and the end |
| `Framer.FrameReadsBack` | internal/transport/tcp/framer.go:50-203 | a frame the writer accepts reads back, by either reader and with the rest of the stream in place, if and only if it is representable within the limit modulo 2^32 (free of the delimiter, for lines) |
| `Framer.QueueReadsBack` | internal/transport/tcp/session.go:256-290 | a queue of such frames reads back as the same list and then the end of the stream |
| `Framer.Writer.WriteLoop` | internal/transport/tcp/session.go:230-279 | however the batches fall: an accepted queue reaches the connection in order; after a refused frame the earlier batches have, and what the last one left in the buffer never does |
| `Framer.Writer.WriteBatch` | internal/transport/tcp/session.go:256-279 | a batch is flushed as a whole, or ends at the first refused frame with a known number of bytes unflushed |
| `Framer.SmallBatchIsHeld` | internal/transport/tcp/session.go:256-290 | a batch whose encodings fit the buffer stays there as a whole until the flush |
| `Framer.UnflushedFramesAreLost` | internal/transport/tcp/session.go:272-278 | frames that fit the buffer, followed in their batch by a refused one, leave nothing on the connection |
| `Framer.BufReader.ReadLoop` | internal/transport/tcp/session.go:207-228 | a read loop over the buffer yields the specified list of frames and error |
| `RateLimit.Limiter.OnMessage` | internal/plugin/ratelimit.go:142-168 | for any clock reading, accepts exactly when the full accepted history holds fewer than rate times in the window that ends at the later of the reading and the last pruning, and records only what it accepts |
| `RateLimit.Limiter.Sweep` | internal/plugin/ratelimit.go:120-140 | a sweep at any time changes no key's history, so no decision of a message whose clock is not before the sweep's |
| `RateLimit.Limiter.Decides` | internal/plugin/ratelimit.go:142-168 | the same decision without its effect |
| `RateLimit.Limiter.OvertakenDiffersIff` | internal/plugin/ratelimit.go:142-168 | when the decision for an overtaken message differs from the one in clock order, in both directions, by the window's fill, the expiries and the messages added since its reading |
| `RateLimit.OvertakenByMessage` | internal/plugin/ratelimit.go:142-168 | a run in which an overtaken message is refused that would have been accepted in clock order |
| `RateLimit.OvertakenBySweep` | internal/plugin/ratelimit.go:120-168 | a run in which an overtaken message is accepted that would have been refused in clock order |
| `RateLimit.Limiter.WindowHolds` | internal/plugin/ratelimit.go:142-168 | a list has at most rate entries, and every closed window holds at most rate accepted messages as long as no overtaken message of that key was accepted |
| `RateLimit.LateAcceptHoldsIff` | internal/plugin/ratelimit.go:142-168 | after accepting an overtaken message every closed window holds at most rate if and only if no rate consecutive times fall into one window with it |
| `RateLimit.LateBreaksTheWindow` | internal/plugin/ratelimit.go:120-168 | for every rate and window, a run that puts rate + 1 messages into one window |
| `RateLimit.ClosedWindow` | internal/plugin/ratelimit.go:142-168 | the counting argument behind WindowHolds, for every history with that spacing |
| `Acceptor.Acceptor.TryAccept` | internal/transport/shared/acceptor.go:72-119 | the reason in every case and the new allowance; a capacity or peer refusal leaves the bucket, a rate refusal leaves the quota, and the allowance stays in range even when the clock steps back |
| `Acceptor.Acceptor.ForwardIntervalHolds` | internal/transport/shared/acceptor.go:72-119 | whatever the clock does, the connections this acceptor accepted while it went forward from s to t number at most max(rate, 1) + rate (t - s) |
| `Acceptor.Acceptor.IntervalHolds` | internal/transport/shared/acceptor.go:72-119 | the same of the clock readings, while the clock has not stepped back |
| `Acceptor.StepBackBreaksTheBound` | internal/transport/shared/acceptor.go:88-112 | at one connection a second, a run that accepts any number at the same reading |
| `Acceptor.PacedInterval` | internal/transport/shared/acceptor.go:72-119 | the counting argument behind it, for every paced history |
| `Acceptor.TokenPaced` | internal/transport/shared/acceptor.go:88-112 | one look at the bucket keeps that bound for every pair of accepted connections |
| `MessageLog.LexIsNumeric` | internal/infra/store/message_log.go:146-150 | for keys of one length byte-wise order is numeric order |
| `MessageLog.Log.constructor` | internal/infra/store/message_log.go:21-36 | reopening resumes above every stored number if and only if the largest possible one is not stored |
| `MessageLog.Log.Append` | internal/infra/store/message_log.go:39-49 | an append never overwrites and comes last in the replay, unless the counter has wrapped; a failed write changes nothing |
| `MessageLog.Log.Replay` | internal/infra/store/message_log.go:55-94 | hands out exactly the stored messages, in key order, skipping keys that are too short, up to the first call that returns an error; nothing at all if the store cannot be listed or read |
| `MessageLog.ReplayIsOrdered` | internal/infra/store/message_log.go:55-94 | numbers never go down along a replay, and go up for eight-byte keys |
| `MessageLog.Log.Prune` | internal/infra/store/message_log.go:98-128 | removes exactly the numbers below the bound; the replay keeps the rest in order |
| `PluginChain.Chain.Append` | internal/runtime/plugin_chain.go:50-72 | the chain holds what was appended; it is its stable sort by priority, after any series of appends, if no difference of priorities overflows; and one Append of up to 20 plugins sorts exactly when each finds its place |
| `PluginChain.GroupingDoesNotMatter` | internal/runtime/plugin_chain.go:50-72 | and there is only one such list, however the appends were grouped |
| `PluginChain.Chain.OnAccept` | internal/runtime/plugin_chain.go:144-174 | an error or panic closes exactly the plugins that had accepted, once each, in reverse order |
| `PluginChain.Chain.StartAll` | internal/runtime/plugin_chain.go:104-125 | a failed start stops exactly the plugins that had started, once each, in reverse order |
| `PluginChain.Chain.StopAll` | internal/runtime/plugin_chain.go:130-139 | stops what a full start starts, in reverse |
| `PluginChain.CompareIsOrder` | internal/runtime/plugin_chain.go:68-70 | the subtracting comparator orders two priorities if and only if it does not overflow |
| `PluginChain.SortsIff` | internal/runtime/plugin_chain.go:65-70 | for any priorities, sorting by insertion with this comparator gives the stable sort if each plugin finds its place among those before it, and a list out of order otherwise |
| `PluginChain.OverflowMisorders` | internal/runtime/plugin_chain.go:65-70 | two plugins come out sorted if and only if the second's priority minus the first's does not overflow |
| `PluginChain.SortingAgainMisorders` | internal/runtime/plugin_chain.go:50-72 | a list that is sorted into order and put out of order by sorting it again |
| `Tlv.EncodeTLV` | internal/protocol/lwm2m/codec_tlv.go:53-92 | the loop writes the specified records or refuses an identifier or value out of range |
| `Tlv.EncodeSucceeds` | internal/protocol/lwm2m/codec_tlv.go:56-61 | encoding succeeds exactly for identifiers below 2^32 and values up to 65535 bytes |
| `Tlv.NextRecord` | internal/protocol/lwm2m/codec_tlv.go:119-202 | one record on arbitrary input: in range, and at least three bytes of progress |
| `Tlv.DecodeTLV` | internal/protocol/lwm2m/codec_tlv.go:116-205 | the offset loop decodes as specified |
| `Tlv.DecodeUndoesEncode` | internal/protocol/lwm2m/codec_tlv.go:53-205 | decoding what was encoded gives the same list and consumes every byte |
| `Tlv.ResourceInteger` | internal/protocol/lwm2m/codec_tlv.go:212-229 | the two's-complement value of up to eight bytes, of the first eight of a longer value |
| `Tlv.IntegerRoundTrip` | internal/protocol/lwm2m/codec_tlv.go:212-229 | every integer of n bytes decodes to itself |

## Left out

- Sockets, TLS and DTLS, QUIC, WebSocket and HTTP servers, the MQTT client and bbolt: foreign libraries and I/O; a connection is a byte sequence, a store a map, a clock reading or random draw a parameter.
- Failing writes of the TCP connection: they end the session like a refused frame. RawFramer and FixedSizeFramer: they write a payload as it is.
- `Framer.BufReader.ReadLength` and `Framer.BufReader.ReadLine`: what a refused frame leaves in the buffer is not stated, because the session closes the connection.
- `CoapDedup.HandlerRunsOnce`: message handling is a step machine over values rather than a class, because plugins and handlers run in the middle of it; the rest of the server (notifications, retransmission, idle sweeps) appears as arbitrary changes to observers and pending notifications.
- `Retransmit.Scheduler.RetransmitDue`: one tick without interruption; what others do between its snapshot and its sends is in RetransmitTable, a step machine over values.
- `Sessions.SessionManager.CloseAll`: other goroutines register between its snapshots; what they do during one is in SessionWalk, a step machine over values.
- `Observe.Registry.Register`: remotes without a slash, as host:port texts are; sequence numbers are kept in the table rather than shared by reference.
- `RateLimit.Limiter.OnMessage`: the limit is fixed (no SetLimit), and for a key that once accepted an overtaken message only the effect is stated, not the decision; the 32 shards are one map, since a shard only decides which lock is taken.
- `RateLimit.Limiter.Decides`: not for such a key either.
- `Acceptor.Acceptor.TryAccept`: float64 arithmetic is over reals.
- `PluginChain.Chain.Append`: the library sort is modelled by insertion, which is what it does with up to 20 elements; of longer chains only what every stable sort gives is stated, so nothing about their order when a difference of priorities overflows.
- `PoolOverlap.MinimumKeptIff`: in the machine an evaluation may begin at any time rather than after every 1024th submit; that only adds runs to the safety results, and the runs that show the floor is reached keep to the 1024.
- `PluginChain.Chain.StartAll`: the joined error values are reduced to the failing plugin's outcome.
- OnMessage of the plugin chain, SetLogger and PluginNames: one pass over a list without rollback. LwM2M value types other than integers: single conversions. The observe notification fan-out: one send per relation, whose tracking is in RetransmitTable.
- `internal/app`, `api`, `cmd`, `examples`, `deploy`, `scripts`: configuration, re-exports and tools.
- Circuit breaker, TTL cache, pub/sub, backoff, autoban, heartbeat, blacklist, PROXY protocol, gRPC-Web framing, metrics, logging and tracing.
- Liveness that depends on the Go scheduler, and handlers that block or re-enter the pool.
