# Blue Gene/Q data mover and vRNIC: a Dafny model

The data mover (`bgmudm/`) moves bytes between nodes of a Blue Gene/Q with direct puts, RDMA counters, collectives and
connections; the vRNIC driver (`bgvrnic/`) puts the verbs interface on top of it. This project models the parts of both
that carry the data and decide when somebody is told that it has arrived, and proves what they promise.

| module | what it models |
|---|---|
| ScatterGather, RdmaWalk, RdmaTransfer | physical lists byte by byte, the walk over two lists in lock step, the write and the bundled read built on it |
| Registration, Translation, EndToEnd | pinned pages coalesced into a region, user ranges translated into lists, and the copy from user range to user range |
| RdmaPlan, RdmaPieces, RdmaProtocol, RdmaSafety, RdmaProgress, RdmaCalls, RdmaMemory | remote reads and writes as a step system: requests, objects with byte counters, puts in any order and any split, callbacks; what is always true of it, that every run ends, whom it calls, and what it leaves in memory |
| Broadcast, BroadcastProgress, BroadcastNode | the RDMA broadcast of any number of nodes over any number of rounds, that every run of it ends, and one node's handlers in place |
| Pools, PoolProtocol, PoolRuns, PollRuns | the heap lists of RDMA objects and packet descriptors, the pool under any interleaving at its lock boundaries, the locked sections on the heap over any run of it, and whole polls and flushes as runs of it |
| Connections, ConnectionProtocol, ConnectionRuns | the connection blocks on heap lists, where every block is over any sequence of calls and when a call faults, and the two tied together: the whole heap over any run |
| FlightMerge, FlightRecorder, FlightRuns | the ring writer and the resumable merging decoder of the flight recorder, and both from end to end on the heap |
| RecvQueue, RecFifo | receive entries, arrivals and completions; packets taken from the reception ring |
| SpinLock | the lock on load-reserved and store-conditional |
| Remainders, RdmaLayout, InjFifos, BaseAddressTable | the aligned counter regions and the allocators over shared bit registers |

How to read the main results:

- The step systems (`RdmaProtocol`, `Broadcast`, `PoolProtocol`, `ConnectionProtocol`, `SpinLock`) have a `Step` (or `Move`) for
  everything software or hardware can do, and their results hold in every state that any finite sequence of enabled steps reaches.
- What updates memory in place is a class or a method over arrays and heap lists, whose contract ties the new state to a
  function of the old one; the results about those functions are lemmas.
- The environment follows the documented rules: a packet of n bytes subtracts n from the counter it names
  (`include/hwi/include/bqc/MU_Addressing.h:46-54`), a collective completes when every node of its class route has contributed
  (`include/hwi/include/bqc/classroute.h:57-72`), one route delivers in order, and a status put does not overtake the puts
  injected before it for the same counter (the deterministic routing that `bgmudm/rdma_object.c:67` relies on).

Where the code does less than it seems to promise, the model follows the code and says exactly when it does what is meant:

- `mudm_rdma_read` with lists that fall short and more than eight puts keeps its last bundle and waits for the bytes in it. It
  waits for ever exactly when that bundle carries bytes (`ShortReadEndsIff`, `ShortReadNeverEnds`), and nothing keeps an originator
  from asking for such a read (`NeverEndingReadExists`); in the whole protocol nothing
  else hangs, and nothing runs for ever (`ClosedAtRestIff`, `EveryRequestEnds`).
- The 32-bit running total of the walk is safe for all lists exactly up to requests of 0xF0000001 bytes (`WalkStaysWithinRequestIff`).
- `bgvrnic_reg_user_mr` offers each page of a DMA segment with the length of the whole segment, and counts bytes in 32 bits. The
  region is its pinned bytes exactly when its length is below 2^32 and only the segment that holds its end has several pages
  (`RegisteredIsPinnedIff`).
- `bgvrnic_xlate_sgl` stops the kernel for a range that starts outside its region. For one that only ends outside, it returns the
  full length with fewer bytes in the table (`ReturnIsHonestIff`).
- It sums lengths in a signed 32-bit integer, so it returns the sum exactly below 2^31 bytes (`ReturnIsHonestIff`). The length of one
  longer range comes back negative, and the remote request made of it is for nearly 2^64 bytes, for which no translated list is long
  enough (`RequestIsCoveredIff`).
- `mudm.h` says that a zero length ends a list; the code ends a list only at a null address, and the model does the same.
- A polled pool entry is back on the free list before its request identifier is reported, a flushed one only after
  (`FreedBeforeReportedIff`); no identifier is lost or doubled either way.
- A status callback never changes the status that a receive completion carries (`CallbackStatusIsLost`), and the length of a remote
  message's completion is that of the buffer (`RemoteLengthIff`); a message that does not fit is always flagged (`TooLongIff`).
- The number of elements asked for in a counter region is kept in 32 bits; there is one for every connection's objects exactly
  when that number fits (`EnoughIff`).
- Freeing a connection block that nothing precedes goes through list pointers that it may never have had (`ConnectionFree`). With
  callers as they are in the node, a run meets such a fault exactly when it frees a block that was never pending, as giving up on
  the very first connection does, or the first block of an active list whose link has been reset (`NoFaultIff`,
  `FirstConnectionFaults`).
- Freeing the head of an abort list changes the head of the pending list (`ConnectionFree`); moving a pending list in front of an
  abort list leaves a proper double list only if one of the two is empty (`DisablePending`).
- The offset of a counter region is carried from one link to the next; a link's objects are where their addresses say exactly
  when its allocation is unaligned or all earlier ones are aligned (`ConsistentIff`).

## Model

| member | source | states |
|---|---|---|
| ScatterGather.BoundaryIsPrefixTotal | bgmudm/mudm.c:70-139 | a byte count is an element boundary of a list exactly when it is the total of some prefix of the list |
| RdmaWalk.WalkCopies | bgmudm/mudm.c:84-140 | below the wrap limit, the puts of the dual walk send byte i of one flattened list to byte i of the other, for exactly the bytes that request and lists have in common |
| RdmaWalk.WalkEnds | bgmudm/mudm.c:84-140 | the walk ends short of the request exactly when a list is too short, and on it exactly when both cover it and it ends at a boundary of either |
| RdmaWalk.WalkStaysWithinRequestIff | bgmudm/mudm.c:57-60 | the walk moves no more than n bytes for all lists if and only if n is at most 0xF0000001, because the total is kept in 32 bits |
| RdmaTransfer.CoveringIsSafe | bgmudm/mudm.c:70-139 | a list without a null address is never read past its memory exactly when it covers the request |
| RdmaTransfer.InjFifo.Inject | bgmudm/common_inlines.h:242-270 | an injection is appended while the FIFO is active and dropped while it is not |
| RdmaTransfer.InjectWalk | bgmudm/mudm.c:80-140 | the loop over both lists in memory injects exactly the puts of the walk, in order, without one that would pass the request |
| RdmaTransfer.RdmaWrite | bgmudm/mudm.c:47-157 | return code and injected puts of a write for all arguments, with the error put on a mismatch |
| RdmaTransfer.WriteSucceedsIff | bgmudm/mudm.c:139-156 | a write returns 0 if and only if both lists cover the request and it ends at an element boundary of either |
| RdmaTransfer.WriteCopies | bgmudm/mudm.c:84-156 | a write copies the flattened lists byte for byte: all of the request if it returns 0, less if it does not |
| RdmaTransfer.BundlesRefine | bgmudm/mudm.c:392-402 | the bundles, one after the other, are the plain list of puts; each has one to eight, all but the last eight |
| RdmaTransfer.BundleWalk | bgmudm/mudm.c:390-461 | the packet-filling loop sends full bundles and keeps the rest in the packet, together the puts of the walk |
| RdmaTransfer.RdmaRead | bgmudm/mudm.c:333-552 | how a read ends, and every message and error put it sends, for all lists |
| RdmaTransfer.MultiDirectput | bgmudm/mudm.c:581-594 | replaying a message injects its puts, all of them, in order |
| RdmaTransfer.ReadSendsAllOrNothing | bgmudm/mudm.c:463-524 | with lists that cover the request a read succeeds exactly at a boundary, and its messages replay to the exact copy of the request or, past the end within eight puts, to nothing |
| RdmaTransfer.ShortReadEndsIff | bgmudm/mudm.c:525-549 | a short read of more than eight puts leaves in its counter the awaited value plus the bytes of the bundle it never sends, so it sees that value if and only if that bundle carries nothing |
| Registration.AddPageFlattens | bgvrnic/bgvrnic_verbs.c:1224-1237 | coalescing a page into the last element or starting a new one adds exactly the bytes of the page |
| Registration.RegUserMr | bgvrnic/bgvrnic_verbs.c:1164-1245 | the region's elements are the first bytes offered from the offset on, up to the 32-bit length; none is longer than 28 bits, and none continues the one before it unless the two together would be |
| Registration.OfferedIsPagesIff | bgvrnic/bgvrnic_verbs.c:1209-1222 | the first bytes offered are those of the pinned pages if and only if no segment of several pages ends before the last of them |
| Registration.RegisteredIsPinnedIff | bgvrnic/bgvrnic_verbs.c:1164-1245 | the elements that registering leaves are the pinned bytes of the region if and only if its length is below 2^32 and only the segment holding its end has several pages |
| Translation.PiecesFlatten | bgvrnic/bgvrnic.h:363-400 | the elements for one range are exactly the bytes of the region from its offset on, for its length |
| Translation.TranslateFlattens | bgvrnic/bgvrnic.h:341-411 | whenever translation stores its result, the flattened elements are the requested sub-ranges one after the other, and their total is the sum of the lengths |
| Translation.XlateSgl | bgvrnic/bgvrnic.h:341-411 | the table filled in place and the code returned, for every range: the sum of the lengths in signed 32 bits, which is the sum itself below 2^31; or the error of a full table or a missing region; and a start outside the region stops the kernel |
| Translation.ReturnIsHonestIff | bgvrnic/bgvrnic.h:341-411 | below 2^31 bytes in all, the table holds as many bytes as the returned length says if and only if no range reaches past the end of its region |
| EndToEnd.CopyPinnedRange | bgvrnic/bgvrnic_main.c:332-382 | registering, translating and walking one range on each side copies byte i of the one user range to byte i of the other |
| EndToEnd.NeighbouringPagesAreWhole | bgvrnic/bgvrnic_verbs.c:1226-1237 | two neighbouring pages, which registering coalesces into one element, are among the buffers of these results |
| EndToEnd.CopyUserRanges | bgvrnic/bgvrnic_main.c:190-242 | the same for lists of ranges, cut to the shorter side |
| EndToEnd.RequestIsCoveredIff | bgvrnic/bgvrnic_main.c:367-371 | the length that translating one range returns, as the 64-bit length of the request made of it, is the range's, and the walk over its elements stays within them, if and only if the range has less than 2^31 bytes |
| EndToEnd.CopyRange | bgvrnic/bgvrnic_main.c:361-382 | the calls themselves, one after the other: register and translate on both sides and write over the two tables, which succeeds and injects exactly the copy of the one user range to the other, for sure when both buffers have fewer pages than a table has elements |
| RdmaPlan.SentIsEmitted | bgmudm/mudm.c:390-552 | what the protocol lets a responder send is what the two transfer routines emit |
| RdmaPlan.VerdictIff | bgmudm/mudm.c:463-549 | a request succeeds if and only if both lists cover it and it ends at a boundary of either |
| RdmaPlan.WaitCoversUnsent | bgmudm/mudm.c:502-537 | the value a spinning read waits for never exceeds what it has left unsent |
| RdmaPlan.NeverEndsIff | bgmudm/mudm.c:525-537 | it is less than that exactly for a short read of more than eight puts with bytes in its last bundle |
| RdmaPieces.PendingZeroIff | include/hwi/include/bqc/MU_Addressing.h:46-54 | nothing is pending for a counter exactly when no undelivered piece is aimed at it |
| RdmaProtocol.StepKeeps | bgmudm/rdma_object.c:44-157 | every step of requesters, responders, network and pollers keeps objects, pieces, credit, error words and coverage in order |
| RdmaProtocol.DoneMeansDelivered | bgmudm/rdma_object.c:65-91 | an object is found done only when nothing is on its way to it, and its status is the verdict on the request |
| RdmaProtocol.StepKeepsLog | bgmudm/rdma_object.c:92-130 | every step keeps the callbacks true, single and complete |
| RdmaSafety.RequestsAreThoseMade | bgmudm/mudm.c:256-304 | over any run, the recorded requests are those of its sends, in order, with their lists, lengths and identifiers |
| RdmaSafety.CreditConserved | bgmudm/mudm.c:261-304 | in every reachable state each counter is the bytes on their way to it plus what is still owed to it, whatever the order and split of deliveries |
| RdmaSafety.NothingHitsAFreedObject | bgmudm/rdma_object.c:94-105 | what is still to be delivered is aimed at an object in use, of its own request |
| RdmaSafety.ZeroWhenAllArrived | bgmudm/mudm.c:377-381 | a responder's counter is zero if and only if nothing aimed at it is undelivered and both lists cover the request, and then every byte has arrived |
| RdmaSafety.CallbackIsTrue | bgmudm/rdma_object.c:65-130 | a requester at either end is told success if and only if the lists it sent allow the request, and by then every byte of it has arrived where it belongs; the originator is called with the identifier it gave |
| RdmaSafety.CalledExactlyOnce | bgmudm/rdma_object.c:86-130 | no requester is called twice for a request, and an originator is called exactly when its request is closed and it gave an identifier |
| RdmaSafety.ShortReadNeverEnds | bgmudm/mudm.c:525-549 | in no state of any run is a short read of more than eight puts with bytes in its last bundle closed or even reported to its originator |
| RdmaSafety.NeverEndingReadExists | bgmudm/mudm.c:525-549 | nine elements of one byte on each side and a request for ten bytes make such a read |
| RdmaSafety.ClosedAtRestIff | bgmudm/mudm.c:525-549 | when nothing is left to do, a request is closed at its originator if and only if it is not such a read |
| RdmaProgress.QuietIffNothingEnabled | bgmudm/rdma_object.c:44-157 | nothing but a new request can happen exactly when all requests are answered, nothing can be delivered, and no watcher finds its object done |
| RdmaProgress.ComesToRest | bgmudm/rdma_object.c:44-157 | from every state that keeps the invariants the protocol can come to rest |
| RdmaProgress.EveryRequestEnds | bgmudm/rdma_object.c:86-130 | whatever the order and split of deliveries, a run without new requests is bounded, and when it can go no further an originator has been called if and only if it gave an identifier and its request is not such a read |
| RdmaCalls.ResponderIsCalledIff | bgmudm/mudm.c:377-381 | over any run in which a request is answered with an identifier, the responder is called with no other one; and it has been called exactly when it gave one, the request is a reported read, both lists cover it, and it ends at a boundary of either |
| RdmaCalls.NothingIsRefused | bgmudm/mudm.c:256-304 | after any run every request of 1 to 0xF0000001 bytes can be made with a free object, and every request on its way can be answered with any identifier |
| RdmaCalls.EveryResponderEnds | bgmudm/rdma_object.c:86-130 | when a run can go no further, a responder has been called if and only if it gave an identifier to a read that succeeds |
| RdmaCalls.PollIsTheStep | bgmudm/rdma_object.c:62-92 | a poll of the counter list takes exactly the objects that the protocol's step is possible for, and makes the same call and sends the same error as that step |
| RdmaMemory.SuccessMeansBytes | bgmudm/common_inlines.h:242-270 | once a requester has been told success, whatever the order and split of deliveries, each byte of the destination list holds what the same byte of the source list held when the request was made, unless transfers overlap |
| Broadcast.StepKeeps | bgmudm/mudm_poll_bcast.c:108-248 | every step of nodes and network keeps each node's counts, inbox, state word, counter and bytes where the protocol has them |
| Broadcast.PutOnlyWhenAllArmed | bgmudm/mudm_poll_bcast.c:193-206 | no broadcast put starts before every node has armed its counter for that round, and nothing else is on its way then |
| Broadcast.StatusOnlyWithData | bgmudm/mudm_poll_bcast.c:220-233 | when a node writes its status word, all bytes of the round are in its memory |
| Broadcast.ClearedOnlyWhenAllHold | bgmudm/mudm_poll_bcast.c:108-129 | a round that any node has cleared is whole at every node |
| Broadcast.OneRoundApart | bgmudm/mudm_poll_bcast.c:132-165 | nodes are at most one round apart, and each contributes to each collective of a round once |
| Broadcast.WriteReachesAll | bgmudm/mudm_bcast.c:117-151 | an accepted write makes the originator take over length and identifier, arm its counter with the length and send it to every node, and changes nothing else; a refused one changes nothing |
| Broadcast.RoundsAreThoseAccepted | bgmudm/mudm_bcast.c:117-151 | over any run, the rounds are the accepted writes, in order, with their lengths and identifiers |
| Broadcast.AcceptedExactlyOnce | bgmudm/mudm_bcast.c:117-151 | over any run, the originator accepts exactly when every earlier request is over everywhere, and each accepted request with an identifier is called back once, in order, only there |
| Broadcast.NothingHangs | bgmudm/mudm_poll_bcast.c:108-248 | when nothing is left to do, every node is inactive and has finished every round |
| BroadcastProgress.ComesToRest | bgmudm/mudm_poll_bcast.c:108-248 | from every state that keeps the invariants the protocol can come to rest |
| BroadcastProgress.EveryRoundEnds | bgmudm/mudm_poll_bcast.c:220-248 | under any schedule a run without new requests is bounded, and when it can go no further every node is inactive and holds every accepted request whole, and those with an identifier have been called back in order |
| BroadcastNode.BcastObject.RdmaWrite | bgmudm/mudm_bcast.c:117-151 | the object accepts or refuses in place as the protocol's write does, takes over length and identifier, and broadcasts RDY with the length only when it accepts |
| BroadcastNode.BcastObject.ReadyReceive | bgmudm/mudm_poll_bcast.c:132-165 | the counter is armed before the contribution that lets the put start, which an empty payload does not make |
| BroadcastNode.BcastObject.StartBroadcast | bgmudm/mudm_poll_bcast.c:182-194 | the collective put of the object's own request, if it has data |
| BroadcastNode.BcastObject.Poll | bgmudm/mudm_poll_bcast.c:220-248 | only a receiver whose counter is zero writes its status word and contributes to the finish, and both at once |
| BroadcastNode.BcastObject.ClearReceive | bgmudm/mudm_poll_bcast.c:108-129 | the object is inactive again, and only the owner of a request is called |
| Pools.Pool.Allocate | bgmudm/rdma_object.h:62-79 | the head of the heap free list is taken, its request identifier cleared |
| Pools.Pool.ReleaseToPoll | bgmudm/rdma_object.c:160-175 | the entry goes in front of the list to be polled, with the links of both |
| Pools.Pool.Partition | bgmudm/rdma_object.c:62-140 | the loop over the detached list is the fold of one step per entry, on heap lists that share no entry |
| Pools.Pool.PollDetached | bgmudm/rdma_object.c:62-157 | on the heap: an RDMA object stays on the list, in order and unchanged, exactly while its counter is positive and its error 0, a packet descriptor while its count is beyond the hardware's; all others are free, reported in order in batches of eight, and answered with their error; what was released meanwhile comes after what stays |
| Pools.Pool.CancelList | bgmudm/rdma_object.c:188-223 | a flush reports every request of the list as cancelled, one by one and in order, and frees the whole list |
| Pools.PollTakes | bgmudm/rdma_object.c:62-157 | the fold of a poll keeps, counts, reports and answers exactly those entries |
| Pools.PollFilters | bgmudm/mudm_pkt.c:170-261 | entries that are not done stay, in order, and completion puts are those of the done ones, in order |
| Pools.PollReports | bgmudm/rdma_object.c:86-155 | the callbacks of a poll carry the request identifiers of the done entries, in order |
| Pools.BatchesOfEight | bgmudm/rdma_object.c:113-125 | callbacks have one to eight identifiers, all but the last eight, and lose none |
| Pools.PollFreesDone | bgmudm/rdma_object.c:94-147 | the free list gains exactly the done entries |
| Pools.PollFreesInFront | bgmudm/mudm_pkt.c:194-213 | they go to its front; what was free stays at its end |
| Pools.FewReportsKeepOrder | bgmudm/rdma_object.c:141-147 | with fewer than eight reports the done entries arrive there in order |
| Pools.PartitionIsWhole | bgmudm/rdma_object.c:62-140 | every entry is done or put back, and none is lost |
| PoolProtocol.NothingLostOrDoubled | bgmudm/rdma_object.c:44-223 | over any interleaving of allocation, release, polls and flushes, every entry and every request identifier is in exactly one place |
| PoolProtocol.ReportedExactlyOnce | bgmudm/mudm_pkt.c:105-279 | with nothing left to poll, every identifier was reported as often as it was handed in, and every entry is free or with a caller |
| PoolProtocol.FreedWhileWaitingIff | bgmudm/rdma_object.c:113-155 | over any run, an entry is freed while its identifier waits in a report buffer if and only if a poll, not a flush, frees it |
| PoolProtocol.FreedBeforeReportedIff | bgmudm/rdma_object.c:113-155 | over any run, an identifier handed in once is reported by the time its entry is free if and only if the entry was flushed |
| PoolProtocol.FreedBeforeReported | bgmudm/rdma_object.c:113-125 | five calls of a fresh pool free an entry whose identifier is unreported |
| PoolRuns.Allocate | bgmudm/rdma_object.h:62-79 | after any history, the locked section on the heap is the protocol's next step, and fails exactly when that is not possible |
| PoolRuns.Release | bgmudm/rdma_object.c:160-175 | after any history, the locked section on the heap is the protocol's next step |
| PoolRuns.Detach | bgmudm/rdma_object.c:57-60 | the first locked section is the protocol's step, and the thread has the whole list to itself then |
| PoolRuns.SpliceFree | bgmudm/rdma_object.c:113-147 | freeing what a thread holds back is the protocol's step, on whatever free list there is by then |
| PoolRuns.Repost | bgmudm/rdma_object.c:148-152 | putting back goes ahead of whatever was released meanwhile, as in the protocol |
| PoolRuns.HeapKeepsEntries | bgmudm/rdma_object.c:44-223 | after any history of locked sections and private steps the heap's lists hold each entry at most once, and none that a caller or a thread has |
| PollRuns.PollIsRun | bgmudm/rdma_object.c:44-157 | a whole poll of an idle thread with nobody else at work, as it is on the heap, is a run of the protocol: the same free list, list to be polled, and reported identifiers |
| PollRuns.FlushIsRun | bgmudm/rdma_object.c:188-223 | the same for a flush |
| Connections.Context.ConnListInit | bgmudm/mudm_connect.c:62-97 | all blocks are on the free list in order and have no list pointers, and every other list is empty |
| Connections.Context.GetFree | bgmudm/mudm_connect.c:113-141 | the head of the free list is taken and linked to nothing, and keeps its state and list pointers |
| Connections.Context.PutOnPending | bgmudm/mudm_connect.c:99-111 | the block heads its link's pending list, which stays a double list |
| Connections.Context.Activate | bgmudm/mudm_connect.c:143-166 | a block moves from any place of its pending list to the head of its active list, and both stay double lists |
| Connections.Context.ConnectionFree | bgmudm/mudm_connect.c:168-222 | a block leaves any place of its list for the free list; exactly which head changes, and exactly when a missing list pointer is used |
| Connections.Context.DisableActive | bgmudm/mudm_cleanup.c:86-100 | every connection of the list is disconnecting and knows no active list any more; the list stays as it is |
| Connections.Context.DisablePending | bgmudm/mudm_cleanup.c:102-122 | the pending list is aborted and put in front of the abort list; from a double list comes a double list if and only if one of them was empty |
| Connections.Context.FlushActive | bgmudm/mudm_connect.c:303-323 | the whole active list is freed in order |
| ConnectionProtocol.EveryBlockOnce | bgmudm/mudm_connect.c:62-222 | over any run of calls without a fault every block is on exactly one list, exactly once, and its state and list pointers say which |
| ConnectionProtocol.ListIsOfItsLink | bgmudm/mudm_connect.c:99-166 | over any run without a fault, a pending block is on the pending list it was put on last, and a block that has been activated is on the active list of the link its caller gave it last, until that link is reset |
| ConnectionProtocol.FaultsIff | bgmudm/mudm_connect.c:168-222 | after any such run the next call of a careful caller faults if and only if it frees a block that was never pending or the first one of an active list whose link has been reset |
| ConnectionProtocol.NoFaultIff | bgmudm/mudm_connect.c:168-222 | a run of careful callers meets no fault if and only if no call is one of these |
| ConnectionProtocol.FirstConnectionFaults | bgmudm/mudm_connect.c:432-488 | giving up on the first connection of a node is one |
| ConnectionRuns.Activate | bgmudm/mudm_connect.c:143-166 | on the whole heap: the protocol's move of the block, or a fault exactly when the protocol has one |
| ConnectionRuns.FreeBlock | bgmudm/mudm_connect.c:168-222 | the same for a block on no list, or anywhere on a pending or an active one |
| ConnectionRuns.PlayFromStart | bgmudm/mudm_connect.c:62-323 | any sequence of calls from initialisation on goes well exactly when the run meets no fault, and leaves the heap as the run says: `next` and `prev` of every pending and active block are its neighbours on the one list it is on, its state and list pointers fit that list, and each head is the first block |
| FlightMerge.RingKeepsLast | include/trace_impl.h:32-55 | a ring read once round from the slot to be written next holds the last entries written |
| FlightMerge.BlankRingDecodes | include/trace_impl.h:76-99 | a log that started blank decodes to the last entries that fit |
| FlightMerge.MergeKeepsLogs | include/trace_impl.h:107-138 | the merge emits exactly the entries of each log, once, in the log's order |
| FlightMerge.MergeInOrder | include/trace_impl.h:107-119 | the merge of ordered logs is ordered by timestamp, equal timestamps by log |
| FlightMerge.MergeTells | include/trace_impl.h:137-155 | an entry is decoded as invalid exactly when its log does not know its identifier, and a log's opening line precedes its first entry unless that was decoded before or is invalid |
| FlightMerge.ResumedCallsMerge | include/trace_impl.h:75-130 | however the buffers are sized, the calls of a decode together emit the merge |
| FlightMerge.CallsMakeProgress | include/trace_impl.h:120-127 | every call with at least 256 characters emits something while entries remain |
| FlightRecorder.FlightLog.Write | include/trace_impl.h:32-55 | the ticket's slot is written: the oldest entry goes, the new one is last |
| FlightRecorder.Select | include/trace_impl.h:107-119 | the search over the logs finds the earliest entry, the first log among equals |
| FlightRecorder.Decode | include/trace_impl.h:58-172 | one call, on logs in memory, emits the next tokens of the merge and leaves the registry where the next call goes on |
| FlightRecorder.RoundTrip | include/trace_impl.h:32-172 | writing to any number of logs and decoding gives, of each, the last entries that fit in the order written, merged by time |
| FlightRuns.RecordAndDecode | include/trace_impl.h:32-172 | the same on the heap: writes to the logs in any interleaving, then decode calls with buffers of any sizes from 256 on until nothing is left |
| RecvQueue.QueuePair.PostRecv | bgvrnic/bgvrnic_verbs.c:984-1008 | entries are appended up to the first with too many ranges or without memory, which is the one reported |
| RecvQueue.QueuePair.ProcessRecvWqes | bgvrnic/bgvrnic_verbs.c:57-90 | the done entries at the front, and only they, become completions in order |
| RecvQueue.QueuePair.Arrive | bgvrnic/bgvrnic_main.c:190-329 | a message takes the first entry that has had none; without one the queue pair is disconnected, and a remote message whose read is refused stops the kernel |
| RecvQueue.QueuePair.StatusCallback | bgvrnic/bgvrnic_verbs.c:130-139 | the entry is done, and whatever is complete at the front is completed |
| RecvQueue.FifoMatching | bgvrnic/bgvrnic_main.c:282-307 | over any sequence of events the k-th message that finds an entry takes the k-th entry posted, and completions are in posting order |
| RecvQueue.CompletionsTell | bgvrnic/bgvrnic_main.c:145-242 | over any run of a new queue pair, completion k carries the identifier of the k-th request posted and the length, status and immediate flag of the k-th message taken; and exactly the entries with nothing more to come are complete, in order |
| RecvQueue.CopyImmediate | bgvrnic/bgvrnic_main.c:174-187 | the copy loop stores byte i of the message at byte i of the flattened buffer |
| RecFifo.Fifo.NextPacketWrap | bgmudm/mudm.c:752-787 | the packet at the head is returned whole, also across the end of the ring, and the head moves past it |
| RecFifo.PacketsInOrder | bgmudm/mudm.c:752-787 | packets stored one after the other are returned one after the other, wherever the ring ends |
| SpinLock.MutualExclusion | bgmudm/mudm_lock.c:46-79 | at most one thread is between lock and unlock; the lock word is 0 exactly when none is and names the holder otherwise |
| SpinLock.AcquiredOnlyWhenFree | bgmudm/mudm_lock.h:97-115 | a store-conditional that succeeds finds the lock free |
| SpinLock.FreeLockCanBeTaken | bgmudm/mudm_lock.c:54-68 | a spinning thread can take a free lock within three steps of its own |
| SpinLock.SharedLock.CompareAndSwap | bgmudm/mudm_lock.h:97-115 | the retry loop is a run of the protocol, whatever other threads do between its loads and stores: it ends holding the lock, which was free right before, or having seen another value |
| RdmaLayout.ComputeSectionSize | bgmudm/rdma_object.c:225-236 | the size is a power of two with room for one more element than returned, and no larger than needed |
| RdmaLayout.EnoughIff | bgmudm/rdma_object.c:225-231 | there are four elements for every connection with one link, two with more, and at least 128, exactly when that number fits 32 bits |
| RdmaLayout.MaskTestFindsRegion | bgmudm/rdma_object.c:284-294 | the bitwise mask test of an address succeeds if and only if it lies in the region |
| RdmaLayout.RdmaInit | bgmudm/rdma_object.c:264-319 | start, offset and number of objects of every link's region |
| RdmaLayout.RegionFits | bgmudm/rdma_object.c:280-314 | area, control block and object list lie inside the allocation |
| RdmaLayout.ConsistentIff | bgmudm/rdma_object.c:271-300 | objects are where their physical addresses say if and only if the allocation is unaligned or all earlier ones are aligned |
| RdmaLayout.CountersInRegion | bgmudm/rdma_object.c:307-312 | all counters and the broadcast counter lie apart from each other in the region, and the mask test finds them |
| RdmaLayout.RdmaObjInit | bgmudm/rdma_object.c:238-263 | the objects are on the free list in order, each with the address of its own counter |
| InjFifos.Group.Query | include/MU_impl.h:57-86 | exactly the free FIFOs of the subgroup, each once |
| InjFifos.Group.Allocate | include/MU_impl.h:264-472 | all requested FIFOs or none, never a taken one; only the requested FIFOs' bits change, to their attributes |
| InjFifos.Group.Deallocate | include/MU_impl.h:1297-1385 | the FIFOs are free and their bits as the hardware resets them |
| InjFifos.MasksTakeBits | include/MU_impl.h:361-446 | turning off one mask and on the other, in either order, gives distinct requests their flags and leaves all other bits |
| InjFifos.DeallocateUndoes | include/MU_impl.h:1345-1382 | freeing what was just allocated leaves every register as before |
| BaseAddressTable.Table.Query | include/MU_impl.h:181-217 | exactly the free entries of the subgroup; all eight of them exactly when none is taken |
| BaseAddressTable.Table.Allocate | include/MU_impl.h:728-870 | distinct entries are given out if and only if all are free and the subgroup is unused or in the mode asked for; other subgroups keep their mode |
| BaseAddressTable.Table.Deallocate | include/MU_impl.h:1489-1562 | the entries are free, and the mode bit is on again exactly when the last one has gone or it was on before |

## Left out

- `mudm_rdma_read` and `mudm_send_message_remote`: the -EBUSY returns when no packet descriptor or RDMA object is free, the refusal of empty or too long lists and of a link that is down, and the magic-number checks.
- RdmaRead: an inactive injection FIFO, for which the routine polls the completion of a descriptor number that was never given out; what the hardware interface answers is not part of the repository.
- BundleWalk: the same.
- RdmaProtocol: link reset and injection into an inactive FIFO, whose dropped puts are modelled for one transfer in `RdmaTransfer` only; a reset cancels requests through the flush in `Pools`.
- RdmaMemory: stores by processors into memory that a transfer is using, and transfers that overlap.
- RdmaProtocol: requests of zero bytes, and requests above the limit of the 32-bit total.
- RdmaProtocol: the wrap-around of the 64-bit byte counters, which the credit equation keeps below 2^63.
- Broadcast: more than one thread per node; the code contributes to the finish before it marks the object as waiting, and the model does both in one step, which is right when the thread that polls also handles the messages.
- Broadcast: several originators at once, which the handlers do not guard against, and the older atomic clear message.
- CopyRange: ranges of 2^31 bytes and more, whose request has the walk read past the elements that translation stored (`RequestIsCoveredIff`).
- RegUserMr: DMA segments of 2^28 bytes or more, whose length does not fit the list element's 28-bit field.
- OfferedIsPagesIff: overlapping DMA segments, where the second page of a segment of several pages is also the first page of the next.
- RegisteredIsPinnedIff: the same.
- Registration: allocation failures, and the shrinking copy of the element table.
- Pools: the time-out diagnostics for stuck packets, and the initialisation loop of the packet pool, whose terminator indexes the number of packets.
- PoolRuns: the private lists of threads between locked sections on the heap; `Pools.Pool.PollDetached` says what one thread makes of them, and `PollRuns.PollIsRun` that the protocol's thread does the same.
- Connections: the contents of connection messages, direction choice, and the user callbacks that a flush makes.
- ConnectionProtocol: calls on blocks of an abort list, which change the head of the pending list (`ConnectionFree` says how), and the states a caller sets on a block just before it frees it.
- FlightRecorder: text formatting (an entry has a bounded text size), writes from several threads at once, the wrap-around of the 64-bit ticket, and entries with the largest possible timestamp.
- RecvQueue: the send queue, flow of events to the connection manager, and failure to allocate a completion.
- SpinLock: memory barriers and fairness between threads.
- RdmaLayout: allocation failure and addresses near the top of the address space.
- InjFifos: shifts and register addresses (a register is the set of its bits that are on), enabling, and interrupt configuration.
- Reception FIFO allocation, which checks only its first identifier, and the interrupt and threshold registers.
- Ethernet, connection-manager events, queue-pair attributes, RAS messages and trace formatting: plumbing that would add only easy members.
