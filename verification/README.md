# PeerStreamer: a verified model of its core

PeerStreamer is a peer-to-peer live streaming application. A peer receives media chunks from its neighbours, plays
them out in order, and trades them with offers, accepts and acknowledgements. This project models the stateful parts of
it and proves what they keep over every call and every run.

| module | part of the program |
|---|---|
| `Playout`, `PlayoutRuns` | the ring that turns an unordered, lossy, repeating chunk stream into an ordered one |
| `NodeIdSet` | shuffle and bounded set operations on arrays of node ids |
| `Selection`, `SelectionArrays`, `Topology` | the neighbourhood: dropping silent peers, selecting, adding and removing |
| `Alto` | peer selection with ratings from an ALTO server |
| `Framing` | length-prefixed chunk streams over partial writes and reads |
| `Transactions`, `TransactionRuns` | the linked list of open transactions and its timeout sweep |
| `RateControl` | the controller of the offer period |
| `ChunkLock`, `Trading`, `Trader`, `Exchange` | locks, offers, accepts, sending; whole runs of two peers and a network |
| `Payload` | payload and frame headers |
| `Common` | types and sequence functions used by several modules |

Code that changes things in place is a class or a method over arrays. Each such method is proved equal to a function of
the old state, and the lemmas about that function say what it means, over whole runs where the program promises something
about runs.

What the model takes from outside. Clock readings, values of rand(), results of send and recv, network messages and
server replies are parameters, so the results hold for all of them. Of the GRAPES library only these facts are used:
decoding undoes encoding; a peer set holds each id once, appends new peers with zeroed metadata and closes the gap of a
removed one; a set of chunk ids is enumerated without repetitions; the peer sampler returns distinct ids with one
metadata record each; the encoder stores nothing when it refuses. A size_t has more than 32 bits, so the sum of a
header's size and its value does not wrap around in input_get. Times are integers (microseconds) or reals and `double`
values are reals. Each operation reads the clock once; in the accept and send loops each round has its own reading.

Places where code and documentation, or code and intention, disagree. The model follows the code.

- chunk_write announces that a chunk without room is skipped. Only an encoder result of 0 is skipped; a refusal (-1) leaves
  three stray bytes in the stream, behind which the reader finds no chunk any more (`Framing.AppendedIntact`,
  `Framing.EndToEnd`; a run that does it: `Framing.RefusalReached`, `Framing.RefusalBlocks`).
- The length chunk_write gives the encoder leaves out the four header bytes, so a call can store behind the send buffer.
  `Framing.StoresInside` gives the exact condition, `Framing.FirstCallOverruns` and `Framing.OverrunReached` calls and runs
  that fail it. The model ends where that happens, as the language defines nothing beyond.
- The sweep over transactions clears all expired ones exactly when the head is live or is the only element: it stops
  after unlinking an expired head (`TransactionRuns.SweepEffect`, `TransactionRuns.OfferClearsIff`,
  `TransactionRuns.ExpiredLeft`). The comment of transaction_remove announces -1.0 for an unknown id; the code returns
  -2.0.
- The playout buffer registers a loss under the id of the chunk that triggered it. A registration carries the id it stands
  for if and only if that id was let in (`PlayoutRuns.PlayoutAccounting`, `PlayoutRuns.LossCarrier`,
  `PlayoutRuns.LossUnderOtherId`).
- frame_header_write and frame_header_parse undo each other only on the ranges given by `Payload.FrameRoundTrip` and
  `Payload.FrameBytesRoundTrip`; `Payload.FrameNotReadBack` and `Payload.BytesNotRewritten` are inputs outside them.
- A comment in topology-ALTO.c (lines 343-346) names as a goal not to increase the peer set. The merge increases it exactly
  when before < min(target, union), or before < union for target 0 (`Alto.MergeIncreases`), and the neighbours can carry it
  past the target (`Alto.FillPassesTarget`, `Alto.GrowsFromEmpty`).
- A playout time limit is checked when a peer decides what to accept, but never decides: a chunk that is not held has no
  known time stamp (`Trading.WantsExactly`).

## Model

| member | source | states |
|---|---|---|
| Playout.OutputBuffer.BufferFree | output-grapes.c:104-126 | one slot empties; its chunk is filtered, written if reordering is on, registered as played, and the position moves behind it |
| Playout.OutputBuffer.BufferFlush | output-grapes.c:128-139 | plays exactly the run of consecutive pending ids from the position on, in at most buff_size-1 steps; the guard against going round the ring never fires |
| Playout.OutputBuffer.MakeRoom | output-grapes.c:162-175 | the skip loop ends with the position at id - buff_size + 1, having played what was pending and given up the rest, id by id |
| Playout.OutputBuffer.Settle | output-grapes.c:180-217 | a chunk inside the window is played if awaited, dropped if its slot holds the same id, stored otherwise; the slot of another id is never met |
| Playout.OutputBuffer.Deliver | output-grapes.c:141-218 | the ring refines a map of pending chunks across a whole delivery, and the "Crap!" exit is unreachable |
| Playout.SlotHolds | output-grapes.c:128-139 | in a ring tied to a window of at most buff_size ids, the slot of an id holds a chunk exactly when that id is pending |
| PlayoutRuns.RunAccount | output-grapes.c:141-218 | after any deliveries the whole state (written, registered, pending, position) is determined by the accepted copies and the position |
| PlayoutRuns.DeliveredAccount | output-grapes.c:162-217 | one delivery keeps that account balanced and opens the window just enough; a chunk inside the window causes no loss |
| PlayoutRuns.AcceptedMeaning | output-grapes.c:152-160 | an id is accepted if and only if some copy arrives before the window has passed it, and the copy kept is the first one |
| PlayoutRuns.WrittenInOrder | output-grapes.c:104-126 | written ids strictly increase and lie in [start_id, end_id]; written are exactly the first copies let in, passed and inside the filter |
| PlayoutRuns.PlayoutAccounting | output-grapes.c:168-199 | registrations number next_chunk minus the first id; the one for an id is positive, and carries that id, exactly when the id was let in; else it carries an id at least a whole buffer ahead; positives number the distinct ids accepted and passed |
| PlayoutRuns.LossCarrier | output-grapes.c:168-175 | a loss is registered with the id and time stamp of the very delivery that moved the position past the lost id |
| PlayoutRuns.LossUnderOtherId | output-grapes.c:172 | with room for one chunk, ids 0 and 2 register id 2 twice, once for the loss of 1 |
| PlayoutRuns.SortedIffTimely | output-grapes.c:128-218 | without a filter, deliveries that start with f and cover f..g are written as exactly f..g in order, first copies, if and only if no id arrives while an id a whole buffer older is still to come |
| PlayoutRuns.TimelySorted | output-grapes.c:128-218 | timely deliveries leave no loss registered and nothing pending |
| PlayoutRuns.RunAnnounced | output-grapes.c:107-119 | over every run: the first-played announcement is made once an id inside the filter was played, the last-played one once an id past its end was when something was out, and last_chunk is the last id played inside the filter |
| PlayoutRuns.RunDuplicates | output-grapes.c:202-208 | over every run exactly the deliveries of an id that waits in the ring are counted as duplicates |
| NodeIdSet.Shuffle | nodeid_set.c:31-42 | the in-place loop computes the swaps its draws ask for, whatever rand() returns |
| NodeIdSet.DrawExactly | nodeid_set.c:37 | position p is drawn if and only if p * (RAND_MAX + 1) <= rand() * (i + 1) < (p + 1) * (RAND_MAX + 1) |
| NodeIdSet.DrawsEven | nodeid_set.c:36-37 | each position is drawn by (RAND_MAX + 1) / (i + 1) values of rand(), rounded down or one more |
| NodeIdSet.ShuffledByDraw | nodeid_set.c:36-41 | the element at the drawn position comes last, and the rest is shuffled with the last element in its place |
| NodeIdSet.ShuffleReaches | nodeid_set.c:31-42 | with at least as many values of rand() as elements, every permutation comes out of some of them |
| NodeIdSet.ShuffledPermutes | nodeid_set.c:31-42 | a shuffle is a permutation |
| NodeIdSet.ShuffleBijective | nodeid_set.c:31-42 | for distinct elements, sequences of draws and permutations correspond one to one |
| NodeIdSet.NidsetFilter | nodeid_set.c:48-64 | writes the longest fitting prefix of the filtered list; -1 exactly when it does not fit |
| NodeIdSet.NidsetComplement | nodeid_set.c:67-88 | the same for B minus A, also when A lies in the destination array before the place written to |
| NodeIdSet.NidsetFind | nodeid_set.c:90-97 | the first position of the id, or the size if there is none |
| NodeIdSet.NidsetAdd | nodeid_set.c:99-114 | A followed by B minus A, cut at the capacity, -1 exactly when it does not fit |
| NodeIdSet.NidsetAddI | nodeid_set.c:116-124 | the same in place, reading and writing one array |
| NodeIdSet.MinusMembers | nodeid_set.c:66-88 | B minus A has exactly the members it should and stays free of repetitions |
| NodeIdSet.MinusKeeps | nodeid_set.c:66-88 | what stays of B keeps its order and its copies |
| Common.FilterKeeps | nodeid_set.c:48-64 | what passes the filter keeps its order and its copies |
| NodeIdSet.UnionMembers | nodeid_set.c:99-114 | A followed by B minus A has exactly the members of both and stays free of repetitions |
| Selection.ChooseRelated | topology.c:372-401 | how kept, known, candidate, desired, other and selected lists of a step relate, for every outcome of the shuffles |
| Selection.SelectionSize | topology.c:372-401 | the selection has size max(keep, min(target, number of known ids)), or all known ids for target 0, and every list fits its array |
| Selection.SelectionExact | topology.c:372-401 | the selection is free of repetitions, contains all kept peers and the planned share of desired ones, and nothing unknown |
| Selection.PlannedNumbers | topology.c:377-399 | the numbers of peers kept, of desired newcomers and in the end, as rounded shares of topo_mem, alpha_target and the target |
| Selection.ArrangeReaches | topology.c:372-398 | without ranking, any order of old, desired or other peers comes out of some values of rand() |
| Selection.JoiningNew | topology.c:408-418 | whoever joins is among the new ids and was no neighbour |
| SelectionArrays.Candidates | topology.c:372-393 | the array code computes the kept, candidate and desired lists; no nidset call fails |
| SelectionArrays.SelectPeers | topology.c:372-401 | the array code computes the selection; no nidset call fails |
| SelectionArrays.Plan | topology.c:372-423 | additionally who joins and who leaves; no nidset call fails |
| Topology.RemovedMembers | topology.c:217-229 | removing an id loses its entry and nothing else |
| Topology.LiveMembers | topology.c:292-306 | the survivors of the sweep are exactly the peers heard of recently enough |
| Topology.LiveExactly | topology.c:292-306 | a peer survives if and only if it was heard of, or else created, recently enough; all others are dropped, each once, and the order stays |
| Topology.AddedRecords | topology.c:200-208 | adding concerns one id: it is in afterwards with its metadata, a newcomer last and fresh, and every other peer keeps place and record |
| Topology.RemoveUndoesAdd | topology.c:200-222 | removing a newcomer gives the old peer set back |
| Topology.Neighbourhood.DropInactive | topology.c:292-306 | the index-adjusting removal loop drops, tells and blacklists exactly the silent peers |
| Topology.Neighbourhood.OnTopologyMessage | topology.c:316-337 | an ADD appends exactly the sender's fresh record and sends it the buffer map unless it is in, a REMOVE loses exactly the sender, anything malformed changes nothing |
| Topology.Neighbourhood.AddNewcomers | topology.c:408-419 | newcomers join with the metadata of their id; the missing-metadata branch is unreachable |
| Topology.GreetingsMembers | topology.c:209-214 | who is sent the buffer map and who is asked to add this peer, and how many messages that makes |
| Topology.StepMessagesMembers | topology.c:209-228 | over a whole step: exactly who gets the buffer map, who is asked to add and who to remove this peer, and how many messages that makes |
| Topology.Neighbourhood.RemoveOthers | topology.c:421-427 | those not selected leave and are told so |
| Topology.Neighbourhood.Reselect | topology.c:346-439 | a whole selection step, on the peer set or on the saved ids, with every message sent |
| Topology.Neighbourhood.UpdatePeers | topology.c:282-442 | the whole call: silent peers go first in every case, then a message is obeyed or a step made; the final peer set, its exact size and every message sent |
| Topology.ReselectedPeers | topology.c:402-427 | after a step the peer set holds exactly the selected ids; those who stay keep their records, newcomers get theirs from the metadata |
| Topology.StepExact | topology.c:346-428 | from any peer set and candidates: the final peer set equals the selection, contains all kept peers and has the exact size |
| Alto.FindAltoPeer | topology-ALTO.c:122-138 | takes the first remaining entry with the host's address and empties its place |
| Alto.BuildList | topology-ALTO.c:254-277 | the list gets the planned number of peers, the best rated first; with what is left it is the original list; every lookup succeeds |
| Alto.MatchOne | topology-ALTO.c:254-262 | while guidance and remaining entries agree as multisets of addresses, a lookup succeeds and they agree afterwards |
| Alto.LeftOver | topology-ALTO.c:264-275 | as long as fewer entries were taken than there are, a random pick can find one |
| Alto.HostsPermute | topology-ALTO.c:223 | sorting by rating permutes the addresses |
| Alto.SomebodyUnlisted | topology-ALTO.c:349-363 | pigeonhole: a full peer set that lacks a listed id holds a peer that is not listed |
| Alto.MergeSwap | topology-ALTO.c:349-367 | an eviction and an addition keep the invariant of the merge |
| Alto.MergedIds | topology-ALTO.c:341-371 | after the merge every listed id is in, no listed peer was evicted, and the size is exactly max(before, min(target, union)), or the union's for target 0 |
| Alto.AltoTopology.MergeAltoList | topology-ALTO.c:341-371 | the loop does that, and room can always be made; exactly: the first unlisted peers go, as many as needed, and the missing ids come last in list order |
| Alto.SparedNext | topology-ALTO.c:352-361 | evicting the first unlisted peer that is left makes one more eviction of the original peer set |
| Alto.AltoTopology.FindUnlisted | topology-ALTO.c:352-363 | finds a peer to evict if there is one |
| Alto.AltoTopology.Rebuild | topology-ALTO.c:318-336 | without a query out, the neighbourhood becomes the peer set followed by the other neighbours; with one out it stays frozen |
| Alto.AltoTopology.Query | topology-ALTO.c:177-213 | a query goes out exactly when it is due and none is out; it asks about every neighbour, and success or failure is recorded |
| Alto.AltoTopology.Reply | topology-ALTO.c:215-279 | a reply yields guidance with the server's ratings, lowest first, and a list of exactly the planned size that begins with its first hosts |
| Alto.RatedByServer | topology-ALTO.c:182-223 | the sorted guidance holds exactly each neighbour's address with the rating the server gave that neighbour |
| Alto.BestRated | topology-ALTO.c:223-262 | the bucket's addresses are the first of the guidance; their ratings are the server's, and no address beyond the planned share is rated better |
| Alto.SortExists | topology-ALTO.c:140-146 | a stable sort by rating is among the orders the results allow |
| Alto.AltoTopology.FillUp | topology-ALTO.c:372-380 | an unfilled peer set takes in exactly the neighbours it lacks, in order, behind the peers it has; a filled one none |
| Alto.AltoTopology.DropSilent | topology-ALTO.c:384-403 | drops and blacklists exactly the silent peers |
| Alto.AltoTopology.UpdatePeers | topology-ALTO.c:308-408 | the whole call: when a reply is taken in and, by the server's ratings, what list it makes; when exactly a merge happens; and the exact peer set and blacklist it ends with |
| Alto.ResultsMeaning | topology-ALTO.c:179-218 | when results are in hand, and when a query is out, after the selector has run |
| Alto.ComposedMeaning | topology-ALTO.c:341-403 | what that peer set means: listed ids are in or silent; nobody else goes without a merge, nor in one that fits the target; an unfilled set takes all neighbours and a filled one none; and the size is bounded |
| Alto.MergeIncreases | topology-ALTO.c:343-347 | the merge increases the peer set if and only if it was smaller than both the target and the union with the list |
| Alto.FillPassesTarget | topology-ALTO.c:372-380 | the neighbours carry the peer set past the target if and only if it was unfilled and lacks more of them than fit, or it was past it before |
| Alto.GrowsFromEmpty | topology-ALTO.c:343-380 | with target 1 and no peers, merging one id increases the peer set, and two neighbours pass the target |
| Framing.HeaderValue | output-chunkstream.c:139 | the reader recovers the length the writer put in |
| Framing.HeaderBytes | output-chunkstream.c:139 | the header is the length in four bytes, most significant first |
| Framing.TakenMeaning | input-chunkstream.c:153-170 | a complete frame that decodes comes out as the chunk in it with id, time stamp and data, without attributes, and leaves the buffer; nothing else does |
| Framing.StoresInside | output-chunkstream.c:135-141 | every store of a call lies inside the send buffer if and only if the encoding is empty, or the header fits and so does the encoding behind it unless it is refused |
| Framing.FirstCallOverruns | output-chunkstream.c:135 | into an empty buffer, exactly the encodings of more than BUFSIZE - 4 and at most BUFSIZE bytes are stored past its end |
| Framing.OverrunReached | output-chunkstream.c:135-140 | chunks that fit fill the buffer of a stalled connection to its end; the header of the next one is then stored behind it |
| Framing.ChunkWriter.Append | output-chunkstream.c:135-141 | for every encoding: whether a store lies behind the buffer, the new position, and otherwise the exact new content |
| Framing.ChunkWriter.ChunkWrite | output-chunkstream.c:128-175 | tells exactly when the buffer is overrun; otherwise bytes sent plus bytes kept are the bytes buffered, for full, partial, stalled and broken writes |
| Framing.ChunkReader.InputGet | input-chunkstream.c:127-181 | hands out the first complete frame; returns 0 exactly when another complete frame is buffered and decoding did not fail |
| Framing.FirstFrame | input-chunkstream.c:149-154 | a buffer agreeing with a frame stream has its first frame complete exactly when it is long enough |
| Framing.TakesNext | input-chunkstream.c:149-170 | a read takes exactly the next chunk of the stream or nothing |
| Framing.EndToEnd | output-chunkstream.c:128-175 | over every run of partial and stalled writes, refusals and fragmented reads, no byte is lost or reordered, and the chunks read have, one by one, the id, time stamp and data of the chunks handed over before the first refusal, and no attributes |
| Framing.WrittenBeforeRefusal | output-chunkstream.c:135-141 | the frames in the stream are those of all chunks handed over before the first refusal, and stray bytes follow exactly if there was one |
| Framing.AllDelivered | input-chunkstream.c:149-180 | once their bytes have arrived, calling input_get often enough hands out every one of those chunks with its id, time stamp and data, and nothing else |
| Framing.ReaderProgress | input-chunkstream.c:127-181 | an incomplete frame never fills the buffer, and once all frames are in, each call yields the next chunk and tells truly whether more follow |
| Framing.AppendedIntact | output-chunkstream.c:135-141 | a chunk goes out intact, with every store inside the buffer, if and only if its encoding is not empty and its whole frame fits; it is skipped if and only if its encoding is empty; any other is refused or overruns the buffer |
| Framing.StrayBytesBlock | input-chunkstream.c:153-170 | whatever follows the stray bytes of a refused chunk, the reader's buffer never holds a complete frame again |
| Framing.RefusalReached | output-chunkstream.c:135-141 | while the connection stalls, the second of two chunks of half the buffer's size is refused, and the stray bytes are in the stream |
| Framing.RefusalBlocks | input-chunkstream.c:153-170 | however that run continues, the reader never hands out anything but the first chunk |
| Framing.RefusalFinal | output-chunkstream.c:135-141 | over every continuation of a run with a refusal, the first refusal stays where it was |
| Transactions.TransactionTable.CheckNeighborStatusList | transaction.c:49-105 | the sweep over the linked list, including its early stop after an expired head |
| Transactions.TransactionTable.TransactionCreate | transaction.c:109-144 | sweeps, then puts the new transaction in front with the next id |
| Transactions.TransactionTable.TransactionRegAccept | transaction.c:149-168 | records the time at the first element with the id, if any |
| Transactions.TransactionTable.TransactionRemove | transaction.c:173-220 | unlinks the first element with the id and returns its accept time, -2.0 if there is none |
| Transactions.TransactionTable.Unlink | transaction.c:75-91 | removing a head, middle or last element keeps both link directions consistent |
| Transactions.FirstMatch | transaction.c:159-215 | an accept changes the accept time of the first element with the id, a removal takes it out, and neither touches anything else |
| Transactions.NoMatch | transaction.c:159-191 | without such an element nothing changes |
| Transactions.SweepingStep | transaction.c:68-103 | one iteration keeps the live elements seen so far in front, or ends the sweep at an expired head |
| Transactions.IdStep | transaction.c:121-124 | the n-th id is n mod 65535 + 1, never 0 |
| TransactionRuns.SweepEffect | transaction.c:49-105 | the live prefix stays if the head is live, else only the head goes; all expired elements go if and only if the head is live or alone |
| TransactionRuns.SweepSeconds | transaction.c:71-103 | with a head at most ten seconds old exactly the elements at most ten seconds old stay, else exactly the head goes |
| TransactionRuns.IdsApart | transaction.c:111-124 | ids fewer than 65535 creations apart differ |
| TransactionRuns.IdsDistinct | transaction.c:111-143 | ids in the list are distinct while its ends are fewer than 65535 creations apart |
| TransactionRuns.FindsNewest | transaction.c:159-166 | a lookup hits the most recently created transaction with the id |
| TransactionRuns.RunsGood | transaction.c:109-220 | over every interleaving: newest first, ids by creation, at most one sample per transaction, each from its latest accept |
| TransactionRuns.AckYields | ratecontrol.c:131-147 | an ack yields a sample if and only if the newest open transaction with its id was accepted; id 0 changes nothing; the transaction is closed |
| TransactionRuns.OfferClearsIff | transaction.c:109-116 | over every run, creating a transaction leaves only live ones if and only if the newest was live or the only one |
| TransactionRuns.ExpiredLeft | transaction.c:93-98 | three offers at 0, 1 and 20 seconds leave the first one in the table, expired |
| TransactionRuns.TwoOffersClear | transaction.c:109-116 | two creations within the lifetime of the first leave only live transactions |
| RateControl.TimevalRoundTrip | ratecontrol.c:47-56 | microseconds and normalised timevals determine each other |
| RateControl.UpdateAmount | ratecontrol.c:79-108 | how far each of the four branches moves the period, to the microsecond: by which rate, for how much elapsed time, and within which bounds |
| RateControl.UpdateDirection | ratecontrol.c:69-109 | which way each branch moves the period and at most how far (factors 1.1 and 1.2) |
| RateControl.SlowAcksReachMax | ratecontrol.c:102-104 | thirty slow acks in a row, each at least a second after the other, carry any period at or above the initial one to one second |
| RateControl.StepMeaning | ratecontrol.c:111-123 | an answer moves offer_accept a tenth of the way to 1 or 0; an ack replaces the delay and updates the period only with autotuning |
| RateControl.FirstSlowAck | ratecontrol.c:102-104 | a first slow ack turns a period of 200 ms into 208 ms |
| RateControl.RunSane | ratecontrol.c:69-123 | every run keeps the period in [PERIOD_MIN, PERIOD_MAX] and offer_accept in [0, 1] |
| RateControl.Rejections | ratecontrol.c:111-123 | k rejections in a row, whatever acks come between them, scale offer_accept by 0.9^k |
| RateControl.RejectedNotFaster | ratecontrol.c:96-101 | after twelve rejections in a row, with any acks between, an ack does not speed up a peer that is faster than its initial period |
| RateControl.ShrunkExact | ratecontrol.c:98 | shrinking divides by 1 + rate * dt / 10^6, cut to whole microseconds and not below 5 ms |
| RateControl.GrownExact | ratecontrol.c:100-104 | growing multiplies by 1 + rate * dt / 10^6, cut to whole microseconds and not above one second |
| RateControl.RateController.UpdatePeriod | ratecontrol.c:69-109 | the method computes that update and keeps the timeval normalised |
| RateControl.RateController.RcRegAck | ratecontrol.c:131-147 | an ack closes its transaction and adjusts the controller only if its accept time is known |
| ChunkLock.LockTable.LocksInit | chunklock.c:46-63 | there is room for one more lock and no lock is lost when the array grows |
| ChunkLock.LockTable.ChunkLockRemove | chunklock.c:74-78 | exactly the given entry goes |
| ChunkLock.LockTable.ChunkLocksCleanup | chunklock.c:80-88 | the backward loop keeps exactly the locks that have not timed out, in order |
| ChunkLock.LockTable.UnlockChunk | chunklock.c:98-107 | the first lock on the chunk goes |
| ChunkLock.LockTable.IsLocked | chunklock.c:109-120 | tells whether a live lock on the chunk exists, after cleaning up |
| ChunkLock.CleanedMembers | chunklock.c:65-88 | cleaning keeps exactly the live locks, at most one per chunk |
| ChunkLock.CleanedExactly | chunklock.c:32-86 | exactly the locks at most two seconds old stay, and a chunk is locked if and only if one of them is on it |
| ChunkLock.UnlockedMembers | chunklock.c:98-107 | unlocking a chunk removes its lock and no other |
| Trading.NeededUnlessOutdated | streaming.c:425-456 | a peer needs a chunk it lacks if and only if the chunk is not older than everything in its completed buffer, and that buffer is exactly full |
| Trading.WantsExactly | streaming.c:230-235 | the exact condition for wanting a chunk, in which the playout limit plays no part |
| Trading.AcceptsFirstWanted | streaming.c:218-254 | an offer is answered with the first max_deliver of its chunks that are missing and were not on request when it came |
| Trading.WantedMembers | streaming.c:232-245 | those chunks are offered, wanted, without a live lock, and distinct |
| Trading.WantedExactly | streaming.c:232-245 | an offered chunk is wanted if and only if this peer takes part, lacks it, has it inside its window, and has no request for it of the last two seconds |
| Trading.WantedInOrder | streaming.c:232-245 | wanted chunks come in the order of the offer |
| Trading.NewLocks | streaming.c:235-237 | every new lock is for an accepted chunk, dates from its round and names the peer it was requested from |
| Trading.TooOldMeaning | streaming.c:409-415 | a chunk of known time is too old once it has aged past the limit, with the wrap-around when the clock is behind the limit |
| Trading.TimestampOf | streaming.c:394-399 | a held chunk has its own time stamp, any other the unknown one |
| Trading.SendsOnce | streaming.c:521-550 | sent chunks were accepted and are owned, at most max_deliver; a peer with a known buffer map gets none of it and none twice, and the map grows by exactly what was sent |
| Trading.SendsWhatItCan | streaming.c:529-549 | a chunk is sent only if its send succeeded and it was judged sendable, and left out within the budget only if one of the two fails |
| Trading.GrownMeaning | streaming.c:541 | while chunks are sent to a peer, its buffer size stays and its buffer map only grows |
| Trading.OfferedExactly | streaming.c:600-612 | a chunk is offered if and only if it is more than dt younger than the oldest and, by the source, stands in the first three quarters of the buffer |
| Trading.OfferedOwned | streaming.c:600-612 | offers hold only owned chunks, never the oldest, and the source's never one of its newest quarter |
| Trader.Trader.CbToBmap | streaming.c:204-215 | the ids of the chunk buffer |
| Trader.Trader.GetChunksToAccept | streaming.c:218-254 | the loop over offer and lock table computes the accepted chunks and the new locks |
| Trader.Trader.SendAcceptedChunks | streaming.c:521-550 | records the accept for its transaction; the loop computes what is sent and the peer's new buffer map |
| Trader.Trader.ComposeOfferCset | streaming.c:584-615 | the loop collects exactly those chunks |
| Trader.Trader.ReceivedChunk | streaming.c:317-346 | an arrival releases the lock, goes to the output, is marked as known to its sender, and is answered with the buffer map unless that is suppressed |
| Trader.Trader.OfferReceived | chunk_signaling.c:81-105 | the offer replaces what was known of its sender; the answer is computed from lock table and buffer |
| Trader.Trader.AcceptReceived | chunk_signaling.c:107-120 | an accept counts for the estimate of accepted offers, is recorded for its transaction, and is answered up to its own size |
| Trader.Trader.AckReceived | chunk_signaling.c:50-61 | an acknowledgement replaces what was known of its sender, closes its transaction and adjusts the controller only if the accept time is known |
| Trading.ReportDecides | chunk_signaling.c:50-79 | after an acknowledgement or a buffer map, whether an accepted chunk is sent is told by that report alone, whatever was believed or sent before |
| Exchange.PendingUntilGot | streaming.c:328 | a request stays pending until its chunk arrives |
| Exchange.CleanupGood | chunklock.c:80-88 | cleaning keeps the agreement between locks and unanswered requests |
| Exchange.AcceptGood | streaming.c:235-237 | so does accepting a chunk without a lock, and the new request is apart from the earlier ones |
| Exchange.ArrivalGood | streaming.c:328 | so does an arrival |
| Exchange.OfferGood | streaming.c:232-245 | so does answering an offer |
| Exchange.StepSound | chunk_signaling.c:50-120 | every step of two peers over a network that loses, repeats and reorders messages keeps the protocol's invariant |
| Exchange.RunSound | chunk_signaling.c:50-120 | hence every run does |
| Exchange.StepEffects | chunk_signaling.c:50-120 | what each step changes, told by the chunks concerned, and that it changes nothing else |
| Exchange.ExchangeHappens | streaming.c:218-353 | a concrete run in which a chunk is offered, accepted, sent, and arrives |
| Exchange.NoDoubleRequest | chunklock.c:32-120 | over every run two requests for a chunk, from whichever peers, are separated by its arrival or by more than two seconds |
| Exchange.ChunksContained | streaming.c:521-550 | over every run each chunk sent was requested by an accept that answers an offer of the same transaction and keeps to its limit |
| Exchange.SentWhileOwned | streaming.c:530-539 | a chunk leaves only in answer to an accept that names it and while its sender owns it |
| Exchange.AcceptedFresh | streaming.c:232-245 | an accepted chunk is missing, inside the window and on request from nobody; afterwards it holds a lock of its round, unless that has expired |
| Payload.OrShifted | payload.h:29-36 | or-ing a value into freshly shifted-in zeros adds it, for every shift |
| Payload.OrBits | payload.h:29-36 | a bit is set in the or of two numbers if and only if it is set in one of them |
| Payload.FramePlaces | payload.h:66-80 | which byte of a frame header holds what, most significant byte first |
| Payload.ParsedPlaces | payload.h:23-42 | which bytes the parsed size, dts and pts come from |
| Payload.PayloadPlaces | payload.h:53-64 | which byte of a payload header holds what, most significant byte first |
| Payload.ParsedFields | payload.h:44-51 | which bytes the parsed fields come from |
| Payload.FrameHeaderWrite | payload.h:66-80 | the eight bytes written, and no other |
| Payload.FrameHeaderParse | payload.h:23-42 | the shift loops compute big-endian values |
| Payload.FrameRoundTrip | payload.h:23-80 | parsing what was written gives the frame back if and only if 0 <= size < 2^24, 0 <= dts, and pts is -1 or 0 <= pts - dts < 255 |
| Payload.FrameNotReadBack | payload.h:37-41 | every frame with pts 255 after dts reads back without a pts |
| Payload.FrameBytesRoundTrip | payload.h:23-80 | writing what was parsed gives the bytes back if and only if a present pts is not 2^32 - 1; when the writer's subtraction fits 32 bits |
| Payload.BytesNotRewritten | payload.h:75-79 | eight bytes with dts = pts = 2^32 - 1 whose last byte changes when they are written again |
| Payload.PayloadHeaderWrite | payload.h:53-64 | the nine bytes written, and no other |
| Payload.PayloadHeaderParse | payload.h:44-51 | the fields are the big-endian values of their bytes |
| Payload.PayloadRoundTrip | payload.h:44-64 | parsing what was written gives the header back if and only if its fields fit 16 bits; writing what was parsed always gives the bytes back |

## Left out

- Sockets, files, select, reconnecting and command-line parsing (net_helpers.c, streamer.c, output_connect, input_open): a
  write or read is an arbitrary number of bytes. A broken connection is modelled in chunk_write, but the end-to-end result
  is about one unbroken connection.
- The GRAPES library (peer sampler, TMAN, scheduler, chunk buffer, encoding), beyond the facts named above.
- The order that vcmp_rtt produces under topo_keep_best and topo_add_best, and that the ALTO comparison produces among
  equal ratings: any permutation, or any permutation sorted by rating.
- measures.c, measures-monl.c, dbg.c, channel.c, config.c: counters, logging and options.
- loop.c and loop-mt.c: message dispatch and its two mutexes. The models take one step at a time.
- Choosing whom to offer to and what to push (send_offer's scheduler call, send_chunk): the runs of `Exchange` allow any offers.
- Memory: allocation failures, lifetimes and duplicates of node ids; integer overflow near INT_MAX in chunk ids and sizes.
- Floating-point rounding, and the value of log in update_period: only its being increasing is used.
- The contents of the buffer maps that add_peer sends (topology.c:209), and in topology-ALTO.c (line 86) their sending.
- TMAN metadata, update_metadata and topoParseData in update_peers; negative target sizes; alto_factor outside [0, 1] and
  more than the ALTO client's maximum number of peers.
- Framing.ChunkWriter.ChunkWrite: says nothing about a call that overruns the buffer except that it does, because the
  language defines nothing after that.
- Trader.Trader.SendAcceptedChunks: asks that a known peer has a buffer map, as the code does by adding to it.
- Trader.Trader.ReceivedChunk: what the chunk buffer holds afterwards is a parameter, because it is the library's choice;
  announcing the buffer map to all neighbours (streaming.c:347-349) is left out.
