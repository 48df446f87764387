# Pittacus: a verified model

Pittacus is a small UDP gossip library in C: rumour spreading, anti-entropy and acknowledged retry. This project
models it in Dafny in two layers and proves what it is built to guarantee.

**One node.** The objects of the C code are classes that work in place: the 20-slot vector clock with its visited
bit mask (`VectorClock.dfy`), the 25-slot data log (`DataLog.dfy`), the growable member set (`Members.dfy`), the
doubly linked envelope queue (`EnvelopeQueue.dfy`) over 100 shared 512-byte slots (`EnvelopePool.dfy`), the
encoders that write through a cursor (`CodecBuffer.dfy`), and the gossip descriptor itself (`Gossip.dfy`). Each
method is proved to compute a function of the old state. Those functions live in `Ring.dfy`, `VectorClock.dfy`,
`Codec.dfy`, `Reservoir.dfy`, `Members.dfy`, `Outbound.dfy` and `Node.dfy`, and the properties are proved about them:
what one sending pass writes (`SendingPass.dfy`), what each entry point enqueues, changes and returns, message by
message (`Handlers.dfy`), what the entry points keep over every run of a node, whatever datagrams arrive and whatever
write fails (`Tracking.dfy`, `NodeInvariants.dfy`, `NodeEffects.dfy`), what becomes of every envelope (`Retries.dfy`),
when a tick gossips (`Ticking.dfy`), whom rumours reach and how often (`Spreading.dfy`), and what is left when the clock
ticks within a pass (`LooseRuns.dfy`, `ClockRuns.dfy`). `Layout.dfy` gives the datagrams by position and proves encoders
and decoders exact against it.

**Many nodes.** `Network.dfy` and `NetworkRuns.dfy` put any number of nodes on a network that loses, repeats and
reorders datagrams but forges none, and prove safety over every run. `PairExchange.dfy` and `Flights.dfy` prove exactly
when anti-entropy between two stores converges, and `Meetings.dfy` carries that over to two nodes and the datagrams
they enqueue for each other.

How the results are stated:

- An operation is pinned down by statements that do not use its own definition: envelopes and datagrams are written out
  field by field, and numbers such as 3 attempts, 10000 ms or 486 bytes as numbers.
- Time is a parameter. One sending pass takes the list of its `pt_time()` readings. The method and the function it
  refines take any readings; the run theorems assume a wall clock that never goes back and stands still within one
  pass. Without the second assumption shared-slot safety is false: `TickingPassBreaksSlots` is a run of any node that
  ends with a slot handed out while it is still queued. `NextSlotExactly` says, for every run with any readings, exactly
  when the next slot is unused.
- `pittacus_gossip_send_data` takes payloads of 487 to 512 bytes into clock and log, but no data message that carries
  them fits 512 bytes, so they are never sent, and in answer to a status nothing after them is either.
  `LargePayloadStays` is such a run, and the convergence theorems are equivalences: two nodes meet if and only if neither
  has logged such a payload that the other lacks.
- `gossip.h` says that `pittacus_gossip_process_send` writes all available messages. The code skips those that wait for
  a retry and drops unsent those behind an expired one for the same recipient. `PassWritesExactly` says which are
  written, `AllAreWritten` exactly when all are, and `WaitingIsNotWritten` is a run in which one is not.
- A clock forgets beyond 20 originators. `MergeIsJoinExactly` and `ForgetsExactly` say exactly when; the network
  results assume at most 20 originators.
- The Hello and Welcome decoders count a whole `cluster_member_t`, so a member with an address below 6 bytes encodes
  but does not decode. `RoundTrip` says so for every frame.
- The 32-bit counters wrap in the functions, as in C; the run theorems assume that neither has wrapped yet.
- Results over runs follow for the object because every entry point of `Gossips.Gossip` ends in the state, and
  returns the code, of the function of the same name in `Nodes`.

`dafny verify dfyconfig.toml` checks the project.

## Model

| member | source | states |
|---|---|---|
| NetworkRuns.AckSoundness | src/gossip.c:557-600 | Over every run of any number of nodes: if an acknowledgement removes an envelope carrying a data version, its recipient is the sender of the acknowledgement and that node's clock already holds the version or a later one |
| NetworkRuns.NoInvention | src/gossip.c:390-409 | In every state of every run, every version in a log, accepted, delivered, queued or in any datagram ever written was published by its originator under that number with that payload, and no clock entry exceeds what its originator published |
| NetworkRuns.DeliveryOrder | src/gossip.c:568-583 | Each node delivers strictly increasing numbers per originator and never its own data |
| NetworkRuns.BoundedFlooding | src/gossip.c:568-583 | Over a whole run no node takes one version in, and so calls for its spreading, twice: the acceptances of a version are at most as many as the nodes |
| NetworkRuns.RumoursAreSpreads | src/gossip.c:568-583 | One event enqueues data for random members at most three times, and only for a version that it takes in |
| NetworkRuns.RumoursBounded | src/gossip.c:568-583 | Over a whole run all nodes together enqueue at most three rumour envelopes per node for one version |
| NetworkRuns.RunIsHonest | src/gossip.c:642-668 | Every state of every run satisfies the network invariant behind the results above |
| NetworkRuns.StepKeeps | src/gossip.c:733-850 | Any event at any node keeps the network invariant |
| Network.DeliveredWasPosted | src/gossip.c:807-817 | A datagram that reaches its handler is the message its source enqueued, for this node, under the number in its header |
| Meetings.ReachableNodesConverge | src/gossip.c:602-640 | Any two connected nodes that runs lead to, with at most 20 originators between them: when one status and every message it set off has arrived as a datagram, in any order, with any rumours and flushes in between, both nodes' clocks are the pointwise maximum of the two if and only if neither had logged a payload above 486 bytes that the other lacked |
| PairExchange.QuiescenceIsConvergence | src/gossip.c:466-485 | The same equivalence for any two stores whose log holds what their clock holds, the answers being the ones that are really enqueued |
| PairExchange.AnswersAreComplete | src/gossip.c:466-485 | A status is answered in full if and only if every logged payload it is behind on has at most 486 bytes |
| Meetings.LargePayloadStays | src/gossip.c:390-409 | For any new node and any payload of 487 to 512 bytes: `send_data` logs it, an empty peer's status is answered by an acknowledgement alone, and no node that lacks it can converge with this one |
| Flights.ShuffledExchangeEnds | src/gossip.c:602-640 | Whichever way the clocks compare and in whatever order each flight arrives: if both sides can send what the other lacks, two flights bring both to the join and the fifth is answered by nothing; if not, they are still apart after the fifth |
| Meetings.NodesActAsSides | src/gossip.c:557-640 | The data, status and acknowledgement handlers do to clock and log exactly what a side of the exchange does, and enqueue exactly the acknowledgement, its answers and the rumour, each under its recipient |
| Meetings.ReachableSideOk | src/gossip.c:103-126 | Every run leaves clock and log holding the same number for every id while at most 20 originators were seen |
| NodeInvariants.RunKeeps | src/gossip.c:733-850 | Every state of every run of one node satisfies the node invariant, whatever datagrams arrive |
| NodeInvariants.ApplyKeeps | src/gossip.c:733-850 | Every entry point keeps the node invariant, failed writes included |
| NodeInvariants.WireIntegrity | src/gossip.c:807-817 | Every datagram any run writes is the encoding of the message enqueued under its number, for that recipient, with only the header's sequence number replaced by that number |
| NodeInvariants.SlotsNeverShared | src/gossip.c:202-234 | At any moment of any run the slot chosen for the next message belongs to no envelope left in the queue |
| NodeInvariants.RetriesBounded | src/gossip.c:775-823 | A welcome or an acknowledgement is written at most once, any other message at most three times, and two writes of one number are at least 10000 ms apart |
| Retries.EnvelopeFate | src/gossip.c:775-828 | In every pass of every run: an envelope that wants an acknowledgement is given up after exactly three writes of its number or behind an expired one for the same recipient, before that it is written once more as soon as it is due, and a welcome or an acknowledgement is written once and gone; what the pass does not get to stays as it is |
| Retries.AttemptsAreWrites | src/gossip.c:817-823 | In every state of every run the attempt count of a queued envelope is the number of datagrams written under its number, out of one for a welcome or an acknowledgement and three otherwise |
| NodeInvariants.QueueEmptiesInFour | src/gossip.c:767-831 | From any state of any run, waiting envelopes included, four passes at least 10000 ms apart, with successful writes and nothing new, empty the queue |
| NodeInvariants.QueueIsNumbered | src/gossip.c:193-200 | Sequence numbers strictly increase from head to tail and never exceed the counter, so a lookup finds the one envelope with a number |
| NodeInvariants.AcknowledgedRemovesOne | src/gossip.c:594-598 | An acknowledgement or welcome removes exactly the envelope with its number, or nothing, and keeps the order |
| NodeInvariants.PhaseChanges | src/gossip.c:733-747 | The phase changes only from initialized to joining or connected by a join, and from joining to connected by a decodable welcome |
| NodeInvariants.JoinProtocol | src/gossip.c:517-537 | Over any run: before it is connected a node has no members, an empty clock and log, and only hellos queued; it never leaves the connected phase |
| NodeEffects.ClockAndLogAgree | src/gossip.c:103-126 | In every state of every run clock and log are valid rings, agree on every id both hold, and hold exactly the originators seen while these are at most 20 |
| NodeEffects.EventEffect | src/gossip.c:390-584 | What any event does to a node's data, and that it enqueues exactly the messages it calls for, in order, which the rows of `Handlers` spell out |
| NodeEffects.PostAllCreates | src/gossip.c:308-355 | Posting messages in turn enqueues one envelope per recipient for each of them up to the first that does not fit, and nothing after it |
| Handlers.HelloHandled | src/gossip.c:487-515 | A newcomer gets a welcome under its own number, then the known members in lists of three (the last one to three), then each known member gets it announced; then it is a member |
| Handlers.WelcomeHandled | src/gossip.c:517-537 | A welcome connects the node, makes its sender a member and unlinks the first envelope under the number it names; nothing else changes |
| Handlers.MemberListHandled | src/gossip.c:539-555 | A member list adds its unknown members and is acknowledged under its own number |
| Handlers.DataHandled | src/gossip.c:557-584 | Data is acknowledged under its own number; if the clock lacks it, it is logged, delivered and sent on, as it came, to the random members, unless it is above 486 bytes, which is the error returned |
| Handlers.AckHandled | src/gossip.c:586-600 | An acknowledgement unlinks the first envelope under the number it names; nothing else changes |
| Handlers.StatusHandled | src/gossip.c:602-640 | A status is acknowledged and answered with the logged data it lacks, in log order, if the node is ahead anywhere, then with the node's clock if it is behind anywhere or the status repeats an id, up to the first payload above 486 bytes, which is the error returned |
| Handlers.RepliesExactly | src/gossip.c:466-485 | The data sent in answer to a status is exactly the logged messages whose originator the status does not hold or holds a lower number of |
| Handlers.Refused | src/gossip.c:642-668 | Before joining, on an empty read, on an unknown type, on anything but a welcome while joining, and on an undecodable datagram, receiving returns its own error and changes nothing |
| Handlers.JoinDone | src/gossip.c:733-747 | Joining queues one hello per seed in order, or connects at once without seeds; a second join is refused |
| Handlers.DataSent | src/gossip.c:390-409 | Own data gets the next number, enters clock and log whatever its size, and goes to the random members; above 486 bytes the call returns an error |
| Handlers.MessageQueued | src/gossip.c:308-355 | One message evicts if it must even when it does not fit; if it fits, its bytes replace the beginning of the slot and one unsent envelope per recipient under the next numbers joins the tail |
| Handlers.FlushDone | src/gossip.c:767-831 | Sending returns the number of datagrams written, or the write error, and changes queue, slots and members only |
| Spreading.SpreadGoesToPicked | src/gossip.c:327-341 | New own data, newly received data and the gossiped clock are enqueued for exactly the members at the positions that the random numbers, as residues, leave in a reservoir of three, in that order, or for all of at most three |
| Spreading.SpreadingIsFair | src/gossip.c:327-341 | With n members, more than three, exactly 3/n of all residue streams enqueue the message for any given member with an address of its own |
| Ticking.TickDone | src/gossip.c:838-850 | A tick does nothing before the node is connected or within 1000 ms of the last gossip, otherwise it enqueues the clock for random members and notes the time; the waits returned |
| Ticking.GossipsAreSpaced | src/gossip.c:838-850 | Over any run two ticks that gossip are at least 1000 ms apart |
| Ticking.WaitIsExact | src/gossip.c:838-850 | Over any run, until some tick has gossiped, a tick gossips if and only if it comes no earlier than the wait an earlier one returned |
| Ticking.FirstGossip | src/gossip.c:700 | The first gossip of a connected node comes with the first tick at 1000 or later |
| Outbound.AcquireFreesExactly | src/gossip.c:202-234 | With contiguous groups, the slot handed out is unused if and only if one was free or the first most attempted envelope is the first on its slot |
| Outbound.SlotChoice | src/gossip.c:202-234 | The slot is the lowest unused one; with all in use it is that of the first most attempted envelope, and exactly the envelopes from there to the end of its run on that slot are dropped |
| Outbound.AcquireIsSafe | src/gossip.c:202-234 | Under the queue invariant the whole group is evicted, so the slot handed out is unused, and the invariant stays |
| Outbound.SteadyPassKeepsPool | src/gossip.c:767-831 | A pass at one time keeps groups contiguous with attempt counts that never increase along them and equal counts stamped in order |
| ClockRuns.TickingPassBreaksSlots | src/gossip.c:801-823 | For any node, two members and a source: a run whose clock never goes back but ticks within its last pass gives every message an unused slot, and the next message a slot that stays queued |
| LooseRuns.NextSlotExactly | src/gossip.c:202-234 | After any run with any clock readings in which every message got an unused slot, the next one does if and only if one is free or the first most attempted envelope is the first on its slot |
| LooseRuns.PassKeepsContiguous | src/gossip.c:767-831 | A pass with any clock readings and failures keeps each message's envelopes together in the queue |
| SendingPass.PassWritesExactly | src/gossip.c:767-831 | A pass writes, in order and until a write fails, exactly the envelopes with fewer attempts than allowed, not dropped behind an expired one and due; up to where it stops the queue keeps the written ones that may be tried again, one attempt further, and the waiting ones, and from there on it is as it was |
| SendingPass.PassForgetsExactly | src/gossip.c:775-799 | Each envelope that ran out of attempts without its acknowledgement, in queue order, takes the first member at its recipient; nothing else in a pass removes a member |
| SendingPass.AllAreWritten | src/gossip.c:767-831 | With successful writes all queued envelopes are written if and only if each has fewer attempts than allowed and was not tried in the last 10000 ms |
| ClockRuns.WaitingIsNotWritten | src/gossip.c:801-805 | For any new node: a hello flushed 5000 ms after its first attempt stays queued and is not written |
| SendingPass.FourPassesEmpty | src/gossip.c:767-831 | Four passes at least 10000 ms apart empty any queue whose envelopes allow at most 3 attempts, due or not at the first |
| Outbound.EnqueuedAppends | src/gossip.c:245-259 | One message for several recipients appends one envelope each, in order, under consecutive numbers, sharing the slot |
| Tracking.SentBytes | src/gossip.c:807-817 | The bytes sent for an envelope after patching its slot are its own message under its own number |
| Tracking.PassKeepsTrack | src/gossip.c:767-831 | A pass, whatever its readings and failures, keeps every queued message intact in its slot and every written datagram right |
| Tracking.EnqueueKeepsTrack | src/gossip.c:308-355 | Storing a message in an unused slot and queueing it for its recipients keeps every other queued message intact |
| Tracking.CountWithin | src/gossip.c:775-823 | Spaced writes with attempt numbers below a limit are at most that many |
| ClockOrder.CompareIsOrder | src/vector_clock.c:151-195 | The relation the scan reports is the partial-order relation of the two id-to-number maps, an absent id ranking below a present one |
| ClockOrder.CompareAny | src/vector_clock.c:151-195 | The same for a second clock that repeats an id, which counts as behind |
| ClockOrder.CompareMirrors | src/vector_clock.c:151-195 | Swapping the clocks mirrors the relation |
| ClockOrder.MergeIsBoundedFifo | src/vector_clock.c:151-195 | A merge leaves the last 20 of: the first clock oldest first with raised numbers, then the ids only the second has, in its order |
| ClockOrder.MergeIsJoin | src/vector_clock.c:151-195 | While the union has at most 20 ids the merge is the pointwise maximum |
| ClockOrder.MergeIsJoinExactly | src/vector_clock.c:151-195 | The merge is the pointwise maximum if and only if the union has at most 20 ids |
| ClockOrder.ForgetsExactly | src/vector_clock.c:61-78 | Taking in one version makes the clock forget an id exactly when it was full, the version's originator unknown, and that id the oldest |
| Rings.PutIsFifoPut | src/vector_clock.c:61-78 | The ring buffer refines a map that keeps its last insertions in insertion order |
| Rings.PutLookup | src/gossip.c:103-126 | After a write the written id has the value, the id pushed out is gone, every other id is unchanged |
| Rings.PutForgetsNothing | src/vector_clock.c:61-78 | While the ids fit the ring, a write changes the written id only |
| VectorClocks.VectorClock.MissingBits | src/vector_clock.c:177-178 | The visited mask against the full mask has exactly the bits of the ids absent from the first clock |
| VectorClocks.VectorClock.CompareClocks | src/vector_clock.c:151-195 | The scan with its bit mask returns the relation of the clocks before the merge and leaves the merged clock, or the clock unchanged |
| VectorClocks.VectorClock.SetMissing | src/vector_clock.c:184-192 | The loop over the mask inserts exactly the missing records, in order |
| VectorClocks.VectorClock.CompareWithRecord | src/vector_clock.c:126-149 | One record against the clock, merged if newer |
| VectorClocks.VectorClock.SetById | src/vector_clock.c:61-78 | The array write is the ring write |
| VectorClocks.VectorClock.FindByMemberId | src/vector_clock.c:40-45 | The first position of an id, or not found |
| VectorClocks.VectorClock.CopyFrom | src/vector_clock.c:112-119 | The copy stands for the same clock |
| DataLogs.DataLog.Record | src/gossip.c:103-126 | The log keeps the latest message of each originator, the oldest originator going first |
| Codec.RoundTrip | src/messages.c:81-321 | For all six kinds: the decoder of the message's kind returns the frame and the number of bytes encoded if and only if its address is long enough, every other decoder rejects the bytes |
| Layout.EncodesExactly | src/messages.c:48-321 | Every message that fits is laid out by position: magic, type code, big-endian fields, little-endian ids, members and records one behind the other |
| Layout.DecodesExactly | src/messages.c:63-304 | A decoder returns a frame and a size if and only if the datagram starts with that frame in that layout and size, of the decoder's type, and meets the decoder's length conditions |
| Layout.DecodeErrors | src/messages.c:36-46 | A decoder's error tells a header that is not of its type from a rest that holds no acceptable message |
| Codec.EncodeInjective | src/messages.c:97-321 | Distinct decodable frames have distinct datagrams |
| Codec.PatchIsReencoding | src/gossip.c:807-814 | Overwriting bytes 8 to 11 with a number equals encoding the message with that number in its header |
| Codec.EncodedFits | src/messages.c:238-255 | A message that passes its encoder's size check fits 512 bytes |
| CodecBuffers.EncodeMessage | src/gossip.c:267-306 | The cursor-based encoders write exactly the message's bytes into the slot and nothing else, or fail before writing |
| CodecBuffers.DecodeMessage | src/messages.c:81-304 | The six decoders, with their cursors and loops, compute the decoded frame, the bytes consumed and the error |
| Nodes.ChunksCoverMembers | src/gossip.c:425-464 | The member lists sent, concatenated, are the member set in order; each has three members, the last one to three, and fits a slot |
| Reservoirs.ReservoirIsFair | src/member.c:200-228 | Of all residue streams, each residue i ranging over 0 to i, exactly k/n select any given member |
| Reservoirs.SamplingFollowsStream | src/member.c:218-225 | The sampling loop ends in the reservoir its residue stream leads to, and every stream of random numbers leaves such a stream |
| Reservoirs.SampleFollowsStream | src/member.c:200-228 | The sample is, in order, what stands at the positions its residue stream leads to, or the whole set if that is small enough |
| Reservoirs.ResiduesAre | src/member.c:218-225 | Candidate i draws its random number modulo i + 1 |
| Reservoirs.SampleIsDistinctMembers | src/member.c:200-228 | Whatever the stream, the sample holds min(n, k) pairwise distinct members of the set |
| Members.AddAllAppendsFirstOccurrences | src/member.c:118-144 | Adding appends exactly the unknown members, each once, in the order of first occurrence, and keeps entries pairwise different |
| Members.RemovalDropsFirst | src/member.c:187-198 | Removal by address drops the first member whose address starts with it and keeps the order, or changes nothing when there is none |
| Members.RemovalKeepsUnique | src/member.c:187-198 | Removal by address drops at most members with that address and keeps entries pairwise different |
| Members.MemberSet.Put | src/member.c:118-144 | The growing array ends up holding the added members with its load below three quarters |
| Members.MemberSet.Extend | src/member.c:88-104 | The doubling loop ends with room for the required size and keeps the members |
| Members.MemberSet.Remove | src/member.c:167-176 | Drops exactly the first match and keeps the order |
| Members.MemberSet.RemoveByAddr | src/member.c:187-198 | The shifting removal leaves the set without the first member with the address, in order, and reports whether there was one |
| Members.MemberSet.RandomMembers | src/member.c:200-228 | The in-place reservoir loop computes the sample |
| EnvelopeQueues.EnvelopeQueue.Enqueue | src/gossip.c:163-174 | Links one envelope behind the last |
| EnvelopeQueues.EnvelopeQueue.Remove | src/gossip.c:176-191 | Unlinks one envelope of the doubly linked list, the others staying linked in order |
| EnvelopeQueues.EnvelopeQueue.BypassedIsLinked | src/gossip.c:179-188 | Two neighbours pointing past a node, or a moved head or tail, make a doubly linked list without it |
| EnvelopeQueues.EnvelopeQueue.FindBySequenceNum | src/gossip.c:193-200 | The first envelope with a number |
| EnvelopeQueues.EnvelopeQueue.Acknowledge | src/gossip.c:594-598 | Removes the envelope an acknowledgement names, if it is queued |
| EnvelopeQueues.EnvelopeQueue.Clear | src/gossip.c:152-161 | Empties the list |
| EnvelopePools.FindAvailableSlot | src/gossip.c:202-234 | Walks the list, then picks the first free slot or evicts the most attempted envelope and its followers on the slot |
| EnvelopePools.EvictFrom | src/gossip.c:226-232 | Drops an envelope and the ones that follow it on the same slot |
| EnvelopePools.DropFollowers | src/gossip.c:787-794 | Drops the envelopes right behind one that go to the same recipient, while traversing |
| Gossips.Gossip.ProcessSend | src/gossip.c:767-831 | The traversal that removes nodes as it goes ends, computes the pass, and returns the number of writes or the error |
| Gossips.Gossip.ExpireAt | src/gossip.c:775-799 | An envelope out of attempts goes, with its followers and its member if it wanted an acknowledgement |
| Gossips.Gossip.TransmitAt | src/gossip.c:807-828 | Patches the number into the shared slot, sends, and updates or removes the envelope |
| Gossips.Gossip.EnqueueMessage | src/gossip.c:308-355 | Encodes once into an acquired slot and queues one envelope per recipient for each of the three spreading types |
| Gossips.Gossip.EnqueueMemberList | src/gossip.c:425-464 | The chunking loop posts the member lists |
| Gossips.Gossip.EnqueueDataLog | src/gossip.c:466-485 | Posts the logged messages the remote clock is behind on, up to the first failure |
| Gossips.Gossip.HandleHello | src/gossip.c:487-515 | Welcome, member lists, broadcast, then the new member |
| Gossips.Gossip.HandleWelcome | src/gossip.c:517-537 | Connects, adds the seed, drops the hello |
| Gossips.Gossip.HandleData | src/gossip.c:557-584 | Acknowledges, and logs, delivers and spreads the version if the clock was behind on it |
| Gossips.Gossip.AnswerStatus | src/gossip.c:613-639 | Answers each of the four outcomes of comparing clocks |
| Gossips.Gossip.ProcessReceive | src/gossip.c:749-765 | One datagram, with every error case, does what `Nodes.Receive` says |
| Gossips.Gossip.Join | src/gossip.c:733-747 | Queues a hello per seed, or connects at once without seeds |
| Gossips.Gossip.SendData | src/gossip.c:833-836 | Numbers, logs and spreads own data |
| Gossips.Gossip.Tick | src/gossip.c:838-850 | Gossips the clock when the interval is over and returns the time to wait |
| Gossips.Gossip.AcceptingLater | src/gossip.c:565-580 | Acknowledging before or after taking in a version makes no difference to the resulting state |
| Gossips.Gossip.Create | src/gossip.c:670-718 | A created node is the initial node |

## Left out

- PairExchange.QuiescenceIsConvergence: assumes no loss and no eviction, and does not claim that the exchange ends when data is delayed for ever while statuses keep arriving; `Flights.ShuffledExchangeEnds` shows that it ends when each flight arrives as a whole.
- Meetings.ReachableNodesConverge: between the two nodes every enqueued message arrives exactly once and third nodes are silent; flushing is a step, but which flush a datagram comes from is left to `NodeInvariants.WireIntegrity`.
- Gossips.Gossip.Create: the output buffer starts out as zeros, where the C code leaves it uninitialised until a message is stored in it.
- Gossips.Gossip.ProcessReceive: the data receiver callback is a trace of what was delivered; re-entry into the node from it is not modelled.
- Gossips.Gossip.TransmitAt: the socket is a trace of writes and a number of writes that succeed before one fails.
- VectorClocks.VectorClock.CompareClocks: the second clock is read only in the source and is taken as a value of at most 20 records; the ring position of a decoded clock is not kept.
- CodecBuffers.DecodeMessage: a member that runs past the datagram or has more than 128 address bytes, and a clock of more than 20 records, are errors here; the C code reads or writes out of bounds.
- Codec.RoundTrip: a member id is written as on a little-endian host, as the C code copies it from memory.
- Members.MemberSet.Remove: removes by value where the source compares pointers; entries are pairwise different, so the match is the same.
- NetworkRuns.AckSoundness: nodes do not restart, counters have not wrapped, at most 20 nodes originate data.
- Addresses are byte strings, compared as such: what follows a shorter address in a `sockaddr_storage` is not modelled.
- Sockets, `recvfrom`, `sendto`, `getsockname`, polling and the demos: I/O.
- `gettimeofday` and `random`: parameters.
- `malloc` failure, `free`, destroy functions, and the aliasing of decoded members into the input buffer.
- Building the 8-byte member id from an address and uid: ids are opaque and distinct per node.
- Payloads longer than 512 bytes handed to `pittacus_gossip_send_data`.
- `vector_clock_increment`, `vector_clock_find_record`, `vector_clock_to_string`, getters and build files: they would add only easy members.
- `output_buffer_offset`, which is written and never read, and the states `STATE_LEAVING`, `STATE_DISCONNECTED` and `STATE_DESTROYED`, which no modelled function enters.
- Cluster-wide convergence, which the library does not promise.
