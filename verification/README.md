# renet in Dafny

renet is a message layer for games over an unreliable datagram network. Two endpoints exchange messages over channels, reliable and ordered, reliable and unordered, or unreliable, while packets may be lost, duplicated, delayed and reordered. Below it, renetcode sets up authenticated connections with the Netcode 1.02 protocol. This project models the logic of both and proves what they promise.

The work has three layers.

1. **What each part computes.** Every component is described by functions on its state, with Rust panics as explicit outcomes. The lemmas about these functions say what they mean: `Slicing`, `AckRanges`, `Wire`, `ReliableSend`, `SendScheduling`, `ReliableReceive`, `Unreliable`, `Stats`, `Connection` for renet; `Replay`, `NetcodePacket`, `NetcodeServer`, `NetcodeClient` for renetcode.
2. **That the objects compute it.** The code updates objects in place, in loops, with early exits. The classes in `Slicing`, `SendChannel`, `ReceiveChannel`, `UnreliableChannel`, `StatsRing`, `PacketBytes`, `RemoteConnection`, `Replay`, `ServerObject` and `ClientObject` do the same, and each method is proved to compute its function.
3. **What follows for whole runs.** `Delivery` joins two endpoints by a network whose state is everything ever handed to it: an undelivered payload is lost, one delivered again is duplicated, and any order is possible. An action of either endpoint is a step; a run is a sequence of steps from two new endpoints. Payloads cross the network as bytes. `Direction`, `DirectionReceive`, `DirectionSend`, `DirectionTick` and `LossBound` prove that every step keeps one invariant, and `Theorems`, `Turns`, `Progress`, `ProcessedTurns`, `EndToEnd`, `Sizes` and `Timers` draw the conclusions. What each operation must do in a run, and when, is in `Acknowledged` (what an acknowledgement releases), `ResendTimers`, `SendFairness` and `PacketFilling` (what a tick emits), `LossShare` (what the loss estimate counts) and `EndpointEffects` (sending, receiving, disconnecting, time). `ServerRuns`, `ServerReports`, `ServerConnections`, `ServerTimeouts`, `ServerPayloads`, `ServerAdmission`, `ServerSequences` and `ServerEffects` do the same for the netcode server, `ClientSequences` and `ClientTimeouts` for the client, and `Handshake` for a server and a client with an attacker in between; `HandshakeProgress` and `NetcodeBatches` are about runs without loss.

Eleven properties that one might expect do not hold of the code. Each has an input that shows it and the exact condition:

- A reliable channel does not deliver every message that `send_message` accepts: those of more than 1,000,000 slices are refused by the peer's decoder, which disconnects (`EndToEnd.AcceptedButNeverDelivered`). Everything sent can be delivered exactly if there is none (`EndToEnd.DeliversEverythingIff`).
- Decoding a netcode datagram can panic before anything is authenticated, at a client and at a server that has a key for the sender's address (`NetcodePacket.NineByteSequencePanics`, `NetcodePacket.ShortKeepAlivePanics`), exactly under `NetcodePacket.DecodePanicsIff`. Runs panic exactly if such a datagram arrives (`ServerRuns.DownIffHit`, `NetcodeClient.DownIffHit`).
- A silent netcode client is not always dropped: any connection request from its address, however invalid, counts as a sign of life (`ServerTimeouts.EmptyRequestKeepsSilentClient`). It is dropped exactly under `ServerTimeouts.PollDropsSilentIff`.
- A netcode packet with an empty body and sequence zero is too short to be read (`NetcodePacket.Encode`), such as a server's first packet if it is a denial. A denial reaches its client exactly if its sequence is not zero (`NetcodeClient.DenialIsReadIff`).
- A netcode response is checked against the client id in the challenge, while the slot gets the id of the pending client, so connected ids need not be distinct (`ServerExample.OneIdTwoSlots`). A step keeps them distinct exactly under `ServerRuns.OneSlotPerClientIff`, and whole runs do if challenges match (`ServerRuns.MatchingRunsAreDistinct`).
- The limit of 64 pending acknowledgement ranges is enforced only when a range is appended (`AckRanges.NoGlobalLimit`). A call leaves at most 64 exactly under `AckRanges.LimitKeptIff`.
- As a consequence an acknowledgement can outgrow the packet buffer, and then the endpoint disconnects (`Sizes.DescendingArrivalsDisconnect`), exactly under `Sizes.TickFailsIff`.
- The early exit of `discard_incomplete_old_slices` goes by message id, so a stale reassembly can outlive a fresh one with a lower id (`StaleSlices.UpdateKeepsStale`). It equals a filter by age exactly under `Unreliable.EarlyExitIsFilterIff`.
- A late slice can reopen a message on an unordered channel, exactly under `LateSlices.ReopensIff`, and its memory is then never given back (`LateSlices.LateSliceStrands`, `LateSlices.StrandedForever`).
- A sequence is not used only once under a netcode key. Within a connection it is (`ServerSequences.PacketsAreNumbered`), but challenges and denials are numbered by another counter under the same key: those of a handshake collide exactly under `HandshakeProgress.ChallengeSharesSequenceIff`. A client repeats a sequence exactly if it is told to leave more than once (`ClientSequences.LeavingTwiceRepeats`, `ClientSequences.SequencesIncrease`).
- The replay window agrees with the full history for exactly the sequences of `Replay.Exact`: near 2^64 the addition wraps (`Replay.WrapRefusesFresh`).

Conventions. Times are natural numbers of nanoseconds. Ordered maps are scanned in key order. Machine words are natural numbers; where their width matters (variable-length integers below 2^62, memory limits below 2^64, wrapping sequences of the replay window) it is stated. Where a subtraction, an index, a slice or an unwrap could panic, the functions have a panic outcome, which the methods return, or the proofs show that it cannot be reached.

## Model

| member | source | states |
|---|---|---|
| Theorems.OrderedDelivery | renet/src/channel/mod.rs:14-21 | After any run over a losing, duplicating, reordering network, what an ordered channel has handed out is byte for byte a prefix of what the peer sent, and its length is the receiver's next id |
| Theorems.UnorderedAtMostOnce | renet/src/channel/reliable.rs:298-315 | After any run, an unordered channel has handed out pairwise different ids with their original bytes; accepted ids are exactly `received_messages` plus everything below the oldest pending id, and exactly the ids handed out plus the ids held, without overlap |
| Theorems.NothingLost | renet/src/channel/reliable.rs:222-259 | After any run, each message accepted by `send_message` is still held by the sender with its bytes, or was handed out or is held by the receiver with its bytes; each slice marked acknowledged is one the receiver has |
| Theorems.UnreliableIntegrity | renet/src/channel/unreliable.rs:217-224 | After any run, everything an unreliable channel has handed out is one of the messages sent on it, with its bytes |
| Theorems.EmittedPacketsRoundTrip | renet/src/remote_connection.rs:594-613 | After any run, packets are numbered 0, 1, 2, ... and each payload handed out decodes to exactly the packet it was made from, except that slices of messages of more than 1,000,000 slices are refused with `InvalidNumSlices` |
| Theorems.PanicsOnlyOnOverflow | renet/src/packet.rs:95-206 | In every run an endpoint can panic only after a sequence, message id or slice id has passed 2^62: serialization has no other failing subtraction and no other panic is reachable |
| Theorems.DeliveryNeverPanics | renet/src/remote_connection.rs:446-489 | Whatever payload of the peer arrives, however late or often, neither `remove(..).unwrap()`, nor the channel lookups, nor the two `unreachable!` branches of acknowledgement are reached |
| Theorems.LossEstimateIsFraction | renet/src/connection_stats.rs:86-111 | In every run the packet-loss estimate lies in [0, 1] |
| LossShare.CountersAreExact | renet/src/connection_stats.rs:31-59 | In every run, for each slot of the ring: acknowledged, still tracked and expired packets sent since the slot was entered are together the packets sent since, and the counters hold exactly the sent and the acknowledged ones |
| LossShare.LossIsLostShare | renet/src/connection_stats.rs:86-114 | In every run the loss estimate is exactly the share, among the packets of the settled slots, of those that expired or are still tracked, and 0.0 if all were acknowledged |
| Theorems.MemoryIsExact | renet/src/channel/reliable.rs:281-375 | In every run the memory counters of all four kinds of channels equal the bytes they hold (1200 per slice for open reassemblies) and are within their limits |
| Theorems.UpdateExpiresExactlyOld | renet/src/remote_connection.rs:363-378 | In every run the early-exit loop of `update` removes exactly the packets that are at least three seconds old |
| Acknowledged.AckReleasesExactly | renet/src/remote_connection.rs:446-488 | In every run an acknowledgement changes its receiver in this and nothing else: the sequences it covers are no longer tracked; on each reliable channel a small message is gone exactly if one of those packets carried it, a sliced one exactly if each slice was marked before or carried by one of them, and exactly the carried slices of the others are marked; of the pending ranges exactly what the acknowledgements among those packets had acknowledged is gone |
| Acknowledged.AcknowledgedIsSettled | renet/src/remote_connection.rs:456-488 | Packet by packet: once an acknowledgement of a tracked packet is processed, no small message it carried is held, each slice it carried is marked or its message gone, and if it was itself an acknowledgement no pending sequence up to its largest remains |
| Acknowledged.AckFreesExactly | renet/src/channel/reliable.rs:222-251 | In every run the memory in use of each reliable channel falls by exactly the bytes of the messages an acknowledgement releases |
| EndpointEffects.SendAccepts | renet/src/remote_connection.rs:320-335 | A message is accepted exactly if the channel has memory for it: a reliable channel then holds it, unsent, under the next id, otherwise the endpoint disconnects; an unreliable one queues or drops it |
| EndpointEffects.FirstReasonStays | renet/src/remote_connection.rs:690-698 | In every run an endpoint that is disconnected stays so, with the reason it was first given |
| EndpointEffects.DeliveryDisconnectsIff | renet/src/remote_connection.rs:385-495 | In every run a payload of the peer disconnects the endpoint exactly if it is a slice of a message with too many slices, or its channel does not exist, or its new messages exceed the memory of a reliable channel, and with that reason |
| EndpointEffects.UnreliableArrives | renet/src/channel/unreliable.rs:152-195 | In every run the messages of an unreliable packet that fit the memory when their turn comes are queued, in order; a slice is put into its message unless there is no memory for it, and the last one missing queues the message |
| EndpointEffects.UnreliableTakes | renet/src/channel/unreliable.rs:217-224 | What is queued is handed out in order and its memory given back |
| EndpointEffects.ReliableTakes | renet/src/channel/reliable.rs:350-378 | An ordered channel hands out the next message exactly if it is there, an unordered one the message with the smallest id of those that are there; its memory is given back |
| EndpointEffects.UpdateGivesUp | renet/src/remote_connection.rs:355-379 | In every run `update` gives up, with its memory, exactly each unreliable reassembly that got no slice for three seconds and none with a smaller number that did, keeps everything else, and forgets exactly the sent packets that are three seconds old |
| EndpointEffects.ArrivalIsNoted | renet/src/remote_connection.rs:385-401 | In every run the sequence of each packet that is processed, other than an acknowledgement, joins the pending ones; only a full list forgets its lowest range |
| EndpointEffects.TickAcknowledges | renet/src/remote_connection.rs:517-526 | A tick with pending sequences ends with a packet that acknowledges all of them |
| Timers.TimersNeverAhead | renet/src/channel/reliable.rs:112-162 | In every run no resend timer lies in the future, so the time differences of the resend check do not underflow |
| EndToEnd.DeliversEverythingIff | renet/src/channel/mod.rs:14-21 | From any reachable state in which an ordered channel is ready (both ends up, all its timers due, byte budget for it and the channels before it, the tick serializes, memory at the receiver), the run can be continued by a tick, deliveries of its payloads and calls of `receive_message` to one in which exactly the messages sent so far have been handed out, if and only if none of them has more than 1,000,000 slices |
| ProcessedTurns.ProcessedTurnSuffices | renet/src/channel/reliable.rs:104-199 | In every run, once the receiver has processed all packets that a reliable channel emitted in one tick with all timers due and full budget, in any order, repeated and with anything in between, it has taken in every message sent on the channel before that tick |
| Oversized.OversizedNeverArrives | renet/src/remote_connection.rs:392-397 | In no run is a message of more than 1,000,000 slices ever taken in or handed out |
| EndToEnd.AcceptedButNeverDelivered | renet/src/channel/reliable.rs:204-220 | `send_message` accepts every such message that fits the memory, and whatever happens afterwards it is not handed out |
| Progress.TakeFits | renet/src/channel/reliable.rs:281-348 | A receiver with memory for everything not handed out refuses no packet of the channel |
| Turns.GatherBudget | renet/src/remote_connection.rs:503-515 | When the turn of a channel comes, no more of the byte budget is gone than the memory in use of the channels before it |
| Sizes.EncodedSize | renet/src/packet.rs:95-155 | A packet with messages serializes to at most 1236 bytes, an acknowledgement of n ranges to at most 17 + 16 n bytes, and message counts fit 16 bits |
| Sizes.PayloadFitsIff | renet/src/packet.rs:95-206 | In every run a payload fits the 1300-byte netcode limit if and only if it is not an acknowledgement whose exact length, the sum of its variable-length integers, exceeds it |
| Sizes.TickFailsIff | renet/src/remote_connection.rs:594-606 | In every run below 2^62, `get_packets_to_send` fails and disconnects if and only if the acknowledgement alone is longer than the 1400-byte buffer |
| Sizes.FewRangesFit | renet/src/remote_connection.rs:594-606 | Up to 86 ranges never do that |
| Sizes.DescendingArrivalsDisconnect | renet/src/remote_connection.rs:594-650 | Packets 1400, 1398, ..., 2 arriving in this order do: the next tick sends nothing and disconnects |
| Delivery.StepInv | renet/src/remote_connection.rs:320-613 | Every action of either endpoint keeps the invariant of the two-endpoint system |
| Delivery.RunInv | renet/src/remote_connection.rs:320-613 | The invariant holds after every run |
| Delivery.InitialInv | renet/src/remote_connection.rs:129-193 | It holds for two new endpoints, whether or not their channels match |
| Delivery.TickPanics | renet/src/remote_connection.rs:594-606 | A tick panics only if a counter is beyond 2^62 afterwards |
| DirectionReceive.DeliverReceives | renet/src/remote_connection.rs:385-433 | Processing any payload of the peer, new, duplicated or old, keeps everything that holds of the receiving side |
| DirectionReceive.ReceiveReceives | renet/src/remote_connection.rs:338-351 | `receive_message` keeps it too, and what comes out is what was sent |
| DirectionReceive.UpdateReceives | renet/src/remote_connection.rs:355-361 | So does the passing of time |
| DirectionReceive.GenuineDecodes | renet/src/packet.rs:208-351 | Whatever the peer put on the wire decodes to that packet, or is refused exactly if it belongs to a message of more than 1,000,000 slices |
| DirectionSend.DeliverSends | renet/src/remote_connection.rs:434-489 | Processing acknowledgements keeps what the sender knows true: it forgets only what has arrived and marks only slices that have arrived |
| DirectionSend.SendSends | renet/src/remote_connection.rs:320-334 | `send_message` adds exactly the accepted message to what was sent |
| DirectionSend.NewAcksSpec | renet/src/remote_connection.rs:446-454 | The sequences collected from an acknowledgement are distinct, tracked, and exactly those that its ranges cover |
| DirectionTick.TickSends | renet/src/remote_connection.rs:497-613 | A tick puts nothing on the wire but what was sent, and tracks each packet under its own sequence |
| DirectionTick.TickReceives | renet/src/remote_connection.rs:517-524 | A tick acknowledges nothing but packets that were processed |
| ReliableSend.SendMessageWf | renet/src/channel/reliable.rs:204-220 | Accepting a message keeps the memory counter equal to the bytes held and within its limit |
| ReliableSend.AckMessageWf | renet/src/channel/reliable.rs:222-230 | Acknowledging a small message does not panic, removes exactly it and gives its memory back |
| ReliableSend.AckSliceWf | renet/src/channel/reliable.rs:232-259 | Acknowledging a slice does not panic, marks exactly it, and removes the message exactly with its last slice |
| SendScheduling.TickIsSound | renet/src/channel/reliable.rs:94-202 | One tick emits consecutive sequences, nothing but held messages and unacknowledged slices with their bytes, in batches of at most 1210 bytes, and the budget drops by exactly the payload |
| SendScheduling.GetPacketsWf | renet/src/channel/reliable.rs:94-202 | A tick changes neither the held messages, nor their acknowledgements, nor the memory in use |
| SendScheduling.RotationIsBijection | renet/src/channel/reliable.rs:146-153 | The rotated slice loop visits each slice index exactly once, for every `next_slice_to_send` up to and including the number of slices |
| SendScheduling.TickEmitsOutstandingOnce | renet/src/channel/reliable.rs:104-199 | One tick emits only items that are held, unacknowledged and due, each at most once; with a budget of the memory in use plus one slice, every one of them exactly once |
| ResendTimers.TickSetsTimers | renet/src/channel/reliable.rs:94-202 | A tick sets the timer of every small message and slice it emits to the present, and no other timer |
| ResendTimers.NoEarlyResend | renet/src/channel/reliable.rs:94-202 | What a tick emitted, the next tick does not emit before the resend time has passed |
| ResendTimers.NothingResentEarly | renet/src/remote_connection.rs:497-613 | In every run, whatever happens in between, no two ticks less than the resend time apart carry the same small message or slice of a reliable channel |
| SendFairness.NothingFittingLeftOut | renet/src/channel/reliable.rs:104-199 | Whatever is due and is not emitted by a tick does not fit into what the tick leaves of its budget |
| SendFairness.SlicesTakeTurns | renet/src/channel/reliable.rs:138-188 | If a tick emits one slice of a message and passes over another that is due, the next tick does not emit the first without the second, whenever it comes and whatever its budget |
| PacketFilling.TickFillsPackets | renet/src/channel/reliable.rs:113-136 | A tick starts a packet of small messages only if the next message does not fit into the one before |
| PacketFilling.UTickFillsPackets | renet/src/channel/unreliable.rs:85-108 | So does a tick of an unreliable channel |
| ReliableReceive.ProcessMessageInv | renet/src/channel/reliable.rs:281-319 | Taking in a genuine message keeps memory exact, the ledger of accepted ids and the bytes; it fails only for memory and forgets nothing |
| ReliableReceive.ProcessSliceInv | renet/src/channel/reliable.rs:321-348 | Taking in a genuine slice does the same; it fails only if memory for a new message cannot be reserved |
| ReliableReceive.FinishInv | renet/src/channel/reliable.rs:340-345 | Completing a sliced message never fails for memory |
| ReliableReceive.ReceiveInv | renet/src/channel/reliable.rs:350-375 | `receive_message` returns the next message's original bytes exactly if there is one, moves its id from held to handed out, and keeps everything accepted |
| ReliableReceive.CatchUpKeepsAccepted | renet/src/channel/reliable.rs:362-369 | The catch-up loop changes nothing about which ids are accepted, for any arrival order |
| LateSlices.ReopensIff | renet/src/channel/reliable.rs:321-336 | A slice of a message already taken in opens a reassembly for it again if and only if the channel is unordered, the message was handed out while an earlier one is missing, and memory allows |
| LateSlices.StrandedForever | renet/src/channel/reliable.rs:321-375 | Once the oldest pending id has passed such a reassembly, no sequence of messages, slices and receives completes or frees it |
| LateSlices.LateSliceStrands | renet/src/channel/reliable.rs:321-375 | It happens: a message in two slices, handed out, its first slice once more, then the earlier message |
| Slicing.Reassembly | renet/src/channel/slice_constructor.rs:25-74 | Feeding the slices of any non-empty message, in any order with any duplicates, gives nothing before the last missing slice and exactly the message with it |
| Slicing.ProcessGenuine | renet/src/channel/slice_constructor.rs:25-74 | One slice marks exactly its index; the message is returned exactly if all slices are in, and otherwise every received byte is in place |
| Slicing.SliceOf | renet/src/channel/reliable.rs:164-167 | Slices are non-empty, at most 1200 bytes, and exactly 1200 but for the last |
| Slicing.SliceConstructor.constructor | renet/src/channel/slice_constructor.rs:15-23 | A new reassembly has no slices and a zeroed buffer |
| Slicing.SliceConstructor.ProcessSlice | renet/src/channel/slice_constructor.rs:25-74 | The object's update in place is `Process`, about which `Reassembly` is proved, for every index and every bytes; where the code panics the result says so |
| Unreliable.UTickIsSound | renet/src/channel/unreliable.rs:52-117 | One tick empties the queue, emits consecutive sequences and only queued data, and takes exactly the payload from the budget |
| Unreliable.UTickSendsKept | renet/src/channel/unreliable.rs:57-106 | One tick sends exactly the queued messages that fit the remaining budget when their turn comes: small ones whole and in order, large ones as all of their slices in order |
| Unreliable.EnoughKeepsAll | renet/src/channel/unreliable.rs:57-64 | With a budget of at least the queued bytes, these are all messages |
| Unreliable.UProcessMessageInv | renet/src/channel/unreliable.rs:152-163 | A message is queued or dropped; memory stays exact and within its limit |
| Unreliable.UProcessSliceInv | renet/src/channel/unreliable.rs:165-195 | Genuine slices cause no error, memory stays exact, and a completed message is one that was sent |
| Unreliable.DiscardInv | renet/src/channel/unreliable.rs:197-215 | Discarding gives back exactly the reserved memory and never misses a constructor |
| Unreliable.EarlyExitIsFilterIff | renet/src/channel/unreliable.rs:199-208 | The early exit discards exactly the reassemblies that are three seconds old if and only if every id below a stale one is stale |
| StaleSlices.UpdateKeepsStale | renet/src/channel/unreliable.rs:197-215 | It is not always so: from payloads to `update`, slices of message 1 at 0 s and of message 0 at 2 s leave message 1, four seconds old, and its memory in place at 4 s |
| StaleSlices.ChannelKeepsStale | renet/src/channel/unreliable.rs:197-215 | The same on the channel alone, for any numbers of slices |
| Unreliable.UReceiveInv | renet/src/channel/unreliable.rs:217-224 | `receive_message` takes the oldest message and its memory |
| AckRanges.AddAckRefinesSet | renet/src/remote_connection.rs:616-661 | `add_pending_ack` keeps the ranges sorted, non-empty, disjoint and non-adjacent, and denotes the old set plus the sequence, minus the lowest range exactly when an append exceeds 64 |
| AckRanges.AckedLargestRefinesSet | renet/src/remote_connection.rs:664-688 | `acked_largest` keeps the form and denotes exactly the sequences above the given one |
| AckRanges.Canonical | renet/src/remote_connection.rs:616-688 | Two lists in this form that denote the same set are equal |
| AckRanges.LimitKeptIff | renet/src/remote_connection.rs:616-661 | For every list: it has at most 64 ranges after a call if and only if it had fewer before, or had 64 and the sequence touches a range or lies beyond all, or had 65 and the sequence joins two ranges |
| AckRanges.PlaceLength | renet/src/remote_connection.rs:616-655 | The number of ranges grows by one exactly if nothing is touched, and shrinks by one exactly if two ranges become one |
| AckRanges.NoGlobalLimit | renet/src/remote_connection.rs:644-650 | Packets arriving in descending order with gaps make the list as long as one likes |
| Wire.PacketRoundTrip | renet/src/packet.rs:95-351 | Every packet within the decoder's limits decodes from its bytes to itself, whatever follows them |
| Wire.GapsRoundTrip | renet/src/packet.rs:190-201 | The gap encoding of acknowledgement ranges is inverted by the decoder, with no underflow |
| Wire.RangesAreNormal | renet/src/packet.rs:305-347 | For every byte string, decoded ranges are non-empty, sorted, disjoint and non-adjacent |
| Wire.DecodedAckIsNormal | renet/src/packet.rs:305-347 | Hence every decoded acknowledgement is in normal form |
| Wire.TooManySlicesRefused | renet/src/packet.rs:254-256 | A slice with more than 1,000,000 slices is refused with `InvalidNumSlices` |
| Wire.VarintRoundTrip | renet/src/packet.rs:105-112 | Variable-length integers below 2^62 (section 16 of RFC 9000) are read back exactly |
| PacketBytes.ToBytes | renet/src/packet.rs:95-206 | The writing loops produce `Encode` of the packet and fail exactly if the buffer is too short |
| PacketBytes.FromBytes | renet/src/packet.rs:208-351 | The reading loops compute `Decode`, for every byte string |
| PacketBytes.OctetsMut.PutGaps | renet/src/packet.rs:190-201 | The backward loop over the ranges writes the gap encoding |
| PacketBytes.Octets.GetGaps | renet/src/packet.rs:322-345 | The forward loop reads it, with every error at its place |
| SendChannel.SendChannelReliable.constructor | renet/src/channel/reliable.rs:75-84 | A new channel holds nothing and uses no memory |
| SendChannel.SendChannelReliable.AvailableMemory | renet/src/channel/reliable.rs:86-88 | The memory left, without underflow |
| SendChannel.SendChannelReliable.CanSendMessage | renet/src/channel/reliable.rs:90-92 | True exactly if `send_message` would accept any message of that size |
| SendChannel.SendChannelReliable.SendMessage | renet/src/channel/reliable.rs:204-220 | The object's update is `ReliableSend.SendMessage`; the memory counter stays exact |
| SendChannel.SendChannelReliable.ProcessMessageAck | renet/src/channel/reliable.rs:222-230 | The object's update is `AckMessage`: exactly this message goes |
| SendChannel.SendChannelReliable.ProcessSliceMessageAck | renet/src/channel/reliable.rs:232-259 | The object's update is `AckSlice`: the message goes exactly with its last slice |
| SendChannel.SendChannelReliable.SendSlices | renet/src/channel/reliable.rs:146-187 | The rotated slice loop with its early exit |
| SendChannel.SendChannelReliable.GetPacketsToSend | renet/src/channel/reliable.rs:94-202 | The loop over the messages computes `GetPackets`: what it emits and which timers it sets are the subject of `SendScheduling.TickEmitsOutstandingOnce`, `ResendTimers.TickSetsTimers` and `SendFairness` |
| ReceiveChannel.ReceiveChannelReliable.constructor | renet/src/channel/reliable.rs:263-279 | A new channel has accepted nothing |
| ReceiveChannel.ReceiveChannelReliable.ProcessMessage | renet/src/channel/reliable.rs:281-319 | The object's update is `ReliableReceive.ProcessMessage`, errors included |
| ReceiveChannel.ReceiveChannelReliable.ProcessSlice | renet/src/channel/reliable.rs:321-348 | The object's update, with its reassemblies as objects of their own, is `ReliableReceive.ProcessSlice` for every slice, panics included |
| ReceiveChannel.ReceiveChannelReliable.MoveOldest | renet/src/channel/reliable.rs:362-369 | The catch-up loop terminates and computes `CatchUp` |
| ReceiveChannel.ReceiveChannelReliable.ReceiveMessage | renet/src/channel/reliable.rs:350-375 | The object's update is `Receive` |
| UnreliableChannel.SendChannelUnreliable.SendMessage | renet/src/channel/unreliable.rs:119-137 | The object's update is `Enqueue`; memory stays exact |
| UnreliableChannel.SendChannelUnreliable.GetPacketsToSend | renet/src/channel/unreliable.rs:52-117 | The draining loop computes `UGetPackets` and leaves no message and no memory in use |
| UnreliableChannel.ReceiveChannelUnreliable.ProcessSlice | renet/src/channel/unreliable.rs:165-195 | The object's update is `UProcessSlice` for every slice, panics included |
| UnreliableChannel.ReceiveChannelUnreliable.FindLost | renet/src/channel/unreliable.rs:198-208 | The scan in id order finds the ids before the first one that is not stale, each once |
| UnreliableChannel.ReceiveChannelUnreliable.DiscardIncompleteOldSlices | renet/src/channel/unreliable.rs:197-215 | Both loops together compute `Discard`; no reassembly is missing and no memory underflows |
| UnreliableChannel.ReceiveChannelUnreliable.ReceiveMessage | renet/src/channel/unreliable.rs:217-224 | The object's update is `UReceive` |
| Stats.LossInUnitInterval | renet/src/connection_stats.rs:86-111 | If no slot has more acknowledgements than packets, no sum underflows and the loss is in [0, 1] |
| Stats.LossIsUnackedShare | renet/src/connection_stats.rs:86-111 | The loss times the settled packets is the number of them not acknowledged; it is 0 exactly if all are and 1 exactly if none is |
| LossBound.EnteredSlotIsEmpty | renet/src/connection_stats.rs:31-40 | No packet that survives the three-second expiry was sent in the slot that the same update enters |
| LossBound.UpdateLoss | renet/src/remote_connection.rs:355-379 | `update` keeps acknowledged plus tracked packets of each slot within the packets sent |
| LossBound.ProcessPacketLoss | renet/src/remote_connection.rs:456-458 | So does every processed payload |
| LossBound.GetPacketsLoss | renet/src/remote_connection.rs:526-613 | So does every tick |
| LossBound.EarlyExitIsFilter | renet/src/remote_connection.rs:363-378 | Since packets are sent in order, stopping at the first fresh packet equals filtering by age |
| LossBound.RecordAdds | renet/src/remote_connection.rs:526-592 | Recording a tick adds its packets under new sequences and overwrites none |
| StatsRing.ConnectionStats.Update | renet/src/connection_stats.rs:31-40 | Entering another slot clears it, in the fixed arrays |
| StatsRing.ConnectionStats.SentPackets | renet/src/connection_stats.rs:42-45 | The current slot counts the packets sent |
| StatsRing.ConnectionStats.AckedPacket | renet/src/connection_stats.rs:51-59 | The slot of the sending time counts the acknowledgement, unless it is out of the window; `LossShare.CountersAreExact` says what the slots then hold |
| StatsRing.ConnectionStats.PacketLoss | renet/src/connection_stats.rs:86-111 | Summing the arrays gives the loss of `Stats` |
| Connection.GatherAccounts | renet/src/remote_connection.rs:503-515 | Over all channels of a tick, packets are numbered consecutively and their payload is exactly what was taken from the byte budget |
| Connection.AllPacketsConsecutive | renet/src/remote_connection.rs:503-524 | One tick, acknowledgement included, uses consecutive sequences |
| RemoteConnection.RenetClient.constructor | renet/src/remote_connection.rs:129-193 | A new client is one of the endpoints from which every run starts; each sending and receiving channel is new, with the memory limit, resend time and order of its configuration |
| RemoteConnection.BuildSend | renet/src/remote_connection.rs:134-158 | Each configured sending channel is made with its own resend time and memory limit, in order |
| RemoteConnection.RenetClient.AddPendingAck | renet/src/remote_connection.rs:616-662 | The loop with its edits in place computes `AddAck` |
| RemoteConnection.RenetClient.AckedLargest | renet/src/remote_connection.rs:664-688 | The loop computes `AckedLargest` |
| RemoteConnection.RenetClient.SendMessage | renet/src/remote_connection.rs:320-334 | The object's update is `Connection.SendMessage` |
| RemoteConnection.RenetClient.ReceiveMessage | renet/src/remote_connection.rs:338-351 | The object's update is `Connection.ReceiveMessage` |
| RemoteConnection.RenetClient.FindLost | renet/src/remote_connection.rs:363-374 | The scan in sequence order finds the packets before the first fresh one |
| RemoteConnection.RenetClient.Update | renet/src/remote_connection.rs:355-379 | The object's update, loops included, is `Connection.Update` |
| RemoteConnection.RenetClient.CollectNewAcks | renet/src/remote_connection.rs:446-454 | The nested loops collect the tracked sequences that the ranges cover, in order |
| RemoteConnection.RenetClient.AckPacket | renet/src/remote_connection.rs:456-488 | One acknowledged packet is removed, counted and passed to its channel, as `AckOne`; a missing packet or channel is the panic of the code. `Acknowledged` says what is released |
| RemoteConnection.RenetClient.ProcessPacket | renet/src/remote_connection.rs:385-491 | The object's update is `Connection.ProcessPacket`, for every byte string, panics included |
| RemoteConnection.RenetClient.GetPacketsToSend | renet/src/remote_connection.rs:497-613 | Gathering, recording and serializing in loops computes `Connection.GetPackets` and its payloads, panics included |
| RemoteConnection.RenetClient.DisconnectWithReason | renet/src/remote_connection.rs:690-694 | The first reason stays |
| Replay.AnswerIsExactIff | renetcode/src/replay_protection.rs:24-40 | For every 64-bit sequence, the window answers as the full history would if and only if the wrapping addition does not matter for it |
| Replay.WindowIsExact | renetcode/src/replay_protection.rs:24-48 | So it is after every run of checked accepts |
| Replay.NeverTwice | renetcode/src/replay_protection.rs:24-48 | No sequence is accepted twice, whatever its size |
| Replay.FreshIsNotRefused | renetcode/src/replay_protection.rs:24-48 | No new sequence inside the window and below 2^64 - 256 is refused |
| Replay.WrapRefusesFresh | renetcode/src/replay_protection.rs:25-27 | At 2^64 - 256 the addition wraps and a new sequence is refused |
| Replay.ReplayProtection.AlreadyReceived | renetcode/src/replay_protection.rs:24-40 | Reading the ring answers the history question, for every history the window stands for |
| Replay.ReplayProtection.AdvanceSequence | renetcode/src/replay_protection.rs:42-49 | Writing the ring extends that history by the sequence |
| NetcodePacket.NothingPassesTwice | renetcode/src/packet.rs:280-292 | Over any arrivals on a connection, forged, replayed, reordered or such as make decoding panic, no protected sequence passes twice |
| NetcodePacket.UnauthenticChangesNothing | renetcode/src/packet.rs:280-292 | What does not open under the connection's key leaves the window and what has passed unchanged, and brings the endpoint down exactly if decoding cannot handle it |
| NetcodePacket.NewAuthenticPassesIff | renetcode/src/packet.rs:255-299 | After any arrivals an authentic packet with a new sequence inside the window passes if and only if none of them made decoding panic |
| NetcodePacket.DecodePanicsIff | renetcode/src/packet.rs:261-286 | Decoding with a key panics exactly on datagrams of 18 bytes or more of types 1 to 6 whose prefix announces more than eight sequence bytes, or that have fewer than 16 bytes behind their sequence while replay protection does not refuse it first |
| NetcodePacket.NineByteSequencePanics | renetcode/src/packet.rs:373-377 | The first kind: a first byte of 0x95, whatever follows |
| NetcodePacket.ShortKeepAlivePanics | renetcode/src/crypto.rs:10-10 | The second kind: 18 bytes with two of sequence, on a fresh connection |
| NetcodePacket.SoundBytesIff | renetcode/src/packet.rs:261-279 | A datagram is one that decoding can handle whatever its contents exactly by its length, type and announced sequence length |
| NetcodePacket.SequenceBytesRequired | renetcode/src/packet.rs:354-365 | The mask loop finds the least number of bytes that hold the sequence |
| NetcodePacket.EncodeHeader | renetcode/src/packet.rs:346-371 | The header is the prefix and the least number of sequence bytes |
| NetcodePacket.Encode | renetcode/src/packet.rs:217-249 | Encoding fails exactly if header, body and tag exceed the buffer, never for what the endpoints send; what it writes parses back to the same key, sequence and body, except exactly that an empty body with sequence zero makes 17 bytes, which decoding takes for too small |
| NetcodeClient.DenialIsReadIff | renetcode/src/server.rs:303-313 | Hence a denial reaches a connecting client exactly if its sequence is not zero |
| ServerRuns.StepInv | renetcode/src/server.rs:389-698 | Every step of the server keeps: occupied slots connected and at different addresses, no address pending and connected, at most 4096 pending clients, at most one table entry per token |
| ServerRuns.SlotsStayOrdered | renetcode/src/server.rs:389-698 | So it is after every run, on the slots the server was made with |
| ServerRuns.StepPanicsIff | renetcode/src/server.rs:395-452 | A step makes the server panic exactly if a datagram that decoding cannot handle arrives from a connected or pending address |
| ServerRuns.DownIffHit | renetcode/src/server.rs:389-531 | A run of the server has panicked exactly if some arrival hit it so |
| ServerRuns.SoundArrivalsNeverPanic | renetcode/src/server.rs:389-531 | If all arriving datagrams are sound, the server never panics |
| ServerRuns.StepAccounts | renetcode/src/server.rs:389-698 | Each step changes the slots of each client id exactly as its result reports |
| ServerRuns.BalanceIsCount | renetcode/src/server.rs:389-698 | In every run, reported connects minus disconnects of an id is the number of slots it occupies |
| ServerRuns.ConnectsIffPromotes | renetcode/src/server.rs:465-512 | The server reports a connect exactly if a pending client answers a challenge of an id that is not connected while a slot is free |
| ServerRuns.OneSlotPerClientIff | renetcode/src/server.rs:471-502 | A step keeps ids distinct if and only if it does not promote a pending client whose own id is connected |
| ServerRuns.MatchingRunsAreDistinct | renetcode/src/server.rs:465-512 | In every run whose answered challenges carry the id of the pending client, connected ids are distinct at every moment |
| ServerReports.ConnectsAlternate | renetcode/src/server.rs:465-512 | In such a run the reports of each id alternate: the report before each disconnect is a connect, and before each connect a disconnect or none |
| ServerExample.OneIdTwoSlots | renetcode/src/server.rs:471-502 | A run of five packets after which one id occupies two slots, so the condition cannot be dropped |
| ServerRuns.FindOrAddSpec | renetcode/src/server.rs:172-204 | A token is admitted exactly unless it is remembered under another address, and is remembered under this one then |
| ServerRuns.VictimIsOldest | renetcode/src/server.rs:173-196 | A new token takes a free entry, or one that no other is older than if there is none |
| ServerRuns.TokenBoundToAddress | renetcode/src/server.rs:288-301 | While a token is remembered under another address, requests with it change nothing |
| ServerAdmission.RequestIsAnsweredIff | renetcode/src/server.rs:235-357 | A request is answered exactly if its version and protocol match, its token has not expired, was sealed under the connect key for this protocol, expiry and nonce and, if the server is secure, names one of its addresses, neither its id nor the address is connected, the address is pending or there is room, and the token is not remembered under another address; otherwise nothing changes. The answer is a denial exactly if as many clients are connected as allowed, else a challenge with a new number; the token is remembered with the time, unless it was already, in place of a free entry or else of an oldest one |
| ServerAdmission.ArrivingRequestIff | renetcode/src/server.rs:389-530 | The same for a request that arrives from any address, pending or not; one that is not answered changes at most the time last heard |
| ServerEffects.PendingNeverExpired | renetcode/src/server.rs:574-586 | In every run no pending client's token has expired |
| ServerEffects.ElapseDropsExpired | renetcode/src/server.rs:574-586 | Time drops exactly the pending clients whose token has expired, and changes no other |
| ServerEffects.SlotReacts | renetcode/src/server.rs:389-441 | Whatever arrives from a connected client, apart from what decoding cannot handle: a new disconnect packet frees its slot and is reported, a new payload is handed out, nothing else is reported, and no other client is touched |
| ServerEffects.ResponseDecides | renetcode/src/server.rs:443-512 | A pending client that returns a challenge of this server is dropped if the client of the challenge is connected, denied if all slots are taken, and connected in the first free slot otherwise; a response with another challenge leaves it pending |
| ServerEffects.PollKeepsAlive | renetcode/src/server.rs:640-663 | A client that is not silent gets a keep-alive with its slot and the limit exactly if nothing was sent to it for 250 ms |
| ServerEffects.PayloadDefersKeepAlive | renetcode/src/server.rs:360-375 | Payloads are refused exactly if they are too long or the client is not connected; a payload counts as sent, so no keep-alive follows within 250 ms |
| ServerEffects.KickReachesClient | renetcode/src/server.rs:674-698 | A client that the server disconnects loses its slot, and is disconnected when the farewell arrives |
| ServerEffects.LeaveReachesServer | renetcode/src/client.rs:178-188 | A client that leaves is disconnected, and its slot is freed and the disconnect reported when its packet arrives |
| ServerEffects.LimitDenies | renetcode/src/server.rs:561-566 | After the limit is set, an acceptable request is challenged exactly if fewer clients than the limit, and fewer than 1024, are connected |
| ServerObject.NetcodeServer.constructor | renetcode/src/server.rs:116-150 | A new server is one from which every run starts |
| ServerObject.NetcodeServer.FindOrAddConnectTokenEntry | renetcode/src/server.rs:172-204 | The table scan with its running minimum computes `FindOrAdd` |
| ServerObject.NetcodeServer.HandleConnectionRequest | renetcode/src/server.rs:235-357 | The object's update is `HandleRequest` and keeps the invariant; `ServerAdmission.RequestIsAnsweredIff` says which requests are answered and how |
| ServerObject.NetcodeServer.FromConnected | renetcode/src/server.rs:395-443 | A packet from a connected client is handled as specified and keeps the invariant |
| ServerObject.NetcodeServer.Promote | renetcode/src/server.rs:465-512 | A response removes the pending client and connects, denies or ignores it; the invariant is kept |
| ServerObject.NetcodeServer.ProcessPacket | renetcode/src/server.rs:389-531 | The object's update is `ProcessPacket`, panics of decoding included, and keeps the invariant |
| ServerObject.NetcodeServer.Update | renetcode/src/server.rs:574-585 | Marking and retaining drops exactly the pending clients whose token has expired |
| ServerObject.NetcodeServer.UpdateClient | renetcode/src/server.rs:601-664 | The object's update is `UpdateClient` and keeps the invariant |
| ServerObject.NetcodeServer.DisconnectClient | renetcode/src/server.rs:674-698 | The slot is freed and a farewell sealed for its client |
| ServerObject.NetcodeServer.GeneratePayloadPacket | renetcode/src/server.rs:360-375 | The object's update is `GeneratePayload`; `ServerSequences.PacketsAreNumbered` says which sequences the packets carry |
| ServerObject.FindSlotById | renetcode/src/server.rs:709-714 | The first slot of a client id |
| ServerObject.FindSlotByAddr | renetcode/src/server.rs:716-721 | The first slot of an address |
| NetcodeClient.StepIsTransition | renetcode/src/client.rs:193-334 | The client's state machine: a retry raises the address index by one, nothing returns to an earlier address, and only a response leads to a connection |
| NetcodeClient.AttemptsFollowToken | renetcode/src/client.rs:302-328 | In every run the attempts go through the token's addresses in order, one each, so there are at most 32 |
| NetcodeClient.DisconnectedForGood | renetcode/src/client.rs:332-333 | Once disconnected, a client stays disconnected |
| ClientTimeouts.ArrivalChangesState | renetcode/src/client.rs:193-246 | Whatever arrives: a new disconnect packet of the server ends a connection, a denial an attempt, a challenge is taken up, a keep-alive connects, a new payload is handed out to a connected client, and nothing else changes the state |
| ClientTimeouts.TimesOutIff | renetcode/src/client.rs:283-334 | In every run `update` of a connected client disconnects it exactly if no new keep-alive or payload of the server arrived within the timeout, and otherwise leaves it connected |
| ClientTimeouts.AttemptEndsIff | renetcode/src/client.rs:283-334 | An attempt ends exactly with the token's lifetime or after the timeout; then the next address of the token is tried at once, if there is one |
| ClientTimeouts.SendsWhenDue | renetcode/src/client.rs:336-375 | A client that is not disconnected sends exactly if it sent nothing for 250 ms |
| ClientTimeouts.PayloadDefersKeepAlive | renetcode/src/client.rs:250-269 | Payloads are refused exactly if they are too long or the client is not connected; a payload counts as sent, so no keep-alive follows within 250 ms |
| NetcodeClient.ClientPanicsIff | renetcode/src/client.rs:193-205 | The client panics exactly on the datagrams that decoding cannot handle |
| ServerRuns.SoundBytesNeverPanic | renetcode/src/packet.rs:261-286 | If every arriving prefix announces at most eight sequence bytes and 16 bytes follow them, the server never panics |
| NetcodeClient.SoundBytesNeverPanic | renetcode/src/packet.rs:261-286 | Nor does the client then |
| NetcodeClient.DownIffHit | renetcode/src/client.rs:193-205 | A run of the client has panicked exactly if such a datagram arrived, and then one arrived that was not sound |
| ClientObject.NetcodeClient.constructor | renetcode/src/client.rs:91-131 | A new client sends requests to the first address of its token |
| ClientObject.NetcodeClient.ProcessPacket | renetcode/src/client.rs:193-246 | The object's update is `NetcodeClient.ProcessPacket`, panics of decoding included |
| ClientObject.NetcodeClient.UpdateInternalState | renetcode/src/client.rs:283-334 | The object's update is `UpdateState`; the address index grows by at most one |
| ClientObject.NetcodeClient.GeneratePacket | renetcode/src/client.rs:336-375 | The object's update is `Generate`: the packet of the current state at the send rate |
| ClientObject.NetcodeClient.Update | renetcode/src/client.rs:273-281 | The object's update is `Update` |
| ClientObject.NetcodeClient.GeneratePayloadPacket | renetcode/src/client.rs:250-269 | Payloads above 1300 bytes and clients that are not connected are refused |
| Handshake.RunInv | renetcode/src/client.rs:193-334 | What every run of a server and a client under an active attacker keeps: keys reach slots only by connecting, and packets sealed with the token's keys come from their holders |
| Handshake.ConnectedIsAccepted | renetcode/src/client.rs:208-244 | In every such run, a connected client was reported as connected by the server under the token's key |
| Handshake.PanicNeedsUnsoundDatagram | renetcode/src/client.rs:193-205 | In every run of both under an attacker, if either has panicked, a datagram arrived that neither had sent and that decoding cannot handle |
| Handshake.AcceptedWasAnswered | renetcode/src/server.rs:465-512 | In every such run, the datagram upon which the server reported a connection under the client's key is one this client sent, a response to a challenge of this server |
| HandshakeProgress.HandshakeCompletes | renetcode/src/server.rs:235-512 | For every server and token with nothing against them, four packets without loss connect the token's client on both sides, and the client knows its slot and the server's limit |
| HandshakeProgress.PayloadGetsThrough | renetcode/src/server.rs:360-432 | A new payload of a connected client reaches the server's application under its id, and a payload for it reaches the client's, exactly if it is not empty or its sequence is not zero |
| Handshake.PayloadsAreGenuine | renetcode/src/server.rs:396-430 | In every run under an attacker in which no connected client's sending key is the token's receiving key, every payload handed out under the token's key was sealed by the token's client as it is handed out, and no connection is handed one sequence twice |
| ServerPayloads.NoPayloadTwice | renetcode/src/server.rs:396-430 | In every run of the server, no connection is handed the payload of one sequence twice |
| ServerPayloads.LedgerIsComplete | renetcode/src/server.rs:396-430 | The record these speak of holds the payloads of all results, in order |
| ServerPayloads.PayloadIsAuthentic | renetcode/src/server.rs:396-430 | A payload is handed out only for a datagram sealed with the key of the client it is attributed to and not seen before |
| ServerSequences.PacketsAreNumbered | renetcode/src/server.rs:360-698 | In every run of the server, the keep-alives, payloads and the farewell of one connection are sealed with one key and numbered 0, 1, 2 and so on, in the order in which they are put out |
| ServerSequences.SequencesUsed | renetcode/src/server.rs:360-698 | In every run a connection has used exactly the sequences below the number of its packets |
| ServerSequences.NextSequence | renetcode/src/server.rs:360-698 | In every run the next sequence of a connected client is the number of packets put out for it, which is not zero |
| HandshakeProgress.ChallengeSharesSequenceIff | renetcode/src/server.rs:305-330 | Challenges and denials count separately under the same key: the challenge and the keep-alive of a handshake carry the same sequence exactly if the server had sealed none before |
| ClientSequences.SequencesIncrease | renetcode/src/client.rs:178-375 | In every run of the client, everything it seals is sealed with its key and with increasing sequences; two packets share one exactly if both are the disconnect packet of a client that leaves more than once |
| ClientSequences.LeavingTwiceRepeats | renetcode/src/client.rs:178-188 | Such a client, after its first request, seals the same disconnect packet twice |
| NetcodeBatches.ServerBatchArrives | renetcode/src/server.rs:360-375 | Any number of payloads that the server generates in a row and that arrive in order reach the application of a client that has let through no sequence of these, all of them and in order |
| NetcodeBatches.ClientBatchArrives | renetcode/src/client.rs:250-269 | So do payloads of a client at the server's application |
| NetcodeBatches.WindowBelow | renetcode/src/client.rs:193-205 | In every run of a client its window has let through no sequence above those that arrived under the server's key |
| ServerTimeouts.PollDropsSilentIff | renetcode/src/server.rs:601-640 | In every run, polling drops a client exactly if it is connected with a timeout and neither a packet that opens under its key nor any connection request from its address arrived within that timeout |
| ServerTimeouts.EmptyRequestKeepsSilentClient | renetcode/src/server.rs:395-408 | A request without valid version, protocol or token keeps a client that would be dropped |
| ServerTimeouts.LastHeardIsLatest | renetcode/src/server.rs:395-453 | In every run the time kept for a connection is that of the latest event that made the server hear from its address |
| ServerConnections.StepKeeps | renetcode/src/server.rs:389-698 | Each step changes the time last heard and the replay window of a connection only upon a datagram from its address, and as decoding says |
| HandshakeProgress.HearingKeepsClient | renetcode/src/client.rs:226-239 | A connected client that has just heard from the server stays connected until its timeout |

## Left out

- Sockets, transports and Steam, `RenetServer`, bevy and visualizer glue: I/O, engine code and a thin map over `RenetClient`.
- Smoothing of the round-trip time and byte rates: floating point; packet loss is modelled over the reals. Consequently `received_packet` and the byte arrays of the statistics are not modelled.
- ChaCha20-Poly1305, nonces, random keys and token serialization: encryption is ideal, and a token, challenge or packet opens exactly under the key, protocol id and sequence it was sealed with. Bodies of netcode packets are values; their lengths, prefix and sequence are modelled to the byte, and `NetcodePacket.Parse` ties them to what arrives.
- The channels inside `RemoteConnection.RenetClient` are values, since Rust owns them, so its methods call the channel functions rather than the channel classes.
- Handshake.PayloadsAreGenuine: assumes that no connected client's server-to-client key equals the token's client-to-server key; keys are random and their generation is not modelled.
- Logging, `Display` and accessors that only return a field.
- Behaviour on slice headers no renet sender produces, such as one message id with two slice counts: the functions cover it, the run theorems are about payloads of a renet peer.
- Replay.ReplayProtection.AlreadyReceived: the addition wraps as in a release build; a debug build panics there.
- Overflow of 64-bit counters other than through variable-length integers, for example packet counts in the statistics or netcode sequences: they are unbounded here.
- `Duration` values larger than 2^64 seconds.
