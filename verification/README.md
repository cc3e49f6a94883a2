# Verified model of the mulsigo messaging stack

mulsigo lets a group of people run threshold-signature protocols over an untrusted
relay. This project models the layers those protocols stand on and proves, for every
run, what each layer gives to the one above it:

- **Reliable stream** (`ReliableEndpoint`, `ReliableRuns`, `ReliableWrap`,
  `ReliableStreamObject`, `ReliableObjects`): the stop-and-wait protocol of `client/stream.go` between two
  endpoints. The wire loses, duplicates and reorders: it is the set of packets ever put
  on it, and a receive takes any member. Timers, the stream below and the goroutine that
  fills `ackCh` are events of the environment. `sequence` is a 32-bit number and wraps.
- **Noise stream** (`ChannelId`, `ScalarClamp`, `NonceRace`, `NoiseStack`, `NoiseGaps`,
  `SharedRoom`): private scalar, room name and initiator of a pair, and the reliable stream
  over an ideal counter-nonce cipher (sections 5.1 and 5.3 of the Noise Protocol Framework),
  while an adversary runs the relay. Calls of `Encrypt` are not locked, so a step of the stack
  seals under any nonce, and `NonceRace` says which nonces racing calls give. Every run of the
  stack, whatever the nonces, is shown to be a run over the lossy wire, so the reliable
  stream's theorems carry over.
- **Relay** (`RelayRooms`, `RelayHistory`, `RelayInvariant`, `RelayTheorems`,
  `RelayContinuations`, `RelayLostJoins`, `RelayMembership`, `RelayObjects`): the dispatcher
  under its mutex and one worker per room, in every interleaving, down to single sends of a
  broadcast and to the gap between `setDone` and `deleteChannel`. The log of queued, consumed
  and sent messages is a history; membership "at a moment" is replayed from it, independently
  of the `clients` map.
- **Client multiplexer** (`Demux`, `Multiplexing`, `EndToEndJoin`): routing by channel id,
  and a join followed from the room worker to `clientChannel.join`.
- **Connection layer** (`Framing`, `TcpConnObject`, `LocalManagerObject`, `RouterShutdown`,
  `MessageRegistry`) and **subscriber lists** (`EventDispatcher`).

`Wrappers`, `CommonTypes`, `ByteCounts` and `Subsequences` hold what they share.

Concurrent protocols are step systems over values: a step is one atomic action of one
goroutine, `Execute` runs a list of steps, and the theorems quantify over all lists. Objects
whose methods update fields are classes. `RelayServer`, with its `Channel` objects, and
`ReliableStream` carry the list of steps they have taken as a ghost history: `Valid` says
that their fields are in the state which that history leads to, and every method extends it.
So what is proved of every run holds of the objects: directly for the relay, and for two
streams through `ReliableObjects`, which joins their histories into a run of the protocol. The methods of `Multiplexer` and
`LaunchHandleRoutine`, `FinishHandler` and `SetClosed` of `RouterObject` are single steps, or
a fixed list of them, of their systems. `TcpConn`, `LocalManager`, `IdRegistry` and
`SimpleDispatcher` keep an invariant over their contents. A blocking operation on a full or
empty queue is a step that is not enabled.

## What the code does not give

Properties one would expect and the code does not have. Each has a concrete run or input
and, for all inputs, the condition under which the property holds:

- After 2^32 sends the sequence wraps to 0, and the peer acknowledges and drops that
  payload (`ReliableWrap.WrappedSendIsLost`, `ReliableWrap.LosslessExactlyBelowWrap`).
- A queued JOIN may never be answered. It may come after `setDone`
  (`RelayLostJoins.JoinCanBeLost`), or be overtaken by a LEAVE that empties a room which
  still serves (`RelayLostJoins.LeaveOvertakesJoin`). `AnswerableExactlyWhileServing` says when
  some continuation answers it; `JoinSafeExactly` says when none can lose it: the worker
  serves, Stop is not called, and some client neither leaves nor has a LEAVE waiting, or
  nobody leaves at all.
- An OK answer does not last until the client's next LEAVE: a LEAVE sent before the JOIN may
  be served after it (`RelayMembership.LeaveUndoesLaterJoin`). It lasts exactly when no LEAVE
  of that client was waiting (`RelayMembership.OkLastsExactly`).
- A nil `join` does not mean that its own JOIN was answered: after a join that timed out, the
  next one returns nil on the answer to the first (`EndToEndJoin.NilForAnOlderJoin`). Answers
  go to the JOINs of a room in turn (`RelayTheorems.EveryAnswerInTurn`), and a nil on the first
  message of a room is for the client's first JOIN there.
- The comment on `channelID` says the id belongs to the two identities; the code slices an
  empty suffix, so different pairs share a room (`ChannelId.RoomIsShared`), and pairs of equal
  IDs, which the key generation asks for, all share that of the empty string
  (`ChannelId.SelfRoomIsShared`). Two pairs share a room exactly when both have equal IDs, or
  neither has and their larger IDs agree (`ChannelId.SameRoomExactly`). A foreign message in a
  shared room ends the stream that reads it (`SharedRoom.ForeignBlobEndsStream`).
- `send` and `stateMachine` call `Encrypt` without a lock and can use a nonce twice
  (`NonceRace.NonceReused`), so that a receiver opens an acknowledgement in the place of data
  (`NoiseStack.AckTakesThePlaceOfData`). What the receiver sees is always a prefix of what was
  encrypted exactly when no two calls overlap (`NonceRace.PrefixExactly`). Delivery survives
  the race (`NoiseStack.StackDelivers`).
- Sending again does not repair a lost ciphertext: an acknowledged send means that the peer
  opened everything sealed before it (`NoiseGaps.AckNeedsAllEarlier`), so after a ciphertext
  that was sealed and not transmitted (`NoiseGaps.GapHappens`) no later send is acknowledged
  (`NoiseGaps.GapIsForever`).
- `clientChannel.Close` and a failed `Channel` call remove by id and can take another channel
  out of the map (`Multiplexing.StaleCloseIsPossible`, `Multiplexing.FailedJoinDropsAnother`);
  both spare the others exactly when the id does not lead to another channel
  (`Multiplexing.RemovalDropsOnlyItselfExactly`).
- A frame announces its size modulo 2^32: a message of 2^32 bytes arrives empty
  (`Framing.OversizedFrameFails`), and 2^32 + 1 zero bytes arrive as one byte and 2^30 empty
  messages (`Framing.OversizedMessageShatters`, for any message `Framing.OversizedSplits`).
  Whatever the chunks, a frame is read back exactly below 2^32 bytes
  (`Framing.FrameRoundTripExactly`, `Framing.WriteLoopExactly`).
- The handler goes on after a temporary read error, which may have consumed part of a frame;
  the remaining messages are received exactly when it consumed nothing
  (`Framing.ResumeSafeExactly`, with an input in `Framing.ResumeLosesMessages`).
- Registering an id again breaks the types that were decoded through it
  (`MessageRegistry.RebindingLosesAType`, `MessageRegistry.RegistryExactly`,
  `MessageRegistry.MarshalRoundTripExactly`).

The comment on the relay's limit reads as at most 50 rooms; the guard `>` allows 51, and a run
reaches them (`RelayTheorems.FiftyOneRooms`, `RelayTheorems.Capacities`). The refusal of one more names no
room, so the client that asked never sees it and waits until its join times out
(`EndToEndJoin.RefusalIsDropped`).

## Model

| member | source | states |
|---|---|---|
| ReliableRuns.EveryRunIntact | client/stream.go:143-234 | in every run, each direction keeps the protocol invariant while its own sender made fewer than 2^32 sends, however many the other made: the wire carries only payloads under their own numbers, what was passed up is what was sent under the numbers taken, and every acknowledgement anywhere was for a payload taken or for one older than the last taken |
| ReliableRuns.SenderKeeps | client/stream.go:188-234 | every action of the sending goroutine keeps a direction; in particular an ack that matches the current sequence was given for the current payload, never for an older send |
| ReliableRuns.ReceiverKeeps | client/stream.go:143-186 | every action of stateMachine and receive keeps a direction: late and repeated copies are acknowledged and dropped |
| ReliableRuns.AcknowledgedMeansAccepted | client/stream.go:188-234 | when send number k+1 returned nil, the peer has accepted exactly that payload, under that number |
| ReliableRuns.NoFailureMeansPrefix | client/stream.go:118-120 | while no send failed, the accepted list is all payloads sent, or all but the one in progress, and what the application received is a prefix of what was sent |
| ReliableRuns.OrderedAtMostOnce | client/stream.go:174-181 | even with failed sends and late copies, what was pushed up is a subsequence of what was sent, numbers strictly increase, and lastAckd never passes the sender's sequence |
| ReliableRuns.RunsMirror | client/stream.go:121-141 | the two endpoints are symmetric, so each theorem holds in both directions |
| ReliableRuns.EveryRunDelivers | client/stream.go:118-234 | in every run, each direction whose own sender has not wrapped delivers: a send that returned nil was accepted, without a failed send nothing is missing, and what was pushed up is in any case a subsequence of what was sent |
| ReliableWrap.QuietRun | client/stream.go:188-218 | every number of sends below 2^32 can be sent and acknowledged |
| ReliableWrap.WrappedSendIsLost | client/stream.go:177-179 | a run of 2^32 acknowledged sends in which the peer accepted one payload less |
| ReliableWrap.LosslessExactlyBelowWrap | client/stream.go:188-193 | all-acknowledged runs of at most n sends deliver everything if and only if n < 2^32 |
| ReliableStreamObject.AwaitSucceedsExactly | client/stream.go:207-233 | send returns nil if and only if its own ack arrives at a wait that the budget of stale acks and timeouts still reaches |
| ReliableStreamObject.AwaitResultExactly | client/stream.go:208-233 | which result send returns: that of the first reached wait that ends the loop (nil, the stored error, ErrClosed, the error of the resend), and ErrTimeout if and only if no such wait is reached or it says so |
| ReliableStreamObject.WaitsAreBounded | client/stream.go:207-233 | a stale acks and t timeouts satisfy a + t(1+ceil(M/10)) <= M + ceil(M/10), with at most M waits and at most 10 retransmissions |
| ReliableStreamObject.ReliableStream.AwaitOwnAck | client/stream.go:208-233 | the wait loop takes acks from ackCh while other goroutines act; all its waits but the last went round, and the last gives the result: nil on its own ack, the error that is stored, ErrClosed when `done` is closed, the error of the resend, or ErrTimeout with the budget gone; within M waits and 10 resends, each a step of the protocol |
| ReliableStreamObject.ReliableStream.Send | client/stream.go:188-234 | one send is a run of the protocol that starts with its packet and interleaves its waits with whatever the other goroutines do; it puts the packet and one copy per timeout on the wire, at most eleven; its result is that of its first send if refused, and otherwise that of its last wait, by the kind of that wait; the first error stored stays |
| ReliableStreamObject.ReliableStream.HandlePacket | client/stream.go:156-184 | one iteration of stateMachine is the receiving step of the protocol, and replies with the ack of that packet |
| ReliableStreamObject.ReliableStream.StoreError | client/stream.go:250-258 | the first error is kept and errCh is closed exactly once |
| ReliableStreamObject.FirstErrorStays | client/stream.go:143-258 | whatever a goroutine does, the first error reported is the one stored, `done` is closed by close alone, and stateMachine stops exactly on a failed receive or a refused acknowledgement |
| ReliableStreamObject.OnWireExactly | client/stream.go:159-230 | what reaches the wire: a payload under the next number, its packet again on each timeout, and the acknowledgement of each data packet, in each case if the stream below takes it |
| ReliableStreamObject.FailedAckStops | client/stream.go:168-171 | a refused acknowledgement ends stateMachine for good: its error is stored unless there was one, and neither that payload nor a later one is passed up |
| ReliableStreamObject.FailedReceiveStops | client/stream.go:146-155 | the same for a failed receive |
| ReliableStreamObject.QueuesOfHundred | client/stream.go:133-141 | ackCh and dataCh are first-in first-out, take 100 and block the next |
| ReliableStreamObject.ReliableStream.Receive | client/stream.go:236-248 | for each case of the select: the oldest payload is handed out if and only if the data case was taken; the error, done and timeout cases return their error and lose no payload |
| ReliableObjects.RunsCompose | client/stream.go:121-234 | runs of two single endpoints, interleaved so that every packet taken was on the wire, are a run of the two-sided protocol that ends in their states |
| ReliableObjects.ObjectsDeliver | client/stream.go:118-234 | two stream objects whose histories the wire joins deliver to each other, in both directions, all that the protocol promises |
| ChannelId.CompareIsOrder | client/router.go:143 | the comparison is negative, zero or positive if and only if the first string is smaller, equal or larger, where a proper prefix is smaller and otherwise the first difference decides |
| ChannelId.HexSpellsBytes | client/router.go:141-142 | an ID spells the bytes of its key, two digits each, the upper half first |
| ChannelId.InitiatorExactly | client/router.go:146-153 | a side is initiator if and only if its ID is the smaller |
| ChannelId.SmallerKeyLeads | client/router.go:140-158 | the key 00...00 leads its handshake with 20...20 in the room hashed from 2020202020202020 |
| ChannelId.ChannelAgreement | client/router.go:140-158 | both sides compute the same room, and exactly one is initiator if and only if the IDs differ |
| ChannelId.RoomOfTheLargerId | client/router.go:146-157 | from either side, the room is the hash of the larger ID alone |
| ChannelId.SameRoomExactly | client/router.go:140-158 | under an injective hash and for all identities, two pairs share a room if and only if both have equal IDs, or neither has and their larger IDs are equal |
| ChannelId.RoomIsShared | client/router.go:146-157 | three identities of which two different pairs share a room, under every hash |
| ChannelId.SelfRoomIsShared | client/router.go:144-157 | two identities with different IDs whose rooms with themselves are one, as the broadcasts of client/dkg.go ask for |
| ScalarClamp.Clamp | client/keys.go:36-38 | in place: an integer 2^254 q + r becomes 2^254 + r with its three lowest bits cleared, and the second half of the digest is untouched |
| ScalarClamp.ClampedScalar | client/keys.go:31-45 | for every digest the scalar is 2^254 + r - r mod 8, a multiple of 8 in [2^254, 2^255), as section 5.1.5 of RFC 8032 asks |
| ScalarClamp.ClampIdempotent | client/keys.go:36-38 | clamping twice is clamping once |
| NoiseStack.EstablishedSecure | client/stream.go:355-391 | each side encrypts under the key the other decrypts under if and only if the identities have different IDs |
| NoiseStack.InitiatorUsesFirst | client/stream.go:355-391 | a side encrypts under the first cipher state if and only if its ID is the smaller |
| NoiseStack.PlaintextsArePrefix | client/stream.go:415-433 | whatever the relay drops, repeats, reorders or forges, the plaintexts a side saw are a prefix of those the other encrypted, if the calls of Encrypt that gave the nonces did not overlap; `NonceRace.PrefixExactly` says that for the two goroutines of a stream nothing less will do |
| NoiseStack.EveryRunSecure | client/stream.go:415-433 | under any nonces: every ciphertext under a side's key is one it made, and a side saw plaintexts one by one under the nonces 0, 1, 2 and so on |
| NoiseStack.AckTakesThePlaceOfData | client/stream.go:168-226 | a run with overlapping calls in which the receiver opens an acknowledgement as the first plaintext although data was encrypted first |
| NonceRace.NumberedExactly | client/stream.go:415-421 | with Encrypt as seal, load and store in any number of goroutines, ciphertexts carry their positions as nonces if and only if no two calls overlap |
| NonceRace.PrefixExactly | client/stream.go:168-226 | the receiver always sees a prefix of what was encrypted if no two calls overlap; for `send` sealing data and `stateMachine` sealing acknowledgements, resends included, if and only if |
| NonceRace.OverlapReuses | client/stream.go:168-226 | the first call that overlaps another one reuses its nonce |
| NonceRace.NonceReused | client/stream.go:168-203 | a run in which a packet of send and an ack of stateMachine share a nonce |
| NoiseStack.DeviationEndsStream | client/stream.go:145-155 | a blob that is not a ciphertext of the peer under its next nonce stores an error and no plaintext is seen in any continuation |
| NoiseStack.NextCiphertextOpens | client/stream.go:145-184 | the peer's next ciphertext is always opened, its packet is handled, and the stream goes on unless its acknowledgement is refused |
| NoiseStack.StackRefinesLossyWire | client/stream.go:94-112 | every run of the encrypted stack, under any nonces, is to its endpoints a run over the lossy wire |
| NoiseStack.StackDelivers | client/stream.go:94-112 | end to end, through any relay and under any nonces, in both directions: a send that returned nil was accepted, without a failed send nothing is missing, and what was pushed up is a subsequence of what was sent |
| NoiseGaps.AckNeedsAllEarlier | client/stream.go:188-234 | with numbered nonces, a send that returned nil means that the peer opened every ciphertext sealed before that send started |
| NoiseGaps.GapIsForever | client/stream.go:203-230 | once a ciphertext was sealed and not transmitted, no send started afterwards is acknowledged in any continuation, however often it is sent again |
| NoiseGaps.GapHappens | client/stream.go:203-206 | a run with such a gap whose stream goes on |
| SharedRoom.ForeignBlobEndsStream | client/router.go:140-158 | what a sends to c reaches c under the id of c's room with b when both have smaller IDs than c; once c's stream with b has read it, that stream sees no further plaintext |
| SharedRoom.BlobIsSent | relay/relay.go:181-209 | a finished broadcast sent its blob under the id of the room to each other member |
| RelayInvariant.EveryRunKeeps | relay/relay.go:48-240 | the relay's invariant holds after every interleaving of Process calls, workers and Stop |
| RelayTheorems.EgressProvenance | relay/relay.go:181-209 | every EGRESS comes from an earlier consumed INGRESS of the same room and blob, from another address that was a member, to an address that was a member when it was consumed and when it was sent |
| RelayTheorems.BroadcastOnce | relay/relay.go:181-209 | a finished broadcast sent exactly one copy to every other member if the sender was a member, and none otherwise |
| RelayTheorems.OneLiveWorkerPerRoom | relay/relay.go:58-75 | a worker that has not returned is exactly the room in the map, so an id has at most one |
| RelayTheorems.DeleteRemovesOwnRoom | relay/relay.go:93-97 | deleteChannel removes the entry of its caller and no other |
| RelayTheorems.Capacities | relay/relay.go:60-70 | at most 30 clients per room, 51 rooms, 100 messages in each of the three queues; a new room is refused exactly when there are 51 |
| RelayTheorems.FiftyOneRooms | relay/relay.go:58-75 | a run that opens 51 rooms, after which a new one is refused |
| RelayTheorems.ThirtyClients | relay/relay.go:215-231 | a run that fills a room with 30 clients, after which the 31st is refused |
| RelayTheorems.HundredWaiting | relay/relay.go:129-155 | for each of the three queues, a run that fills it with 100 messages, after which the next one blocks |
| RelayTheorems.EmptiedRoomRetires | relay/relay.go:172-180 | a room that served a leave and has no client left is being deleted or gone |
| RelayTheorems.StopReachesEveryWorker | relay/relay.go:82-91 | after Stop every worker still running was told to finish, or is deleting its room |
| RelayTheorems.StopSparesDone | relay/relay.go:243-252 | Stop leaves a room alone that is deleting itself or was stopped before |
| RelayTheorems.JoinsAnsweredInOrder | relay/relay.go:144-155 | joins queued are joins answered followed by joins waiting, in order; the same for ingress messages, and the clients are those the log says |
| RelayTheorems.AnswerMeansMember | relay/relay.go:215-240 | a join is answered OK if and only if the address is a member afterwards; a refusal means 30 members |
| RelayTheorems.FirstMessageAnswers | relay/relay.go:168-240 | the first message an address ever gets about a room is a JOIN_RESPONSE, and if OK the address was added |
| RelayTheorems.JoinNilMeansAdded | relay/channel.go:183-205 | over a FIFO link, a join that returns nil, first of its room or not, means the relay had added the client |
| RelayTheorems.EveryAnswerInTurn | relay/relay.go:144-240 | every answer is for the first JOIN of its room that no earlier answer was for |
| RelayTheorems.FirstNilAnswersFirstJoin | relay/channel.go:183-205 | a nil on the first message an address ever gets about a room is the answer to the first JOIN it queued there |
| RelayLostJoins.AnswerableExactlyWhileServing | relay/relay.go:157-180 | some continuation answers the j-th waiting JOIN if and only if the worker is neither deleting its room nor gone |
| RelayLostJoins.JoinSafeExactly | relay/relay.go:157-180 | the j-th waiting JOIN stays answerable in every continuation, whose leaves come from a given set and with or without Stop, if and only if the worker serves, Stop was not and may not be called, and some client is neither in the set nor waiting to leave, or nobody is |
| RelayLostJoins.JoinCanBeLost | relay/relay.go:174-179 | a run that queues a JOIN, after setDone, which no continuation answers |
| RelayLostJoins.LeaveOvertakesJoin | relay/relay.go:168-180 | a run in which a JOIN waits in a room that serves, can be answered, and after one served LEAVE no longer can |
| RelayMembership.StaysMemberExactly | relay/relay.go:144-180 | a client stays until its next LEAVE, in every continuation, if and only if none of its earlier ones is waiting in a room whose worker still runs |
| RelayMembership.OkLastsExactly | relay/relay.go:168-174 | an OK answer means membership until the next LEAVE if and only if no LEAVE of that client was waiting when it was given |
| RelayMembership.LeaveUndoesLaterJoin | relay/relay.go:144-174 | from any idle room: a client that leaves and joins again is told OK and ends up outside with nothing left to serve |
| RelayMembership.IdleRoom | relay/relay.go:58-75 | such a room is reachable |
| RelayObjects.RelayServer.ServeJoin | relay/relay.go:168-240 | the join case is the admission step of the protocol, on the objects, and the answer is OK if and only if the address is in clients |
| RelayObjects.RelayServer.ServeLeave | relay/relay.go:172-180 | the leave case is the removal step of the protocol; the worker goes on to delete the room if and only if it is empty |
| RelayObjects.RelayServer.ServeIncoming | relay/relay.go:181-209 | the incoming case is the consuming step followed by one sending step per copy, in the order of the loop: one copy of the blob to each other client, none for a stranger, and the worker is back at its select |
| RelayObjects.RelayServer.Process | relay/relay.go:48-79 | one call is one step of the protocol from the state of the room objects to theirs: ignored without an id, refused past the limit, otherwise queued in the room found or created, no other room touched |
| RelayObjects.RelayServer.DeleteChannel | relay/relay.go:93-97 | called by the worker of an emptied room, the entry that goes is that room's and it has no other; one step of the protocol |
| RelayObjects.RelayServer.Stop | relay/relay.go:82-91 | the loop over the map, in any order, is the stop step of the protocol: exactly the rooms in the map are halted, each once |
| RelayObjects.OneObjectPerRoom | relay/relay.go:58-97 | two room objects of one id whose workers run are one object, the one in the map |
| RelayObjects.CopiesHaveSources | relay/relay.go:181-209 | every copy the objects sent came from a consumed message of another member, to a member |
| Multiplexing.DispatchIsFiltering | relay/channel.go:75-116 | over every run, a channel was given exactly the messages of its id that arrived while it was in the map, in order |
| Multiplexing.DoneExactly | relay/channel.go:156-162 | over every run, a channel is done if and only if Close was called on it |
| Multiplexing.CloseTwiceIsOnce | relay/channel.go:159-161 | after one Close another one changes nothing, whatever happened in between |
| Multiplexing.RemovesExactly | relay/channel.go:62-171 | a failed join always removes its id from the map, and Close exactly the first time |
| Multiplexing.ConnClosedExactly | relay/channel.go:109-116 | the connection to the relay is closed if and only if some first Close has left no channel in the map |
| Multiplexing.QueueOfTwenty | relay/channel.go:127-134 | a channel's queue never holds more than 20 messages, and takes one more exactly below that |
| Multiplexing.RemovalDropsOnlyItselfExactly | relay/channel.go:62-171 | Close and the deletion after a failed join leave all other channels in the map if and only if the id does not lead to another channel, or Close was called before |
| Multiplexing.StaleCloseIsPossible | relay/channel.go:156-171 | a run in which closing a stale handle removes a live channel |
| Multiplexing.FailedJoinDropsAnother | relay/channel.go:62-69 | a run in which the failing join of a closed channel removes a live one |
| Multiplexing.Multiplexer.Channel | relay/channel.go:50-60 | an existing channel is shared, otherwise a new one is put in the map |
| Multiplexing.Multiplexer.Route | relay/channel.go:93-101 | one message is queued for the channel of its id or dropped |
| Multiplexing.Multiplexer.Close | relay/channel.go:109-171 | the first call marks the channel, removes what its id leads to and closes the connection with the last channel; later calls do nothing |
| Multiplexing.Multiplexer.FailJoin | relay/channel.go:62-69 | after an error of join the id is removed from the map |
| Multiplexing.Multiplexer.Join | relay/channel.go:192-201 | on the first message of a channel, nil if and only if it is an OK join response |
| Multiplexing.Multiplexer.Receive | relay/channel.go:138-150 | the oldest message is taken; its blob is returned if and only if it is an EGRESS |
| EndToEndJoin.JoinThroughMultiplexer | relay/channel.go:50-205 | through worker, FIFO link and multiplexer: a nil join on any channel means the relay had added the client |
| EndToEndJoin.FirstJoinThroughMultiplexer | relay/channel.go:50-205 | if no message of the room came before the channel, that nil answers the client's first JOIN in the room |
| EndToEndJoin.RefusalIsDropped | relay/relay.go:60-69 | the refusal of a room past the limit carries no id, so no channel of any multiplexer run is given it |
| EndToEndJoin.NilForAnOlderJoin | relay/channel.go:192-204 | a run in which a second join returns nil on the answer to a first one that timed out, while its own JOIN waits |
| Framing.HeaderRoundTrip | network/tcp.go:110-114 | the size, written in four big-endian bytes, is read back |
| Framing.FrameRoundTripExactly | network/tcp.go:157-177 | what sendRaw sends in one Write is parsed back, with the rest of the stream untouched, if and only if the message is shorter than 2^32 bytes |
| Framing.WriteLoopExactly | network/tcp.go:157-177 | the same for every chunking in which the loop, with its 32-bit counter, ends |
| Framing.ShortMessageWritten | network/tcp.go:163-173 | below 2^32 bytes the loop writes the message front to back and needs at most one Write per byte |
| Framing.FullWriteIsSentFrame | network/tcp.go:157-177 | for every message, a Write that takes everything leaves the truncated size and the message on the wire, or the size alone if it is 0 |
| Framing.OversizedFrameFails | network/tcp.go:159-173 | a message of 2^32 bytes is sent as a header and received as an empty message |
| Framing.OversizedSplits | network/tcp.go:106-177 | of any longer message whose length is no multiple of 2^32, the peer reads the announced part and then takes the rest for frames |
| Framing.OversizedMessageShatters | network/tcp.go:106-177 | 2^32 + 1 zero bytes, sent with one Write and no error, are received as one byte and 2^30 empty messages |
| Framing.ResumeSafeExactly | network/tcp.go:106-138 | after an error that consumed g bytes, reading on returns the messages still owed if and only if g is 0 |
| Framing.ResumeLosesMessages | network/router.go:211-214 | a stream that is read differently after one byte of it was lost to an error |
| Framing.CutStream | network/tcp.go:106-138 | of a stream cut anywhere, exactly the messages with complete frames are received |
| Framing.StreamRoundTrip | network/tcp.go:106-177 | every list of messages below 2^32 bytes is received as sent |
| TcpConnObject.TcpConn.ReceiveRaw | network/tcp.go:106-138 | for every chunking, one frame is taken off the stream, or an error is returned with less than a frame consumed; without I/O failures only at the end of the stream |
| TcpConnObject.TcpConn.SendRaw | network/tcp.go:157-177 | for a message of any length and every chunking and failure: what the loop wrote, a whole frame below 2^32 bytes or a part of it with an error, and the truncated size added to Tx |
| TcpConnObject.TcpConn.SendAll | network/tcp.go:143-177 | the bytes written are the framed list, or on an error that of the first messages and a part of the next; Tx grows by the payload of those that went out whole |
| TcpConnObject.TcpConn.ReceiveAll | network/tcp.go:85-138 | up to the first error, whatever it is, a prefix of the messages the stream holds, all of them without I/O failures; Rx grows by their payload |
| TcpConnObject.Transfer | network/tcp.go:106-177 | for every pair of chunkings the list received is the list sent and Rx equals Tx |
| LocalManagerObject.LocalManager.Connect | network/local.go:104-128 | two fresh, mutually linked endpoints are added if and only if the remote listens |
| LocalManagerObject.LocalManager.Send | network/local.go:133-143 | a message reaches the peer's incoming queue, which is open, if and only if the peer is still connected; Tx grows by its length either way |
| LocalManagerObject.LocalManager.Pick | network/local.go:239-243 | the goroutine takes the oldest incoming message |
| LocalManagerObject.LocalManager.Put | network/local.go:242-243 | it puts that message, and nothing else, into the open outgoing queue |
| LocalManagerObject.LocalManager.Receive | network/local.go:269-277 | the oldest message is handed out; a closed connection is drained before it reports the end |
| LocalManagerObject.LocalManager.CloseLocal | network/local.go:147-157 | close succeeds if and only if the connection is in the map; its own end is removed and shut once its own goroutine holds no message, whatever the peer's does, with what had reached its outgoing queue still to be received, and the peer is in the map |
| LocalManagerObject.LocalManager.CloseRemote | network/local.go:158-166 | the peer, always found, is then shut in turn; messages moved and received in between keep the invariant |
| LocalManagerObject.LocalManager.Len | network/local.go:169-173 | the number of open connections is even |
| LocalManagerObject.Directions | network/local.go:37-69 | in every consistent state the two endpoints of a connection exist, point at each other and are open or closed together, except in the middle of a close; while open, received, outgoing queue, message in hand and incoming queue add up to what the peer sent |
| LocalManagerObject.ReceivedIsPrefix | network/local.go:239-277 | what one end received is always a prefix of what the other sent, and its Rx never exceeds the peer's Tx |
| LocalManagerObject.CountersAgree | network/local.go:254-277 | in every consistent state Tx is the total of the messages given to Send, and once every Send succeeded and all was received it equals the peer's Rx |
| LocalManagerObject.OpenConnectionsAreEven | network/local.go:104-166 | connections come in pairs in every consistent state |
| RouterShutdown.EveryRunKeeps | network/router.go:88-262 | the WaitGroup counts the handlers that have not called Done, and traffic the bytes, received and sent, of those that have accounted |
| RouterShutdown.DispatchedExactly | network/router.go:194-220 | in every run a handler has dispatched exactly the messages it received whose check came before Stop set the flag, in order, but for one it may still hold; its Rx is the total of its receives |
| RouterShutdown.CheckLeads | network/router.go:196-214 | after a receive a handler dispatches, goes on or leaves: it leaves if and only if the router is closed or the error is fatal, and goes on without a dispatch if and only if the error is temporary |
| RouterShutdown.ClosedExactly | network/router.go:88-93 | the router is closed if and only if some Stop has set the flag |
| RouterShutdown.NothingAfterStop | network/router.go:88-110 | once Stop returned, in every continuation nothing is dispatched, no handler starts, and traffic holds each connection that had a handler once: its Rx, and the Tx its handler read |
| RouterShutdown.AtMostOneMoreDispatch | network/router.go:194-218 | from the moment the flag is set, a handler dispatches at most the message it had already checked, and that one if any |
| RouterShutdown.RouterObject.RegisterConnection | network/router.go:234-249 | refused if and only if closed; an accepted address is known afterwards, and the call takes no address's connection away or changes it |
| RouterShutdown.RouterObject.LaunchHandleRoutine | network/router.go:251-262 | a handler is counted and started if and only if the router is open |
| RouterShutdown.RouterObject.FinishHandler | network/router.go:177-192 | the deferred function accounts Rx and Tx, releases and removes, in that order, and keeps the invariant |
| MessageRegistry.RegistryExactly | network/encoding.go:168-180 | over every history, a type comes back from its id if and only if the id was not given away after the type's last registration |
| MessageRegistry.RebindingLosesAType | network/encoding.go:168-173 | two registrations after which the first type is not decoded from its id |
| MessageRegistry.MarshalRoundTripExactly | network/encoding.go:96-129 | over every history, Unmarshal undoes Marshal for exactly those types |
| MessageRegistry.MarshalFailsExactly | network/encoding.go:96-114 | Marshal fails if and only if the type was never registered, and otherwise writes four bytes of its id and the encoding |
| MessageRegistry.TypeOfIdExactly | network/encoding.go:153-173 | an id is known if and only if it was registered, and leads to the type of its last registration |
| MessageRegistry.UnmarshalFailsExactly | network/encoding.go:116-129 | Unmarshal fails on a short buffer, an unknown id and a failed decode, and otherwise returns the decoded message of the type last registered for the id |
| MessageRegistry.UnregisteredIsMissing | network/encoding.go:175-180 | a type is found if and only if it was registered |
| MessageRegistry.IdRegistry.Register | network/encoding.go:133-173 | the two maps are the fold of the registrations |
| MessageRegistry.IdRegistry.GetId | network/encoding.go:175-180 | returns the current id of a registered type |
| EventDispatcher.SwapRemovesOne | event/event.go:64-66 | swap-with-last removal drops exactly one receiver and creates no duplicate |
| EventDispatcher.SimpleDispatcher.Register | event/event.go:33-43 | the subscriber set grows by the receiver, the list has no duplicates, other events are untouched |
| EventDispatcher.SimpleDispatcher.Unregister | event/event.go:45-67 | the subscriber set shrinks by the receiver, the list has no duplicates, other events are untouched |
| EventDispatcher.SimpleDispatcher.Publish | event/event.go:69-76 | every subscriber is called exactly once |

## Left out

- The distributed key generation and its share arithmetic (`client/dkg.go`): the mathematics is in a library.
- `Router.Send` and `Router.Broadcast` of `client/router.go`: `Send` never stores a new stream and `Broadcast` never counts replies, so neither keeps what its comment says; both are plumbing over the modelled stream.
- Noise internals, signatures and hashes: ideal functions. The exchange of the two handshake messages and its retries are not modelled, only the keys it leaves.
- Liveness and deadlock: a full queue blocks its sender, here a step that is not enabled; `Process` holding the relay's lock while it blocks is safe but may not progress.
- EventConnDown in the relay is a LEAVE pushed to each room; the pushes appear as separate queueing steps.
- The listener, host and address types, retries of connecting, sockets, timers, logging, configuration files, command line, GPG calls and generated protobuf code.
- GlobalBind and the identity's TOML form: parsing and formatting done by the standard library's net package and a TOML library, which are not part of this model.
- uint64 overflow of the local manager's `counter` and of the byte counters of `LocalConn`: both are unbounded here (the TCP and router counters do wrap).
- The live totals `Router.Tx` and `Router.Rx`: traffic is added before the entry is removed, so a connection may be counted twice in between; only the total at the end of Stop is proved.
- TcpConnObject.TcpConn.SendRaw: also allows Writes that take less than they are given without an error, which io.Writer rules out; since its loop need not end with them above 2^32 bytes, it is followed through a given number of Writes.
- LocalManagerObject: connections are values in a map keyed by their never reused endpoint, so aliasing of `*LocalConn` pointers is not represented.
- RouterShutdown: Stop also closes the registered connections, which makes receives fail; here a receive may return anything at any time.
- RouterShutdown: the endless loop of handleConn appears as steps, not as a method, because it need not terminate.
- RelayObjects and ReliableStreamObject: a method runs from its call to its return while the other goroutines it names act in between; the interleavings of whole objects are those of the step systems their histories belong to.
