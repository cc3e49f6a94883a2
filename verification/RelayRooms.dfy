/**
 The relay (relay/relay.go) as a step system: `Process` and `deleteChannel` run
 under the relay's mutex, and every room has a worker that selects among its
 queues. Rooms are numbered in the order they were created, so the number stands
 for the `*channel` pointer. The log records, in the order they happened, the
 messages queued, the messages consumed and every attempt to send.
 */
module RelayRooms {
  import opened Wrappers
  import opened CommonTypes

  const CHANNEL_QUEUE_SIZE: nat := 100
  const CHANNEL_SIZE: nat := 30
  const MAX_CHANNEL: nat := 50

  datatype Kind = Join | Leave | Ingress(blob: Bytes) | Other

  datatype Phase =
    | Selecting                                                     // at the select of process()
    | Broadcasting(source: nat, blob: Bytes, pending: set<Address>) // in the loop over clients
    | Deleting                                                      // setDone() done, deleteChannel() not yet
    | Gone                                                          // the worker returned

  datatype Room = Room(
    id: RoomId,
    join: seq<Address>,
    leave: seq<Address>,
    incoming: seq<(Address, Bytes)>,
    clients: set<Address>,
    phase: Phase,
    done: bool,
    finished: bool   // the `finished` channel is closed
  )

  datatype Entry =
    | Queued(room: nat, from: Address, kind: Kind)
    | Responded(room: nat, id: RoomId, to: Address, ok: bool)
    | Left(room: nat, who: Address)
    | Consumed(room: nat, from: Address, blob: Bytes)
    | Egress(room: nat, id: RoomId, to: Address, blob: Bytes, source: nat)
    | Refused(to: Address)

  datatype Relay = Relay(rooms: seq<Room>, channels: map<RoomId, nat>, log: seq<Entry>)

  datatype Event =
    | Process(from: Address, id: RoomId, kind: Kind)
    | WorkJoin(room: nat)
    | WorkLeave(room: nat)
    | WorkIngress(room: nat)
    | WorkSend(room: nat, to: Address)
    | WorkDelete(room: nat)
    | WorkFinish(room: nat)
    | Stop

  function NewRoom(id: RoomId): Room {
    Room(id, [], [], [], {}, Selecting, false, false)
  }

  /** Every entry of the map is a room that exists. */
  predicate Pointers(s: Relay) {
    forall id :: id in s.channels ==> s.channels[id] < |s.rooms|
  }

  // ----- Process

  predicate Refuses(s: Relay, id: RoomId) {
    id !in s.channels && |s.channels| > MAX_CHANNEL
  }

  /** Look the room up, creating it when it is missing. */
  function WithRoom(s: Relay, id: RoomId): (s': Relay)
    requires Pointers(s)
    ensures Pointers(s') && id in s'.channels
  {
    if id in s.channels then s
    else s.(rooms := s.rooms + [NewRoom(id)], channels := s.channels[id := |s.rooms|])
  }

  predicate HasSpace(room: Room, kind: Kind) {
    match kind
    case Join => |room.join| < CHANNEL_QUEUE_SIZE
    case Leave => |room.leave| < CHANNEL_QUEUE_SIZE
    case Ingress(_) => |room.incoming| < CHANNEL_QUEUE_SIZE
    case Other => true
  }

  /** newMessage */
  function Enqueue(room: Room, from: Address, kind: Kind): Room {
    match kind
    case Join => room.(join := room.join + [from])
    case Leave => room.(leave := room.leave + [from])
    case Ingress(blob) => room.(incoming := room.incoming + [(from, blob)])
    case Other => room
  }

  /** Replace one room and append one log entry: what every queue or worker step does. */
  function Record(s: Relay, o: nat, room: Room, entry: Entry): Relay
    requires o < |s.rooms|
  {
    s.(rooms := s.rooms[o := room], log := s.log + [entry])
  }

  // ----- The worker of a room

  /** addClient: does the room hold the client afterwards? */
  predicate Admits(clients: set<Address>, client: Address) {
    client in clients || |clients| < CHANNEL_SIZE
  }

  function Joined(room: Room): Room
    requires |room.join| > 0
  {
    var client := room.join[0];
    room.(join := room.join[1..],
          clients := if Admits(room.clients, client) then room.clients + {client} else room.clients)
  }

  function Departed(room: Room): Room
    requires |room.leave| > 0
  {
    var rest := room.(leave := room.leave[1..], clients := room.clients - {room.leave[0]});
    if rest.clients == {} then rest.(phase := Deleting, done := true) else rest
  }

  function Loop(source: nat, blob: Bytes, pending: set<Address>): Phase {
    if pending == {} then Selecting else Broadcasting(source, blob, pending)
  }

  function Ingested(room: Room, source: nat): Room
    requires |room.incoming| > 0
  {
    var (from, blob) := room.incoming[0];
    var rest := room.(incoming := room.incoming[1..]);
    if from in room.clients then rest.(phase := Loop(source, blob, room.clients - {from})) else rest
  }

  function SentOne(room: Room, to: Address): Room
    requires room.phase.Broadcasting?
  {
    room.(phase := Loop(room.phase.source, room.phase.blob, room.phase.pending - {to}))
  }

  /** channel.stop on a room found in the map. */
  function Halted(room: Room): Room {
    if room.done then room else room.(done := true, finished := true)
  }

  function HaltAll(s: Relay): Relay {
    s.(rooms := seq(|s.rooms|, o requires 0 <= o < |s.rooms| =>
         if s.rooms[o].id in s.channels && s.channels[s.rooms[o].id] == o then Halted(s.rooms[o]) else s.rooms[o]))
  }

  predicate At(s: Relay, o: nat) {
    o < |s.rooms| && s.rooms[o].phase.Selecting?
  }

  predicate CanStep(s: Relay, event: Event)
    requires Pointers(s)
  {
    match event
    case Process(_, id, kind) =>
      id == "" || Refuses(s, id) || HasSpace(WithRoom(s, id).rooms[WithRoom(s, id).channels[id]], kind)
    case WorkJoin(o) => At(s, o) && |s.rooms[o].join| > 0
    case WorkLeave(o) => At(s, o) && |s.rooms[o].leave| > 0
    case WorkIngress(o) => At(s, o) && |s.rooms[o].incoming| > 0
    case WorkSend(o, to) =>
      o < |s.rooms| && s.rooms[o].phase.Broadcasting? && to in s.rooms[o].phase.pending
    case WorkDelete(o) => o < |s.rooms| && s.rooms[o].phase.Deleting?
    case WorkFinish(o) => At(s, o) && s.rooms[o].finished
    case Stop => true
  }

  function Next(s: Relay, event: Event): (s': Relay)
    requires Pointers(s) && CanStep(s, event)
    ensures Pointers(s')
  {
    match event
    case Process(from, id, kind) =>
      if id == "" then s
      else if Refuses(s, id) then s.(log := s.log + [Refused(from)])
      else
        var t := WithRoom(s, id);
        var o := t.channels[id];
        Record(t, o, Enqueue(t.rooms[o], from, kind), Queued(o, from, kind))
    case WorkJoin(o) =>
      var room, client := s.rooms[o], s.rooms[o].join[0];
      Record(s, o, Joined(room), Responded(o, room.id, client, Admits(room.clients, client)))
    case WorkLeave(o) =>
      Record(s, o, Departed(s.rooms[o]), Left(o, s.rooms[o].leave[0]))
    case WorkIngress(o) =>
      var (from, blob) := s.rooms[o].incoming[0];
      Record(s, o, Ingested(s.rooms[o], |s.log|), Consumed(o, from, blob))
    case WorkSend(o, to) =>
      var room := s.rooms[o];
      Record(s, o, SentOne(room, to), Egress(o, room.id, to, room.phase.blob, room.phase.source))
    case WorkDelete(o) =>
      s.(rooms := s.rooms[o := s.rooms[o].(phase := Gone)], channels := s.channels - {s.rooms[o].id})
    case WorkFinish(o) =>
      s.(rooms := s.rooms[o := s.rooms[o].(phase := Gone)])
    case Stop => HaltAll(s)
  }

  const Empty: Relay := Relay([], map[], [])

  function Execute(events: seq<Event>): (r: Option<Relay>)
    ensures r.Some? ==> Pointers(r.value)
    decreases |events|
  {
    if |events| == 0 then Some(Empty)
    else
      var last := events[|events| - 1];
      match Execute(events[..|events| - 1])
      case None => None
      case Some(s) => if CanStep(s, last) then Some(Next(s, last)) else None
  }
}
