/** The invariant of the relay, kept by every step of every interleaving. */
module RelayInvariant {
  import opened Wrappers
  import opened RelayRooms
  import opened CommonTypes
  import opened RelayHistory

  /** A worker that has not returned runs for exactly the room the map holds under its id. */
  predicate Owned(s: Relay) {
    && (forall id :: id in s.channels ==> s.channels[id] < |s.rooms| && s.rooms[s.channels[id]].id == id)
    && (forall o :: 0 <= o < |s.rooms| && !s.rooms[o].phase.Gone?
          ==> s.rooms[o].id in s.channels && s.channels[s.rooms[o].id] == o)
  }

  predicate RoomBounded(room: Room) {
    && |room.clients| <= CHANNEL_SIZE
    && |room.join| <= CHANNEL_QUEUE_SIZE && |room.leave| <= CHANNEL_QUEUE_SIZE && |room.incoming| <= CHANNEL_QUEUE_SIZE
  }

  predicate Bounded(s: Relay) {
    |s.channels| <= MAX_CHANNEL + 1 && forall o :: 0 <= o < |s.rooms| ==> RoomBounded(s.rooms[o])
  }

  /** Each queue holds exactly what was queued and not consumed, in order; clients agrees with the log. */
  predicate QueuesFaithful(room: Room, log: seq<Entry>, o: nat) {
    && Addresses(JoinAsked(o), log) == Addresses(JoinAnswered(o), log) + room.join
    && Addresses(LeaveAsked(o), log) == Addresses(LeaveDone(o), log) + room.leave
    && Messages(false, o, log) == Messages(true, o, log) + room.incoming
    && Members(o, log) == room.clients
  }

  /** A room that a leave emptied is on its way out; a room marked done has been told to finish, or is leaving. */
  predicate FlagsFaithful(room: Room, log: seq<Entry>, o: nat) {
    && (room.clients == {} && |Addresses(LeaveDone(o), log)| > 0 ==> room.phase.Deleting? || room.phase.Gone?)
    && (room.done ==> room.finished || room.phase.Deleting? || room.phase.Gone?)
  }

  predicate PhaseFaithful(room: Room, log: seq<Entry>, o: nat) {
    && (room.phase.Deleting? ==> room.clients == {})
    && (room.phase.Broadcasting? ==>
          var source := room.phase.source;
          && source < |log| && log[source].Consumed? && log[source].room == o && log[source].blob == room.phase.blob
          && Members(o, log[..source]) == room.clients
          && room.phase.pending <= room.clients - {log[source].from})
  }

  predicate Faithful(room: Room, log: seq<Entry>, o: nat) {
    QueuesFaithful(room, log, o) && FlagsFaithful(room, log, o) && PhaseFaithful(room, log, o)
  }

  predicate AllFaithful(s: Relay) {
    forall o :: 0 <= o < |s.rooms| ==> Faithful(s.rooms[o], s.log, o)
  }

  /**
   The channel field of a message names its room, a refusal means a full room
   without that client, and a copy follows its source, to a member of that moment.
   */
  predicate EntrySound(rooms: seq<Room>, log: seq<Entry>, k: nat)
    requires k < |log|
  {
    match log[k]
    case Responded(o, id, to, ok) =>
      && o < |rooms| && rooms[o].id == id
      && (!ok ==> to !in Members(o, log[..k]) && |Members(o, log[..k])| == CHANNEL_SIZE)
    case Egress(o, id, to, blob, source) =>
      && o < |rooms| && rooms[o].id == id
      && source < k && log[source].Consumed? && log[source].room == o && log[source].blob == blob
      && to in Members(o, log[..k])
    case Refused(_) => true
    case _ => log[k].room < |rooms|
  }

  predicate LogSound(rooms: seq<Room>, log: seq<Entry>) {
    forall k :: 0 <= k < |log| ==> EntrySound(rooms, log, k)
  }

  /** The recipients of a broadcast still waiting for their copy. */
  function PendingOf(rooms: seq<Room>, o: nat, source: nat): set<Address> {
    if o < |rooms| && rooms[o].phase.Broadcasting? && rooms[o].phase.source == source
    then rooms[o].phase.pending
    else {}
  }

  /** Copies sent and copies pending are, each exactly once, the recipients. */
  predicate BroadcastExact(rooms: seq<Room>, log: seq<Entry>, source: nat)
    requires source < |log| && log[source].Consumed?
  {
    multiset(Addresses(CopiesOf(source), log)) + multiset(PendingOf(rooms, log[source].room, source))
    == multiset(Recipients(log, source))
  }

  predicate Broadcasts(rooms: seq<Room>, log: seq<Entry>) {
    forall j :: 0 <= j < |log| && log[j].Consumed? ==> BroadcastExact(rooms, log, j)
  }

  predicate Inv(s: Relay) {
    Owned(s) && Bounded(s) && AllFaithful(s) && LogSound(s.rooms, s.log) && Broadcasts(s.rooms, s.log)
  }

  // ----- One room

  lemma OtherRoomKeeps(room: Room, log: seq<Entry>, o: nat, e: Entry)
    requires Faithful(room, log, o)
    requires !e.Refused? ==> e.room != o
    ensures Faithful(room, log + [e], o)
  {
    Appended(log, e);
    if room.phase.Broadcasting? {
      assert (log + [e])[..room.phase.source] == log[..room.phase.source];
    }
  }

  lemma PhaseKeeps(room: Room, log: seq<Entry>, o: nat, e: Entry)
    requires PhaseFaithful(room, log, o)
    ensures PhaseFaithful(room, log + [e], o)
  {
    if room.phase.Broadcasting? {
      assert (log + [e])[..room.phase.source] == log[..room.phase.source];
    }
  }

  lemma EnqueueKeeps(room: Room, log: seq<Entry>, o: nat, from: Address, kind: Kind)
    requires Faithful(room, log, o)
    ensures Faithful(Enqueue(room, from, kind), log + [Queued(o, from, kind)], o)
  {
    var e := Queued(o, from, kind);
    Appended(log, e);
    PhaseKeeps(room, log, o, e);
    match kind
    case Join =>
      assert Addresses(JoinAsked(o), log + [e]) == Addresses(JoinAnswered(o), log + [e]) + (room.join + [from]);
    case Leave =>
      assert Addresses(LeaveAsked(o), log + [e]) == Addresses(LeaveDone(o), log + [e]) + (room.leave + [from]);
    case Ingress(blob) =>
      assert Messages(false, o, log + [e]) == Messages(true, o, log + [e]) + (room.incoming + [(from, blob)]);
    case Other =>
  }

  lemma JoinKeeps(room: Room, log: seq<Entry>, o: nat)
    requires Faithful(room, log, o) && room.phase.Selecting? && |room.join| > 0
    ensures Faithful(Joined(room), log + [Responded(o, room.id, room.join[0], Admits(room.clients, room.join[0]))], o)
  {
    var e := Responded(o, room.id, room.join[0], Admits(room.clients, room.join[0]));
    Appended(log, e);
    assert Addresses(JoinAnswered(o), log) + room.join == Addresses(JoinAnswered(o), log + [e]) + room.join[1..];
  }

  lemma LeaveKeeps(room: Room, log: seq<Entry>, o: nat)
    requires Faithful(room, log, o) && room.phase.Selecting? && |room.leave| > 0
    ensures Faithful(Departed(room), log + [Left(o, room.leave[0])], o)
  {
    var e := Left(o, room.leave[0]);
    Appended(log, e);
    assert Addresses(LeaveDone(o), log) + room.leave == Addresses(LeaveDone(o), log + [e]) + room.leave[1..];
  }

  lemma IngressKeeps(room: Room, log: seq<Entry>, o: nat)
    requires Faithful(room, log, o) && room.phase.Selecting? && |room.incoming| > 0
    ensures Faithful(Ingested(room, |log|), log + [Consumed(o, room.incoming[0].0, room.incoming[0].1)], o)
  {
    var e := Consumed(o, room.incoming[0].0, room.incoming[0].1);
    Appended(log, e);
    assert Messages(true, o, log) + room.incoming == Messages(true, o, log + [e]) + room.incoming[1..];
    assert (log + [e])[..|log|] == log;
  }

  lemma SendKeeps(room: Room, log: seq<Entry>, o: nat, to: Address)
    requires Faithful(room, log, o) && room.phase.Broadcasting? && to in room.phase.pending
    ensures Faithful(SentOne(room, to), log + [Egress(o, room.id, to, room.phase.blob, room.phase.source)], o)
  {
    var e := Egress(o, room.id, to, room.phase.blob, room.phase.source);
    Appended(log, e);
    PhaseKeeps(room, log, o, e);
  }

  // ----- The whole relay

  predicate SameRooms(rooms: seq<Room>, rooms': seq<Room>) {
    |rooms| <= |rooms'| && forall o :: 0 <= o < |rooms| ==> rooms'[o].id == rooms[o].id
  }

  lemma SoundAppend(rooms: seq<Room>, rooms': seq<Room>, log: seq<Entry>, e: Entry)
    requires LogSound(rooms, log) && SameRooms(rooms, rooms') && EntrySound(rooms', log + [e], |log|)
    ensures LogSound(rooms', log + [e])
  {
    forall k | 0 <= k < |log| ensures EntrySound(rooms', log + [e], k) {
      assert EntrySound(rooms, log, k);
      assert (log + [e])[..k] == log[..k];
    }
  }

  lemma SoundSame(rooms: seq<Room>, rooms': seq<Room>, log: seq<Entry>)
    requires LogSound(rooms, log) && SameRooms(rooms, rooms')
    ensures LogSound(rooms', log)
  {
    forall k | 0 <= k < |log| ensures EntrySound(rooms', log, k) {
      assert EntrySound(rooms, log, k);
    }
  }

  lemma RecipientsFixed(log: seq<Entry>, e: Entry, j: nat)
    requires j < |log| && log[j].Consumed?
    ensures Recipients(log + [e], j) == Recipients(log, j)
  {
    assert (log + [e])[..j] == log[..j];
  }

  /** A broadcast that the entry and the room change do not concern. */
  lemma BroadcastUntouched(rooms: seq<Room>, rooms': seq<Room>, log: seq<Entry>, e: Entry, j: nat)
    requires j < |log| && log[j].Consumed? && BroadcastExact(rooms, log, j)
    requires PendingOf(rooms', log[j].room, j) == PendingOf(rooms, log[j].room, j)
    requires e.Egress? ==> e.source != j
    ensures BroadcastExact(rooms', log + [e], j)
  {
    RecipientsFixed(log, e, j);
    Appended(log, e);
    assert Addresses(CopiesOf(j), log + [e]) == Addresses(CopiesOf(j), log);
  }

  /** A step that neither starts a broadcast nor sends a copy. */
  lemma BroadcastsQuiet(rooms: seq<Room>, rooms': seq<Room>, log: seq<Entry>, e: Entry)
    requires Broadcasts(rooms, log) && !e.Consumed? && !e.Egress?
    requires forall o, j :: PendingOf(rooms', o, j) == PendingOf(rooms, o, j)
    ensures Broadcasts(rooms', log + [e])
  {
    forall j | 0 <= j < |log| && log[j].Consumed? ensures BroadcastExact(rooms', log + [e], j) {
      BroadcastUntouched(rooms, rooms', log, e, j);
    }
  }

  /** A consumed message starts with all its copies pending, or with none to send. */
  lemma BroadcastStarts(rooms: seq<Room>, log: seq<Entry>, o: nat, e: Entry)
    requires LogSound(rooms, log) && o < |rooms|
    requires Faithful(rooms[o], log, o) && rooms[o].phase.Selecting? && |rooms[o].incoming| > 0
    requires e == Consumed(o, rooms[o].incoming[0].0, rooms[o].incoming[0].1)
    ensures BroadcastExact(rooms[o := Ingested(rooms[o], |log|)], log + [e], |log|)
  {
    Appended(log, e);
    assert (log + [e])[..|log|] == log;
    forall k | 0 <= k < |log| && log[k].Egress? ensures log[k].source < k {
      assert EntrySound(rooms, log, k);
    }
    NoCopiesYet(log, |log|);
    assert PendingOf(rooms[o := Ingested(rooms[o], |log|)], o, |log|) == Recipients(log + [e], |log|);
  }

  lemma BroadcastsIngress(rooms: seq<Room>, log: seq<Entry>, o: nat, e: Entry)
    requires Broadcasts(rooms, log) && LogSound(rooms, log) && o < |rooms|
    requires Faithful(rooms[o], log, o) && rooms[o].phase.Selecting? && |rooms[o].incoming| > 0
    requires e == Consumed(o, rooms[o].incoming[0].0, rooms[o].incoming[0].1)
    ensures Broadcasts(rooms[o := Ingested(rooms[o], |log|)], log + [e])
  {
    var rooms' := rooms[o := Ingested(rooms[o], |log|)];
    forall j | 0 <= j < |log| && log[j].Consumed? ensures BroadcastExact(rooms', log + [e], j) {
      BroadcastUntouched(rooms, rooms', log, e, j);
    }
    BroadcastStarts(rooms, log, o, e);
  }

  /** One copy moves from pending to sent. */
  lemma BroadcastAdvances(rooms: seq<Room>, log: seq<Entry>, o: nat, to: Address, e: Entry)
    requires o < |rooms| && rooms[o].phase.Broadcasting? && to in rooms[o].phase.pending
    requires e == Egress(o, rooms[o].id, to, rooms[o].phase.blob, rooms[o].phase.source)
    requires e.source < |log| && log[e.source].Consumed? && log[e.source].room == o
    requires BroadcastExact(rooms, log, e.source)
    ensures BroadcastExact(rooms[o := SentOne(rooms[o], to)], log + [e], e.source)
  {
    var pending := rooms[o].phase.pending;
    Appended(log, e);
    RecipientsFixed(log, e, e.source);
    assert PendingOf(rooms[o := SentOne(rooms[o], to)], o, e.source) == pending - {to};
    assert multiset(pending) == multiset(pending - {to}) + multiset{to};
    var copies := Addresses(CopiesOf(e.source), log);
    assert multiset(copies + [to]) == multiset(copies) + multiset{to};
  }

  lemma BroadcastsSend(rooms: seq<Room>, log: seq<Entry>, o: nat, to: Address, e: Entry)
    requires Broadcasts(rooms, log) && o < |rooms| && PhaseFaithful(rooms[o], log, o)
    requires rooms[o].phase.Broadcasting? && to in rooms[o].phase.pending
    requires e == Egress(o, rooms[o].id, to, rooms[o].phase.blob, rooms[o].phase.source)
    ensures Broadcasts(rooms[o := SentOne(rooms[o], to)], log + [e])
  {
    var rooms' := rooms[o := SentOne(rooms[o], to)];
    forall j | 0 <= j < |log| && log[j].Consumed? ensures BroadcastExact(rooms', log + [e], j) {
      assert BroadcastExact(rooms, log, j);
      if j == e.source {
        BroadcastAdvances(rooms, log, o, to, e);
      } else {
        BroadcastUntouched(rooms, rooms', log, e, j);
      }
    }
  }

  /** What a step that rewrites one room owes about that room. */
  predicate RoomStep(room: Room, room': Room, log: seq<Entry>, o: nat, e: Entry) {
    && !e.Refused? && e.room == o
    && room'.id == room.id && room'.phase.Gone? == room.phase.Gone?
    && RoomBounded(room') && Faithful(room', log + [e], o)
  }

  lemma FaithfulRecord(s: Relay, o: nat, room: Room, e: Entry)
    requires AllFaithful(s) && o < |s.rooms| && RoomStep(s.rooms[o], room, s.log, o, e)
    ensures AllFaithful(Record(s, o, room, e))
  {
    var s' := Record(s, o, room, e);
    forall p | 0 <= p < |s'.rooms| ensures Faithful(s'.rooms[p], s'.log, p) {
      if p != o {
        OtherRoomKeeps(s.rooms[p], s.log, p, e);
      }
    }
  }

  lemma OwnedRecord(s: Relay, o: nat, room: Room, e: Entry)
    requires Owned(s) && Bounded(s) && o < |s.rooms| && RoomStep(s.rooms[o], room, s.log, o, e)
    ensures Owned(Record(s, o, room, e)) && Bounded(Record(s, o, room, e))
  {
  }

  lemma RecordKeeps(s: Relay, o: nat, room: Room, e: Entry)
    requires Inv(s) && o < |s.rooms| && RoomStep(s.rooms[o], room, s.log, o, e)
    requires EntrySound(s.rooms[o := room], s.log + [e], |s.log|)
    requires Broadcasts(s.rooms[o := room], s.log + [e])
    ensures Inv(Record(s, o, room, e))
  {
    OwnedRecord(s, o, room, e);
    FaithfulRecord(s, o, room, e);
    SoundAppend(s.rooms, s.rooms[o := room], s.log, e);
  }

  lemma Fewer(small: set<Address>, big: set<Address>)
    requires small <= big
    ensures |small| <= |big|
  {
    assert big == small + (big - small);
  }

  lemma JoinRoomStep(room: Room, log: seq<Entry>, o: nat, e: Entry)
    requires Faithful(room, log, o) && RoomBounded(room) && room.phase.Selecting? && |room.join| > 0
    requires e == Responded(o, room.id, room.join[0], Admits(room.clients, room.join[0]))
    ensures RoomStep(room, Joined(room), log, o, e)
  {
    JoinKeeps(room, log, o);
    if room.join[0] in room.clients {
      assert room.clients + {room.join[0]} == room.clients;
    }
  }

  lemma LeaveRoomStep(room: Room, log: seq<Entry>, o: nat, e: Entry)
    requires Faithful(room, log, o) && RoomBounded(room) && room.phase.Selecting? && |room.leave| > 0
    requires e == Left(o, room.leave[0])
    ensures RoomStep(room, Departed(room), log, o, e)
  {
    LeaveKeeps(room, log, o);
    Fewer(room.clients - {room.leave[0]}, room.clients);
  }

  /** A room that is not broadcasting before or after has nothing pending. */
  lemma NothingPending(rooms: seq<Room>, o: nat, room: Room)
    requires o < |rooms|
    requires rooms[o].phase == room.phase || (!rooms[o].phase.Broadcasting? && !room.phase.Broadcasting?)
    ensures forall p, j :: PendingOf(rooms[o := room], p, j) == PendingOf(rooms, p, j)
  {
  }

  /** A step that touches no broadcast. */
  lemma QuietStep(s: Relay, o: nat, room: Room, e: Entry)
    requires Inv(s) && o < |s.rooms| && RoomStep(s.rooms[o], room, s.log, o, e)
    requires s.rooms[o].phase == room.phase || (!s.rooms[o].phase.Broadcasting? && !room.phase.Broadcasting?)
    requires e.Queued? || e.Left? || e.Responded?
    requires EntrySound(s.rooms[o := room], s.log + [e], |s.log|)
    ensures Inv(Record(s, o, room, e))
  {
    NothingPending(s.rooms, o, room);
    BroadcastsQuiet(s.rooms, s.rooms[o := room], s.log, e);
    RecordKeeps(s, o, room, e);
  }

  lemma StepJoin(s: Relay, o: nat, e: Entry)
    requires Inv(s) && At(s, o) && |s.rooms[o].join| > 0
    requires e == Responded(o, s.rooms[o].id, s.rooms[o].join[0], Admits(s.rooms[o].clients, s.rooms[o].join[0]))
    ensures Inv(Record(s, o, Joined(s.rooms[o]), e))
  {
    JoinRoomStep(s.rooms[o], s.log, o, e);
    assert (s.log + [e])[..|s.log|] == s.log;
    QuietStep(s, o, Joined(s.rooms[o]), e);
  }

  lemma StepLeave(s: Relay, o: nat, e: Entry)
    requires Inv(s) && At(s, o) && |s.rooms[o].leave| > 0 && e == Left(o, s.rooms[o].leave[0])
    ensures Inv(Record(s, o, Departed(s.rooms[o]), e))
  {
    LeaveRoomStep(s.rooms[o], s.log, o, e);
    QuietStep(s, o, Departed(s.rooms[o]), e);
  }

  lemma StepIngress(s: Relay, o: nat, e: Entry)
    requires Inv(s) && At(s, o) && |s.rooms[o].incoming| > 0
    requires e == Consumed(o, s.rooms[o].incoming[0].0, s.rooms[o].incoming[0].1)
    ensures Inv(Record(s, o, Ingested(s.rooms[o], |s.log|), e))
  {
    IngressKeeps(s.rooms[o], s.log, o);
    BroadcastsIngress(s.rooms, s.log, o, e);
    RecordKeeps(s, o, Ingested(s.rooms[o], |s.log|), e);
  }

  lemma CopySound(rooms: seq<Room>, log: seq<Entry>, o: nat, to: Address, e: Entry)
    requires o < |rooms| && Faithful(rooms[o], log, o) && rooms[o].phase.Broadcasting? && to in rooms[o].phase.pending
    requires e == Egress(o, rooms[o].id, to, rooms[o].phase.blob, rooms[o].phase.source)
    ensures RoomBounded(rooms[o]) ==> RoomStep(rooms[o], SentOne(rooms[o], to), log, o, e)
    ensures EntrySound(rooms[o := SentOne(rooms[o], to)], log + [e], |log|)
  {
    SendKeeps(rooms[o], log, o, to);
    assert (log + [e])[..|log|] == log;
  }

  lemma StepSend(s: Relay, o: nat, to: Address, e: Entry)
    requires Inv(s) && o < |s.rooms| && s.rooms[o].phase.Broadcasting? && to in s.rooms[o].phase.pending
    requires e == Egress(o, s.rooms[o].id, to, s.rooms[o].phase.blob, s.rooms[o].phase.source)
    ensures Inv(Record(s, o, SentOne(s.rooms[o], to), e))
  {
    CopySound(s.rooms, s.log, o, to, e);
    BroadcastsSend(s.rooms, s.log, o, to, e);
    RecordKeeps(s, o, SentOne(s.rooms[o], to), e);
  }

  lemma SoundIsAboutRooms(rooms: seq<Room>, log: seq<Entry>)
    requires LogSound(rooms, log)
    ensures AboutRooms(|rooms|, log)
  {
    forall k | 0 <= k < |log| && !log[k].Refused? ensures log[k].room < |rooms| {
      assert EntrySound(rooms, log, k);
    }
  }

  lemma EmptyRoomFaithful(n: nat, log: seq<Entry>, id: RoomId)
    requires AboutRooms(n, log)
    ensures Faithful(NewRoom(id), log, n)
  {
    NoAddresses(n, log, JoinAsked(n));
    NoAddresses(n, log, JoinAnswered(n));
    NoAddresses(n, log, LeaveAsked(n));
    NoAddresses(n, log, LeaveDone(n));
    NoMessages(n, log, true, n);
    NoMessages(n, log, false, n);
    NoMembers(n, log, n);
  }

  lemma NewRoomFaithful(s: Relay, id: RoomId)
    requires AllFaithful(s) && AboutRooms(|s.rooms|, s.log)
    ensures AllFaithful(s.(rooms := s.rooms + [NewRoom(id)]))
  {
    EmptyRoomFaithful(|s.rooms|, s.log, id);
  }

  lemma NewRoomBroadcasts(rooms: seq<Room>, log: seq<Entry>, id: RoomId)
    requires Broadcasts(rooms, log)
    ensures Broadcasts(rooms + [NewRoom(id)], log)
  {
    forall j | 0 <= j < |log| && log[j].Consumed? ensures BroadcastExact(rooms + [NewRoom(id)], log, j) {
      assert BroadcastExact(rooms, log, j);
      assert PendingOf(rooms + [NewRoom(id)], log[j].room, j) == PendingOf(rooms, log[j].room, j);
    }
  }

  lemma NewRoomOwned(s: Relay, id: RoomId)
    requires Owned(s) && Bounded(s) && Pointers(s) && id !in s.channels && !Refuses(s, id)
    ensures Owned(WithRoom(s, id)) && Bounded(WithRoom(s, id))
  {
  }

  lemma WithRoomKeeps(s: Relay, id: RoomId)
    requires Inv(s) && Pointers(s) && !Refuses(s, id)
    ensures Inv(WithRoom(s, id))
  {
    if id !in s.channels {
      NewRoomOwned(s, id);
      SoundIsAboutRooms(s.rooms, s.log);
      NewRoomFaithful(s, id);
      NewRoomBroadcasts(s.rooms, s.log, id);
      SoundSame(s.rooms, s.rooms + [NewRoom(id)], s.log);
    }
  }

  lemma StepProcess(s: Relay, from: Address, id: RoomId, kind: Kind)
    requires Inv(s) && Pointers(s) && CanStep(s, Process(from, id, kind))
    ensures Inv(Next(s, Process(from, id, kind)))
  {
    if id != "" {
      if Refuses(s, id) {
        var e := Refused(from);
        forall o | 0 <= o < |s.rooms| ensures Faithful(s.rooms[o], s.log + [e], o) {
          OtherRoomKeeps(s.rooms[o], s.log, o, e);
        }
        SoundAppend(s.rooms, s.rooms, s.log, e);
        BroadcastsQuiet(s.rooms, s.rooms, s.log, e);
      } else {
        WithRoomKeeps(s, id);
        StepEnqueue(WithRoom(s, id), id, from, kind);
      }
    }
  }

  lemma StepEnqueue(s: Relay, id: RoomId, from: Address, kind: Kind)
    requires Inv(s) && id in s.channels && HasSpace(s.rooms[s.channels[id]], kind)
    ensures var o := s.channels[id]; Inv(Record(s, o, Enqueue(s.rooms[o], from, kind), Queued(o, from, kind)))
  {
    var o := s.channels[id];
    EnqueueKeeps(s.rooms[o], s.log, o, from, kind);
    QuietStep(s, o, Enqueue(s.rooms[o], from, kind), Queued(o, from, kind));
  }

  /** Only the flags differ, and a worker may have returned when it was not broadcasting. */
  predicate OnlyReturns(room: Room, room': Room) {
    && room'.(phase := Gone, done := true, finished := true) == room.(phase := Gone, done := true, finished := true)
    && (room'.phase == room.phase || (room'.phase.Gone? && !room.phase.Broadcasting?))
    && (room'.done ==> room.done || room'.finished) && (room.finished ==> room'.finished)
  }

  lemma ReturnedFaithful(room: Room, room': Room, log: seq<Entry>, o: nat)
    requires Faithful(room, log, o) && RoomBounded(room) && OnlyReturns(room, room')
    ensures Faithful(room', log, o) && RoomBounded(room') && room'.id == room.id
  {
  }

  lemma ReturnedBroadcasts(rooms: seq<Room>, rooms': seq<Room>, log: seq<Entry>)
    requires Broadcasts(rooms, log) && |rooms'| == |rooms|
    requires forall o :: 0 <= o < |rooms| ==> OnlyReturns(rooms[o], rooms'[o])
    ensures Broadcasts(rooms', log)
  {
    forall j | 0 <= j < |log| && log[j].Consumed? ensures BroadcastExact(rooms', log, j) {
      assert BroadcastExact(rooms, log, j);
      assert PendingOf(rooms', log[j].room, j) == PendingOf(rooms, log[j].room, j);
    }
  }

  /** Steps that leave the queues, the members, the broadcasts and the log alone. */
  lemma PhaseChangeKeeps(s: Relay, rooms: seq<Room>)
    requires Inv(s) && |rooms| == |s.rooms|
    requires forall o :: 0 <= o < |rooms| ==> OnlyReturns(s.rooms[o], rooms[o])
    ensures (forall o :: 0 <= o < |rooms| ==> Faithful(rooms[o], s.log, o) && RoomBounded(rooms[o]))
    ensures LogSound(rooms, s.log) && Broadcasts(rooms, s.log)
  {
    forall o | 0 <= o < |rooms|
      ensures Faithful(rooms[o], s.log, o) && RoomBounded(rooms[o]) && rooms[o].id == s.rooms[o].id
    {
      ReturnedFaithful(s.rooms[o], rooms[o], s.log, o);
    }
    SoundSame(s.rooms, rooms, s.log);
    ReturnedBroadcasts(s.rooms, rooms, s.log);
  }

  lemma FewerRooms(channels: map<RoomId, nat>, id: RoomId)
    ensures |channels - {id}| <= |channels|
  {
    assert (channels - {id}).Keys == channels.Keys - {id};
    Fewer((channels - {id}).Keys, channels.Keys);
  }

  /** deleteChannel removes the worker's own entry, so no other live worker loses its room. */
  lemma DeleteOwned(s: Relay, o: nat)
    requires Owned(s) && |s.channels| <= MAX_CHANNEL + 1 && Pointers(s) && o < |s.rooms| && s.rooms[o].phase.Deleting?
    ensures Owned(Next(s, WorkDelete(o))) && |Next(s, WorkDelete(o)).channels| <= MAX_CHANNEL + 1
  {
    FewerRooms(s.channels, s.rooms[o].id);
  }

  lemma OtherOwned(s: Relay, event: Event)
    requires Owned(s) && Pointers(s) && CanStep(s, event) && (event.WorkFinish? || event.Stop?)
    ensures Owned(Next(s, event))
  {
  }

  lemma OtherOnlyReturns(s: Relay, event: Event)
    requires Pointers(s) && CanStep(s, event) && (event.WorkFinish? || event.Stop? || event.WorkDelete?)
    ensures |Next(s, event).rooms| == |s.rooms| && Next(s, event).log == s.log
    ensures forall o :: 0 <= o < |s.rooms| ==> OnlyReturns(s.rooms[o], Next(s, event).rooms[o])
    ensures !event.WorkDelete? ==> Next(s, event).channels == s.channels
  {
  }

  lemma StepOther(s: Relay, event: Event)
    requires Inv(s) && Pointers(s) && CanStep(s, event) && (event.WorkFinish? || event.Stop? || event.WorkDelete?)
    ensures Inv(Next(s, event))
  {
    if event.WorkDelete? {
      DeleteOwned(s, event.room);
    } else {
      OtherOwned(s, event);
    }
    OtherOnlyReturns(s, event);
    PhaseChangeKeeps(s, Next(s, event).rooms);
  }

  lemma StepKeeps(s: Relay, event: Event)
    requires Inv(s) && Pointers(s) && CanStep(s, event)
    ensures Inv(Next(s, event))
  {
    match event
    case Process(from, id, kind) => StepProcess(s, from, id, kind);
    case WorkJoin(o) =>
      var room := s.rooms[o];
      StepJoin(s, o, Responded(o, room.id, room.join[0], Admits(room.clients, room.join[0])));
    case WorkLeave(o) => StepLeave(s, o, Left(o, s.rooms[o].leave[0]));
    case WorkIngress(o) => StepIngress(s, o, Consumed(o, s.rooms[o].incoming[0].0, s.rooms[o].incoming[0].1));
    case WorkSend(o, to) =>
      var room := s.rooms[o];
      StepSend(s, o, to, Egress(o, room.id, to, room.phase.blob, room.phase.source));
    case _ => StepOther(s, event);
  }

  lemma {:induction false} EveryRunKeeps(events: seq<Event>, s: Relay)
    requires Execute(events) == Some(s)
    ensures Inv(s)
    decreases |events|
  {
    if |events| > 0 {
      var before := Execute(events[..|events| - 1]).value;
      EveryRunKeeps(events[..|events| - 1], before);
      StepKeeps(before, events[|events| - 1]);
    }
  }
}
