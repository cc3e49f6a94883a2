/** What the relay promises in every run. */
module RelayTheorems {
  import opened Wrappers
  import opened RelayRooms
  import opened CommonTypes
  import opened RelayHistory
  import opened RelayInvariant
  import RelayContinuations
  import Demux

  // ----- Broadcast

  lemma {:induction false} CopyIsListed(log: seq<Entry>, k: nat)
    requires k < |log| && log[k].Egress?
    ensures log[k].to in Addresses(CopiesOf(log[k].source), log)
    decreases |log|
  {
    if k < |log| - 1 {
      CopyIsListed(log[..|log| - 1], k);
    }
  }

  /** The copy at k was made from a message of another member, and goes to a member then and now. */
  predicate CopyOfMember(log: seq<Entry>, k: nat)
    requires k < |log| && log[k].Egress?
  {
    var e := log[k];
    && e.source < k && log[e.source].Consumed?
    && log[e.source].room == e.room && log[e.source].blob == e.blob
    && log[e.source].from != e.to
    && log[e.source].from in Members(e.room, log[..e.source])
    && e.to in Members(e.room, log[..e.source])
    && e.to in Members(e.room, log[..k])
  }

  lemma ListedIsMember(listed: seq<Address>, rest: set<Address>, all: set<Address>, c: Address)
    requires multiset(listed) + multiset(rest) == multiset(all) && c in listed
    ensures c in all
  {
    assert multiset(listed)[c] > 0;
    assert multiset(all)[c] > 0;
  }

  lemma CopyOfRecipient(rooms: seq<Room>, log: seq<Entry>, k: nat)
    requires k < |log| && log[k].Egress? && EntrySound(rooms, log, k) && BroadcastExact(rooms, log, log[k].source)
    ensures CopyOfMember(log, k)
  {
    CopyIsListed(log, k);
    var source := log[k].source;
    ListedIsMember(Addresses(CopiesOf(source), log), PendingOf(rooms, log[source].room, source),
                   Recipients(log, source), log[k].to);
  }

  lemma EgressProvenance(events: seq<Event>, s: Relay, k: nat)
    requires Execute(events) == Some(s) && k < |s.log| && s.log[k].Egress?
    ensures CopyOfMember(s.log, k)
  {
    EveryRunKeeps(events, s);
    assert EntrySound(s.rooms, s.log, k);
    CopyOfRecipient(s.rooms, s.log, k);
  }

  /**
   A consumed message whose broadcast is over was sent exactly once to every
   other member of the moment, if its sender was a member, and to nobody otherwise.
   */
  lemma BroadcastOnce(events: seq<Event>, s: Relay, j: nat)
    requires Execute(events) == Some(s) && j < |s.log| && s.log[j].Consumed?
    requires PendingOf(s.rooms, s.log[j].room, j) == {}
    ensures var members := Members(s.log[j].room, s.log[..j]);
            multiset(Addresses(CopiesOf(j), s.log))
            == multiset(if s.log[j].from in members then members - {s.log[j].from} else {})
  {
    EveryRunKeeps(events, s);
    assert BroadcastExact(s.rooms, s.log, j);
  }

  // ----- Rooms

  /** Two workers that have not returned never serve the same id, and each is the one in the map. */
  lemma OneLiveWorkerPerRoom(events: seq<Event>, s: Relay, o: nat, p: nat)
    requires Execute(events) == Some(s) && o < |s.rooms| && p < |s.rooms|
    requires !s.rooms[o].phase.Gone? && !s.rooms[p].phase.Gone? && s.rooms[o].id == s.rooms[p].id
    ensures o == p && s.rooms[o].id in s.channels && s.channels[s.rooms[o].id] == o
  {
    EveryRunKeeps(events, s);
  }

  /** deleteChannel, by id, always removes the room of the worker that called it and nothing else. */
  lemma DeleteRemovesOwnRoom(events: seq<Event>, s: Relay, o: nat)
    requires Execute(events) == Some(s) && o < |s.rooms| && s.rooms[o].phase.Deleting?
    ensures s.rooms[o].id in s.channels && s.channels[s.rooms[o].id] == o
    ensures Next(s, WorkDelete(o)).channels == map id | id in s.channels && s.channels[id] != o :: s.channels[id]
  {
    EveryRunKeeps(events, s);
    OwnEntry(s, o);
  }

  lemma OwnEntry(s: Relay, o: nat)
    requires Owned(s) && Pointers(s) && o < |s.rooms| && s.rooms[o].phase.Deleting?
    ensures s.rooms[o].id in s.channels && s.channels[s.rooms[o].id] == o
    ensures Next(s, WorkDelete(o)).channels == map id | id in s.channels && s.channels[id] != o :: s.channels[id]
  {
  }

  lemma Capacities(events: seq<Event>, s: Relay, o: nat)
    requires Execute(events) == Some(s) && o < |s.rooms|
    ensures |s.rooms[o].clients| <= CHANNEL_SIZE && |s.channels| <= MAX_CHANNEL + 1
    ensures |s.rooms[o].join| <= CHANNEL_QUEUE_SIZE && |s.rooms[o].leave| <= CHANNEL_QUEUE_SIZE
    ensures |s.rooms[o].incoming| <= CHANNEL_QUEUE_SIZE
    ensures forall id :: Refuses(s, id) <==> id !in s.channels && |s.channels| == MAX_CHANNEL + 1
  {
    EveryRunKeeps(events, s);
  }

  /** Ids are at most k characters long, so a longer one is new. */
  predicate ShortIds(s: Relay, k: nat) {
    forall id :: id in s.channels ==> |id| <= k
  }

  /** Rooms can be opened one by one up to one more than MaxChannel. */
  lemma {:induction false} RoomsCanBeOpened(k: nat) returns (events: seq<Event>, s: Relay)
    requires k <= MAX_CHANNEL + 1
    ensures Execute(events) == Some(s) && |s.channels| == k && ShortIds(s, k)
    decreases k
  {
    if k == 0 {
      events, s := [], Empty;
    } else {
      var before, p := RoomsCanBeOpened(k - 1);
      var join := Process("a", seq(k, _ => 'r'), Join);
      events, s := before + [join], Next(p, join);
      assert events[..|before|] == before;
    }
  }

  /** The guard lets 51 rooms in, and refuses the next one. */
  lemma FiftyOneRooms() returns (events: seq<Event>, s: Relay, id: RoomId)
    ensures Execute(events) == Some(s) && |s.channels| == 51 && id != "" && Refuses(s, id)
  {
    events, s := RoomsCanBeOpened(MAX_CHANNEL + 1);
    id := seq(MAX_CHANNEL + 2, _ => 'r');
  }

  /** Short addresses, so that a longer one is new. */
  predicate ShortNames(clients: set<Address>, k: nat) {
    forall c :: c in clients ==> |c| <= k
  }

  lemma NewRoomOpens() returns (events: seq<Event>, s: Relay)
    ensures Execute(events) == Some(s) && At(s, 0) && s.rooms[0] == NewRoom("r")
  {
    var open := Process("a", "r", Other);
    RelayContinuations.Extend([], Empty, open);
    events, s := [] + [open], Next(Empty, open);
  }

  /** Clients can join one by one up to ChannelSize. */
  lemma {:induction false} ClientsCanJoin(k: nat) returns (events: seq<Event>, s: Relay)
    requires k <= CHANNEL_SIZE
    ensures Execute(events) == Some(s) && At(s, 0) && HasNoneWaiting(s.rooms[0])
    ensures |s.rooms[0].clients| == k && ShortNames(s.rooms[0].clients, k)
    decreases k
  {
    if k == 0 {
      events, s := NewRoomOpens();
    } else {
      var before, p := ClientsCanJoin(k - 1);
      var c := seq(k, _ => 'c');
      var q := RelayContinuations.QueueNext(before, p, 0, c, Join);
      s := RelayContinuations.JoinNext(before + [Process(c, p.rooms[0].id, Join)], q, 0);
      events := before + [Process(c, p.rooms[0].id, Join)] + [WorkJoin(0)];
    }
  }

  predicate HasNoneWaiting(room: Room) {
    room.join == [] && room.leave == []
  }

  /** A room takes 30 clients, and the 31st is refused. */
  lemma ThirtyClients() returns (events: seq<Event>, s: Relay, c: Address)
    ensures Execute(events) == Some(s) && At(s, 0) && |s.rooms[0].clients| == 30
    ensures s.rooms[0].join == [c] && Next(s, WorkJoin(0)).log == s.log + [Responded(0, s.rooms[0].id, c, false)]
  {
    var before, p := ClientsCanJoin(CHANNEL_SIZE);
    c := seq(CHANNEL_SIZE + 1, _ => 'c');
    s := RelayContinuations.QueueNext(before, p, 0, c, Join);
    events := before + [Process(c, p.rooms[0].id, Join)];
  }

  /** How many messages wait in the queue of a kind. */
  function Waiting(room: Room, kind: Kind): nat {
    match kind
    case Join => |room.join|
    case Leave => |room.leave|
    case Ingress(_) => |room.incoming|
    case Other => 0
  }

  lemma {:induction false} MessagesCanWait(kind: Kind, k: nat) returns (events: seq<Event>, s: Relay)
    requires k <= CHANNEL_QUEUE_SIZE && !kind.Other?
    ensures Execute(events) == Some(s) && At(s, 0) && Waiting(s.rooms[0], kind) == k
    decreases k
  {
    if k == 0 {
      events, s := NewRoomOpens();
    } else {
      var before, p := MessagesCanWait(kind, k - 1);
      s := RelayContinuations.QueueNext(before, p, 0, "c", kind);
      events := before + [Process("c", p.rooms[0].id, kind)];
    }
  }

  /** A queue takes 100 messages, and the next one blocks. */
  lemma HundredWaiting(kind: Kind) returns (events: seq<Event>, s: Relay)
    requires !kind.Other?
    ensures Execute(events) == Some(s) && At(s, 0) && Waiting(s.rooms[0], kind) == 100
    ensures !CanStep(s, Process("d", s.rooms[0].id, kind))
  {
    events, s := MessagesCanWait(kind, CHANNEL_QUEUE_SIZE);
    EveryRunKeeps(events, s);
    RelayContinuations.IdsAreNotEmpty(events, s, 0);
  }

  /** A room that served a leave and has no client left is being deleted or gone. */
  lemma EmptiedRoomRetires(events: seq<Event>, s: Relay, o: nat)
    requires Execute(events) == Some(s) && o < |s.rooms|
    requires s.rooms[o].clients == {} && |Addresses(LeaveDone(o), s.log)| > 0
    ensures s.rooms[o].phase.Deleting? || s.rooms[o].phase.Gone?
  {
    EveryRunKeeps(events, s);
    assert Faithful(s.rooms[o], s.log, o);
  }

  lemma StopHalts(s: Relay, o: nat, s': Relay)
    requires Owned(s) && Pointers(s) && o < |s.rooms| && !s.rooms[o].phase.Gone? && FlagsFaithful(s.rooms[o], s.log, o)
    requires s' == Next(s, Stop)
    ensures s'.channels == s.channels && o < |s'.rooms| && s'.rooms[o].done
    ensures s'.rooms[o].finished || s'.rooms[o].phase.Deleting?
  {
  }

  lemma FlagsOf(s: Relay, o: nat)
    requires Inv(s) && o < |s.rooms|
    ensures Owned(s) && FlagsFaithful(s.rooms[o], s.log, o)
  {
    assert Faithful(s.rooms[o], s.log, o);
  }

  /** After Stop, every worker that has not returned was told to, or is deleting its room. */
  lemma StopReachesEveryWorker(events: seq<Event>, s: Relay, o: nat, s': Relay)
    requires Execute(events) == Some(s) && o < |s.rooms| && !s.rooms[o].phase.Gone? && s' == Next(s, Stop)
    ensures s'.channels == s.channels && o < |s'.rooms| && s'.rooms[o].done
    ensures s'.rooms[o].finished || s'.rooms[o].phase.Deleting?
  {
    EveryRunKeeps(events, s);
    FlagsOf(s, o);
    StopHalts(s, o, s');
  }

  lemma {:induction false} RetiringIsDone(events: seq<Event>, s: Relay, o: nat)
    requires Execute(events) == Some(s) && o < |s.rooms| && s.rooms[o].phase.Deleting?
    ensures s.rooms[o].done
    decreases |events|
  {
    var front, last := events[..|events| - 1], events[|events| - 1];
    var before := Execute(front).value;
    RetiringStep(before, last, s, o);
    if o < |before.rooms| && before.rooms[o].phase.Deleting? {
      RetiringIsDone(front, before, o);
    }
  }

  lemma RetiringStep(s: Relay, event: Event, s': Relay, o: nat)
    requires Pointers(s) && CanStep(s, event) && s' == Next(s, event)
    requires o < |s'.rooms| && s'.rooms[o].phase.Deleting?
    ensures s'.rooms[o].done || (o < |s.rooms| && s.rooms[o].phase.Deleting? && !s.rooms[o].done)
  {
    match event
    case Process(from, id, kind) =>
      if id != "" && !Refuses(s, id) {
        var t := WithRoom(s, id);
        var p := t.channels[id];
        assert s'.rooms == t.rooms[p := Enqueue(t.rooms[p], from, kind)];
      }
    case Stop => assert s'.rooms[o].phase == s.rooms[o].phase;
    case _ => assert |s'.rooms| == |s.rooms|;
  }

  /** Stop does not touch a room that is deleting itself or was stopped before. */
  lemma StopSparesDone(events: seq<Event>, s: Relay, o: nat)
    requires Execute(events) == Some(s) && o < |s.rooms| && (s.rooms[o].phase.Deleting? || s.rooms[o].done)
    ensures |Next(s, Stop).rooms| == |s.rooms| && Next(s, Stop).rooms[o] == s.rooms[o]
  {
    if s.rooms[o].phase.Deleting? {
      RetiringIsDone(events, s, o);
    }
  }

  // ----- Joining

  /** Joins are answered once each, in the order they were queued; the rest still wait. */
  lemma JoinsAnsweredInOrder(events: seq<Event>, s: Relay, o: nat)
    requires Execute(events) == Some(s) && o < |s.rooms|
    ensures Addresses(JoinAsked(o), s.log) == Addresses(JoinAnswered(o), s.log) + s.rooms[o].join
    ensures Messages(false, o, s.log) == Messages(true, o, s.log) + s.rooms[o].incoming
    ensures Members(o, s.log) == s.rooms[o].clients
  {
    EveryRunKeeps(events, s);
    assert Faithful(s.rooms[o], s.log, o);
  }

  /** An answer is OK exactly when its address is a member afterwards, and a refusal means a full room. */
  lemma AnswerMeansMember(events: seq<Event>, s: Relay, k: nat)
    requires Execute(events) == Some(s) && k < |s.log| && s.log[k].Responded?
    ensures s.log[k].ok <==> s.log[k].to in Members(s.log[k].room, s.log[..k + 1])
    ensures !s.log[k].ok ==> |Members(s.log[k].room, s.log[..k])| == CHANNEL_SIZE
  {
    EveryRunKeeps(events, s);
    assert EntrySound(s.rooms, s.log, k);
    MembersStep(s.log, k, s.log[k].room);
  }

  lemma MembersStep(log: seq<Entry>, k: nat, o: nat)
    requires k < |log|
    ensures Members(o, log[..k + 1]) == MembersAfter(Members(o, log[..k]), o, log[k])
  {
    assert log[..k + 1][..k] == log[..k];
  }

  /** What the relay attempts to send to one address, in order. */
  function MessageTo(c: Address, e: Entry): seq<Demux.Message> {
    match e
    case Responded(_, id, to, ok) => if to == c then [Demux.JoinResponse(id, ok)] else []
    case Egress(_, id, to, blob, _) => if to == c then [Demux.EgressMessage(id, blob)] else []
    case Refused(to) => if to == c then [Demux.JoinResponse("", false)] else []
    case _ => []
  }

  function Outbox(c: Address, log: seq<Entry>): seq<Demux.Message> {
    if |log| == 0 then [] else Outbox(c, log[..|log| - 1]) + MessageTo(c, log[|log| - 1])
  }

  lemma OutboxAppend(c: Address, id: RoomId, log: seq<Entry>)
    requires |log| > 0
    ensures Demux.ForRoom(id, Outbox(c, log))
            == Demux.ForRoom(id, Outbox(c, log[..|log| - 1])) + Demux.ForRoom(id, MessageTo(c, log[|log| - 1]))
  {
    Demux.ForRoomConcat(id, Outbox(c, log[..|log| - 1]), MessageTo(c, log[|log| - 1]));
  }

  lemma {:induction false} AnswerIsDelivered(c: Address, id: RoomId, log: seq<Entry>, j: nat)
    requires j < |log| && log[j].Responded? && log[j].to == c && log[j].id == id
    ensures |Demux.ForRoom(id, Outbox(c, log))| > 0
    decreases |log|
  {
    OutboxAppend(c, id, log);
    if j < |log| - 1 {
      AnswerIsDelivered(c, id, log[..|log| - 1], j);
    } else {
      assert Demux.ForRoom(id, [Demux.JoinResponse(id, log[j].ok)]) == [Demux.JoinResponse(id, log[j].ok)];
    }
  }

  /** The address was added to a room of that id at some entry of the log. */
  predicate WasAdded(rooms: seq<Room>, log: seq<Entry>, c: Address, id: RoomId) {
    exists k :: 0 <= k < |log| && log[k].Responded? && log[k].to == c && log[k].id == id && log[k].ok
                && log[k].room < |rooms| && rooms[log[k].room].id == id
                && c in Members(log[k].room, log[..k + 1])
  }

  lemma SoundPrefix(rooms: seq<Room>, log: seq<Entry>)
    requires LogSound(rooms, log) && |log| > 0
    ensures LogSound(rooms, log[..|log| - 1])
  {
    var n := |log| - 1;
    forall k | 0 <= k < n ensures EntrySound(rooms, log[..n], k) {
      assert EntrySound(rooms, log, k);
      assert log[..n][..k] == log[..k];
    }
  }

  /** An address gets no copy before an answer of the same room. */
  lemma AnswerBeforeCopy(rooms: seq<Room>, log: seq<Entry>, c: Address)
    requires LogSound(rooms, log) && |log| > 0 && log[|log| - 1].Egress? && log[|log| - 1].to == c
    ensures |Demux.ForRoom(log[|log| - 1].id, Outbox(c, log[..|log| - 1]))| > 0
  {
    var n := |log| - 1;
    assert EntrySound(rooms, log, n);
    var j := MemberWasWelcomed(log[n].room, log[..n], c);
    assert EntrySound(rooms, log, j);
    AnswerIsDelivered(c, log[n].id, log[..n], j);
  }

  /**
   The first message an address ever gets about a room answers its join, and if
   that answer is OK the relay added the address.
   */
  lemma {:induction false} FirstMessageAnswers(rooms: seq<Room>, log: seq<Entry>, c: Address, id: RoomId)
    requires LogSound(rooms, log) && id != ""
    requires |Demux.ForRoom(id, Outbox(c, log))| > 0
    ensures Demux.ForRoom(id, Outbox(c, log))[0].JoinResponse?
    ensures Demux.ForRoom(id, Outbox(c, log))[0].ok ==> WasAdded(rooms, log, c, id)
    decreases |log|
  {
    var n := |log| - 1;
    var before := log[..n];
    SoundPrefix(rooms, log);
    OutboxAppend(c, id, log);
    if |Demux.ForRoom(id, Outbox(c, before))| > 0 {
      FirstMessageAnswers(rooms, before, c, id);
      if Demux.ForRoom(id, Outbox(c, log))[0].ok {
        AddedStays(rooms, log, c, id);
      }
    } else {
      if log[n].Egress? && log[n].to == c && log[n].id == id {
        AnswerBeforeCopy(rooms, log, c);
      }
      assert EntrySound(rooms, log, n);
      MembersStep(log, n, if log[n].Responded? then log[n].room else 0);
      assert log[..n + 1] == log;
    }
  }

  lemma AddedStays(rooms: seq<Room>, log: seq<Entry>, c: Address, id: RoomId)
    requires |log| > 0 && WasAdded(rooms, log[..|log| - 1], c, id)
    ensures WasAdded(rooms, log, c, id)
  {
    var n := |log| - 1;
    var k :| 0 <= k < n && log[..n][k].Responded? && log[..n][k].to == c && log[..n][k].id == id && log[..n][k].ok
             && log[..n][k].room < |rooms| && rooms[log[..n][k].room].id == id
             && c in Members(log[..n][k].room, log[..n][..k + 1]);
    assert log[..n][..k + 1] == log[..k + 1];
    assert log[k] == log[..n][k];
  }

  /** An OK answer among the messages to an address, first or not, means that the relay added it. */
  lemma {:induction false} OkMeansAdded(rooms: seq<Room>, log: seq<Entry>, c: Address, id: RoomId)
    requires LogSound(rooms, log) && id != "" && Demux.JoinResponse(id, true) in Outbox(c, log)
    ensures WasAdded(rooms, log, c, id)
    decreases |log|
  {
    var n := |log| - 1;
    SoundPrefix(rooms, log);
    if Demux.JoinResponse(id, true) in Outbox(c, log[..n]) {
      OkMeansAdded(rooms, log[..n], c, id);
      AddedStays(rooms, log, c, id);
    } else {
      assert EntrySound(rooms, log, n);
      MembersStep(log, n, log[n].room);
      assert log[..n + 1] == log;
    }
  }

  /**
   Over a FIFO link that delivered `got`, a join that returns nil, first of its
   room or not, means the relay had added the client to a room of that id.
   */
  lemma JoinNilMeansAdded(events: seq<Event>, s: Relay, c: Address, id: RoomId, got: seq<Demux.Message>)
    requires Execute(events) == Some(s) && id != "" && got <= Outbox(c, s.log)
    requires Demux.JoinResponse(id, true) in got
    ensures WasAdded(s.rooms, s.log, c, id)
  {
    EveryRunKeeps(events, s);
    OkMeansAdded(s.rooms, s.log, c, id);
  }

  // ----- Which JOIN an answer is for

  /** The answer at k is for the first JOIN of its room that no earlier answer was for. */
  predicate AnswersInTurn(log: seq<Entry>, k: nat)
    requires k < |log| && log[k].Responded?
  {
    var asked := Addresses(JoinAsked(log[k].room), log[..k]);
    var answered := Addresses(JoinAnswered(log[k].room), log[..k]);
    |answered| < |asked| && asked[..|answered|] == answered && asked[|answered|] == log[k].to
  }

  /** The step that wrote an entry of the log, and the run before it. */
  lemma {:induction false} StepThatLogged(events: seq<Event>, s: Relay, k: nat)
    returns (front: seq<Event>, before: Relay, event: Event)
    requires Execute(events) == Some(s) && k < |s.log|
    ensures Execute(front) == Some(before) && CanStep(before, event) && before.log == s.log[..k]
    ensures Next(before, event).log == s.log[..k + 1]
    decreases |events|
  {
    front := events[..|events| - 1];
    before, event := Execute(front).value, events[|events| - 1];
    RelayContinuations.LogGrows(before, event, s);
    if k < |before.log| {
      var shorter := before;
      front, before, event := StepThatLogged(front, shorter, k);
      assert shorter.log[..k] == s.log[..k] && shorter.log[..k + 1] == s.log[..k + 1];
    }
  }

  lemma OnlyJoinsAnswer(s: Relay, event: Event, s': Relay, k: nat)
    requires Pointers(s) && CanStep(s, event) && s' == Next(s, event) && k == |s.log| < |s'.log| && s'.log[k].Responded?
    ensures event.WorkJoin? && event.room == s'.log[k].room && s'.log[k].to == s.rooms[event.room].join[0]
  {
  }

  lemma EveryAnswerInTurn(events: seq<Event>, s: Relay, k: nat)
    requires Execute(events) == Some(s) && k < |s.log| && s.log[k].Responded?
    ensures AnswersInTurn(s.log, k)
  {
    var front, before, event := StepThatLogged(events, s, k);
    EveryRunKeeps(front, before);
    OnlyJoinsAnswer(before, event, Next(before, event), k);
    assert s.log[..k + 1][k] == s.log[k];
    assert Faithful(before.rooms[event.room], before.log, event.room);
  }

  /** The entry of the first message to an address about a room, if that is an OK answer. */
  lemma {:induction false} FirstAnswerAt(c: Address, id: RoomId, log: seq<Entry>) returns (k: nat)
    requires id != "" && Demux.JoinReturnsNil(Demux.ForRoom(id, Outbox(c, log)))
    ensures k < |log| && log[k].Responded? && log[k].to == c && log[k].id == id && log[k].ok
    ensures Demux.ForRoom(id, Outbox(c, log[..k])) == []
  {
    var n := |log| - 1;
    OutboxAppend(c, id, log);
    if |Demux.ForRoom(id, Outbox(c, log[..n]))| > 0 {
      k := FirstAnswerAt(c, id, log[..n]);
      assert log[..n][..k] == log[..k];
    } else {
      k := n;
    }
  }

  lemma {:induction false} AnsweredAt(o: nat, log: seq<Entry>, c: Address) returns (j: nat)
    requires c in Addresses(JoinAnswered(o), log)
    ensures j < |log| && log[j].Responded? && log[j].room == o && log[j].to == c
  {
    var n := |log| - 1;
    if log[n].Responded? && log[n].room == o && log[n].to == c {
      j := n;
    } else {
      j := AnsweredAt(o, log[..n], c);
    }
  }

  /** The entry answers a JOIN of its address, the first one that address queued in the room. */
  predicate AnswersFirstJoin(log: seq<Entry>, k: nat, c: Address, id: RoomId) {
    && k < |log| && log[k].Responded? && log[k].to == c && log[k].id == id && log[k].ok && AnswersInTurn(log, k)
    && c !in Addresses(JoinAnswered(log[k].room), log[..k])
  }

  /**
   When the first message an address ever gets about a room makes a join return
   nil, that is the answer to the first JOIN the address queued there.
   */
  lemma FirstNilAnswersFirstJoin(events: seq<Event>, s: Relay, c: Address, id: RoomId, got: seq<Demux.Message>)
    returns (k: nat)
    requires Execute(events) == Some(s) && id != "" && got <= Outbox(c, s.log)
    requires Demux.JoinReturnsNil(Demux.ForRoom(id, got))
    ensures AnswersFirstJoin(s.log, k, c, id)
  {
    EveryRunKeeps(events, s);
    var rest := Outbox(c, s.log)[|got|..];
    assert Outbox(c, s.log) == got + rest;
    Demux.ForRoomConcat(id, got, rest);
    k := FirstAnswerAt(c, id, s.log);
    EveryAnswerInTurn(events, s, k);
    assert EntrySound(s.rooms, s.log, k);
    var o := s.log[k].room;
    if c in Addresses(JoinAnswered(o), s.log[..k]) {
      var j := AnsweredAt(o, s.log[..k], c);
      assert EntrySound(s.rooms, s.log, j);
      AnswerIsDelivered(c, id, s.log[..k], j);
      assert false;
    }
  }
}
