/**
 How long an OK answer lasts. JOIN and LEAVE travel in separate queues, so a
 client's own messages can be served in another order than it sent them: a LEAVE
 sent before a JOIN may take effect after it.
 */
module RelayMembership {
  import opened Wrappers
  import opened CommonTypes
  import opened RelayRooms
  import opened RelayInvariant
  import opened RelayContinuations

  /** A continuation in which c sends no LEAVE for the room id. */
  predicate WithoutLeaveOf(events: seq<Event>, all: seq<Event>, id: RoomId, c: Address) {
    events <= all && forall i :: |events| <= i < |all| ==> all[i] != Process(c, id, Leave)
  }

  /** c is in the room's clients until it sends a LEAVE. */
  ghost predicate StaysMember(events: seq<Event>, s: Relay, o: nat, c: Address)
    requires o < |s.rooms|
  {
    forall all: seq<Event>, s': Relay ::
      WithoutLeaveOf(events, all, s.rooms[o].id, c) && Execute(all) == Some(s')
      ==> o < |s'.rooms| && c in s'.rooms[o].clients
  }

  /** c is a client that no waiting LEAVE can remove. */
  predicate Settled(room: Room, c: Address) {
    c in room.clients && (c !in room.leave || room.phase.Gone?)
  }

  // ----- A settled client stays

  lemma SettledRoom(room: Room, c: Address, room': Room)
    requires Settled(room, c) && room.phase.Selecting? && |room.leave| > 0 && room' == Departed(room)
    ensures Settled(room', c)
  {
  }

  lemma SettledStep(s: Relay, event: Event, s': Relay, o: nat, c: Address)
    requires Owned(s) && Pointers(s) && CanStep(s, event) && s' == Next(s, event) && o < |s.rooms|
    requires Settled(s.rooms[o], c) && event != Process(c, s.rooms[o].id, Leave)
    ensures o < |s'.rooms| && Settled(s'.rooms[o], c)
  {
    if event == WorkLeave(o) {
      SettledRoom(s.rooms[o], c, s'.rooms[o]);
    }
  }

  lemma {:induction false} SettledRun(events: seq<Event>, s: Relay, all: seq<Event>, s': Relay, o: nat, c: Address)
    requires Execute(events) == Some(s) && o < |s.rooms| && Settled(s.rooms[o], c)
    requires WithoutLeaveOf(events, all, s.rooms[o].id, c) && Execute(all) == Some(s')
    ensures o < |s'.rooms| && Settled(s'.rooms[o], c)
    decreases |all|
  {
    if |all| == |events| {
      assert all == events;
    } else {
      var front := all[..|all| - 1];
      var mid := Execute(front).value;
      SettledRun(events, s, front, mid, o, c);
      RunGrows(events, s, front, mid);
      EveryRunKeeps(front, mid);
      SettledStep(mid, all[|all| - 1], s', o, c);
    }
  }

  // ----- Any other client can be removed by a LEAVE it sent earlier

  lemma {:induction false} ServeOwnLeave(events: seq<Event>, s: Relay, o: nat, c: Address)
    returns (all: seq<Event>, s': Relay)
    requires Execute(events) == Some(s) && At(s, o) && c in s.rooms[o].clients && c in s.rooms[o].leave
    ensures WithoutLeaveOf(events, all, s.rooms[o].id, c) && Execute(all) == Some(s')
    ensures o < |s'.rooms| && c !in s'.rooms[o].clients
    decreases |s.rooms[o].leave|
  {
    var t := LeaveNext(events, s, o);
    all, s' := events + [WorkLeave(o)], t;
    if s.rooms[o].leave[0] != c {
      assert c in t.rooms[o].clients;
      all, s' := ServeOwnLeave(all, t, o, c);
    }
  }

  lemma NotRetired(events: seq<Event>, s: Relay, o: nat, c: Address)
    requires Execute(events) == Some(s) && o < |s.rooms| && c in s.rooms[o].clients && !s.rooms[o].phase.Gone?
    ensures !Retired(s.rooms[o])
  {
    EveryRunKeeps(events, s);
    assert Faithful(s.rooms[o], s.log, o);
  }

  /** A client stays until its next LEAVE exactly when none of its earlier ones is still to be served. */
  lemma StaysMemberExactly(events: seq<Event>, s: Relay, o: nat, c: Address)
    requires Execute(events) == Some(s) && o < |s.rooms| && c in s.rooms[o].clients
    ensures StaysMember(events, s, o, c) <==> c !in s.rooms[o].leave || s.rooms[o].phase.Gone?
  {
    if Settled(s.rooms[o], c) {
      forall all: seq<Event>, s': Relay | WithoutLeaveOf(events, all, s.rooms[o].id, c) && Execute(all) == Some(s')
        ensures o < |s'.rooms| && c in s'.rooms[o].clients
      {
        SettledRun(events, s, all, s', o, c);
      }
    } else {
      NotRetired(events, s, o, c);
      var idle, t := FinishBroadcast(events, s, o);
      var all, s' := ServeOwnLeave(idle, t, o, c);
      forall i | |events| <= i < |all| ensures all[i] != Process(c, s.rooms[o].id, Leave) {
        if i < |idle| {
          assert idle[i] == all[i];
        }
      }
    }
  }

  /** An OK answer means membership until the next LEAVE exactly when none was waiting as it was given. */
  lemma OkLastsExactly(events: seq<Event>, s: Relay, o: nat, s': Relay)
    requires Execute(events) == Some(s) && At(s, o) && |s.rooms[o].join| > 0
    requires Admits(s.rooms[o].clients, s.rooms[o].join[0]) && s' == Next(s, WorkJoin(o))
    ensures Execute(events + [WorkJoin(o)]) == Some(s') && o < |s'.rooms|
    ensures StaysMember(events + [WorkJoin(o)], s', o, s.rooms[o].join[0]) <==> s.rooms[o].join[0] !in s.rooms[o].leave
  {
    var t := JoinNext(events, s, o);
    StaysMemberExactly(events + [WorkJoin(o)], s', o, s.rooms[o].join[0]);
  }

  /** From any idle room: c leaves, joins, is told OK, and ends up outside with nothing left to serve. */
  lemma LeaveUndoesLaterJoin(events: seq<Event>, s: Relay, o: nat, c: Address)
    returns (all: seq<Event>, t: Relay, s': Relay)
    requires Execute(events) == Some(s) && At(s, o) && s.rooms[o].join == s.rooms[o].leave == []
    requires Admits(s.rooms[o].clients, c)
    ensures all == events + [Process(c, s.rooms[o].id, Leave)] + [Process(c, s.rooms[o].id, Join)] + [WorkJoin(o)]
    ensures Execute(all) == Some(t) && o < |t.rooms| && c in t.rooms[o].clients && t.rooms[o].join == []
    ensures Execute(all + [WorkLeave(o)]) == Some(s') && o < |s'.rooms|
    ensures c !in s'.rooms[o].clients && s'.rooms[o].join == s'.rooms[o].leave == []
  {
    var id := s.rooms[o].id;
    var q := QueueNext(events, s, o, c, Leave);
    var r := QueueNext(events + [Process(c, id, Leave)], q, o, c, Join);
    all := events + [Process(c, id, Leave)] + [Process(c, id, Join)];
    t := JoinNext(all, r, o);
    all := all + [WorkJoin(o)];
    s' := LeaveNext(all, t, o);
  }

  /** Such a room is reachable. */
  lemma IdleRoom() returns (s: Relay)
    ensures Execute([Process("b", "r", Join)] + [WorkJoin(0)]) == Some(s) && At(s, 0)
    ensures s.rooms[0] == NewRoom("r").(clients := {"b"})
  {
    var enter := Process("b", "r", Join);
    Extend([], Empty, enter);
    assert [] + [enter] == [enter];
    s := JoinNext([enter], Next(Empty, enter), 0);
  }
}
