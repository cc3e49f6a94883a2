/**
 The `channel` and `Relay` objects of relay/relay.go, updated in place. A server
 keeps the steps of `RelayRooms` its methods have taken as a history, and `Valid`
 says that its room objects and its map are in the state that history leads to;
 so the theorems about every run hold of the objects.
 */
module RelayObjects {
  import opened Wrappers
  import opened CommonTypes
  import opened RelayRooms
  import opened RelayInvariant
  import opened RelayContinuations
  import RelayTheorems

  class Channel {
    const id: RoomId
    ghost const number: nat   // how many rooms were created before this one
    var join: seq<Address>
    var leave: seq<Address>
    var incoming: seq<(Address, Bytes)>
    var clients: set<Address>
    var done: bool
    var finishedClosed: bool
    ghost var phase: Phase

    ghost function View(): Room
      reads this
    {
      Room(id, join, leave, incoming, clients, phase, done, finishedClosed)
    }

    constructor (id: RoomId, ghost number: nat)
      ensures this.id == id && this.number == number && View() == NewRoom(id)
    {
      this.id, this.number := id, number;
      join, leave, incoming, clients, done, finishedClosed := [], [], [], {}, false, false;
      phase := Selecting;
    }

    /** newMessage; a full queue blocks the caller. */
    method NewMessage(from: Address, kind: Kind)
      requires HasSpace(View(), kind)
      modifies this
      ensures View() == Enqueue(old(View()), from, kind)
    {
      match kind {
        case Join => join := join + [from];
        case Leave => leave := leave + [from];
        case Ingress(blob) => incoming := incoming + [(from, blob)];
        case Other =>
      }
    }

    /** addClient */
    method AddClient(client: Address) returns (ok: bool)
      modifies this`clients
      ensures ok == Admits(old(clients), client) && ok == (client in clients)
      ensures clients == if ok then old(clients) + {client} else old(clients)
    {
      if client in clients {
        ok := true;
        assert clients + {client} == clients;
      } else if |clients| < CHANNEL_SIZE {
        clients := clients + {client};
        ok := true;
      } else {
        ok := false;
      }
    }

    method Stop()
      modifies this`done, this`finishedClosed
      ensures View() == Halted(old(View()))
    {
      if done {
        return;
      }
      done := true;
      finishedClosed := true;
    }
  }

  /** The three ways Process can go. */
  predicate Processed(s: Relay, from: Address, id: RoomId, kind: Kind, t: Relay)
    requires Pointers(s)
  {
    if id == "" then t == s
    else if Refuses(s, id) then t == s.(log := s.log + [Refused(from)])
    else Delivery(s, from, id, kind, t)
  }

  /** The message is in the queue of the room, which is new if there was none. */
  predicate Delivery(s: Relay, from: Address, id: RoomId, kind: Kind, t: Relay)
    requires Pointers(s)
  {
    var found := WithRoom(s, id);
    var o := found.channels[id];
    HasSpace(found.rooms[o], kind) && t == Record(found, o, Enqueue(found.rooms[o], from, kind), Queued(o, from, kind))
  }

  lemma ProcessNext(events: seq<Event>, s: Relay, from: Address, id: RoomId, kind: Kind) returns (t: Relay)
    requires Execute(events) == Some(s) && CanStep(s, Process(from, id, kind))
    ensures Execute(events + [Process(from, id, kind)]) == Some(t) && Processed(s, from, id, kind, t)
  {
    Extend(events, s, Process(from, id, kind));
    t := Next(s, Process(from, id, kind));
  }

  lemma SameSize<A, B>(m: map<RoomId, A>, n: map<RoomId, B>)
    requires m.Keys == n.Keys
    ensures |m| == |n|
  {
    assert |m| == |m.Keys| && |n| == |n.Keys|;
  }

  /** In the middle of Stop, which has still to visit `ids`: rooms already visited are halted. */
  predicate Stopping(s: Relay, now: Relay, ids: set<RoomId>) {
    && |now.rooms| == |s.rooms| && now.channels == s.channels && now.log == s.log
    && forall o :: 0 <= o < |s.rooms| ==>
         now.rooms[o] == if s.rooms[o].id in ids then s.rooms[o] else HaltAll(s).rooms[o]
  }

  lemma StopOneMore(s: Relay, now: Relay, ids: set<RoomId>, id: RoomId, o: nat)
    requires Owned(s) && Stopping(s, now, ids) && id in ids && id in s.channels && o == s.channels[id]
    ensures o < |now.rooms| && Stopping(s, now.(rooms := now.rooms[o := Halted(now.rooms[o])]), ids - {id})
  {
  }

  lemma StopDone(s: Relay, now: Relay)
    requires Stopping(s, now, {})
    ensures now == HaltAll(s)
  {
  }

  /** The steps of a broadcast that sent these copies. */
  function Sends(o: nat, copies: seq<Address>): seq<Event> {
    seq(|copies|, i requires 0 <= i < |copies| => WorkSend(o, copies[i]))
  }

  lemma OneCopyLess(rest: set<Address>, c: Address)
    requires c in rest
    ensures multiset(rest) == multiset(rest - {c}) + multiset{c}
  {
  }

  lemma DeleteNext(events: seq<Event>, s: Relay, o: nat) returns (t: Relay)
    requires Execute(events) == Some(s) && o < |s.rooms| && s.rooms[o].phase.Deleting?
    ensures Execute(events + [WorkDelete(o)]) == Some(t)
    ensures t == s.(rooms := s.rooms[o := s.rooms[o].(phase := Gone)], channels := s.channels - {s.rooms[o].id})
    ensures s.rooms[o].id in s.channels && s.channels[s.rooms[o].id] == o
    ensures forall id :: id in t.channels ==> t.channels[id] != o
  {
    RelayTheorems.DeleteRemovesOwnRoom(events, s, o);
    Extend(events, s, WorkDelete(o));
    t := Next(s, WorkDelete(o));
  }

  datatype Outcome = Ignored | TooMany | Delivered

  class RelayServer {
    var channels: map<RoomId, Channel>
    ghost var all: seq<Channel>      // every room ever created, in order
    ghost var history: seq<Event>    // the steps taken so far
    ghost var state: Relay           // where they lead

    /** Room objects are numbered as they were created, and hold what the state says. */
    ghost predicate Rooms()
      reads this, all
    {
      && |state.rooms| == |all|
      && forall i :: 0 <= i < |all| ==> all[i].number == i && all[i].View() == state.rooms[i]
    }

    ghost predicate Map()
      reads this
    {
      && state.channels.Keys == channels.Keys
      && forall id :: id in channels ==> state.channels[id] < |all| && all[state.channels[id]] == channels[id]
    }

    ghost predicate Valid()
      reads this, all
    {
      Rooms() && Map() && Execute(history) == Some(state)
    }

    constructor ()
      ensures Valid() && state == Empty && history == []
    {
      channels, all, history, state := map[], [], [], Empty;
    }

    /** The state follows the update of one room. */
    ghost method Follow(room: Channel, entry: Entry)
      requires room.number < |all| == |state.rooms| && all[room.number] == room && Map()
      requires forall i :: 0 <= i < |all| && i != room.number ==> all[i].number == i && all[i].View() == state.rooms[i]
      modifies this`state
      ensures Rooms() && Map() && state == Record(old(state), room.number, room.View(), entry)
    {
      state := Record(state, room.number, room.View(), entry);
    }

    /** The lookup of Process, which creates a missing room. */
    method FindRoom(id: RoomId) returns (room: Channel)
      requires Rooms() && Map() && Pointers(state)
      modifies this`channels, this`all, this`state
      ensures Rooms() && Map() && state == WithRoom(old(state), id)
      ensures id in channels && channels[id] == room && (room in old(channels.Values) || fresh(room))
    {
      if id in channels {
        return channels[id];
      }
      room := new Channel(id, |all|);
      channels := channels[id := room];
      all := all + [room];
      state := WithRoom(state, id);
    }

    /** The room is found or created, and gets the message. */
    method Deliver(from: Address, id: RoomId, kind: Kind, ghost next: Relay)
      requires Rooms() && Map() && Pointers(state) && Delivery(state, from, id, kind, next)
      modifies this`channels, this`all, this`state, channels.Values
      ensures Rooms() && Map() && state == next
    {
      var room := FindRoom(id);
      room.NewMessage(from, kind);
      Follow(room, Queued(room.number, from, kind));
    }

    /** What Process does to the rooms; `next` is the state its step leads to. */
    method Dispatch(from: Address, id: RoomId, kind: Kind, ghost next: Relay) returns (outcome: Outcome)
      requires Rooms() && Map() && Pointers(state) && Processed(state, from, id, kind, next)
      modifies this`channels, this`all, this`state, channels.Values
      ensures Rooms() && Map() && state == next
      ensures outcome.Ignored? <==> id == ""
      ensures outcome.TooMany? <==> id != "" && id !in old(channels) && |old(channels)| > MAX_CHANNEL
    {
      SameSize(channels, state.channels);
      if id == "" {
        return Ignored;
      }
      if id !in channels && |channels| > MAX_CHANNEL {
        state := next;
        return TooMany;
      }
      Deliver(from, id, kind, next);
      outcome := Delivered;
    }

    method Process(from: Address, id: RoomId, kind: Kind) returns (outcome: Outcome)
      requires Valid() && CanStep(state, Event.Process(from, id, kind))
      modifies this, channels.Values
      ensures Valid() && history == old(history) + [Event.Process(from, id, kind)]
      ensures outcome.Ignored? <==> id == ""
      ensures outcome.TooMany? <==> id != "" && id !in old(channels) && |old(channels)| > MAX_CHANNEL
    {
      ghost var next := ProcessNext(history, state, from, id, kind);
      outcome := Dispatch(from, id, kind, next);
      history := history + [Event.Process(from, id, kind)];
    }

    ghost predicate Holds(room: Channel)
      reads this
    {
      room.number < |all| && all[room.number] == room
    }

    /** The join case of process(). */
    method ServeJoin(room: Channel) returns (to: Address, ok: bool)
      requires Valid() && Holds(room) && room.phase.Selecting? && |room.join| > 0
      modifies room, this`state, this`history
      ensures Valid() && history == old(history) + [WorkJoin(room.number)]
      ensures to == old(room.join)[0] && (ok <==> to in room.clients)
    {
      Extend(history, state, WorkJoin(room.number));
      to := room.join[0];
      room.join := room.join[1..];
      ok := room.AddClient(to);
      Follow(room, Responded(room.number, room.id, to, ok));
      history := history + [WorkJoin(room.number)];
    }

    /** The leave case; `last` tells the worker to delete the room and return. */
    method ServeLeave(room: Channel) returns (last: bool)
      requires Valid() && Holds(room) && room.phase.Selecting? && |room.leave| > 0
      modifies room, this`state, this`history
      ensures Valid() && history == old(history) + [WorkLeave(room.number)]
      ensures last <==> room.clients == {}
      ensures last ==> room.phase.Deleting?
    {
      Extend(history, state, WorkLeave(room.number));
      var addr := room.leave[0];
      room.leave, room.clients := room.leave[1..], room.clients - {addr};
      last := |room.clients| == 0;
      if last {
        room.done := true;
        room.phase := Deleting;
      }
      Follow(room, Left(room.number, addr));
      history := history + [WorkLeave(room.number)];
    }

    /** The incoming case takes a message; a member's message is to be copied to the others. */
    method TakeIncoming(room: Channel) returns (from: Address, blob: Bytes)
      requires Valid() && Holds(room) && room.phase.Selecting? && |room.incoming| > 0
      modifies room`incoming, room`phase, this`state, this`history
      ensures Valid() && history == old(history) + [WorkIngress(room.number)] && (from, blob) == old(room.incoming)[0]
      ensures from in room.clients ==> room.phase == Loop(|old(state).log|, blob, room.clients - {from})
      ensures from !in room.clients ==> room.phase == Selecting
    {
      Extend(history, state, WorkIngress(room.number));
      from, blob := room.incoming[0].0, room.incoming[0].1;
      room.incoming := room.incoming[1..];
      if from in room.clients {
        room.phase := Loop(|state.log|, blob, room.clients - {from});
      }
      Follow(room, Consumed(room.number, from, blob));
      history := history + [WorkIngress(room.number)];
    }

    /** One pass through the loop of a broadcast hands a copy to the router. */
    ghost method SendCopy(room: Channel, to: Address)
      requires Valid() && Holds(room) && room.phase.Broadcasting? && to in room.phase.pending
      modifies room`phase, this`state, this`history
      ensures Valid() && history == old(history) + [WorkSend(room.number, to)]
      ensures room.phase == Loop(old(room.phase).source, old(room.phase).blob, old(room.phase).pending - {to})
    {
      var phase := room.phase;
      Extend(history, state, WorkSend(room.number, to));
      room.phase := Loop(phase.source, phase.blob, phase.pending - {to});
      Follow(room, Egress(room.number, room.id, to, phase.blob, phase.source));
      history := history + [WorkSend(room.number, to)];
    }

    /**
     The incoming case: one copy of the blob goes to each other client, in the
     order of the loop, and none for a stranger's message.
     */
    method ServeIncoming(room: Channel) returns (copies: seq<Address>, blob: Bytes)
      requires Valid() && Holds(room) && room.phase.Selecting? && |room.incoming| > 0
      modifies room`incoming, room`phase, this`state, this`history
      ensures Valid() && history == old(history) + [WorkIngress(room.number)] + Sends(room.number, copies)
      ensures room.phase.Selecting? && blob == old(room.incoming)[0].1
      ensures var from := old(room.incoming)[0].0;
              multiset(copies) == multiset(if from in room.clients then room.clients - {from} else {})
    {
      copies := [];
      var from;
      from, blob := TakeIncoming(room);
      if from !in room.clients {
        return;
      }
      var rest := room.clients;
      while rest != {}
        invariant Valid() && rest <= room.clients && room.phase == Loop(|old(state).log|, blob, rest - {from})
        invariant history == old(history) + [WorkIngress(room.number)] + Sends(room.number, copies)
        invariant multiset(copies) + multiset(rest - {from}) == multiset(room.clients - {from})
        decreases rest
      {
        var c :| c in rest;
        if c == from {
          assert rest - {c} - {from} == rest - {from};
        } else {
          OneCopyLess(rest - {from}, c);
          assert rest - {c} - {from} == rest - {from} - {c};
          SendCopy(room, c);
          copies := copies + [c];
        }
        rest := rest - {c};
      }
    }

    /** The worker of a room returns. */
    ghost method Returned(room: Channel, next: Relay)
      requires Rooms() && Holds(room) && room.number < |state.rooms|
      requires next.rooms == state.rooms[room.number := state.rooms[room.number].(phase := Gone)]
      modifies this`state, room`phase
      ensures Rooms() && room.phase.Gone? && state == next
    {
      room.phase := Gone;
      state := next;
    }

    /** deleteChannel, called by the worker of `room`: the entry was its own, and it had no other. */
    method DeleteChannel(id: RoomId, ghost room: Channel)
      requires Valid() && Holds(room) && room.phase.Deleting? && room.id == id
      modifies this`channels, this`state, this`history, room`phase
      ensures Valid() && history == old(history) + [WorkDelete(room.number)] && room.phase.Gone?
      ensures id in old(channels) && old(channels)[id] == room && channels == old(channels) - {id}
      ensures forall k :: k in channels ==> channels[k] != room
    {
      ghost var next := DeleteNext(history, state, room.number);
      assert channels[id] == room;
      channels := channels - {id};
      Returned(room, next);
      history := history + [WorkDelete(room.number)];
    }

    /** The finished case of process(): the worker returns, and the map keeps the room. */
    ghost method Finish(room: Channel)
      requires Valid() && Holds(room) && room.phase.Selecting? && room.finishedClosed
      modifies this`state, this`history, room`phase
      ensures Valid() && history == old(history) + [WorkFinish(room.number)] && room.phase.Gone?
    {
      Extend(history, state, WorkFinish(room.number));
      Returned(room, Next(state, WorkFinish(room.number)));
      history := history + [WorkFinish(room.number)];
    }

    method StopOne(id: RoomId, ghost o: nat)
      requires Rooms() && Map() && id in channels && o == state.channels[id]
      modifies this`state, channels[id]
      ensures Rooms() && Map() && o < |old(state).rooms|
      ensures state == old(state).(rooms := old(state).rooms[o := Halted(old(state).rooms[o])])
    {
      channels[id].Stop();
      state := state.(rooms := state.rooms[o := Halted(state.rooms[o])]);
    }

    /** The loop of Stop: every room in the map is stopped, in any order. */
    method StopRooms()
      requires Rooms() && Map() && Owned(state)
      modifies this`state, all
      ensures Rooms() && Map() && state == HaltAll(old(state))
    {
      ghost var s := state;
      var ids := channels.Keys;
      while ids != {}
        invariant ids <= channels.Keys && Rooms() && Map() && Stopping(s, state, ids)
        decreases ids
      {
        var id :| id in ids;
        ghost var o := state.channels[id];
        StopOneMore(s, state, ids, id, o);
        StopOne(id, o);
        ids := ids - {id};
      }
      StopDone(s, state);
    }

    method Stop()
      requires Valid()
      modifies this`state, this`history, all
      ensures Valid() && history == old(history) + [Event.Stop]
    {
      EveryRunKeeps(history, state);
      Extend(history, state, Event.Stop);
      StopRooms();
      history := history + [Event.Stop];
    }
  }
  /** A worker that has not returned runs for the object the map holds, so there is one for an id. */
  lemma OneObjectPerRoom(relay: RelayServer, room: Channel, other: Channel)
    requires relay.Valid() && relay.Holds(room) && relay.Holds(other)
    requires room.id == other.id && !room.phase.Gone? && !other.phase.Gone?
    ensures room == other && room.id in relay.channels && relay.channels[room.id] == room
  {
    RelayTheorems.OneLiveWorkerPerRoom(relay.history, relay.state, room.number, other.number);
  }

  /** What the rooms sent, the objects sent: every copy has a source and a member as recipient. */
  lemma CopiesHaveSources(relay: RelayServer, k: nat)
    requires relay.Valid() && k < |relay.state.log| && relay.state.log[k].Egress?
    ensures RelayTheorems.CopyOfMember(relay.state.log, k)
  {
    RelayTheorems.EgressProvenance(relay.history, relay.state, k);
  }
}
