/** What can still happen to a room: runs that extend a given one, step by step. */
module RelayContinuations {
  import opened Wrappers
  import opened CommonTypes
  import opened RelayRooms
  import opened RelayHistory
  import opened RelayInvariant

  /** The worker has stopped serving its queues. */
  predicate Retired(room: Room) {
    room.phase.Deleting? || room.phase.Gone?
  }

  function Answered(s: Relay, o: nat): seq<Address> {
    Addresses(JoinAnswered(o), s.log)
  }

  lemma Extend(events: seq<Event>, s: Relay, event: Event)
    requires Execute(events) == Some(s) && CanStep(s, event)
    ensures Execute(events + [event]) == Some(Next(s, event))
  {
    assert (events + [event])[..|events|] == events;
  }

  // ----- The log only grows

  lemma LogGrows(s: Relay, event: Event, s': Relay)
    requires Pointers(s) && CanStep(s, event) && s' == Next(s, event)
    ensures s'.log == s.log || (|s'.log| == |s.log| + 1 && s'.log == s.log + [s'.log[|s.log|]])
    ensures |s.rooms| <= |s'.rooms| && forall o :: 0 <= o < |s.rooms| ==> s'.rooms[o].id == s.rooms[o].id
  {
  }

  lemma {:induction false} RunGrows(events: seq<Event>, s: Relay, all: seq<Event>, s': Relay)
    requires Execute(events) == Some(s) && events <= all && Execute(all) == Some(s')
    ensures s.log <= s'.log && |s.rooms| <= |s'.rooms|
    ensures forall o :: 0 <= o < |s.rooms| ==> s'.rooms[o].id == s.rooms[o].id
    decreases |all|
  {
    if |all| == |events| {
      assert all == events;
    } else {
      var front := all[..|all| - 1];
      var mid := Execute(front).value;
      RunGrows(events, s, front, mid);
      LogGrows(mid, all[|all| - 1], s');
    }
  }

  lemma {:induction false} AddressesGrow(topic: Topic, log: seq<Entry>, more: seq<Entry>)
    requires log <= more
    ensures Addresses(topic, log) <= Addresses(topic, more)
    decreases |more|
  {
    if |log| == |more| {
      assert log == more;
    } else {
      AddressesGrow(topic, log, more[..|more| - 1]);
    }
  }

  /** No room is ever created without an id. */
  lemma {:induction false} IdsAreNotEmpty(events: seq<Event>, s: Relay, o: nat)
    requires Execute(events) == Some(s) && o < |s.rooms|
    ensures s.rooms[o].id != ""
    decreases |events|
  {
    var before := Execute(events[..|events| - 1]).value;
    if o < |before.rooms| {
      IdsAreNotEmpty(events[..|events| - 1], before, o);
      LogGrows(before, events[|events| - 1], s);
    }
  }

  // ----- Steps of a worker, as extensions of a run

  lemma LoopNeverIdle(s: Relay, event: Event, o: nat)
    requires Pointers(s) && CanStep(s, event) && o < |Next(s, event).rooms|
    requires Next(s, event).rooms[o].phase.Broadcasting?
    ensures Next(s, event).rooms[o].phase.pending != {}
            || (o < |s.rooms| && s.rooms[o].phase == Next(s, event).rooms[o].phase)
  {
  }

  /** A broadcasting worker has somebody left to send to. */
  lemma {:induction false} NeverIdleBroadcast(events: seq<Event>, s: Relay, o: nat)
    requires Execute(events) == Some(s) && o < |s.rooms| && s.rooms[o].phase.Broadcasting?
    ensures s.rooms[o].phase.pending != {}
    decreases |events|
  {
    var before := Execute(events[..|events| - 1]).value;
    LoopNeverIdle(before, events[|events| - 1], o);
    if o < |before.rooms| && before.rooms[o].phase == s.rooms[o].phase {
      NeverIdleBroadcast(events[..|events| - 1], before, o);
    }
  }

  lemma SendNext(events: seq<Event>, s: Relay, o: nat, to: Address) returns (t: Relay)
    requires Execute(events) == Some(s) && o < |s.rooms| && s.rooms[o].phase.Broadcasting?
    requires to in s.rooms[o].phase.pending
    ensures Execute(events + [WorkSend(o, to)]) == Some(t)
    ensures |t.rooms| == |s.rooms| && t.rooms[o] == SentOne(s.rooms[o], to) && Answered(t, o) == Answered(s, o)
  {
    Extend(events, s, WorkSend(o, to));
    t := Next(s, WorkSend(o, to));
    Appended(s.log, t.log[|s.log|]);
  }

  /** The events beyond a run are all the worker's own sends. */
  predicate OnlySends(events: seq<Event>, all: seq<Event>) {
    events <= all && forall i :: |events| <= i < |all| ==> all[i].WorkSend?
  }

  /** A worker can finish its broadcast without touching anything else of its room. */
  lemma {:induction false} FinishBroadcast(events: seq<Event>, s: Relay, o: nat) returns (all: seq<Event>, s': Relay)
    requires Execute(events) == Some(s) && o < |s.rooms| && !Retired(s.rooms[o])
    ensures OnlySends(events, all) && Execute(all) == Some(s')
    ensures o < |s'.rooms| && s'.rooms[o] == s.rooms[o].(phase := Selecting) && Answered(s', o) == Answered(s, o)
    decreases if s.rooms[o].phase.Broadcasting? then |s.rooms[o].phase.pending| else 0
  {
    if s.rooms[o].phase.Selecting? {
      all, s' := events, s;
    } else {
      NeverIdleBroadcast(events, s, o);
      var to :| to in s.rooms[o].phase.pending;
      var mid := SendNext(events, s, o, to);
      all, s' := FinishBroadcast(events + [WorkSend(o, to)], mid, o);
    }
  }

  lemma JoinNext(events: seq<Event>, s: Relay, o: nat) returns (t: Relay)
    requires Execute(events) == Some(s) && At(s, o) && |s.rooms[o].join| > 0
    ensures Execute(events + [WorkJoin(o)]) == Some(t)
    ensures |t.rooms| == |s.rooms| && t.rooms[o] == Joined(s.rooms[o]) && |Answered(t, o)| == |Answered(s, o)| + 1
  {
    Extend(events, s, WorkJoin(o));
    t := Next(s, WorkJoin(o));
    Appended(s.log, t.log[|s.log|]);
  }

  lemma LeaveNext(events: seq<Event>, s: Relay, o: nat) returns (t: Relay)
    requires Execute(events) == Some(s) && At(s, o) && |s.rooms[o].leave| > 0
    ensures Execute(events + [WorkLeave(o)]) == Some(t)
    ensures |t.rooms| == |s.rooms| && t.rooms[o] == Departed(s.rooms[o]) && Answered(t, o) == Answered(s, o)
  {
    Extend(events, s, WorkLeave(o));
    t := Next(s, WorkLeave(o));
    Appended(s.log, t.log[|s.log|]);
  }

  /** A message can be queued for a room that serves and has space for it. */
  lemma QueueNext(events: seq<Event>, s: Relay, o: nat, from: Address, kind: Kind) returns (t: Relay)
    requires Execute(events) == Some(s) && At(s, o) && HasSpace(s.rooms[o], kind)
    ensures Execute(events + [Process(from, s.rooms[o].id, kind)]) == Some(t)
    ensures |t.rooms| == |s.rooms| && t.rooms[o] == Enqueue(s.rooms[o], from, kind) && Answered(t, o) == Answered(s, o)
  {
    EveryRunKeeps(events, s);
    IdsAreNotEmpty(events, s, o);
    t := QueueStep(s, o, from, kind);
    Extend(events, s, Process(from, s.rooms[o].id, kind));
  }

  lemma QueueStep(s: Relay, o: nat, from: Address, kind: Kind) returns (t: Relay)
    requires Owned(s) && Pointers(s) && At(s, o) && HasSpace(s.rooms[o], kind) && s.rooms[o].id != ""
    ensures CanStep(s, Process(from, s.rooms[o].id, kind)) && t == Next(s, Process(from, s.rooms[o].id, kind))
    ensures |t.rooms| == |s.rooms| && t.rooms[o] == Enqueue(s.rooms[o], from, kind) && Answered(t, o) == Answered(s, o)
  {
    t := Next(s, Process(from, s.rooms[o].id, kind));
    Appended(s.log, t.log[|s.log|]);
  }
}
