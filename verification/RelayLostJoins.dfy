/**
 When a queued JOIN is lost. A worker chooses freely among its queues, so a
 LEAVE that empties the room may be served before a JOIN that was queued
 earlier; from then on nothing in the room is answered. These theorems say
 exactly which joins can be answered at all, and exactly which ones stay
 answerable whatever happens next.
 */
module RelayLostJoins {
  import opened Wrappers
  import opened CommonTypes
  import opened RelayRooms
  import opened RelayHistory
  import opened RelayInvariant
  import opened RelayContinuations
  import RelayTheorems

  // ----- A room that retired answers nothing

  lemma RetiredRoom(s: Relay, event: Event, s': Relay, o: nat)
    requires Pointers(s) && CanStep(s, event) && s' == Next(s, event) && o < |s.rooms| && Retired(s.rooms[o])
    ensures o < |s'.rooms| && Retired(s'.rooms[o])
  {
  }

  lemma RetiredLog(s: Relay, event: Event, s': Relay, o: nat)
    requires Pointers(s) && CanStep(s, event) && s' == Next(s, event) && o < |s.rooms| && Retired(s.rooms[o])
    ensures s'.log == s.log || (|s'.log| == |s.log| + 1 && s'.log == s.log + [s'.log[|s.log|]]
                                && AddressIn(JoinAnswered(o), s'.log[|s.log|]) == [])
  {
  }

  lemma RetiredStep(s: Relay, event: Event, s': Relay, o: nat)
    requires Pointers(s) && CanStep(s, event) && s' == Next(s, event) && o < |s.rooms| && Retired(s.rooms[o])
    ensures o < |s'.rooms| && Retired(s'.rooms[o]) && Answered(s', o) == Answered(s, o)
  {
    RetiredRoom(s, event, s', o);
    RetiredLog(s, event, s', o);
    if s'.log != s.log {
      Appended(s.log, s'.log[|s.log|]);
    }
  }

  lemma {:induction false} RetiredForGood(events: seq<Event>, s: Relay, all: seq<Event>, s': Relay, o: nat)
    requires Execute(events) == Some(s) && o < |s.rooms| && Retired(s.rooms[o])
    requires events <= all && Execute(all) == Some(s')
    ensures o < |s'.rooms| && Retired(s'.rooms[o]) && Answered(s', o) == Answered(s, o)
    decreases |all|
  {
    if |all| == |events| {
      assert all == events;
    } else {
      var front := all[..|all| - 1];
      var mid := Execute(front).value;
      RetiredForGood(events, s, front, mid, o);
      RetiredStep(mid, all[|all| - 1], s', o);
    }
  }

  // ----- A room that serves can answer everything in its queue

  lemma AnswerOne(events: seq<Event>, s: Relay, o: nat) returns (all: seq<Event>, s': Relay)
    requires Execute(events) == Some(s) && o < |s.rooms| && !Retired(s.rooms[o]) && |s.rooms[o].join| > 0
    ensures events <= all && Execute(all) == Some(s') && |Answered(s', o)| == |Answered(s, o)| + 1
    ensures o < |s'.rooms| && !Retired(s'.rooms[o]) && |s'.rooms[o].join| == |s.rooms[o].join| - 1
  {
    var idle, t := FinishBroadcast(events, s, o);
    s' := JoinNext(idle, t, o);
    all := idle + [WorkJoin(o)];
  }

  lemma {:induction false} AnswerMany(events: seq<Event>, s: Relay, o: nat, k: nat) returns (all: seq<Event>, s': Relay)
    requires Execute(events) == Some(s) && o < |s.rooms| && !Retired(s.rooms[o]) && k <= |s.rooms[o].join|
    ensures events <= all && Execute(all) == Some(s') && |Answered(s', o)| == |Answered(s, o)| + k
    decreases k
  {
    if k == 0 {
      all, s' := events, s;
    } else {
      var more, t := AnswerOne(events, s, o);
      all, s' := AnswerMany(more, t, o, k - 1);
    }
  }

  /** Some continuation answers at least `count` joins of the room. */
  ghost predicate CanReach(events: seq<Event>, o: nat, count: nat) {
    exists all: seq<Event>, s': Relay ::
      events <= all && Execute(all) == Some(s') && |Answered(s', o)| >= count
  }

  /** Join number j of the queue can be answered exactly while the worker serves. */
  lemma AnswerableExactlyWhileServing(events: seq<Event>, s: Relay, o: nat, j: nat)
    requires Execute(events) == Some(s) && o < |s.rooms| && j < |s.rooms[o].join|
    ensures CanReach(events, o, |Answered(s, o)| + j + 1) <==> !Retired(s.rooms[o])
  {
    if Retired(s.rooms[o]) {
      forall all: seq<Event>, s': Relay | events <= all && Execute(all) == Some(s')
        ensures Answered(s', o) == Answered(s, o)
      {
        RetiredForGood(events, s, all, s', o);
      }
    } else {
      var all, s' := AnswerMany(events, s, o, j + 1);
    }
  }

  // ----- Staying answerable

  /** What may happen next: leaves of the room come from `leavers` only, and Stop only if `mayStop`. */
  predicate Allowed(event: Event, id: RoomId, leavers: set<Address>, mayStop: bool) {
    && (event.Stop? ==> mayStop)
    && (event.Process? && event.id == id && event.kind.Leave? ==> event.from in leavers)
  }

  predicate AllowedRun(events: seq<Event>, all: seq<Event>, id: RoomId, leavers: set<Address>, mayStop: bool) {
    events <= all && forall i :: |events| <= i < |all| ==> Allowed(all[i], id, leavers, mayStop)
  }

  /** Join number j of the queue stays answerable in every allowed continuation. */
  ghost predicate NeverLost(events: seq<Event>, s: Relay, o: nat, j: nat, leavers: set<Address>, mayStop: bool)
    requires o < |s.rooms|
  {
    forall all: seq<Event>, s': Relay ::
      AllowedRun(events, all, s.rooms[o].id, leavers, mayStop) && Execute(all) == Some(s')
      ==> CanReach(all, o, |Answered(s, o)| + j + 1)
  }

  /** Some client will never leave, or nobody will. */
  predicate Anchored(room: Room, leavers: set<Address>) {
    (exists c :: c in room.clients && c !in leavers && c !in room.leave) || (room.leave == [] && leavers == {})
  }

  predicate Safe(room: Room, leavers: set<Address>, mayStop: bool) {
    !Retired(room) && !room.finished && !mayStop && Anchored(room, leavers)
  }

  lemma SafeRoom(room: Room, leavers: set<Address>, room': Room)
    requires Safe(room, leavers, false) && room.phase.Selecting? && |room.leave| > 0 && room' == Departed(room)
    ensures Safe(room', leavers, false)
  {
    var c :| c in room.clients && c !in leavers && c !in room.leave;
    assert c in room'.clients && c !in room'.leave;
  }

  lemma SafeEnqueue(room: Room, leavers: set<Address>, from: Address, kind: Kind)
    requires Safe(room, leavers, false) && (kind.Leave? ==> from in leavers)
    ensures Safe(Enqueue(room, from, kind), leavers, false)
  {
  }

  /** A step that is not about the room leaves it alone, and one that is keeps it safe. */
  lemma SafeStep(s: Relay, event: Event, s': Relay, o: nat, leavers: set<Address>)
    requires Owned(s) && Pointers(s) && CanStep(s, event) && s' == Next(s, event) && o < |s.rooms|
    requires Safe(s.rooms[o], leavers, false) && Allowed(event, s.rooms[o].id, leavers, false)
    ensures o < |s'.rooms| && Safe(s'.rooms[o], leavers, false)
  {
    match event
    case Process(from, id, kind) =>
      if id == s.rooms[o].id && id != "" {
        SafeEnqueue(s.rooms[o], leavers, from, kind);
      }
    case WorkLeave(p) =>
      if p == o {
        SafeRoom(s.rooms[o], leavers, s'.rooms[o]);
      }
    case _ =>
  }

  lemma {:induction false} SafeRun(events: seq<Event>, s: Relay, all: seq<Event>, s': Relay, o: nat,
                                   leavers: set<Address>)
    requires Execute(events) == Some(s) && o < |s.rooms| && Safe(s.rooms[o], leavers, false)
    requires AllowedRun(events, all, s.rooms[o].id, leavers, false) && Execute(all) == Some(s')
    ensures o < |s'.rooms| && Safe(s'.rooms[o], leavers, false)
    decreases |all|
  {
    if |all| == |events| {
      assert all == events;
    } else {
      var front := all[..|all| - 1];
      var mid := Execute(front).value;
      SafeRun(events, s, front, mid, o, leavers);
      RunGrows(events, s, front, mid);
      EveryRunKeeps(front, mid);
      SafeStep(mid, all[|all| - 1], s', o, leavers);
    }
  }

  /** A safe room can always still answer the joins that were waiting. */
  lemma SafeMeansAnswerable(events: seq<Event>, s: Relay, o: nat, j: nat, leavers: set<Address>, all: seq<Event>,
                            s': Relay)
    requires Execute(events) == Some(s) && o < |s.rooms| && j < |s.rooms[o].join| && Safe(s.rooms[o], leavers, false)
    requires AllowedRun(events, all, s.rooms[o].id, leavers, false) && Execute(all) == Some(s')
    ensures CanReach(all, o, |Answered(s, o)| + j + 1)
  {
    SafeRun(events, s, all, s', o, leavers);
    WaitingOrAnswered(events, s, all, s', o);
    var count := |Answered(s, o)| + j + 1;
    if |Answered(s', o)| < count {
      var more, t := AnswerMany(all, s', o, count - |Answered(s', o)|);
    }
  }

  /** Joins once queued are answered or still waiting. */
  lemma WaitingOrAnswered(events: seq<Event>, s: Relay, all: seq<Event>, s': Relay, o: nat)
    requires Execute(events) == Some(s) && o < |s.rooms| && events <= all && Execute(all) == Some(s')
    ensures o < |s'.rooms| && |Answered(s, o)| + |s.rooms[o].join| <= |Answered(s', o)| + |s'.rooms[o].join|
  {
    RunGrows(events, s, all, s');
    AddressesGrow(JoinAsked(o), s.log, s'.log);
    QueueOf(events, s, o);
    QueueOf(all, s', o);
  }

  lemma QueueOf(events: seq<Event>, s: Relay, o: nat)
    requires Execute(events) == Some(s) && o < |s.rooms|
    ensures |Addresses(JoinAsked(o), s.log)| == |Answered(s, o)| + |s.rooms[o].join|
  {
    EveryRunKeeps(events, s);
    assert Faithful(s.rooms[o], s.log, o);
  }

  // ----- Losing a join

  lemma AllowedMore(events: seq<Event>, some: seq<Event>, event: Event, id: RoomId, leavers: set<Address>,
                    mayStop: bool)
    requires AllowedRun(events, some, id, leavers, mayStop) && Allowed(event, id, leavers, mayStop)
    ensures AllowedRun(events, some + [event], id, leavers, mayStop)
  {
  }

  lemma AllowedThen(events: seq<Event>, some: seq<Event>, all: seq<Event>, id: RoomId, leavers: set<Address>,
                    mayStop: bool)
    requires AllowedRun(events, some, id, leavers, mayStop) && AllowedRun(some, all, id, leavers, mayStop)
    ensures AllowedRun(events, all, id, leavers, mayStop)
  {
    forall i | |events| <= i < |all| ensures Allowed(all[i], id, leavers, mayStop) {
      if i < |some| {
        assert some[i] == all[i];
      }
    }
  }

  /** Serve one leave of an idle room: it retires, or keeps its unanchored state with less to do. */
  lemma LoseOneLeave(room: Room, leavers: set<Address>, room': Room)
    requires room.phase.Selecting? && |room.leave| > 0 && !Anchored(room, leavers) && room' == Departed(room)
    ensures Retired(room') || (room'.phase.Selecting? && !Anchored(room', leavers))
    ensures |room'.clients| <= |room.clients| && room'.leave == room.leave[1..] && room'.id == room.id
    ensures room.leave[0] in room.clients ==> |room'.clients| < |room.clients|
  {
    var who := room.leave[0];
    if who in room.clients {
      assert room.clients == (room.clients - {who}) + {who};
    } else {
      assert room.clients - {who} == room.clients;
    }
    if room.clients - {who} != {} {
      forall c | c in room'.clients ensures c in leavers || c in room'.leave {
        assert c in leavers || c in room.leave;
      }
      var c :| c in room'.clients;
    }
  }

  /** An idle room without an anchor can be emptied by leaves alone, before any join is answered. */
  lemma {:induction false} LoseByLeaves(events: seq<Event>, s: Relay, o: nat, leavers: set<Address>, mayStop: bool)
    returns (all: seq<Event>, s': Relay)
    requires Execute(events) == Some(s) && At(s, o) && !Anchored(s.rooms[o], leavers)
    ensures AllowedRun(events, all, s.rooms[o].id, leavers, mayStop) && Execute(all) == Some(s')
    ensures o < |s'.rooms| && Retired(s'.rooms[o]) && Answered(s', o) == Answered(s, o)
    decreases |s.rooms[o].clients|, |s.rooms[o].leave|
  {
    var room := s.rooms[o];
    var id := room.id;
    var some, t := events, s;
    if room.leave == [] {
      var who: Address :| who in leavers && (room.clients != {} ==> who in room.clients);
      t := QueueNext(events, s, o, who, Leave);
      some := events + [Process(who, id, Leave)];
      assert !Anchored(t.rooms[o], leavers);
    }
    var u := LeaveNext(some, t, o);
    LoseOneLeave(t.rooms[o], leavers, u.rooms[o]);
    AllowedMore(events, some, WorkLeave(o), id, leavers, mayStop);
    if Retired(u.rooms[o]) {
      all, s' := some + [WorkLeave(o)], u;
    } else {
      all, s' := LoseByLeaves(some + [WorkLeave(o)], u, o, leavers, mayStop);
      AllowedThen(events, some + [WorkLeave(o)], all, id, leavers, mayStop);
    }
  }

  /** Stop tells a worker at its select to finish. */
  lemma HaltStep(s: Relay, o: nat, s': Relay)
    requires Owned(s) && Pointers(s) && At(s, o) && FlagsFaithful(s.rooms[o], s.log, o) && s' == Next(s, Stop)
    ensures At(s', o) && s'.rooms[o].finished && s'.rooms[o].id == s.rooms[o].id && s'.log == s.log
  {
  }

  lemma StopNext(events: seq<Event>, s: Relay, o: nat) returns (t: Relay)
    requires Execute(events) == Some(s) && At(s, o)
    ensures Execute(events + [Stop]) == Some(t) && Answered(t, o) == Answered(s, o)
    ensures At(t, o) && t.rooms[o].finished && t.rooms[o].id == s.rooms[o].id
  {
    EveryRunKeeps(events, s);
    RelayTheorems.FlagsOf(s, o);
    Extend(events, s, Stop);
    t := Next(s, Stop);
    HaltStep(s, o, t);
  }

  lemma FinishNext(events: seq<Event>, s: Relay, o: nat) returns (t: Relay)
    requires Execute(events) == Some(s) && At(s, o) && s.rooms[o].finished
    ensures Execute(events + [WorkFinish(o)]) == Some(t)
    ensures o < |t.rooms| && t.rooms[o].phase.Gone? && Answered(t, o) == Answered(s, o)
  {
    Extend(events, s, WorkFinish(o));
    t := Next(s, WorkFinish(o));
  }

  lemma LoseByFinish(events: seq<Event>, s: Relay, o: nat, leavers: set<Address>, mayStop: bool)
    returns (all: seq<Event>, s': Relay)
    requires Execute(events) == Some(s) && At(s, o) && (s.rooms[o].finished || mayStop)
    ensures AllowedRun(events, all, s.rooms[o].id, leavers, mayStop) && Execute(all) == Some(s')
    ensures o < |s'.rooms| && Retired(s'.rooms[o]) && Answered(s', o) == Answered(s, o)
  {
    var some, t := events, s;
    if !s.rooms[o].finished {
      t := StopNext(events, s, o);
      some := events + [Stop];
    }
    s' := FinishNext(some, t, o);
    all := some + [WorkFinish(o)];
  }

  /** A room that is not safe can lose every waiting join. */
  lemma Lose(events: seq<Event>, s: Relay, o: nat, leavers: set<Address>, mayStop: bool)
    returns (all: seq<Event>, s': Relay)
    requires Execute(events) == Some(s) && o < |s.rooms| && !Safe(s.rooms[o], leavers, mayStop)
    ensures AllowedRun(events, all, s.rooms[o].id, leavers, mayStop) && Execute(all) == Some(s')
    ensures o < |s'.rooms| && Retired(s'.rooms[o]) && Answered(s', o) == Answered(s, o)
  {
    if Retired(s.rooms[o]) {
      all, s' := events, s;
    } else {
      var idle, t := FinishBroadcast(events, s, o);
      if s.rooms[o].finished || mayStop {
        all, s' := LoseByFinish(idle, t, o, leavers, mayStop);
      } else {
        all, s' := LoseByLeaves(idle, t, o, leavers, mayStop);
      }
      AllowedThen(events, idle, all, s.rooms[o].id, leavers, mayStop);
    }
  }

  /**
   A waiting join stays answerable in every continuation exactly when the worker
   serves, Stop was not and will not be called, and some client is neither among
   those who may leave nor about to, or nobody is.
   */
  lemma JoinSafeExactly(events: seq<Event>, s: Relay, o: nat, j: nat, leavers: set<Address>, mayStop: bool)
    requires Execute(events) == Some(s) && o < |s.rooms| && j < |s.rooms[o].join|
    ensures NeverLost(events, s, o, j, leavers, mayStop) <==> Safe(s.rooms[o], leavers, mayStop)
  {
    if Safe(s.rooms[o], leavers, mayStop) {
      forall all: seq<Event>, s': Relay |
        AllowedRun(events, all, s.rooms[o].id, leavers, mayStop) && Execute(all) == Some(s')
        ensures CanReach(all, o, |Answered(s, o)| + j + 1)
      {
        SafeMeansAnswerable(events, s, o, j, leavers, all, s');
      }
    } else {
      var all, s' := Lose(events, s, o, leavers, mayStop);
      WaitingOrAnswered(events, s, all, s', o);
      AnswerableExactlyWhileServing(all, s', o, j);
    }
  }

  // ----- Both ways to lose one, in concrete runs

  /** Queued too late: b's JOIN lands in a room that is already on its way out. */
  lemma JoinCanBeLost() returns (events: seq<Event>, s: Relay)
    ensures Execute(events) == Some(s) && |s.rooms| == 1 && Retired(s.rooms[0])
    ensures s.rooms[0].join == ["b"] && "r" in s.channels
    ensures !CanReach(events, 0, |Answered(s, 0)| + 1)
  {
    var e1, e2, e3 := Process("a", "r", Leave), WorkLeave(0), Process("b", "r", Join);
    Extend([], Empty, e1);
    var s1 := Next(Empty, e1);
    Extend([] + [e1], s1, e2);
    var s2 := Next(s1, e2);
    Extend([] + [e1] + [e2], s2, e3);
    events, s := [] + [e1] + [e2] + [e3], Next(s2, e3);
    AnswerableExactlyWhileServing(events, s, 0, 0);
  }

  /** Queued in time: b's JOIN waits in a room that serves, and a leave overtakes it. */
  lemma LeaveOvertakesJoin() returns (events: seq<Event>, s: Relay, s': Relay)
    ensures Execute(events) == Some(s) && |s.rooms| == 1 && s.rooms[0].join == ["b"]
    ensures CanReach(events, 0, |Answered(s, 0)| + 1)
    ensures Execute(events + [WorkLeave(0)]) == Some(s') && !CanReach(events + [WorkLeave(0)], 0, |Answered(s, 0)| + 1)
  {
    var e1, e2 := Process("a", "r", Leave), Process("b", "r", Join);
    Extend([], Empty, e1);
    var s1 := Next(Empty, e1);
    Extend([] + [e1], s1, e2);
    events, s := [] + [e1] + [e2], Next(s1, e2);
    AnswerableExactlyWhileServing(events, s, 0, 0);
    s' := LeaveNext(events, s, 0);
    AnswerableExactlyWhileServing(events + [WorkLeave(0)], s', 0, 0);
  }
}
