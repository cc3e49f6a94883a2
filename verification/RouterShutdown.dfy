/**
 The shutdown protocol of Router (network/router.go): the lock with its isClosed
 flag, one handler goroutine per connection, and the WaitGroup that Stop waits on.
 */
module RouterShutdown {
  import opened Wrappers
  import opened ByteCounts

  /** What c.Receive returned. */
  datatype Received = Packet(message: nat) | Fatal | Temporary

  /** Where a handler goroutine is in handleConn and its deferred function. */
  datatype Pc =
    | Receiving
    | Checking(got: Received)   // received, about to read isClosed
    | Dispatching(message: nat) // saw the router open, holds a packet
    | Closing                   // in the deferred function
    | Releasing                 // traffic updated, wg.Done not called
    | Removing                  // wg.Done called
    | Finished

  /** A handler, with the bytes its connection received and the c.Tx() its deferred function read. */
  datatype Handler = Handler(pc: Pc, rx: nat, tx: nat) {
    function Bytes(direction: Direction): nat {
      if direction.Rx? then rx else tx
    }
  }

  datatype Direction = Rx | Tx

  /** The totals of connections that are gone, both uint64. */
  datatype Traffic = Traffic(rx: Counter, tx: Counter) {
    function Bytes(direction: Direction): Counter {
      if direction.Rx? then rx else tx
    }
  }

  datatype Router = Router(
    isClosed: bool,
    wg: int,
    handlers: seq<Handler>,
    traffic: Traffic,
    stopped: bool,              // some Stop has returned
    dispatched: seq<(nat, nat)> // history: which handler dispatched which message
  )

  datatype Event =
    | Launch
    | Receive(h: nat, size: nat, got: Received)
    | Check(h: nat)
    | Dispatch(h: nat)
    | Account(h: nat, tx: nat)
    | Release(h: nat)
    | Remove(h: nat)
    | StopFlag
    | StopReturn

  function Move(s: Router, h: nat, pc: Pc): Router
    requires h < |s.handlers|
  {
    s.(handlers := s.handlers[h := s.handlers[h].(pc := pc)])
  }

  predicate At(s: Router, h: nat, pc: Pc) {
    h < |s.handlers| && s.handlers[h].pc == pc
  }

  predicate CanStep(s: Router, event: Event) {
    match event
    case Launch => true
    case Receive(h, _, _) => At(s, h, Receiving)
    case Check(h) => h < |s.handlers| && s.handlers[h].pc.Checking?
    case Dispatch(h) => h < |s.handlers| && s.handlers[h].pc.Dispatching?
    case Account(h, _) => At(s, h, Closing)
    case Release(h) => At(s, h, Releasing)
    case Remove(h) => At(s, h, Removing)
    case StopFlag => true
    case StopReturn => s.isClosed && s.wg == 0
  }

  function AfterCheck(isClosed: bool, got: Received): Pc {
    if isClosed then Closing
    else
      match got
      case Packet(message) => Dispatching(message)
      case Fatal => Closing
      case Temporary => Receiving
  }

  function Next(s: Router, event: Event): Router
    requires CanStep(s, event)
  {
    match event
    case Launch =>
      if s.isClosed then s else s.(wg := s.wg + 1, handlers := s.handlers + [Handler(Receiving, 0, 0)])
    case Receive(h, size, got) =>
      s.(handlers := s.handlers[h := Handler(Checking(got), s.handlers[h].rx + size, s.handlers[h].tx)])
    case Check(h) => Move(s, h, AfterCheck(s.isClosed, s.handlers[h].pc.got))
    case Dispatch(h) => Move(s, h, Receiving).(dispatched := s.dispatched + [(h, s.handlers[h].pc.message)])
    case Account(h, tx) =>
      s.(handlers := s.handlers[h := Handler(Releasing, s.handlers[h].rx, tx)],
         traffic := Traffic(Count(s.traffic.rx, s.handlers[h].rx), Count(s.traffic.tx, tx)))
    case Release(h) => Move(s, h, Removing).(wg := s.wg - 1)
    case Remove(h) => Move(s, h, Finished)
    case StopFlag => s.(isClosed := true)
    case StopReturn => s.(stopped := true)
  }

  const Idle: Router := Router(false, 0, [], Traffic(0, 0), false, [])

  function Execute(start: Router, events: seq<Event>): Option<Router>
    decreases |events|
  {
    if |events| == 0 then Some(start)
    else
      var last := events[|events| - 1];
      match Execute(start, events[..|events| - 1])
      case None => None
      case Some(s) => if CanStep(s, last) then Some(Next(s, last)) else None
  }

  // ----- The invariant

  /** A handler the WaitGroup still counts. */
  predicate Active(handler: Handler) {
    !handler.pc.Removing? && !handler.pc.Finished?
  }

  predicate Accounted(handler: Handler) {
    handler.pc.Releasing? || handler.pc.Removing? || handler.pc.Finished?
  }

  function ActiveCount(handlers: seq<Handler>): nat {
    if |handlers| == 0 then 0
    else ActiveCount(handlers[..|handlers| - 1]) + (if Active(handlers[|handlers| - 1]) then 1 else 0)
  }

  function Accounts(handlers: seq<Handler>, direction: Direction): nat {
    if |handlers| == 0 then 0
    else
      var last := handlers[|handlers| - 1];
      Accounts(handlers[..|handlers| - 1], direction) + (if Accounted(last) then last.Bytes(direction) else 0)
  }

  /** The bytes of all connections that ever had a handler. */
  function Everything(handlers: seq<Handler>, direction: Direction): nat {
    if |handlers| == 0 then 0
    else Everything(handlers[..|handlers| - 1], direction) + handlers[|handlers| - 1].Bytes(direction)
  }

  lemma {:induction false} UpdateActive(handlers: seq<Handler>, h: nat, handler: Handler)
    requires h < |handlers|
    ensures ActiveCount(handlers[h := handler]) - (if Active(handler) then 1 else 0)
            == ActiveCount(handlers) - (if Active(handlers[h]) then 1 else 0)
    decreases |handlers|
  {
    var n := |handlers| - 1;
    if h < n {
      UpdateActive(handlers[..n], h, handler);
      assert handlers[h := handler][..n] == handlers[..n][h := handler];
    } else {
      assert handlers[h := handler][..n] == handlers[..n];
    }
  }

  lemma {:induction false} UpdateAccounts(handlers: seq<Handler>, h: nat, handler: Handler, direction: Direction)
    requires h < |handlers|
    ensures Accounts(handlers[h := handler], direction) - (if Accounted(handler) then handler.Bytes(direction) else 0)
            == Accounts(handlers, direction) - (if Accounted(handlers[h]) then handlers[h].Bytes(direction) else 0)
    decreases |handlers|
  {
    var n := |handlers| - 1;
    if h < n {
      UpdateAccounts(handlers[..n], h, handler, direction);
      assert handlers[h := handler][..n] == handlers[..n][h := handler];
    } else {
      assert handlers[h := handler][..n] == handlers[..n];
    }
  }

  lemma Update(handlers: seq<Handler>, h: nat, handler: Handler)
    requires h < |handlers|
    ensures ActiveCount(handlers[h := handler]) - (if Active(handler) then 1 else 0)
            == ActiveCount(handlers) - (if Active(handlers[h]) then 1 else 0)
    ensures Accounts(handlers[h := handler], Rx) - (if Accounted(handler) then handler.rx else 0)
            == Accounts(handlers, Rx) - (if Accounted(handlers[h]) then handlers[h].rx else 0)
    ensures Accounts(handlers[h := handler], Tx) - (if Accounted(handler) then handler.tx else 0)
            == Accounts(handlers, Tx) - (if Accounted(handlers[h]) then handlers[h].tx else 0)
  {
    UpdateActive(handlers, h, handler);
    UpdateAccounts(handlers, h, handler, Rx);
    UpdateAccounts(handlers, h, handler, Tx);
  }

  predicate Inv(s: Router) {
    && s.wg == ActiveCount(s.handlers)
    && s.traffic == Traffic(Count(0, Accounts(s.handlers, Rx)), Count(0, Accounts(s.handlers, Tx)))
    && (s.stopped ==> s.isClosed && s.wg == 0)
  }

  /** A handler moves without touching its bytes or its standing with the WaitGroup and the traffic. */
  lemma MoveKeeps(s: Router, h: nat, handler: Handler)
    requires Inv(s) && h < |s.handlers|
    requires Active(handler) == Active(s.handlers[h]) && !Accounted(handler) && !Accounted(s.handlers[h])
    ensures Inv(s.(handlers := s.handlers[h := handler]))
  {
    Update(s.handlers, h, handler);
  }

  lemma AccountKeeps(s: Router, h: nat, tx: nat)
    requires Inv(s) && At(s, h, Closing)
    ensures Inv(Next(s, Account(h, tx)))
  {
    Update(s.handlers, h, Handler(Releasing, s.handlers[h].rx, tx));
    CountTwice(0, Accounts(s.handlers, Rx), s.handlers[h].rx);
    CountTwice(0, Accounts(s.handlers, Tx), tx);
  }

  lemma LeaveKeeps(s: Router, event: Event)
    requires Inv(s) && CanStep(s, event) && (event.Release? || event.Remove?)
    ensures Inv(Next(s, event))
  {
    Update(s.handlers, event.h, s.handlers[event.h].(pc := if event.Release? then Removing else Finished));
  }

  lemma LaunchKeeps(s: Router)
    requires Inv(s)
    ensures Inv(Next(s, Launch))
  {
    assert (s.handlers + [Handler(Receiving, 0, 0)])[..|s.handlers|] == s.handlers;
  }

  lemma StepKeeps(s: Router, event: Event)
    requires Inv(s) && CanStep(s, event)
    ensures Inv(Next(s, event))
  {
    match event
    case Launch => LaunchKeeps(s);
    case Receive(h, size, got) => MoveKeeps(s, h, s.handlers[h].(pc := Checking(got), rx := s.handlers[h].rx + size));
    case Check(h) => MoveKeeps(s, h, s.handlers[h].(pc := AfterCheck(s.isClosed, s.handlers[h].pc.got)));
    case Dispatch(h) => MoveKeeps(s, h, s.handlers[h].(pc := Receiving));
    case Account(h, tx) => AccountKeeps(s, h, tx);
    case Release(_) => LeaveKeeps(s, event);
    case Remove(_) => LeaveKeeps(s, event);
    case StopFlag =>
    case StopReturn =>
  }

  lemma {:induction false} EveryRunKeeps(start: Router, events: seq<Event>, s: Router)
    requires Inv(start) && Execute(start, events) == Some(s)
    ensures Inv(s)
    decreases |events|
  {
    if |events| > 0 {
      var before := Execute(start, events[..|events| - 1]).value;
      EveryRunKeeps(start, events[..|events| - 1], before);
      StepKeeps(before, events[|events| - 1]);
    }
  }

  // ----- What Stop promises

  lemma {:induction false} NoneActive(handlers: seq<Handler>, h: nat)
    requires ActiveCount(handlers) == 0 && h < |handlers|
    ensures !Active(handlers[h])
    decreases |handlers|
  {
    if h < |handlers| - 1 {
      NoneActive(handlers[..|handlers| - 1], h);
    }
  }

  lemma {:induction false} AllAccounted(handlers: seq<Handler>, direction: Direction)
    requires ActiveCount(handlers) == 0
    ensures Accounts(handlers, direction) == Everything(handlers, direction)
    decreases |handlers|
  {
    if |handlers| > 0 {
      AllAccounted(handlers[..|handlers| - 1], direction);
    }
  }

  /** Once Stop has returned: no dispatch, no new handler, and traffic holds every connection once. */
  lemma {:induction false} NothingAfterStop(events: seq<Event>, s: Router, more: seq<Event>, s': Router)
    requires Execute(Idle, events) == Some(s) && s.stopped && Execute(s, more) == Some(s')
    ensures s'.dispatched == s.dispatched && |s'.handlers| == |s.handlers| && s'.stopped
    ensures s'.traffic == s.traffic
    ensures forall d :: s.traffic.Bytes(d) == Count(0, Everything(s.handlers, d))
    ensures forall d :: Everything(s'.handlers, d) == Everything(s.handlers, d)
    decreases |more|
  {
    EveryRunKeeps(Idle, events, s);
    AllAccounted(s.handlers, Rx);
    AllAccounted(s.handlers, Tx);
    if |more| > 0 {
      var n := |more| - 1;
      var before := Execute(s, more[..n]).value;
      NothingAfterStop(events, s, more[..n], before);
      EveryRunKeeps(s, more[..n], before);
      QuietStep(before, more[n]);
    }
  }

  lemma QuietStep(s: Router, event: Event)
    requires Inv(s) && s.stopped && CanStep(s, event)
    ensures Next(s, event).dispatched == s.dispatched && |Next(s, event).handlers| == |s.handlers|
    ensures Next(s, event).stopped
    ensures Next(s, event).traffic == s.traffic
    ensures forall d :: Everything(Next(s, event).handlers, d) == Everything(s.handlers, d)
  {
    var s' := Next(s, event);
    forall h | 0 <= h < |s.handlers| ensures !Active(s.handlers[h]) {
      NoneActive(s.handlers, h);
    }
    if event.Remove? {
      SameBytes(s.handlers, event.h, s'.handlers[event.h], Rx);
      SameBytes(s.handlers, event.h, s'.handlers[event.h], Tx);
    }
  }

  lemma {:induction false} SameBytes(handlers: seq<Handler>, h: nat, handler: Handler, direction: Direction)
    requires h < |handlers| && handler.Bytes(direction) == handlers[h].Bytes(direction)
    ensures Everything(handlers[h := handler], direction) == Everything(handlers, direction)
    decreases |handlers|
  {
    var n := |handlers| - 1;
    if h < n {
      SameBytes(handlers[..n], h, handler, direction);
      assert handlers[h := handler][..n] == handlers[..n][h := handler];
    } else {
      assert handlers[h := handler][..n] == handlers[..n];
    }
  }

  // ----- What is dispatched

  /** The messages a handler dispatched, in order. */
  function DispatchedBy(h: nat, dispatched: seq<(nat, nat)>): seq<nat> {
    if |dispatched| == 0 then []
    else
      var last := dispatched[|dispatched| - 1];
      DispatchedBy(h, dispatched[..|dispatched| - 1]) + (if last.0 == h then [last.1] else [])
  }

  lemma DispatchMore(h: nat, dispatched: seq<(nat, nat)>, more: (nat, nat))
    ensures DispatchedBy(h, dispatched + [more]) == DispatchedBy(h, dispatched) + (if more.0 == h then [more.1] else [])
  {
    assert (dispatched + [more])[..|dispatched|] == dispatched;
  }

  /** The message a handler has checked and not yet dispatched. */
  function InHand(pc: Pc): seq<nat> {
    if pc.Dispatching? then [pc.message] else []
  }

  /** What the handler's last Receive returned, if its check is still to come. */
  function Unchecked(events: seq<Event>, h: nat): Option<Received> {
    if |events| == 0 then None
    else
      var last := events[|events| - 1];
      if last.Receive? && last.h == h then Some(last.got)
      else if last == Check(h) then None
      else Unchecked(events[..|events| - 1], h)
  }

  /** The messages a handler received whose check came before Stop set the flag, in order. */
  function Admitted(events: seq<Event>, h: nat): seq<nat> {
    if |events| == 0 then []
    else
      var front, last := events[..|events| - 1], events[|events| - 1];
      var got := Unchecked(front, h);
      Admitted(front, h)
      + (if last == Check(h) && StopFlag !in front && got.Some? && got.value.Packet? then [got.value.message] else [])
  }

  /** The bytes of a handler's receives. */
  function ReceivedBytes(events: seq<Event>, h: nat): nat {
    if |events| == 0 then 0
    else
      var last := events[|events| - 1];
      ReceivedBytes(events[..|events| - 1], h) + (if last.Receive? && last.h == h then last.size else 0)
  }

  /** A handler leaves its loop at the first check that finds the router closed or a fatal error. */
  predicate HasLeft(events: seq<Event>, h: nat) {
    |events| > 0 &&
    var front, last := events[..|events| - 1], events[|events| - 1];
    HasLeft(front, h) || (last == Check(h) && (StopFlag in front || Unchecked(front, h) == Some(Fatal)))
  }

  predicate Leaving(pc: Pc) {
    pc.Closing? || pc.Releasing? || pc.Removing? || pc.Finished?
  }

  /** Where a handler is, if it was launched. */
  function PcOf(s: Router, h: nat): Pc {
    if h < |s.handlers| then s.handlers[h].pc else Receiving
  }

  predicate TracksMessages(s: Router, events: seq<Event>, h: nat) {
    && DispatchedBy(h, s.dispatched) + InHand(PcOf(s, h)) == Admitted(events, h)
    && (PcOf(s, h).Checking? ==> Unchecked(events, h) == Some(PcOf(s, h).got))
  }

  predicate TracksLeaving(s: Router, events: seq<Event>, h: nat) {
    && (Leaving(PcOf(s, h)) <==> HasLeft(events, h))
    && (if h < |s.handlers| then s.handlers[h].rx else 0) == ReceivedBytes(events, h)
  }

  /** What the events so far say about a handler, whether it was launched or not. */
  predicate Tracked(s: Router, events: seq<Event>, h: nat) {
    TracksMessages(s, events, h) && TracksLeaving(s, events, h)
  }

  lemma MessagesStep(s: Router, front: seq<Event>, event: Event, events: seq<Event>, h: nat)
    requires TracksMessages(s, front, h) && CanStep(s, event) && (s.isClosed <==> StopFlag in front)
    requires |events| > 0 && events[..|events| - 1] == front && events[|events| - 1] == event
    ensures TracksMessages(Next(s, event), events, h)
  {
    if event.Dispatch? {
      DispatchMore(h, s.dispatched, (event.h, s.handlers[event.h].pc.message));
    }
  }

  lemma LeavingStep(s: Router, front: seq<Event>, event: Event, events: seq<Event>, h: nat)
    requires TracksLeaving(s, front, h) && CanStep(s, event) && (s.isClosed <==> StopFlag in front)
    requires PcOf(s, h).Checking? ==> Unchecked(front, h) == Some(PcOf(s, h).got)
    requires |events| > 0 && events[..|events| - 1] == front && events[|events| - 1] == event
    ensures TracksLeaving(Next(s, event), events, h)
  {
  }

  /** The flag is set exactly when some Stop has set it. */
  lemma {:induction false} ClosedExactly(events: seq<Event>, s: Router)
    requires Execute(Idle, events) == Some(s)
    ensures s.isClosed <==> StopFlag in events
    decreases |events|
  {
    if |events| > 0 {
      var front := events[..|events| - 1];
      ClosedExactly(front, Execute(Idle, front).value);
      assert events == front + [events[|events| - 1]];
    }
  }

  /**
   A handler dispatches exactly the messages it received and found the router open
   for, in order; the last of them may still be in hand. It is in its loop until a
   check finds the router closed or a fatal error, and its Rx is what it received.
   */
  lemma {:induction false} DispatchedExactly(events: seq<Event>, s: Router, h: nat)
    requires Execute(Idle, events) == Some(s)
    ensures Tracked(s, events, h)
    decreases |events|
  {
    if |events| > 0 {
      var front := events[..|events| - 1];
      var before := Execute(Idle, front).value;
      DispatchedExactly(front, before, h);
      ClosedExactly(front, before);
      MessagesStep(before, front, events[|events| - 1], events, h);
      LeavingStep(before, front, events[|events| - 1], events, h);
    }
  }

  /** A handler that has dispatched receives again. */
  lemma DispatchLeads(s: Router, h: nat)
    requires CanStep(s, Dispatch(h))
    ensures var s' := Next(s, Dispatch(h));
            s'.handlers[h].pc == Receiving && s'.dispatched == s.dispatched + [(h, s.handlers[h].pc.message)]
  {
  }

  /** Where a check leads: to the deferred function if closed or after a fatal error, and otherwise on. */
  lemma CheckLeads(s: Router, h: nat)
    requires CanStep(s, Check(h))
    ensures var got, pc := s.handlers[h].pc.got, Next(s, Check(h)).handlers[h].pc;
            && Next(s, Check(h)).dispatched == s.dispatched
            && (pc == Closing <==> s.isClosed || got.Fatal?)
            && (pc == Receiving <==> !s.isClosed && got.Temporary?)
            && (forall m :: pc == Dispatching(m) <==> !s.isClosed && got == Packet(m))
  {
  }

  lemma DispatchStep(s: Router, event: Event, h: nat)
    requires s.isClosed && h < |s.handlers| && CanStep(s, event)
    ensures Next(s, event).isClosed && |Next(s, event).handlers| == |s.handlers|
    ensures DispatchedBy(h, Next(s, event).dispatched) + InHand(Next(s, event).handlers[h].pc)
            == DispatchedBy(h, s.dispatched) + InHand(s.handlers[h].pc)
  {
    if event.Dispatch? {
      DispatchMore(h, s.dispatched, (event.h, s.handlers[event.h].pc.message));
    }
  }

  /** From the moment Stop sets the flag, a handler dispatches at most the message it had already checked. */
  lemma {:induction false} AtMostOneMoreDispatch(s: Router, more: seq<Event>, s': Router, h: nat)
    requires s.isClosed && h < |s.handlers| && Execute(s, more) == Some(s')
    ensures s'.isClosed && |s'.handlers| == |s.handlers|
    ensures DispatchedBy(h, s'.dispatched) + InHand(s'.handlers[h].pc)
            == DispatchedBy(h, s.dispatched) + InHand(s.handlers[h].pc)
    decreases |more|
  {
    if |more| > 0 {
      var before := Execute(s, more[..|more| - 1]).value;
      AtMostOneMoreDispatch(s, more[..|more| - 1], before, h);
      DispatchStep(before, more[|more| - 1], h);
    }
  }

  // ----- The object

  class RouterObject {
    var isClosed: bool
    var wg: int
    var trafficRx: Counter
    var trafficTx: Counter
    var connections: map<string, nat>   // remote address to the connection registered for it
    ghost var handlers: seq<Handler>
    ghost var stopped: bool
    ghost var dispatched: seq<(nat, nat)>

    ghost function View(): Router
      reads this
    {
      Router(isClosed, wg, handlers, Traffic(trafficRx, trafficTx), stopped, dispatched)
    }

    constructor ()
      ensures View() == Idle && connections == map[] && Inv(View())
    {
      isClosed, wg, trafficRx, trafficTx, connections := false, 0, 0, 0, map[];
      handlers, stopped, dispatched := [], false, [];
    }

    /** registerConnection: an open router knows the address afterwards, and never forgets a connection for it. */
    method RegisterConnection(remote: string, conn: nat) returns (ok: bool)
      modifies this`connections
      ensures ok <==> !isClosed
      ensures forall other :: other in old(connections) ==>
                other in connections && connections[other] == old(connections)[other]
      ensures connections.Keys == old(connections).Keys + (if ok then {remote} else {})
      ensures ok && remote !in old(connections) ==> connections[remote] == conn
    {
      if isClosed {
        return false;
      }
      ok := true;
      if remote in connections {
        return;
      }
      connections := connections[remote := conn];
    }

    method LaunchHandleRoutine() returns (ok: bool)
      requires Inv(View())
      modifies this`wg, this`handlers
      ensures View() == Next(old(View()), Launch) && Inv(View())
      ensures ok <==> |handlers| == |old(handlers)| + 1
    {
      LaunchKeeps(View());
      if isClosed {
        return false;
      }
      wg := wg + 1;
      handlers := handlers + [Handler(Receiving, 0, 0)];
      ok := true;
    }

    /** The deferred function of handleConn, with the final counters of its connection. */
    method FinishHandler(ghost h: nat, rx: nat, tx: nat, remote: string)
      requires Inv(View()) && At(View(), h, Closing) && handlers[h].rx == rx
      modifies this
      ensures Inv(View()) && View() == Next(Next(Next(old(View()), Account(h, tx)), Release(h)), Remove(h))
      ensures connections == old(connections) - {remote}
    {
      AccountKeeps(View(), h, tx);
      trafficRx := Count(trafficRx, rx);
      trafficTx := Count(trafficTx, tx);
      handlers := handlers[h := Handler(Releasing, rx, tx)];
      assert View() == Next(old(View()), Account(h, tx));
      LeaveKeeps(View(), Release(h));
      wg := wg - 1;
      handlers := handlers[h := Handler(Removing, rx, tx)];
      LeaveKeeps(View(), Remove(h));
      connections := connections - {remote};
      handlers := handlers[h := Handler(Finished, rx, tx)];
    }

    /** Stop up to its wait. */
    method SetClosed()
      requires Inv(View())
      modifies this`isClosed
      ensures Inv(View()) && View() == Next(old(View()), StopFlag)
    {
      StepKeeps(View(), StopFlag);
      isClosed := true;
    }
  }
}
