/**
 The client's multiplexer (relay/channel.go). A `clientChannel` is identified by
 the order of its creation; `input` is the history of the messages read from
 the connection.
 */
module Multiplexing {
  import opened Wrappers
  import opened Demux
  import opened CommonTypes

  const QUEUE_SIZE: nat := 20

  datatype ClientChannel = ClientChannel(
    id: RoomId,
    egress: seq<Message>,
    done: bool,
    taken: seq<Message>,       // history: messages read by join and Receive
    since: nat,                // history: |input| when it was put in the map
    until: Option<nat>         // history: |input| when it was removed from the map
  ) {
    function Dispatched(): seq<Message> {
      taken + egress
    }
  }

  datatype Mux = Mux(
    objects: seq<ClientChannel>,
    channels: map<RoomId, nat>,
    input: seq<Message>,
    connClosed: bool           // the connection to the relay is closed
  )

  datatype Op =
    | Open(id: RoomId)         // Multiplexer.Channel up to the join
    | Deliver(message: Message)
    | Take(o: nat)
    | JoinFailed(o: nat)       // Channel after an error of join
    | Close(o: nat)

  /** Every entry of the map is a channel that exists. */
  predicate Pointers(m: Mux) {
    forall id :: id in m.channels ==> m.channels[id] < |m.objects|
  }

  /** Channel slices ten hex digits off its id, so an id has at least five bytes. */
  predicate CanDo(m: Mux, op: Op)
    requires Pointers(m)
  {
    match op
    case Open(id) => |id| >= 5
    case Deliver(message) =>
      && !m.connClosed
      && (message.id in m.channels ==> |m.objects[m.channels[message.id]].egress| < QUEUE_SIZE)
    case Take(o) => o < |m.objects| && |m.objects[o].egress| > 0
    case JoinFailed(o) => o < |m.objects|
    case Close(o) => o < |m.objects|
  }

  function Replace(m: Mux, o: nat, c: ClientChannel): Mux
    requires o < |m.objects|
  {
    m.(objects := m.objects[o := c])
  }

  /** delete(m.channels, id), whichever channel is stored there. */
  function Forget(m: Mux, id: RoomId): (m': Mux)
    requires Pointers(m)
    ensures Pointers(m') && |m'.objects| == |m.objects|
  {
    if id !in m.channels then m
    else
      var p := m.channels[id];
      Replace(m, p, m.objects[p].(until := Some(|m.input|))).(channels := m.channels - {id})
  }

  function Do(m: Mux, op: Op): (m': Mux)
    requires Pointers(m) && CanDo(m, op)
    ensures Pointers(m')
  {
    match op
    case Open(id) =>
      if id in m.channels then m
      else m.(objects := m.objects + [ClientChannel(id, [], false, [], |m.input|, None)],
              channels := m.channels[id := |m.objects|])
    case Deliver(message) =>
      var read := m.(input := m.input + [message]);
      if message.id !in m.channels then read
      else
        var p := m.channels[message.id];
        Replace(read, p, m.objects[p].(egress := m.objects[p].egress + [message]))
    case Take(o) =>
      var c := m.objects[o];
      Replace(m, o, c.(egress := c.egress[1..], taken := c.taken + [c.egress[0]]))
    case JoinFailed(o) => Forget(m, m.objects[o].id)
    case Close(o) =>
      if m.objects[o].done then m
      else
        var rest := Forget(Replace(m, o, m.objects[o].(done := true)), m.objects[o].id);
        rest.(connClosed := m.connClosed || rest.channels == map[])
  }

  const Unused: Mux := Mux([], map[], [], false)

  function Execute(ops: seq<Op>): (r: Option<Mux>)
    ensures r.Some? ==> Pointers(r.value)
    decreases |ops|
  {
    if |ops| == 0 then Some(Unused)
    else
      match Execute(ops[..|ops| - 1])
      case None => None
      case Some(m) => if CanDo(m, ops[|ops| - 1]) then Some(Do(m, ops[|ops| - 1])) else None
  }

  // ----- Demultiplexing is filtering

  predicate Registered(m: Mux, o: nat)
    requires o < |m.objects|
  {
    m.objects[o].id in m.channels && m.channels[m.objects[o].id] == o
  }

  /** A channel was given exactly the messages with its id that arrived while it was in the map. */
  predicate Filtered(c: ClientChannel, input: seq<Message>) {
    var end := if c.until.Some? then c.until.value else |input|;
    c.since <= end <= |input| && c.Dispatched() == ForRoom(c.id, input[c.since..end])
  }

  predicate Inv(m: Mux) {
    && (forall id :: id in m.channels ==> m.channels[id] < |m.objects| && m.objects[m.channels[id]].id == id)
    && (forall o :: 0 <= o < |m.objects| ==> Filtered(m.objects[o], m.input))
    && (forall o :: 0 <= o < |m.objects| ==> (Registered(m, o) <==> m.objects[o].until.None?))
  }

  lemma ForgetKeeps(m: Mux, id: RoomId)
    requires Inv(m) && Pointers(m)
    ensures Inv(Forget(m, id))
  {
    var m' := Forget(m, id);
    forall o | 0 <= o < |m'.objects| ensures Filtered(m'.objects[o], m'.input) {
      assert Filtered(m.objects[o], m.input);
    }
    forall o | 0 <= o < |m'.objects| ensures Registered(m', o) <==> m'.objects[o].until.None? {
      assert Registered(m, o) <==> m.objects[o].until.None?;
    }
  }

  lemma RemovedStaysFiltered(c: ClientChannel, input: seq<Message>, message: Message)
    requires Filtered(c, input) && c.until.Some?
    ensures Filtered(c, input + [message])
  {
    assert (input + [message])[c.since..c.until.value] == input[c.since..c.until.value];
  }

  lemma ForRoomAppend(id: RoomId, input: seq<Message>, since: nat, message: Message)
    requires since <= |input|
    ensures ForRoom(id, (input + [message])[since..|input| + 1])
            == ForRoom(id, input[since..|input|]) + (if message.id == id then [message] else [])
  {
    var before, after := input[since..|input|], (input + [message])[since..|input| + 1];
    assert after == before + [message];
    assert after[..|before|] == before;
  }

  lemma OpenStaysFiltered(c: ClientChannel, input: seq<Message>, message: Message)
    requires Filtered(c, input) && c.until.None?
    ensures message.id != c.id ==> Filtered(c, input + [message])
    ensures message.id == c.id ==> Filtered(c.(egress := c.egress + [message]), input + [message])
  {
    ForRoomAppend(c.id, input, c.since, message);
    assert c.(egress := c.egress + [message]).Dispatched() == c.Dispatched() + [message];
  }

  lemma FilteredAppend(c: ClientChannel, input: seq<Message>, message: Message)
    requires Filtered(c, input)
    ensures c.until.Some? || message.id != c.id ==> Filtered(c, input + [message])
    ensures c.until.None? && message.id == c.id ==> Filtered(c.(egress := c.egress + [message]), input + [message])
  {
    if c.until.None? {
      OpenStaysFiltered(c, input, message);
    } else {
      RemovedStaysFiltered(c, input, message);
    }
  }

  lemma DeliverKeeps(m: Mux, message: Message)
    requires Inv(m) && Pointers(m) && CanDo(m, Deliver(message))
    ensures Inv(Do(m, Deliver(message)))
  {
    var m' := Do(m, Deliver(message));
    forall o | 0 <= o < |m'.objects| ensures Filtered(m'.objects[o], m'.input) {
      assert Registered(m, o) <==> m.objects[o].until.None?;
      FilteredAppend(m.objects[o], m.input, message);
    }
    forall o | 0 <= o < |m'.objects| ensures Registered(m', o) <==> m'.objects[o].until.None? {
      assert Registered(m, o) <==> m.objects[o].until.None?;
    }
  }

  /** Changing a channel without touching what it was given or where it is stored. */
  lemma ReplaceKeeps(m: Mux, o: nat, c: ClientChannel)
    requires Inv(m) && o < |m.objects|
    requires c.id == m.objects[o].id && c.since == m.objects[o].since && c.until == m.objects[o].until
    requires c.Dispatched() == m.objects[o].Dispatched()
    ensures Inv(Replace(m, o, c)) && Pointers(m) && Pointers(Replace(m, o, c))
  {
    var m' := Replace(m, o, c);
    forall p | 0 <= p < |m'.objects| ensures Filtered(m'.objects[p], m'.input) {
      assert Filtered(m.objects[p], m.input);
    }
    forall p | 0 <= p < |m'.objects| ensures Registered(m', p) <==> m'.objects[p].until.None? {
      assert Registered(m, p) <==> m.objects[p].until.None?;
    }
  }

  lemma OpenRegisters(m: Mux, id: RoomId, m': Mux, o: nat)
    requires Inv(m) && id !in m.channels && o < |m'.objects| == |m.objects| + 1
    requires m'.objects[..|m.objects|] == m.objects && m'.channels == m.channels[id := |m.objects|]
    requires m'.objects[|m.objects|].id == id && m'.objects[|m.objects|].until.None?
    ensures Registered(m', o) <==> m'.objects[o].until.None?
  {
    if o < |m.objects| {
      assert m'.objects[o] == m.objects[o];
      assert Registered(m, o) <==> m.objects[o].until.None?;
    }
  }

  lemma OpenKeeps(m: Mux, id: RoomId)
    requires Inv(m) && Pointers(m) && CanDo(m, Open(id))
    ensures Inv(Do(m, Open(id)))
  {
    var m' := Do(m, Open(id));
    if id !in m.channels {
      assert m'.objects[..|m.objects|] == m.objects;
      forall o | 0 <= o < |m'.objects| ensures Registered(m', o) <==> m'.objects[o].until.None? {
        OpenRegisters(m, id, m', o);
      }
      forall o | 0 <= o < |m.objects| ensures Filtered(m'.objects[o], m'.input) {
        assert Filtered(m.objects[o], m.input);
      }
      assert m.input[|m.input|..|m.input|] == [];
    }
  }

  lemma ConnKeeps(m: Mux, closed: bool)
    requires Inv(m)
    ensures Inv(m.(connClosed := closed))
  {
    var m' := m.(connClosed := closed);
    forall o | 0 <= o < |m'.objects| ensures Filtered(m'.objects[o], m'.input) {
      assert Filtered(m.objects[o], m.input);
    }
    forall o | 0 <= o < |m'.objects| ensures Registered(m', o) <==> m'.objects[o].until.None? {
      assert Registered(m, o) <==> m.objects[o].until.None?;
    }
  }

  lemma CloseKeeps(m: Mux, o: nat, marked: Mux)
    requires Inv(m) && Pointers(m) && o < |m.objects| && marked == Replace(m, o, m.objects[o].(done := true))
    ensures Pointers(marked)
    ensures forall closed :: Inv(Forget(marked, m.objects[o].id).(connClosed := closed))
  {
    ReplaceKeeps(m, o, m.objects[o].(done := true));
    ForgetKeeps(marked, m.objects[o].id);
    ConnKeeps(Forget(marked, m.objects[o].id), true);
    ConnKeeps(Forget(marked, m.objects[o].id), false);
  }

  lemma DoKeeps(m: Mux, op: Op)
    requires Inv(m) && Pointers(m) && CanDo(m, op)
    ensures Inv(Do(m, op))
  {
    match op
    case Open(id) => OpenKeeps(m, id);
    case Deliver(message) => DeliverKeeps(m, message);
    case Take(o) =>
      var c := m.objects[o];
      var c' := c.(egress := c.egress[1..], taken := c.taken + [c.egress[0]]);
      assert c'.Dispatched() == c.Dispatched();
      ReplaceKeeps(m, o, c');
    case JoinFailed(o) => ForgetKeeps(m, m.objects[o].id);
    case Close(o) =>
      if !m.objects[o].done {
        CloseKeeps(m, o, Replace(m, o, m.objects[o].(done := true)));
      }
  }

  /** Over every run, demultiplexing agrees with filtering the input. */
  lemma {:induction false} DispatchIsFiltering(ops: seq<Op>, m: Mux)
    requires Execute(ops) == Some(m)
    ensures Inv(m)
    decreases |ops|
  {
    if |ops| > 0 {
      var before := Execute(ops[..|ops| - 1]).value;
      DispatchIsFiltering(ops[..|ops| - 1], before);
      DoKeeps(before, ops[|ops| - 1]);
    }
  }

  lemma Extend(ops: seq<Op>, m: Mux, op: Op)
    requires Execute(ops) == Some(m) && CanDo(m, op)
    ensures Execute(ops + [op]) == Some(Do(m, op))
  {
    assert (ops + [op])[..|ops|] == ops;
  }

  lemma IdsStep(m: Mux, op: Op, m': Mux, o: nat)
    requires Pointers(m) && CanDo(m, op) && m' == Do(m, op) && o < |m'.objects|
    ensures if o < |m.objects| then m'.objects[o].id == m.objects[o].id else |m'.objects[o].id| >= 5
  {
  }

  /** Every channel has an id Channel could slice. */
  lemma {:induction false} IdsAreLong(ops: seq<Op>, m: Mux, o: nat)
    requires Execute(ops) == Some(m) && o < |m.objects|
    ensures |m.objects[o].id| >= 5
    decreases |ops|
  {
    var before := Execute(ops[..|ops| - 1]).value;
    IdsStep(before, ops[|ops| - 1], m, o);
    if o < |before.objects| {
      IdsAreLong(ops[..|ops| - 1], before, o);
    }
  }

  /** A channel opened before any message of its id was given the whole filtered input so far. */
  lemma FirstChannelSeesAll(c: ClientChannel, input: seq<Message>) returns (end: nat)
    requires Filtered(c, input) && c.since <= |input| && ForRoom(c.id, input[..c.since]) == []
    ensures end <= |input| && c.Dispatched() == ForRoom(c.id, input[..end])
  {
    end := if c.until.Some? then c.until.value else |input|;
    assert input[..end] == input[..c.since] + input[c.since..end];
    ForRoomConcat(c.id, input[..c.since], input[c.since..end]);
  }

  // ----- Close marks its channel

  lemma DoneStep(m: Mux, op: Op, m': Mux, o: nat)
    requires Pointers(m) && CanDo(m, op) && m' == Do(m, op) && o < |m'.objects|
    ensures m'.objects[o].done <==> op == Close(o) || (o < |m.objects| && m.objects[o].done)
  {
  }

  lemma ObjectsGrow(m: Mux, op: Op)
    requires Pointers(m) && CanDo(m, op)
    ensures |m.objects| <= |Do(m, op).objects|
  {
  }

  /** Over every run, a channel is done exactly when Close was called on it. */
  lemma {:induction false} DoneExactly(ops: seq<Op>, m: Mux, o: nat)
    requires Execute(ops) == Some(m)
    ensures if o < |m.objects| then m.objects[o].done <==> Close(o) in ops else Close(o) !in ops
    decreases |ops|
  {
    if |ops| > 0 {
      var front, last := ops[..|ops| - 1], ops[|ops| - 1];
      var before := Execute(front).value;
      assert ops == front + [last];
      DoneExactly(front, before, o);
      ObjectsGrow(before, last);
      if o < |m.objects| {
        DoneStep(before, last, m, o);
      }
    }
  }

  /** After one Close, another one changes nothing, whatever happened in between. */
  lemma CloseTwiceIsOnce(ops: seq<Op>, m: Mux, o: nat)
    requires Execute(ops) == Some(m) && Close(o) in ops
    ensures o < |m.objects| && Do(m, Close(o)) == m
  {
    DoneExactly(ops, m, o);
  }

  /** The call number k is the first Close of its channel, and it left the map empty. */
  ghost predicate EmptiedBy(ops: seq<Op>, k: nat) {
    && k < |ops| && ops[k].Close? && ops[k] !in ops[..k]
    && Execute(ops[..k + 1]).Some? && Execute(ops[..k + 1]).value.channels == map[]
  }

  lemma EmptiedBefore(ops: seq<Op>, k: nat)
    requires |ops| > 0 && k < |ops| - 1
    ensures EmptiedBy(ops, k) <==> EmptiedBy(ops[..|ops| - 1], k)
  {
    var front := ops[..|ops| - 1];
    assert front[..k] == ops[..k] && front[..k + 1] == ops[..k + 1];
  }

  /** The connection to the relay is closed exactly when some Close has left no channel in the map. */
  lemma {:induction false} ConnClosedExactly(ops: seq<Op>, m: Mux)
    requires Execute(ops) == Some(m)
    ensures m.connClosed <==> exists k :: EmptiedBy(ops, k)
    decreases |ops|
  {
    if |ops| > 0 {
      var n := |ops| - 1;
      var before := Execute(ops[..n]).value;
      ConnClosedExactly(ops[..n], before);
      ConnStep(ops, before, m);
      forall k | 0 <= k < n ensures EmptiedBy(ops, k) <==> EmptiedBy(ops[..n], k) {
        EmptiedBefore(ops, k);
      }
      if before.connClosed {
        var k :| EmptiedBy(ops[..n], k);
        assert EmptiedBy(ops, k);
      }
    }
  }

  lemma ConnDo(m: Mux, op: Op, m': Mux)
    requires Pointers(m) && CanDo(m, op) && m' == Do(m, op)
    ensures m'.connClosed <==> m.connClosed || (op.Close? && !m.objects[op.o].done && m'.channels == map[])
  {
  }

  lemma ConnStep(ops: seq<Op>, before: Mux, m: Mux)
    requires |ops| > 0 && Execute(ops[..|ops| - 1]) == Some(before) && Execute(ops) == Some(m)
    ensures m.connClosed <==> before.connClosed || EmptiedBy(ops, |ops| - 1)
  {
    var last := ops[|ops| - 1];
    assert ops[..|ops|] == ops;
    ConnDo(before, last, m);
    if last.Close? {
      DoneExactly(ops[..|ops| - 1], before, last.o);
    }
  }

  // ----- Removal goes by id

  /** The two operations that remove by id: Close, unless it was called before, and a failed join. */
  predicate Removes(m: Mux, op: Op)
    requires (op.Close? || op.JoinFailed?) && op.o < |m.objects|
  {
    op.JoinFailed? || !m.objects[op.o].done
  }

  /** A failed join always removes, and Close the first time it is called; then the id is gone from the map. */
  lemma RemovesExactly(ops: seq<Op>, m: Mux, op: Op)
    requires Execute(ops) == Some(m) && (op.Close? || op.JoinFailed?) && op.o < |m.objects|
    ensures Removes(m, op) <==> op.JoinFailed? || op !in ops
    ensures Do(m, op).channels == if Removes(m, op) then m.channels - {m.objects[op.o].id} else m.channels
  {
    DoneExactly(ops, m, op.o);
  }

  /** No channel but o goes from the map. */
  predicate OthersStay(m: Mux, m': Mux, o: nat)
    requires |m'.objects| == |m.objects|
  {
    forall p :: 0 <= p < |m.objects| && p != o && Registered(m, p) ==> Registered(m', p)
  }

  lemma ForgetExactly(m: Mux, o: nat)
    requires Inv(m) && Pointers(m) && o < |m.objects|
    ensures OthersStay(m, Forget(m, m.objects[o].id), o)
            <==> (m.objects[o].id in m.channels ==> m.channels[m.objects[o].id] == o)
  {
    var id := m.objects[o].id;
    if id in m.channels && m.channels[id] != o {
      assert Registered(m, m.channels[id]);
    }
  }

  /** Either takes no other channel out of the map exactly when its id does not lead to another one. */
  lemma RemovalDropsOnlyItselfExactly(ops: seq<Op>, m: Mux, op: Op, m': Mux)
    requires Execute(ops) == Some(m) && (op.Close? || op.JoinFailed?) && op.o < |m.objects| && m' == Do(m, op)
    ensures |m'.objects| == |m.objects|
    ensures var id := m.objects[op.o].id;
            OthersStay(m, m', op.o) <==> !(Removes(m, op) && id in m.channels && m.channels[id] != op.o)
  {
    DispatchIsFiltering(ops, m);
    if op.JoinFailed? {
      ForgetExactly(m, op.o);
    } else if !m.objects[op.o].done {
      var closed := m.objects[op.o].(done := true);
      ReplaceKeeps(m, op.o, closed);
      ForgetExactly(Replace(m, op.o, closed), op.o);
      assert forall p :: 0 <= p < |m.objects| ==> Registered(m, p) == Registered(Replace(m, op.o, closed), p);
    }
  }

  /**
   The other case happens: a second caller shares a channel whose join then fails;
   closing that handle removes the channel opened after it.
   */
  lemma StaleCloseIsPossible() returns (ops: seq<Op>, m: Mux)
    ensures Execute(ops) == Some(m) && |m.objects| == 2 && !m.objects[0].done && Registered(m, 1)
    ensures !Registered(Do(m, Close(0)), 1) && !Do(m, Close(0)).objects[1].done
  {
    var open, failed := Open("room-1"), JoinFailed(0);
    var m1 := Do(Unused, open);
    assert Execute([open]) == Some(m1) by {
      assert [open][..0] == [];
    }
    assert Execute([open, open]) == Some(m1) by {
      assert [open, open][..1] == [open];
    }
    var m2 := Do(m1, failed);
    assert Execute([open, open, failed]) == Some(m2) by {
      assert [open, open, failed][..2] == [open, open];
    }
    ops, m := [open, open, failed, open], Do(m2, open);
    assert ops[..3] == [open, open, failed];
  }

  /**
   So does the other way round: a sharer closes the channel while the call that
   made it still waits in join; when that join fails, a newer channel goes.
   */
  lemma FailedJoinDropsAnother() returns (ops: seq<Op>, m: Mux)
    ensures ops == [] + [Open("room-1")] + [Open("other")] + [Close(0)] + [Open("room-1")]
    ensures Execute(ops) == Some(m) && |m.objects| == 3 && Registered(m, 2)
    ensures !Registered(Do(m, JoinFailed(0)), 2) && !Do(m, JoinFailed(0)).objects[2].done
  {
    var first, second, close := Open("room-1"), Open("other"), Close(0);
    Extend([], Unused, first);
    var m1 := Do(Unused, first);
    Extend([] + [first], m1, second);
    var m2 := Do(m1, second);
    Extend([] + [first] + [second], m2, close);
    var m3 := Do(m2, close);
    Extend([] + [first] + [second] + [close], m3, first);
    ops, m := [] + [first] + [second] + [close] + [first], Do(m3, first);
  }

  lemma {:induction false} ForRoomHasId(id: RoomId, messages: seq<Message>, k: nat)
    requires k < |ForRoom(id, messages)|
    ensures ForRoom(id, messages)[k].id == id
  {
    var before := ForRoom(id, messages[..|messages| - 1]);
    if k < |before| {
      ForRoomHasId(id, messages[..|messages| - 1], k);
    }
  }

  /** A waiting message carries the id of its channel. */
  lemma FrontHasId(m: Mux, o: nat)
    requires Inv(m) && o < |m.objects| && |m.objects[o].egress| > 0
    ensures m.objects[o].egress[0].id == m.objects[o].id
  {
    var c := m.objects[o];
    assert Filtered(c, m.input);
    var end := if c.until.Some? then c.until.value else |m.input|;
    assert c.Dispatched()[|c.taken|] == c.egress[0];
    ForRoomHasId(c.id, m.input[c.since..end], |c.taken|);
  }

  /** A channel's queue holds at most 20 messages, and one more can come exactly below that. */
  lemma {:induction false} QueueOfTwenty(ops: seq<Op>, m: Mux, o: nat)
    requires Execute(ops) == Some(m) && o < |m.objects|
    ensures |m.objects[o].egress| <= 20
    ensures forall message: Message :: Registered(m, o) && message.id == m.objects[o].id && !m.connClosed
              ==> (CanDo(m, Deliver(message)) <==> |m.objects[o].egress| < 20)
    decreases |ops|
  {
    var before, last := Execute(ops[..|ops| - 1]).value, ops[|ops| - 1];
    if o < |before.objects| {
      QueueOfTwenty(ops[..|ops| - 1], before, o);
    }
    QueueStep(before, last, m, o);
  }

  lemma QueueStep(m: Mux, op: Op, m': Mux, o: nat)
    requires Pointers(m) && CanDo(m, op) && m' == Do(m, op) && o < |m'.objects|
    requires o < |m.objects| ==> |m.objects[o].egress| <= QUEUE_SIZE
    ensures |m'.objects[o].egress| <= QUEUE_SIZE
  {
  }

  lemma EmptyMap(channels: map<RoomId, nat>)
    ensures |channels| == 0 <==> channels == map[]
  {
    assert |channels| == |channels.Keys|;
    assert channels.Keys == {} ==> channels == map[];
  }

  // ----- The object

  class Multiplexer {
    var objects: seq<ClientChannel>
    var channels: map<RoomId, nat>
    var input: seq<Message>   // history
    var connClosed: bool

    ghost function View(): Mux
      reads this
    {
      Mux(objects, channels, input, connClosed)
    }

    constructor ()
      ensures View() == Unused && Inv(View())
    {
      objects, channels, connClosed := [], map[], false;
      input := [];
    }

    /** Channel up to the join: an existing channel is shared, a missing one is created. */
    method Channel(id: RoomId) returns (o: nat, existed: bool)
      requires Inv(View()) && |id| >= 5
      modifies this
      ensures Inv(View()) && Pointers(old(View())) && View() == Do(old(View()), Open(id))
      ensures o < |objects| && objects[o].id == id && Registered(View(), o)
      ensures existed <==> id in old(channels)
      ensures existed ==> o == old(channels)[id] && View() == old(View())
      ensures !existed ==> o == |old(objects)| && |objects| == o + 1
      ensures !existed ==> !objects[o].done && objects[o].Dispatched() == []
    {
      assert Pointers(View());
      OpenKeeps(View(), id);
      if id in channels {
        return channels[id], true;
      }
      o, existed := |objects|, false;
      objects := objects + [ClientChannel(id, [], false, [], |input|, None)];
      channels := channels[id := o];
    }

    /** The body of routine() for one relay message. */
    method Route(message: Message)
      requires Inv(View()) && Pointers(View()) && CanDo(View(), Deliver(message))
      modifies this
      ensures Inv(View()) && View() == Do(old(View()), Deliver(message))
    {
      DeliverKeeps(View(), message);
      input := input + [message];
      if message.id !in channels {
        return;
      }
      var p := channels[message.id];
      objects := objects[p := objects[p].(egress := objects[p].egress + [message])];
    }

    /** Close: the first call marks the channel and removes what its id leads to; later ones do nothing. */
    method Close(o: nat)
      requires Inv(View()) && Pointers(View()) && o < |objects|
      modifies this
      ensures Inv(View()) && View() == Do(old(View()), Op.Close(o))
    {
      DoKeeps(View(), Op.Close(o));
      if objects[o].done {
        return;
      }
      MarkAndRemove(o);
      EmptyMap(channels);
      if |channels| == 0 {
        connClosed := true;
      }
    }

    method MarkAndRemove(o: nat)
      requires Pointers(View()) && o < |objects|
      modifies this
      ensures old(Replace(View(), o, objects[o].(done := true))).connClosed == connClosed
      ensures View() == Forget(old(Replace(View(), o, objects[o].(done := true))), old(objects[o].id))
    {
      var id := objects[o].id;
      objects := objects[o := objects[o].(done := true)];
      Remove(id);
    }

    /** delete(m.channels, id) */
    method Remove(id: RoomId)
      requires Pointers(View())
      modifies this
      ensures View() == Forget(old(View()), id)
    {
      if id in channels {
        var p := channels[id];
        objects := objects[p := objects[p].(until := Some(|input|))];
        channels := channels - {id};
      }
    }

    /** Channel after an error of its join. */
    method FailJoin(o: nat)
      requires Inv(View()) && Pointers(View()) && o < |objects|
      modifies this
      ensures Inv(View()) && View() == Do(old(View()), JoinFailed(o))
      ensures channels == old(channels) - {old(objects[o].id)}
    {
      DoKeeps(View(), JoinFailed(o));
      Remove(objects[o].id);
    }

    /** The part of join after its JOIN was sent and a message came: nil exactly on an OK answer. */
    method Join(o: nat) returns (ok: bool)
      requires Inv(View()) && Pointers(View()) && o < |objects| && |objects[o].egress| > 0
      modifies this
      ensures Inv(View()) && View() == Do(old(View()), Take(o)) && o < |objects|
      ensures old(objects[o].taken) == [] ==> (ok <==> JoinReturnsNil(objects[o].Dispatched()))
    {
      var message := TakeNext(o);
      ok := message.JoinResponse? && message.ok;
    }

    /** clientChannel.Receive when a message came: its blob, or an error for anything but an EGRESS. */
    method Receive(o: nat) returns (r: Option<Bytes>)
      requires Inv(View()) && Pointers(View()) && o < |objects| && |objects[o].egress| > 0
      modifies this
      ensures Inv(View()) && View() == Do(old(View()), Take(o))
      ensures forall blob :: r == Some(blob) <==> old(objects[o].egress)[0] == EgressMessage(old(objects[o].id), blob)
    {
      FrontHasId(View(), o);
      var message := TakeNext(o);
      r := if message.EgressMessage? then Some(message.blob) else None;
    }

    method TakeNext(o: nat) returns (message: Message)
      requires Inv(View()) && Pointers(View()) && o < |objects| && |objects[o].egress| > 0
      modifies this
      ensures Inv(View()) && View() == Do(old(View()), Take(o)) && o < |objects|
      ensures message == old(objects[o].egress)[0] && objects[o].taken == old(objects[o].taken) + [message]
      ensures objects[o].Dispatched() == old(objects[o].Dispatched())
    {
      DoKeeps(View(), Take(o));
      var c := objects[o];
      message := c.egress[0];
      objects := objects[o := c.(egress := c.egress[1..], taken := c.taken + [message])];
    }
  }
}
