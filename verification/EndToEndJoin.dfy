/** A join through the whole path: room worker, FIFO link, multiplexer, clientChannel.join. */
module EndToEndJoin {
  import opened Wrappers
  import opened CommonTypes
  import Demux
  import R = RelayRooms
  import T = RelayTheorems
  import C = RelayContinuations
  import M = Multiplexing

  /** The relay's messages to `c` reached the multiplexer in order, and channel o read an OK answer first. */
  ghost predicate ReturnedNil(events: seq<R.Event>, s: R.Relay, c: Address, ops: seq<M.Op>, m: M.Mux, o: nat) {
    && R.Execute(events) == Some(s) && M.Execute(ops) == Some(m) && m.input <= T.Outbox(c, s.log)
    && o < |m.objects| && Demux.JoinReturnsNil(m.objects[o].Dispatched())
  }

  lemma {:induction false} FromTheRoom(id: RoomId, messages: seq<Demux.Message>, message: Demux.Message)
    requires message in Demux.ForRoom(id, messages)
    ensures message in messages && message.id == id
  {
    var n := |messages| - 1;
    if message in Demux.ForRoom(id, messages[..n]) {
      FromTheRoom(id, messages[..n], message);
    }
  }

  /** When join returns nil on any channel, however often its room was joined before, the relay had added `c`. */
  lemma JoinThroughMultiplexer(events: seq<R.Event>, s: R.Relay, c: Address, ops: seq<M.Op>, m: M.Mux, o: nat)
    requires ReturnedNil(events, s, c, ops, m, o)
    ensures T.WasAdded(s.rooms, s.log, c, m.objects[o].id)
  {
    M.DispatchIsFiltering(ops, m);
    M.IdsAreLong(ops, m, o);
    var ch := m.objects[o];
    assert M.Filtered(ch, m.input);
    var end := if ch.until.Some? then ch.until.value else |m.input|;
    FromTheRoom(ch.id, m.input[ch.since..end], ch.Dispatched()[0]);
    T.JoinNilMeansAdded(events, s, c, ch.id, m.input);
  }

  /** If no message of the room came before the channel, the nil answers the first JOIN `c` queued in it. */
  lemma FirstJoinThroughMultiplexer(events: seq<R.Event>, s: R.Relay, c: Address, ops: seq<M.Op>, m: M.Mux, o: nat)
    returns (k: nat)
    requires ReturnedNil(events, s, c, ops, m, o)
    requires m.objects[o].since <= |m.input| && Demux.ForRoom(m.objects[o].id, m.input[..m.objects[o].since]) == []
    ensures T.AnswersFirstJoin(s.log, k, c, m.objects[o].id)
  {
    M.DispatchIsFiltering(ops, m);
    M.IdsAreLong(ops, m, o);
    var end := M.FirstChannelSeesAll(m.objects[o], m.input);
    k := T.FirstNilAnswersFirstJoin(events, s, c, m.objects[o].id, m.input[..end]);
  }

  /**
   The refusal of a room past the limit carries no id, so no channel is ever given
   it, and the join that was refused waits until it times out.
   */
  lemma RefusalIsDropped(c: Address, log: seq<R.Entry>, k: nat, ops: seq<M.Op>, m: M.Mux, o: nat)
    requires k < |log| && log[k] == R.Refused(c) && M.Execute(ops) == Some(m) && o < |m.objects|
    ensures T.MessageTo(c, log[k]) == [Demux.JoinResponse("", false)]
    ensures Demux.JoinResponse("", false) !in m.objects[o].Dispatched()
  {
    M.DispatchIsFiltering(ops, m);
    M.IdsAreLong(ops, m, o);
    var ch := m.objects[o];
    assert M.Filtered(ch, m.input);
    var end := if ch.until.Some? then ch.until.value else |m.input|;
    if Demux.JoinResponse("", false) in ch.Dispatched() {
      FromTheRoom(ch.id, m.input[ch.since..end], Demux.JoinResponse("", false));
    }
  }

  // ----- The nil may be for an older JOIN

  lemma OneAnswerSent(log: seq<R.Entry>, c: Address, id: RoomId)
    requires log == [R.Queued(0, c, R.Join), R.Queued(0, c, R.Join), R.Responded(0, id, c, true)]
    ensures T.Outbox(c, log) == [Demux.JoinResponse(id, true)]
  {
    var one, two := log[..1], log[..2];
    assert one[..0] == [] && two[..1] == one && two[1] == log[1];
    assert T.Outbox(c, one) == [] && T.Outbox(c, two) == [];
  }

  lemma TwoJoinsOneAnswer() returns (events: seq<R.Event>, s: R.Relay)
    ensures R.Execute(events) == Some(s) && T.Outbox("c", s.log) == [Demux.JoinResponse("room-1", true)]
    ensures |s.rooms| == 1 && s.rooms[0].join == ["c"]
  {
    var join := R.Process("c", "room-1", R.Join);
    C.Extend([], R.Empty, join);
    var s1 := R.Next(R.Empty, join);
    var s2 := C.QueueNext([] + [join], s1, 0, "c", R.Join);
    assert s2 == R.Next(s1, join);
    C.Extend([] + [join] + [join], s2, R.WorkJoin(0));
    events, s := [] + [join] + [join] + [R.WorkJoin(0)], R.Next(s2, R.WorkJoin(0));
    assert s.log == [R.Queued(0, "c", R.Join), R.Queued(0, "c", R.Join), R.Responded(0, "room-1", "c", true)];
    OneAnswerSent(s.log, "c", "room-1");
  }

  lemma TwoChannels() returns (ops: seq<M.Op>, m: M.Mux)
    ensures M.Execute(ops) == Some(m) && m.input == [Demux.JoinResponse("room-1", true)] && |m.objects| == 2
    ensures m.objects[1].since == 0 && m.objects[1].Dispatched() == [Demux.JoinResponse("room-1", true)]
    ensures m.objects[1].id == "room-1"
  {
    var open, failed, answer := M.Open("room-1"), M.JoinFailed(0), M.Deliver(Demux.JoinResponse("room-1", true));
    M.Extend([], M.Unused, open);
    var m1 := M.Do(M.Unused, open);
    M.Extend([] + [open], m1, failed);
    var m2 := M.Do(m1, failed);
    M.Extend([] + [open] + [failed], m2, open);
    var m3 := M.Do(m2, open);
    M.Extend([] + [open] + [failed] + [open], m3, answer);
    ops, m := [] + [open] + [failed] + [open] + [answer], M.Do(m3, answer);
  }

  /**
   A first join timed out and a second one was sent: the answer to the first makes
   the second return nil, on the first message of the room, while its own JOIN waits.
   */
  lemma NilForAnOlderJoin() returns (events: seq<R.Event>, s: R.Relay, ops: seq<M.Op>, m: M.Mux)
    ensures ReturnedNil(events, s, "c", ops, m, 1) && m.objects[1].since == 0
    ensures |s.rooms| == 1 && s.rooms[0].join == ["c"]
  {
    events, s := TwoJoinsOneAnswer();
    ops, m := TwoChannels();
  }
}
