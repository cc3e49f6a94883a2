/** Messages of a relay connection and their routing by channel id. */
module Demux {
  import opened CommonTypes

  datatype Message = JoinResponse(id: RoomId, ok: bool) | EgressMessage(id: RoomId, blob: Bytes)

  /** The messages that carry one id, in order. */
  function ForRoom(id: RoomId, messages: seq<Message>): seq<Message> {
    if |messages| == 0 then []
    else
      var last := messages[|messages| - 1];
      ForRoom(id, messages[..|messages| - 1]) + (if last.id == id then [last] else [])
  }

  lemma {:induction false} ForRoomConcat(id: RoomId, xs: seq<Message>, ys: seq<Message>)
    ensures ForRoom(id, xs + ys) == ForRoom(id, xs) + ForRoom(id, ys)
    decreases |ys|
  {
    if |ys| == 0 {
      assert xs + ys == xs;
    } else {
      var n := |ys| - 1;
      ForRoomConcat(id, xs, ys[..n]);
      assert (xs + ys)[..|xs| + n] == xs + ys[..n];
    }
  }

  /** What clientChannel.join makes of the messages dispatched to its channel. */
  predicate JoinReturnsNil(dispatched: seq<Message>) {
    |dispatched| > 0 && dispatched[0].JoinResponse? && dispatched[0].ok
  }
}
