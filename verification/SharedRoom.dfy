/**
 What sharing a room does to the streams in it. The room of a pair is that of its
 larger ID alone, so two smaller identities that talk to the same larger one meet
 in one room; the relay copies the messages of each to all, and the larger one
 reads them from one channel for both streams.
 */
module SharedRoom {
  import opened Wrappers
  import opened CommonTypes
  import opened RelayRooms
  import opened RelayHistory
  import opened RelayInvariant
  import T = RelayTheorems
  import Demux
  import ChannelId
  import N = NoiseStack

  /** The IDs of a and b are both smaller than that of c. */
  predicate BothSmaller(a: seq<bv8>, b: seq<bv8>, c: seq<bv8>) {
    && |a| >= 8 && |b| >= 8 && |c| >= 8
    && ChannelId.Smaller(ChannelId.ID(a), ChannelId.ID(c))
    && ChannelId.Smaller(ChannelId.ID(b), ChannelId.ID(c))
  }

  lemma SameRoom(a: seq<bv8>, b: seq<bv8>, c: seq<bv8>, hash: string -> string)
    requires BothSmaller(a, b, c)
    ensures ChannelId.ChannelOf(a, c, hash).0 == ChannelId.ChannelOf(b, c, hash).0 == ChannelId.ChannelOf(c, b, hash).0
  {
    ChannelId.CompareIsOrder(ChannelId.ID(a), ChannelId.ID(c));
    ChannelId.CompareIsOrder(ChannelId.ID(b), ChannelId.ID(c));
    ChannelId.RoomOfTheLargerId(a, c, hash);
    ChannelId.RoomOfTheLargerId(b, c, hash);
    ChannelId.ChannelAgreement(b, c, hash);
  }

  lemma {:induction false} CopyAt(j: nat, log: seq<Entry>, to: Address) returns (k: nat)
    requires to in Addresses(CopiesOf(j), log)
    ensures k < |log| && log[k].Egress? && log[k].source == j && log[k].to == to
  {
    var n := |log| - 1;
    if log[n].Egress? && log[n].source == j && log[n].to == to {
      k := n;
    } else {
      k := CopyAt(j, log[..n], to);
    }
  }

  lemma {:induction false} CopyIsSent(log: seq<Entry>, k: nat)
    requires k < |log| && log[k].Egress?
    ensures Demux.EgressMessage(log[k].id, log[k].blob) in T.Outbox(log[k].to, log)
    decreases |log|
  {
    if k < |log| - 1 {
      CopyIsSent(log[..|log| - 1], k);
    }
  }

  /** The message at j was broadcast in the room of a and c, from a member to a member at address `to`. */
  predicate BroadcastTo(s: Relay, j: nat, room: RoomId, to: Address) {
    && j < |s.log| && s.log[j].Consumed? && s.log[j].room < |s.rooms| && s.rooms[s.log[j].room].id == room
    && PendingOf(s.rooms, s.log[j].room, j) == {}
    && s.log[j].from in Members(s.log[j].room, s.log[..j])
    && to in Members(s.log[j].room, s.log[..j]) - {s.log[j].from}
  }

  /** A finished broadcast sent its blob to that member, under the id of the room. */
  lemma BlobIsSent(events: seq<Event>, s: Relay, j: nat, room: RoomId, to: Address)
    requires Execute(events) == Some(s) && BroadcastTo(s, j, room, to)
    ensures Demux.EgressMessage(room, s.log[j].blob) in T.Outbox(to, s.log)
  {
    T.BroadcastOnce(events, s, j);
    var members := Members(s.log[j].room, s.log[..j]);
    assert multiset(members - {s.log[j].from})[to] > 0;
    assert to in multiset(Addresses(CopiesOf(j), s.log));
    var k := CopyAt(j, s.log, to);
    EveryRunKeeps(events, s);
    assert EntrySound(s.rooms, s.log, k);
    CopyIsSent(s.log, k);
  }

  /**
   What a sends to c also reaches, under the same id, the stream between c and b;
   there it is a blob nobody sealed under its keys, and once c has read it, that
   stream is over in every continuation.
   */
  lemma ForeignBlobEndsStream(a: seq<bv8>, b: seq<bv8>, c: seq<bv8>, hash: string -> string,
                              events: seq<Event>, s: Relay, j: nat, to: Address,
                              start: N.Stack, steps: seq<N.Step>, t: N.Stack, junk: nat, nonce: nat,
                              later: seq<N.Step>, t': N.Stack)
    requires BothSmaller(a, b, c)
    requires Execute(events) == Some(s) && BroadcastTo(s, j, ChannelId.ChannelOf(a, c, hash).0, to)
    requires N.Secure(start) && N.Execute(start, steps) == Some(t) && N.CanStepA(t, N.Deliver(N.Forged(junk), None))
    requires N.Execute(N.StepA(t, N.Deliver(N.Forged(junk), None), nonce), later) == Some(t')
    ensures Demux.EgressMessage(ChannelId.ChannelOf(c, b, hash).0, s.log[j].blob) in T.Outbox(to, s.log)
    ensures !t'.a.end.running && t'.a.end.globalErr.Some? && t'.a.unsealed == t.a.unsealed
  {
    SameRoom(a, b, c, hash);
    BlobIsSent(events, s, j, ChannelId.ChannelOf(a, c, hash).0, to);
    N.EveryRunSecure(start, steps, t);
    N.DeviationEndsStream(t, N.Forged(junk), None, nonce, later, t');
  }
}
