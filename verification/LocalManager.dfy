/**
 The in-memory connections of network/local.go. A `LocalConn` is identified by
 its local endpoint, whose uid is never reused; `objects` is the heap of all
 connections ever made and `conns` the keys of the manager's map.
 */
module LocalManagerObject {
  import opened Wrappers
  import opened ByteCounts
  import opened CommonTypes
  import opened Subsequences

  const LOCAL_MAX_BUFFER: nat := 200

  datatype Endpoint = Endpoint(addr: Address, uid: nat)

  datatype LocalConn = LocalConn(
    local: Endpoint,
    remote: Endpoint,
    incomingQueue: seq<Bytes>,
    hand: Option<Bytes>,        // taken from incomingQueue by start(), not yet in outgoingQueue
    outgoingQueue: seq<Bytes>,
    closes: nat,                // how often closeChannels ran; the queues are closed once it has
    tx: nat,
    rx: nat,
    attempted: seq<Bytes>,      // history: messages given to Send
    sent: seq<Bytes>,           // history: those whose Send returned nil
    received: seq<Bytes>        // history: messages handed out by Receive
  ) {
    predicate Closed() {
      closes > 0
    }

    /** Everything on its way to Receive, oldest first. */
    function Pipeline(): seq<Bytes> {
      received + outgoingQueue + (if hand.Some? then [hand.value] else []) + incomingQueue
    }
  }

  function NewConn(local: Endpoint, remote: Endpoint): LocalConn {
    LocalConn(local, remote, [], None, [], 0, 0, 0, [], [], [])
  }

  /** What flows from `from` to `to`: in order and complete while open, a prefix ever after. */
  predicate Flow(from: LocalConn, to: LocalConn) {
    && (if to.Closed() then to.received + to.outgoingQueue <= from.sent else to.Pipeline() == from.sent)
    && to.rx == Total(to.received)
    && from.tx == Total(from.attempted) && IsSubsequence(from.sent, from.attempted)
  }

  /**
   Both ends are open or both are closed, except while a close that holds the
   manager's lock has shut its own end and has still to shut `closing`.
   */
  predicate Together(c: LocalConn, d: LocalConn, closing: Option<Endpoint>) {
    && c.closes <= 1 && d.closes <= 1
    && (c.closes == d.closes || closing == Some(if c.Closed() then d.local else c.local))
  }

  /** Two endpoints of one connection point at each other and are open or closed together. */
  predicate Paired(objects: map<Endpoint, LocalConn>, e: Endpoint, closing: Option<Endpoint>)
    requires e in objects
  {
    var c := objects[e];
    && c.local == e && c.remote in objects && c.remote != e
    && objects[c.remote].remote == e
    && Together(c, objects[c.remote], closing)
    && Flow(c, objects[c.remote])
  }

  ghost predicate AllPaired(objects: map<Endpoint, LocalConn>, closing: Option<Endpoint>) {
    forall e :: e in objects ==> Paired(objects, e, closing)
  }

  /** Uids are distinct and below the counter. */
  ghost predicate Numbered(endpoints: set<Endpoint>, counter: nat) {
    && (forall e :: e in endpoints ==> e.uid < counter)
    && (forall e, f {:trigger e.uid, f.uid} :: e in endpoints && f in endpoints && e.uid == f.uid ==> e == f)
  }

  ghost predicate OpenOnes(objects: map<Endpoint, LocalConn>, conns: set<Endpoint>) {
    forall e {:trigger e in conns} :: e in conns <==> e in objects && !objects[e].Closed()
  }

  /** The manager's invariant over its connections, its map keys and its counter. */
  ghost predicate Consistent(objects: map<Endpoint, LocalConn>, conns: set<Endpoint>, counter: nat,
                             closing: Option<Endpoint>)
  {
    && AllPaired(objects, closing) && Numbered(objects.Keys, counter) && OpenOnes(objects, conns)
    && (closing.Some? ==> closing.value in conns)
  }

  /** closeChannels: the goroutine closes both queues; only the outgoing one can still be drained. */
  function Shut(c: LocalConn): LocalConn {
    c.(closes := c.closes + 1, incomingQueue := [])
  }

  // ----- One connection

  lemma SendFlow(c: LocalConn, d: LocalConn, message: Bytes)
    requires Flow(c, d) && Flow(d, c) && !d.Closed()
    ensures Flow(Sending(c, message), Arriving(d, message)) && Flow(Arriving(d, message), Sending(c, message))
  {
    assert Arriving(d, message).Pipeline() == d.Pipeline() + [message];
    assert Sending(c, message).Pipeline() == c.Pipeline();
    TotalAppend(c.attempted, message);
    Kept(c.sent, c.attempted, message);
  }

  lemma CountFlow(c: LocalConn, d: LocalConn, message: Bytes)
    requires Flow(c, d) && Flow(d, c)
    ensures Flow(Counting(c, message), d) && Flow(d, Counting(c, message))
  {
    assert Counting(c, message).Pipeline() == c.Pipeline();
    TotalAppend(c.attempted, message);
    Dropped(c.sent, c.attempted, message);
  }

  lemma PickFlow(c: LocalConn, d: LocalConn)
    requires Flow(c, d) && Flow(d, c) && c.hand.None? && |c.incomingQueue| > 0
    ensures Flow(Picked(c), d) && Flow(d, Picked(c))
  {
    assert Picked(c).Pipeline() == c.Pipeline();
  }

  lemma PutFlow(c: LocalConn, d: LocalConn)
    requires Flow(c, d) && Flow(d, c) && c.hand.Some? && !c.Closed()
    ensures Flow(PutOut(c), d) && Flow(d, PutOut(c))
  {
    assert PutOut(c).Pipeline() == c.Pipeline();
  }

  lemma ReceiveFlow(c: LocalConn, d: LocalConn)
    requires Flow(c, d) && Flow(d, c) && |c.outgoingQueue| > 0
    ensures Flow(Drained(c), d) && Flow(d, Drained(c))
  {
    assert Drained(c).received + Drained(c).outgoingQueue == c.received + c.outgoingQueue;
    assert Drained(c).Pipeline() == c.Pipeline();
    TotalAppend(c.received, c.outgoingQueue[0]);
  }

  lemma ShutFlow(c: LocalConn, d: LocalConn)
    requires Flow(c, d) && Flow(d, c) && !c.Closed() && c.hand.None?
    ensures Flow(Shut(c), d) && Flow(d, Shut(c))
  {
    assert c.Pipeline() == (c.received + c.outgoingQueue) + c.incomingQueue;
  }

  function Counting(c: LocalConn, message: Bytes): LocalConn {
    c.(tx := c.tx + |message|, attempted := c.attempted + [message])
  }

  function Sending(c: LocalConn, message: Bytes): LocalConn {
    Counting(c, message).(sent := c.sent + [message])
  }

  function Arriving(d: LocalConn, message: Bytes): LocalConn {
    d.(incomingQueue := d.incomingQueue + [message])
  }

  function Picked(c: LocalConn): LocalConn
    requires |c.incomingQueue| > 0
  {
    c.(hand := Some(c.incomingQueue[0]), incomingQueue := c.incomingQueue[1..])
  }

  function PutOut(c: LocalConn): LocalConn
    requires c.hand.Some?
  {
    c.(hand := None, outgoingQueue := c.outgoingQueue + [c.hand.value])
  }

  function Drained(c: LocalConn): LocalConn
    requires |c.outgoingQueue| > 0
  {
    var message := c.outgoingQueue[0];
    c.(outgoingQueue := c.outgoingQueue[1..], rx := c.rx + |message|, received := c.received + [message])
  }

  // ----- The whole manager

  /** Every other connection has both ends elsewhere, open or closed together. */
  lemma OtherPair(objects: map<Endpoint, LocalConn>, closing: Option<Endpoint>, after: Option<Endpoint>, e: Endpoint,
                  g: Endpoint)
    requires AllPaired(objects, closing) && e in objects && g in objects && g != e && g != objects[e].remote
    requires closing == after || closing == None || closing == Some(e) || closing == Some(objects[e].remote)
    ensures Paired(objects, g, after) && objects[g].remote != e && objects[g].remote != objects[e].remote
  {
    assert Paired(objects, e, closing) && Paired(objects, g, closing);
    assert Paired(objects, objects[e].remote, closing) && Paired(objects, objects[g].remote, closing);
  }

  /** A change of both ends of one connection that its two directions survive; `after` is being closed then. */
  lemma ReplaceKeeps(objects: map<Endpoint, LocalConn>, closing: Option<Endpoint>, after: Option<Endpoint>,
                     e: Endpoint, f: Endpoint, c: LocalConn, d: LocalConn)
    requires AllPaired(objects, closing) && e in objects && f == objects[e].remote
    requires c.local == e && c.remote == f && d.local == f && d.remote == e && Together(c, d, after)
    requires closing == after || closing == None || closing == Some(f)
    requires Flow(c, d) && Flow(d, c)
    ensures AllPaired(objects[e := c][f := d], after) && objects[e := c][f := d].Keys == objects.Keys
  {
    assert Paired(objects, e, closing);
    var objects' := objects[e := c][f := d];
    forall g | g in objects' ensures Paired(objects', g, after) {
      if g != e && g != f {
        OtherPair(objects, closing, after, e, g);
      }
    }
  }

  lemma OpenAsBefore(objects: map<Endpoint, LocalConn>, conns: set<Endpoint>, e: Endpoint, f: Endpoint, c: LocalConn,
                     d: LocalConn)
    requires OpenOnes(objects, conns) && e in objects && f in objects
    requires c.closes == objects[e].closes && d.closes == objects[f].closes
    ensures OpenOnes(objects[e := c][f := d], conns)
  {
  }

  lemma OpenButOne(objects: map<Endpoint, LocalConn>, conns: set<Endpoint>, e: Endpoint, c: LocalConn)
    requires OpenOnes(objects, conns) && e in objects && c.Closed()
    ensures OpenOnes(objects[e := c], conns - {e})
  {
  }

  /** Replacing the two ends of a connection, open as before. */
  lemma UpdateKeeps(objects: map<Endpoint, LocalConn>, conns: set<Endpoint>, counter: nat, closing: Option<Endpoint>,
                    e: Endpoint, f: Endpoint, c: LocalConn, d: LocalConn)
    requires Consistent(objects, conns, counter, closing) && e in objects && f == objects[e].remote
    requires c.local == e && c.remote == f && d.local == f && d.remote == e
    requires f in objects && c.closes == objects[e].closes && d.closes == objects[f].closes && Flow(c, d) && Flow(d, c)
    ensures Consistent(objects[e := c][f := d], conns, counter, closing)
  {
    assert Paired(objects, e, closing);
    ReplaceKeeps(objects, closing, closing, e, f, c, d);
    OpenAsBefore(objects, conns, e, f, c, d);
  }

  /** Replacing one end only. */
  lemma UpdateOneKeeps(objects: map<Endpoint, LocalConn>, conns: set<Endpoint>, counter: nat,
                       closing: Option<Endpoint>, e: Endpoint, c: LocalConn)
    requires Consistent(objects, conns, counter, closing) && e in objects
    requires c.local == e && c.remote == objects[e].remote && c.closes == objects[e].closes
    requires c.remote in objects && Flow(c, objects[c.remote]) && Flow(objects[c.remote], c)
    ensures Consistent(objects[e := c], conns, counter, closing)
  {
    assert Paired(objects, e, closing) && Paired(objects, c.remote, closing);
    UpdateKeeps(objects, conns, counter, closing, e, c.remote, c, objects[c.remote]);
    assert objects[e := c][c.remote := objects[c.remote]] == objects[e := c];
  }

  /** The two directions of a connection. */
  lemma Directions(objects: map<Endpoint, LocalConn>, conns: set<Endpoint>, counter: nat, closing: Option<Endpoint>,
                   e: Endpoint)
    requires Consistent(objects, conns, counter, closing) && e in objects
    ensures var f := objects[e].remote;
            && f in objects && f != e && objects[e].local == e && objects[f].local == f && objects[f].remote == e
            && Together(objects[e], objects[f], closing) && (closing.None? ==> (e in conns <==> f in conns))
            && Flow(objects[e], objects[f]) && Flow(objects[f], objects[e])
  {
    assert Paired(objects, e, closing) && Paired(objects, objects[e].remote, closing);
  }

  lemma ConnectPairs(objects: map<Endpoint, LocalConn>, e: Endpoint, f: Endpoint)
    requires AllPaired(objects, None) && e !in objects && f !in objects && e != f
    ensures AllPaired(objects[e := NewConn(e, f)][f := NewConn(f, e)], None)
  {
    var objects' := objects[e := NewConn(e, f)][f := NewConn(f, e)];
    forall g | g in objects' ensures Paired(objects', g, None) {
      if g in objects {
        assert Paired(objects, g, None);
      }
    }
  }

  lemma ConnectKeeps(objects: map<Endpoint, LocalConn>, conns: set<Endpoint>, counter: nat, e: Endpoint, f: Endpoint)
    requires Consistent(objects, conns, counter, None) && e.uid == counter && f.uid == counter + 1
    ensures e !in objects && f !in objects
    ensures Consistent(objects[e := NewConn(e, f)][f := NewConn(f, e)], conns + {e} + {f}, counter + 2, None)
  {
    ConnectPairs(objects, e, f);
    assert objects[e := NewConn(e, f)][f := NewConn(f, e)].Keys == objects.Keys + {e} + {f};
  }

  /** A change of one end only. */
  lemma ReplaceOneKeeps(objects: map<Endpoint, LocalConn>, closing: Option<Endpoint>, after: Option<Endpoint>,
                        e: Endpoint, f: Endpoint, c: LocalConn)
    requires AllPaired(objects, closing) && e in objects && f == objects[e].remote && f in objects
    requires c.local == e && c.remote == f && Together(c, objects[f], after) && Together(objects[f], c, after)
    requires closing == None || closing == Some(e)
    requires Flow(c, objects[f]) && Flow(objects[f], c)
    ensures AllPaired(objects[e := c], after) && objects[e := c].Keys == objects.Keys
  {
    assert Paired(objects, e, closing) && Paired(objects, f, closing);
    var objects' := objects[e := c];
    forall g | g in objects' ensures Paired(objects', g, after) {
      if g != e && g != f {
        OtherPair(objects, closing, after, e, g);
      }
    }
  }

  /** An end that is open is shut; its peer is then being closed, or has been. */
  lemma ShutTogether(c: LocalConn, d: LocalConn, closing: Option<Endpoint>, after: Option<Endpoint>)
    requires Together(c, d, closing) && !c.Closed() && c.local != d.local
    requires (closing == None || closing == Some(c.local))
    requires (closing == None && after == Some(d.local)) || (closing == Some(c.local) && d.Closed() && after == None)
    ensures Together(Shut(c), d, after) && Together(d, Shut(c), after)
  {
  }

  lemma ShutPairs(objects: map<Endpoint, LocalConn>, closing: Option<Endpoint>,
                  e: Endpoint, f: Endpoint, after: Option<Endpoint>)
    requires AllPaired(objects, closing) && e in objects && f == objects[e].remote && f in objects
    requires objects[e].hand.None? && !objects[e].Closed()
    requires (closing == None && after == Some(f)) || (closing == Some(e) && objects[f].Closed() && after == None)
    ensures AllPaired(objects[e := Shut(objects[e])], after) && objects[e := Shut(objects[e])].Keys == objects.Keys
  {
    assert Paired(objects, e, closing) && Paired(objects, f, closing);
    ShutFlow(objects[e], objects[f]);
    ShutTogether(objects[e], objects[f], closing, after);
    ReplaceOneKeeps(objects, closing, after, e, f, Shut(objects[e]));
  }

  /** The first end is shut, and its peer is being closed. */
  lemma ShutFirst(objects: map<Endpoint, LocalConn>, conns: set<Endpoint>, counter: nat, e: Endpoint, f: Endpoint)
    requires Consistent(objects, conns, counter, None) && e in conns && f == objects[e].remote && f in objects
    requires objects[e].hand.None? && f in conns - {e}
    ensures Consistent(objects[e := Shut(objects[e])], conns - {e}, counter, Some(f))
  {
    ShutPairs(objects, None, e, f, Some(f));
    OpenButOne(objects, conns, e, Shut(objects[e]));
  }

  /** The second end is shut. */
  lemma ShutSecond(objects: map<Endpoint, LocalConn>, conns: set<Endpoint>, counter: nat, e: Endpoint, f: Endpoint)
    requires Consistent(objects, conns, counter, Some(e)) && e in conns && f == objects[e].remote && f in objects
    requires objects[e].hand.None? && objects[f].Closed()
    ensures Consistent(objects[e := Shut(objects[e])], conns - {e}, counter, None)
  {
    ShutPairs(objects, Some(e), e, f, None);
    OpenButOne(objects, conns, e, Shut(objects[e]));
  }

  // ----- What every state promises

  lemma {:induction false} PairsAreEven(objects: map<Endpoint, LocalConn>, s: set<Endpoint>)
    requires forall e :: e in s ==> e in objects && objects[e].remote in s && objects[e].remote != e
    requires forall e :: e in s ==> objects[objects[e].remote].remote == e
    ensures |s| % 2 == 0
    decreases |s|
  {
    if s != {} {
      var e :| e in s;
      var f := objects[e].remote;
      var rest := s - {e} - {f};
      assert |s - {e}| == |s| - 1 && |rest| == |s| - 2;
      PairsAreEven(objects, rest);
    }
  }

  /** len() is always even. */
  lemma OpenConnectionsAreEven(objects: map<Endpoint, LocalConn>, conns: set<Endpoint>, counter: nat)
    requires Consistent(objects, conns, counter, None)
    ensures |conns| % 2 == 0
  {
    forall e | e in conns
      ensures objects[e].remote in conns && objects[objects[e].remote].remote == e && objects[e].remote != e
    {
      assert Paired(objects, e, None);
    }
    PairsAreEven(objects, conns);
  }

  /** Received is a prefix of sent, and a receiver never counts more bytes than its peer. */
  lemma ReceivedIsPrefix(objects: map<Endpoint, LocalConn>, conns: set<Endpoint>, counter: nat,
                         closing: Option<Endpoint>, e: Endpoint)
    requires Consistent(objects, conns, counter, closing) && e in objects
    ensures objects[e].remote in objects
    ensures objects[objects[e].remote].received <= objects[e].sent
    ensures objects[objects[e].remote].rx <= objects[e].tx
  {
    assert Paired(objects, e, closing);
    var to := objects[objects[e].remote];
    assert to.received <= to.received + to.outgoingQueue;
    assert to.received <= to.Pipeline();
    TotalPrefix(to.received, objects[e].sent);
    TotalOfFewer(objects[e].sent, objects[e].attempted);
  }

  /** Once every Send succeeded and all was received, what one end counted sent is what the other counted received. */
  lemma CountersAgree(objects: map<Endpoint, LocalConn>, conns: set<Endpoint>, counter: nat,
                      closing: Option<Endpoint>, e: Endpoint)
    requires Consistent(objects, conns, counter, closing) && e in objects && objects[e].remote in objects
    requires objects[e].sent == objects[e].attempted && objects[objects[e].remote].received == objects[e].sent
    ensures objects[e].tx == objects[objects[e].remote].rx
  {
    assert Paired(objects, e, closing);
  }

  class LocalManager {
    var objects: map<Endpoint, LocalConn>
    var conns: set<Endpoint>
    var listening: set<Address>
    var counter: nat
    ghost var closing: Option<Endpoint>   // the end a close in progress, which holds the lock, has still to shut

    ghost predicate Valid()
      reads this
    {
      Consistent(objects, conns, counter, closing)
    }

    constructor ()
      ensures Valid() && objects == map[] && listening == {} && closing == None
    {
      objects, conns, listening, counter, closing := map[], {}, {}, 0, None;
    }

    method SetListening(addr: Address, on: bool)
      requires Valid() && closing == None
      modifies this`listening
      ensures Valid() && listening == if on then old(listening) + {addr} else old(listening) - {addr}
    {
      listening := if on then listening + {addr} else listening - {addr};
    }

    method Len() returns (n: nat)
      requires Valid() && closing == None
      ensures n == |conns| && n % 2 == 0
    {
      OpenConnectionsAreEven(objects, conns, counter);
      n := |conns|;
    }

    method Connect(local: Address, remote: Address) returns (r: Option<Endpoint>)
      requires Valid() && closing == None
      modifies this
      ensures Valid() && closing == None && listening == old(listening)
      ensures r.Some? <==> remote in listening
      ensures r.None? ==> objects == old(objects) && conns == old(conns)
      ensures r.Some? ==>
                var e := r.value;
                var f := Endpoint(remote, e.uid + 1);
                && e.addr == local && e !in old(objects) && f !in old(objects)
                && objects == old(objects)[e := NewConn(e, f)][f := NewConn(f, e)]
                && conns == old(conns) + {e} + {f}
    {
      if remote !in listening {
        return None;
      }
      var outEndpoint, incEndpoint := Endpoint(local, counter), Endpoint(remote, counter + 1);
      ConnectKeeps(objects, conns, counter, outEndpoint, incEndpoint);
      counter := counter + 2;
      objects := objects[outEndpoint := NewConn(outEndpoint, incEndpoint)]
                        [incEndpoint := NewConn(incEndpoint, outEndpoint)];
      conns := conns + {outEndpoint} + {incEndpoint};
      r := Some(outEndpoint);
    }

    /** LocalConn.Send with the marshalled message; a full queue blocks. */
    method Send(e: Endpoint, message: Bytes) returns (ok: bool)
      requires Valid() && closing == None && e in objects
      requires objects[e].remote in conns ==> |objects[objects[e].remote].incomingQueue| < LOCAL_MAX_BUFFER
      modifies this`objects
      ensures Valid()
      ensures ok <==> old(objects[e]).remote in conns
      ensures e in objects && objects[e].tx == old(objects[e]).tx + |message|
      ensures ok ==> objects[e].remote in objects && |objects[objects[e].remote].incomingQueue| <= 200
      ensures !ok ==> objects == old(objects)[e := Counting(old(objects[e]), message)]
      ensures ok ==>
                var f := old(objects[e]).remote;
                objects == old(objects)[e := Sending(old(objects[e]), message)][f := Arriving(old(objects)[f], message)]
    {
      var c := objects[e];
      Directions(objects, conns, counter, closing, e);
      if c.remote !in conns {
        CountFlow(c, objects[c.remote], message);
        UpdateOneKeeps(objects, conns, counter, closing, e, Counting(c, message));
        objects := objects[e := Counting(c, message)];
        return false;
      }
      var q := objects[c.remote];
      assert !q.Closed();
      SendFlow(c, q, message);
      UpdateKeeps(objects, conns, counter, closing, e, c.remote, Sending(c, message), Arriving(q, message));
      objects := objects[e := Sending(c, message)][c.remote := Arriving(q, message)];
      ok := true;
    }

    /** start(): take the next message of the incoming queue. */
    method Pick(e: Endpoint)
      requires Valid() && e in objects && !objects[e].Closed() && objects[e].hand.None?
      requires |objects[e].incomingQueue| > 0
      modifies this`objects
      ensures Valid() && objects == old(objects)[e := Picked(old(objects[e]))]
    {
      Directions(objects, conns, counter, closing, e);
      PickFlow(objects[e], objects[objects[e].remote]);
      UpdateOneKeeps(objects, conns, counter, closing, e, Picked(objects[e]));
      objects := objects[e := Picked(objects[e])];
    }

    /** start(): put the message taken into the outgoing queue, which is still open. */
    method Put(e: Endpoint)
      requires Valid() && e in objects && !objects[e].Closed() && objects[e].hand.Some?
      requires |objects[e].outgoingQueue| < LOCAL_MAX_BUFFER
      modifies this`objects
      ensures Valid() && objects == old(objects)[e := PutOut(old(objects[e]))] && |objects[e].outgoingQueue| <= 200
    {
      Directions(objects, conns, counter, closing, e);
      PutFlow(objects[e], objects[objects[e].remote]);
      UpdateOneKeeps(objects, conns, counter, closing, e, PutOut(objects[e]));
      objects := objects[e := PutOut(objects[e])];
    }

    /** Receive: a closed queue is drained before it reports ErrClosed; an open empty one blocks. */
    method Receive(e: Endpoint) returns (r: Option<Bytes>)
      requires Valid() && e in objects && (objects[e].outgoingQueue != [] || objects[e].Closed())
      modifies this`objects
      ensures Valid()
      ensures r.Some? <==> old(objects[e]).outgoingQueue != []
      ensures r.None? ==> objects == old(objects)
      ensures r.Some? ==> objects == old(objects)[e := Drained(old(objects[e]))]
      ensures r.Some? ==> r.value == old(objects[e]).outgoingQueue[0]
    {
      var c := objects[e];
      if |c.outgoingQueue| == 0 {
        return None;
      }
      Directions(objects, conns, counter, closing, e);
      ReceiveFlow(c, objects[c.remote]);
      UpdateOneKeeps(objects, conns, counter, closing, e, Drained(c));
      objects := objects[e := Drained(c)];
      r := Some(c.outgoingQueue[0]);
    }

    /**
     close up to the return of the first closeChannels, for which the goroutine of
     this end, and of this end only, must be at its select. The lock stays held.
     */
    method CloseLocal(e: Endpoint) returns (ok: bool)
      requires Valid() && closing == None && e in objects && (e in conns ==> objects[e].hand.None?)
      modifies this`objects, this`conns, this`closing
      ensures Valid()
      ensures ok <==> e in old(conns)
      ensures !ok ==> objects == old(objects) && conns == old(conns) && closing == None
      ensures ok ==> closing == Some(old(objects[e]).remote) && closing.value in conns && conns == old(conns) - {e}
      ensures ok ==> objects == old(objects)[e := Shut(old(objects[e]))]
      ensures ok ==> objects[e].Closed() && objects[e].outgoingQueue == old(objects[e]).outgoingQueue
    {
      if e !in conns {
        return false;
      }
      Directions(objects, conns, counter, None, e);
      ShutFirst(objects, conns, counter, e, objects[e].remote);
      closing := Some(objects[e].remote);
      conns := conns - {e};
      objects := objects[e := Shut(objects[e])];
      ok := true;
    }

    /** The rest of close: the peer, which is always found, is shut once its goroutine is at its select. */
    method CloseRemote(e: Endpoint)
      requires Valid() && e in objects && closing == Some(objects[e].remote) && objects[e].Closed()
      requires objects[e].remote in objects && objects[objects[e].remote].hand.None?
      modifies this`objects, this`conns, this`closing
      ensures Valid() && closing == None
      ensures var f := old(objects[e]).remote;
              f in old(conns) && conns == old(conns) - {f} && objects == old(objects)[f := Shut(old(objects[f]))]
      ensures e !in conns && old(objects[e]).remote !in conns
      ensures var f := old(objects[e]).remote;
              f in objects && objects[f].Closed() && objects[f].outgoingQueue == old(objects)[f].outgoingQueue
    {
      var f := objects[e].remote;
      Directions(objects, conns, counter, closing, e);
      ShutSecond(objects, conns, counter, f, e);
      closing := None;
      conns := conns - {f};
      objects := objects[f := Shut(objects[f])];
    }
  }
}
