/** TCPConn of network/tcp.go: the framing loops over a connection that chunks as it likes. */
module TcpConnObject {
  import opened Wrappers
  import opened ByteCounts
  import opened Framing

  datatype NetError = Closed | Canceled | EndOfFile | Timeout | Unknown

  /** How many bytes the operating system moves on a call, or the error it reports. */
  datatype Service = Chunk(size: nat) | Fails(size: nat, error: NetError)

  /** sendRaw returned, failed, or is still in its loop after the Writes one looked at. */
  datatype SendStatus = Sent | Broken(error: NetError) | StillWriting

  ghost predicate AllChunks(service: nat -> Service) {
    forall t :: service(t).Chunk?
  }

  /** The sizes that Writes number first, first + 1, ... are offered. */
  function ChunksFrom(service: nat -> Service, first: nat): nat -> nat {
    (t: nat) => service(first + t).size
  }

  lemma NextFrame(wire: Octets, start: nat, messages: seq<Octets>, k: nat)
    requires Sendable(messages) && k < |messages|
    ensures wire + Stream(messages[..k]) + Frame(messages[k]) == wire + Stream(messages[..k + 1])
    ensures Count(Count(start, Total(messages[..k])), |messages[k]|) == Count(start, Total(messages[..k + 1]))
  {
    assert messages[..k + 1] == messages[..k] + [messages[k]];
    StreamAppend(messages[..k], messages[k]);
    TotalAppend(messages[..k], messages[k]);
    CountTwice(start, Total(messages[..k]), |messages[k]|);
  }

  lemma CountAppend(start: nat, messages: seq<Octets>, message: Octets)
    ensures Count(Count(start, Total(messages)), |message|) == Count(start, Total(messages + [message]))
  {
    TotalAppend(messages, message);
    CountTwice(start, Total(messages), |message|);
  }

  class TcpConn {
    // The operating system's answer to each Read and Write, by the number of the call.
    const onRead: nat -> Service
    const onWrite: nat -> Service

    var incoming: Octets   // bytes that arrived and were not read
    var outgoing: Octets   // bytes written
    var readCalls: nat
    var writeCalls: nat
    var tx: Counter
    var rx: Counter

    constructor (onRead: nat -> Service, onWrite: nat -> Service, incoming: Octets)
      ensures this.onRead == onRead && this.onWrite == onWrite && this.incoming == incoming
      ensures outgoing == [] && tx == rx == 0
    {
      this.onRead, this.onWrite, this.incoming := onRead, onWrite, incoming;
      outgoing, readCalls, writeCalls, tx, rx := [], 0, 0, 0, 0;
    }

    /** conn.Read into a buffer of `limit` bytes. */
    method Read(limit: nat) returns (r: Result<Octets, NetError>)
      requires limit > 0
      modifies this`incoming, this`readCalls
      ensures r.Ok? ==> 1 <= |r.value| <= limit && old(incoming) == r.value + incoming
      ensures r.Err? ==> incoming == old(incoming)
      ensures AllChunks(onRead) ==> (r.Err? <==> old(incoming) == [])
      ensures AllChunks(onRead) && r.Err? ==> r.error == EndOfFile
    {
      var service := onRead(readCalls);
      readCalls := readCalls + 1;
      if service.Fails? {
        return Err(service.error);
      }
      if |incoming| == 0 {
        return Err(EndOfFile);
      }
      var n := Clip(service.size, if limit < |incoming| then limit else |incoming|);
      r := Ok(incoming[..n]);
      incoming := incoming[n..];
    }

    /** conn.Write; on an error some of the bytes may have gone out. */
    method Write(b: Octets) returns (r: Result<nat, NetError>)
      requires |b| > 0
      modifies this`outgoing, this`writeCalls
      ensures writeCalls == old(writeCalls) + 1
      ensures r.Ok? ==> r.value == Clip(onWrite(old(writeCalls)).size, |b|) && outgoing == old(outgoing) + b[..r.value]
      ensures r.Err? ==> old(outgoing) <= outgoing <= old(outgoing) + b && !AllChunks(onWrite)
    {
      var service := onWrite(writeCalls);
      writeCalls := writeCalls + 1;
      if service.Fails? {
        outgoing := outgoing + b[..if service.size < |b| then service.size else |b|];
        return Err(service.error);
      }
      var n := Clip(service.size, |b|);
      outgoing := outgoing + b[..n];
      r := Ok(n);
    }

    /** io.ReadFull behind binary.Read, and the read loop of receiveRaw: exactly `total` bytes. */
    method ReadLoop(total: nat) returns (r: Result<Octets, NetError>, ghost gone: Octets)
      modifies this`incoming, this`readCalls
      ensures old(incoming) == gone + incoming && |gone| <= total
      ensures r.Ok? ==> r.value == gone && |gone| == total
      ensures r.Err? ==> |gone| < total
      ensures AllChunks(onRead) ==> (r.Ok? <==> total <= |old(incoming)|)
      ensures AllChunks(onRead) && r.Err? ==> r.error == EndOfFile
    {
      var buffer: Octets := [];
      while |buffer| < total
        invariant |buffer| <= total
        invariant old(incoming) == buffer + incoming
        decreases total - |buffer|
      {
        var chunk := Read(total - |buffer|);
        if chunk.Err? {
          return Err(chunk.error), buffer;
        }
        buffer := buffer + chunk.value;
      }
      r, gone := Ok(buffer), buffer;
    }

    /**
     The next message of the stream, or an error. `gone` is what was taken off the
     wire; after an error it is a part of the next frame.
     */
    method ReceiveRaw() returns (r: Result<Octets, NetError>, ghost gone: Octets)
      modifies this`incoming, this`readCalls, this`rx
      ensures old(incoming) == gone + incoming
      ensures r.Ok? ==> ParseOne(old(incoming)) == Some((r.value, incoming))
      ensures r.Err? && ParseOne(old(incoming)).Some? ==> |gone| < 4 + |ParseOne(old(incoming)).value.0|
      ensures rx == if r.Ok? then Count(old(rx), |r.value|) else old(rx)
      ensures AllChunks(onRead) ==> (r.Ok? <==> ParseOne(old(incoming)).Some?)
      ensures AllChunks(onRead) && r.Err? ==> r.error == EndOfFile
    {
      var header;
      header, gone := ReadLoop(4);
      if header.Err? {
        return Err(header.error), gone;
      }
      assert old(incoming)[..4] == header.value;
      var total := Value(header.value);
      ghost var body := incoming;
      assert old(incoming)[4..] == body;
      ghost var taken;
      r, taken := ReadLoop(total);
      gone := header.value + taken;
      if r.Ok? {
        assert body[..total] == r.value && body[total..] == incoming;
        assert old(incoming)[4..4 + total] == r.value && old(incoming)[4 + total..] == incoming;
        rx := Count(rx, total);
      }
    }

    /** binary.Write of the size. */
    method WriteHeader(h: Octets) returns (r: Option<NetError>)
      modifies this`outgoing, this`writeCalls
      ensures r.None? ==> outgoing == old(outgoing) + h
      ensures r.Some? ==> old(outgoing) <= outgoing <= old(outgoing) + h && !AllChunks(onWrite)
    {
      var sent := 0;
      while sent < |h|
        invariant 0 <= sent <= |h|
        invariant outgoing == old(outgoing) + h[..sent]
        decreases |h| - sent
      {
        var n := Write(h[sent..]);
        if n.Err? {
          assert old(outgoing) + h[..sent] + h[sent..] == old(outgoing) + h;
          return Some(n.error);
        }
        assert h[..sent] + h[sent..][..n.value] == h[..sent + n.value];
        sent := sent + n.value;
      }
      assert h[..sent] == h;
      r := None;
    }

    /** The loop of sendRaw, followed through at most `patience` Writes. */
    method WriteBody(b: Octets, patience: nat) returns (r: SendStatus, ghost calls: nat)
      modifies this`outgoing, this`writeCalls
      ensures var w := AfterWrites(b, ChunksFrom(onWrite, old(writeCalls)), calls);
              && (r.Sent? ==> Done(b, w)) && (r.StillWriting? ==> !Done(b, w) && calls == patience)
              && (r.Broken? ==>
                    !Done(b, w) && old(outgoing) + w.body <= outgoing <= old(outgoing) + w.body + b[w.sent..])
              && (!r.Broken? ==> outgoing == old(outgoing) + w.body)
      ensures r.Broken? ==> !AllChunks(onWrite)
    {
      ghost var chunks := ChunksFrom(onWrite, writeCalls);
      ghost var w := Writing(0, []);
      var sent, count := 0, 0;
      while sent < |b| % SIZE_MODULUS && count < patience
        invariant sent == w.sent && 0 <= count <= patience && writeCalls == old(writeCalls) + count
        invariant outgoing == old(outgoing) + w.body
        invariant w == AfterWrites(b, chunks, count)
        decreases patience - count
      {
        assert !Done(b, w);
        var n := Write(b[sent..]);
        if n.Err? {
          return Broken(n.error), count;
        }
        OneMoreWrite(old(outgoing), b, w, chunks(count), n.value);
        w := WriteOne(b, w, chunks(count));
        sent := (sent + n.value) % SIZE_MODULUS;
        count := count + 1;
      }
      calls := count;
      r := if sent < |b| % SIZE_MODULUS then StillWriting else Sent;
    }

    /**
     sendRaw for a message of any length, followed through at most `patience`
     Writes of its loop. `calls` is the number of Writes made, the first of which
     is number `first` of the connection.
     */
    method SendRaw(b: Octets, patience: nat) returns (r: SendStatus, ghost first: nat, ghost calls: nat)
      modifies this`outgoing, this`writeCalls, this`tx
      ensures r.Sent? ==>
                var w := AfterWrites(b, ChunksFrom(onWrite, first), calls);
                Done(b, w) && outgoing == old(outgoing) + Header(|b| % SIZE_MODULUS) + w.body
      ensures r.StillWriting? ==> calls == patience && !Done(b, AfterWrites(b, ChunksFrom(onWrite, first), calls))
      ensures r.Sent? && |b| < SIZE_MODULUS ==> outgoing == old(outgoing) + Frame(b)
      ensures |b| <= patience && |b| < SIZE_MODULUS ==> !r.StillWriting?
      ensures r.Broken? ==> old(outgoing) <= outgoing && !AllChunks(onWrite)
      ensures r.Broken? && |b| < SIZE_MODULUS ==> outgoing <= old(outgoing) + Frame(b)
      ensures tx == if r.Sent? then Count(old(tx), |b| % SIZE_MODULUS) else old(tx)
    {
      var failed := WriteHeader(Header(|b| % SIZE_MODULUS));
      if failed.Some? {
        HeaderStartsFrame(old(outgoing), b, outgoing);
        return Broken(failed.value), 0, 0;
      }
      first := writeCalls;
      r, calls := WriteBody(b, patience);
      ghost var chunks := ChunksFrom(onWrite, first);
      if r.Broken? {
        BrokenFrame(old(outgoing), b, chunks, calls, outgoing);
        return;
      }
      WholeFrame(old(outgoing), b, chunks, calls);
      if r.Sent? {
        tx := Count(tx, |b| % SIZE_MODULUS);
      }
    }

    /** A list of messages; on an error the first `done` went out whole. */
    method SendAll(messages: seq<Octets>) returns (done: nat, r: Option<NetError>)
      requires Sendable(messages)
      modifies this`outgoing, this`writeCalls, this`tx
      ensures done <= |messages| && (r.None? ==> done == |messages|)
      ensures r.None? ==> outgoing == old(outgoing) + Stream(messages)
      ensures r.Some? ==> done < |messages| && !AllChunks(onWrite)
                          && old(outgoing) + Stream(messages[..done]) <= outgoing
                          && outgoing <= old(outgoing) + Stream(messages[..done + 1])
      ensures tx == Count(old(tx), Total(messages[..done]))
    {
      done := 0;
      while done < |messages|
        invariant 0 <= done <= |messages|
        invariant outgoing == old(outgoing) + Stream(messages[..done])
        invariant tx == Count(old(tx), Total(messages[..done]))
      {
        NextFrame(old(outgoing), old(tx), messages, done);
        NoTruncation(|messages[done]|);
        var status, first, calls := SendRaw(messages[done], |messages[done]|);
        if status.Broken? {
          return done, Some(status.error);
        }
        done := done + 1;
      }
      assert messages[..done] == messages;
      r := None;
    }

    /** receiveRaw until its first error: whatever that error is, a prefix of what the stream holds. */
    method ReceiveAll() returns (messages: seq<Octets>)
      modifies this`incoming, this`readCalls, this`rx
      ensures messages <= ParseAll(old(incoming))
      ensures AllChunks(onRead) ==> messages == ParseAll(old(incoming))
      ensures rx == Count(old(rx), Total(messages))
    {
      messages := [];
      while true
        invariant ParseAll(old(incoming)) == messages + ParseAll(incoming)
        invariant rx == Count(old(rx), Total(messages))
        decreases |incoming|
      {
        ghost var wire := incoming;
        var r, gone := ReceiveRaw();
        if r.Err? {
          assert AllChunks(onRead) ==> ParseAll(wire) == [];
          return;
        }
        CountAppend(old(rx), messages, r.value);
        messages := messages + [r.value];
      }
    }
  }

  lemma HeaderStartsFrame(wire: Octets, b: Octets, after: Octets)
    requires wire <= after <= wire + Header(|b| % SIZE_MODULUS)
    ensures |b| < SIZE_MODULUS ==> after <= wire + Frame(b)
  {
    if |b| < SIZE_MODULUS {
      NoTruncation(|b|);
      assert wire + Header(|b|) + b == wire + Frame(b);
    }
  }

  /** A finished loop has written the frame of a short message, and a short message needs no more Writes than bytes. */
  lemma WholeFrame(wire: Octets, b: Octets, chunks: nat -> nat, k: nat)
    ensures var w := AfterWrites(b, chunks, k);
            |b| < SIZE_MODULUS ==>
              && (Done(b, w) ==> wire + Header(|b| % SIZE_MODULUS) + w.body == wire + Frame(b))
              && (|b| <= k ==> Done(b, w))
  {
    if |b| < SIZE_MODULUS {
      NoTruncation(|b|);
      ShortMessageWritten(b, chunks, k);
      var w := AfterWrites(b, chunks, k);
      if Done(b, w) {
        ShortMessageDone(b, w);
        assert wire + Header(|b|) + b == wire + Frame(b);
      }
    }
  }

  lemma OneMoreWrite(wire: Octets, b: Octets, w: Writing, size: nat, n: nat)
    requires !Done(b, w) && n == Clip(size, |b| - w.sent)
    ensures wire + w.body + b[w.sent..][..n] == wire + WriteOne(b, w, size).body
    ensures WriteOne(b, w, size).sent == (w.sent + n) % SIZE_MODULUS
  {
    assert b[w.sent..][..n] == b[w.sent..w.sent + n];
  }

  /** What a failed Write leaves of a short message is a part of its frame. */
  lemma BrokenFrame(wire: Octets, b: Octets, chunks: nat -> nat, k: nat, after: Octets)
    requires var w := AfterWrites(b, chunks, k);
             var before := wire + Header(|b| % SIZE_MODULUS) + w.body;
             !Done(b, w) && before <= after <= before + b[w.sent..]
    ensures wire <= after
    ensures |b| < SIZE_MODULUS ==> after <= wire + Frame(b)
  {
    assert wire <= wire + Header(|b| % SIZE_MODULUS) + AfterWrites(b, chunks, k).body;
    if |b| < SIZE_MODULUS {
      NoTruncation(|b|);
      ShortMessageWritten(b, chunks, k);
      JoinParts(wire, Header(|b|), b, AfterWrites(b, chunks, k).sent);
    }
  }

  lemma JoinParts(wire: Octets, h: Octets, b: Octets, k: nat)
    requires k <= |b|
    ensures wire + h + b[..k] + b[k..] == wire + (h + b)
  {
  }

  /** Send a list, deliver its bytes, receive it: whatever the chunks, nothing is lost or merged. */
  method Transfer(messages: seq<Octets>, onRead: nat -> Service, onWrite: nat -> Service)
    returns (got: seq<Octets>, tx: Counter, rx: Counter)
    requires Sendable(messages)
    requires AllChunks(onRead) && AllChunks(onWrite)
    ensures got == messages
    ensures tx == rx
  {
    var sender := new TcpConn(onRead, onWrite, []);
    var done, r := sender.SendAll(messages);
    assert messages[..done] == messages;
    assert sender.outgoing == Stream(messages);
    var receiver := new TcpConn(onRead, onWrite, sender.outgoing);
    got := receiver.ReceiveAll();
    StreamRoundTrip(messages);
    tx, rx := sender.tx, receiver.rx;
  }
}
