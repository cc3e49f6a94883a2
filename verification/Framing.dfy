/** Length-prefixed messages on a byte stream (network/tcp.go), independent of chunking. */
module Framing {
  import opened Wrappers

  newtype Byte = x: int | 0 <= x < 256

  type Octets = seq<Byte>

  /** `Size` is a uint32. */
  const SIZE_MODULUS: nat := 0x1_0000_0000

  /** binary.Write of a Size in globalOrder, big endian. */
  function Header(n: nat): (h: Octets)
    requires n < SIZE_MODULUS
    ensures |h| == 4
    ensures h[0] as int == n / 0x100_0000 && h[1] as int == n / 0x1_0000 % 0x100
    ensures h[2] as int == n / 0x100 % 0x100 && h[3] as int == n % 0x100
  {
    var high := n / 0x100;
    var higher := high / 0x100;
    [(higher / 0x100) as Byte, (higher % 0x100) as Byte, (high % 0x100) as Byte, (n % 0x100) as Byte]
  }

  /** binary.Read of a Size. */
  function Value(h: Octets): (n: nat)
    requires |h| == 4
    ensures n == h[0] as int * 0x100_0000 + h[1] as int * 0x1_0000 + h[2] as int * 0x100 + h[3] as int < SIZE_MODULUS
  {
    ((h[0] as int * 0x100 + h[1] as int) * 0x100 + h[2] as int) * 0x100 + h[3] as int
  }

  lemma HeaderRoundTrip(n: nat)
    requires n < SIZE_MODULUS
    ensures Value(Header(n)) == n
  {
    var high := n / 0x100;
    assert n == high * 0x100 + n % 0x100 && high == (high / 0x100) * 0x100 + high % 0x100;
  }

  /** A message below 2^32 bytes behind its size. */
  function Frame(message: Octets): Octets
    requires |message| < SIZE_MODULUS
  {
    Header(|message|) + message
  }

  /**
   What sendRaw puts on the wire, for any message, when every Write takes all it
   is given: the size is truncated to 32 bits, and nothing follows a size of 0.
   */
  function SentFrame(message: Octets): Octets {
    var size := |message| % SIZE_MODULUS;
    Header(size) + (if size == 0 then [] else message)
  }

  /** What receiveRaw takes off the wire, when the bytes for it are there. */
  function ParseOne(wire: Octets): Option<(Octets, Octets)> {
    if |wire| < 4 then None
    else
      var size := Value(wire[..4]);
      if |wire| < 4 + size then None else Some((wire[4..4 + size], wire[4 + size..]))
  }

  /** A parsed message is never longer than a size can say. */
  lemma ParsedIsShort(wire: Octets)
    ensures ParseOne(wire).Some? ==> |ParseOne(wire).value.0| < SIZE_MODULUS
  {
  }

  /** What follows four bytes is cut at the size they hold. */
  lemma ParseSized(h: Octets, message: Octets, rest: Octets)
    requires |h| == 4 && Value(h) == |message|
    ensures ParseOne(h + message + rest) == Some((message, rest))
  {
    var wire := h + message + rest;
    assert wire[..4] == h && wire[4..4 + |message|] == message && wire[4 + |message|..] == rest;
  }

  lemma FrameRoundTrip(message: Octets, rest: Octets)
    requires |message| < SIZE_MODULUS
    ensures ParseOne(Frame(message) + rest) == Some((message, rest))
  {
    HeaderRoundTrip(|message|);
    ParseSized(Header(|message|), message, rest);
  }

  lemma ShortSentFrame(message: Octets)
    requires |message| < SIZE_MODULUS
    ensures SentFrame(message) == Frame(message)
  {
    NoTruncation(|message|);
    assert |message| == 0 ==> message == [];
  }

  lemma NoTruncation(n: nat)
    requires n < SIZE_MODULUS
    ensures n % SIZE_MODULUS == n
  {
  }

  /** What sendRaw sends is parsed back exactly when the message is shorter than 2^32 bytes. */
  lemma FrameRoundTripExactly(message: Octets, rest: Octets)
    ensures ParseOne(SentFrame(message) + rest) == Some((message, rest)) <==> |message| < SIZE_MODULUS
  {
    ParsedIsShort(SentFrame(message) + rest);
    if |message| < SIZE_MODULUS {
      ShortSentFrame(message);
      FrameRoundTrip(message, rest);
    }
  }

  /** A message of exactly 2^32 bytes: the header announces 0, nothing follows, and the peer reads an empty message. */
  lemma OversizedFrameFails() returns (message: Octets)
    ensures |message| == SIZE_MODULUS && SentFrame(message) == Header(0)
    ensures ParseOne(SentFrame(message)) == Some(([], []))
  {
    message := seq(SIZE_MODULUS, _ => 0);
    HeaderRoundTrip(0);
    ParseSized(Header(0), [], []);
    assert Header(0) + [] + [] == Header(0);
  }

  // ----- The write loop of sendRaw

  /** The part of `limit` bytes that one call of the operating system moves. */
  function Clip(size: nat, limit: nat): (n: nat)
    requires limit > 0
    ensures 1 <= n <= limit
  {
    if size == 0 then 1 else if size > limit then limit else size
  }

  /** The loop variable `sent`, a uint32, and the bytes written after the header. */
  datatype Writing = Writing(sent: nat, body: Octets)

  predicate Done(message: Octets, w: Writing) {
    w.sent >= |message| % SIZE_MODULUS
  }

  /** One pass through the loop; the operating system takes at most `size` bytes. */
  function WriteOne(message: Octets, w: Writing, size: nat): Writing
    requires !Done(message, w)
  {
    var n := Clip(size, |message| - w.sent);
    Writing((w.sent + n) % SIZE_MODULUS, w.body + message[w.sent..w.sent + n])
  }

  /** After k Writes of at most chunks(0), chunks(1), ... bytes. */
  function AfterWrites(message: Octets, chunks: nat -> nat, k: nat): Writing {
    if k == 0 then Writing(0, [])
    else
      var w := AfterWrites(message, chunks, k - 1);
      if Done(message, w) then w else WriteOne(message, w, chunks(k - 1))
  }

  /** The message is on the wire front to back, up to `sent`. */
  predicate InOrder(message: Octets, w: Writing) {
    w.sent <= |message| && w.body == message[..w.sent]
  }

  lemma ShortWrite(message: Octets, w: Writing, size: nat)
    requires |message| < SIZE_MODULUS && InOrder(message, w) && !Done(message, w)
    ensures InOrder(message, WriteOne(message, w, size)) && w.sent < WriteOne(message, w, size).sent
  {
    var n := Clip(size, |message| - w.sent);
    NoTruncation(w.sent + n);
    assert message[..w.sent] + message[w.sent..w.sent + n] == message[..w.sent + n];
  }

  /** Below 2^32 bytes the loop writes the message front to back and ends after at most one Write per byte. */
  lemma {:induction false} ShortMessageWritten(message: Octets, chunks: nat -> nat, k: nat)
    requires |message| < SIZE_MODULUS
    ensures InOrder(message, AfterWrites(message, chunks, k))
    ensures Done(message, AfterWrites(message, chunks, k)) || k <= AfterWrites(message, chunks, k).sent
  {
    if k > 0 {
      ShortMessageWritten(message, chunks, k - 1);
      var w := AfterWrites(message, chunks, k - 1);
      if !Done(message, w) {
        ShortWrite(message, w, chunks(k - 1));
      }
    }
  }

  /** A short message that is done is on the wire whole. */
  lemma ShortMessageDone(message: Octets, w: Writing)
    requires |message| < SIZE_MODULUS && InOrder(message, w) && Done(message, w)
    ensures w.body == message && w.sent == |message|
  {
    NoTruncation(|message|);
    assert message[..|message|] == message;
  }

  /** Whatever the chunks: when the loop ends, the wire parses back exactly for messages below 2^32 bytes. */
  lemma WriteLoopExactly(message: Octets, chunks: nat -> nat, k: nat, rest: Octets)
    requires Done(message, AfterWrites(message, chunks, k))
    ensures var wire := Header(|message| % SIZE_MODULUS) + AfterWrites(message, chunks, k).body + rest;
            ParseOne(wire) == Some((message, rest)) <==> |message| < SIZE_MODULUS
  {
    ParsedIsShort(Header(|message| % SIZE_MODULUS) + AfterWrites(message, chunks, k).body + rest);
    if |message| < SIZE_MODULUS {
      NoTruncation(|message|);
      ShortMessageWritten(message, chunks, k);
      ShortMessageDone(message, AfterWrites(message, chunks, k));
      FrameRoundTrip(message, rest);
    }
  }

  lemma FullWrite(message: Octets, chunks: nat -> nat)
    requires chunks(0) >= |message| && |message| % SIZE_MODULUS != 0
    ensures AfterWrites(message, chunks, 1) == Writing(|message| % SIZE_MODULUS, message)
  {
    assert AfterWrites(message, chunks, 0) == Writing(0, []);
    assert Clip(chunks(0), |message|) == |message|;
    assert [] + message[0..|message|] == message;
  }

  /** One Write that takes everything leaves the sent frame on the wire, for every message. */
  lemma FullWriteIsSentFrame(message: Octets, chunks: nat -> nat)
    requires chunks(0) >= |message|
    ensures Done(message, AfterWrites(message, chunks, 1))
    ensures Header(|message| % SIZE_MODULUS) + AfterWrites(message, chunks, 1).body == SentFrame(message)
  {
    if |message| % SIZE_MODULUS != 0 {
      FullWrite(message, chunks);
    } else {
      assert AfterWrites(message, chunks, 0) == Writing(0, []);
    }
  }

  function Stream(messages: seq<Octets>): Octets
    requires Sendable(messages)
  {
    if |messages| == 0 then [] else Frame(messages[0]) + Stream(messages[1..])
  }

  /** Repeated receiveRaw until the first error. */
  function ParseAll(wire: Octets): seq<Octets>
    decreases |wire|
  {
    match ParseOne(wire)
    case None => []
    case Some((message, rest)) => [message] + ParseAll(rest)
  }

  predicate Sendable(messages: seq<Octets>) {
    forall i :: 0 <= i < |messages| ==> |messages[i]| < SIZE_MODULUS
  }

  /** A frame that is cut short yields no message. */
  lemma CutFrame(message: Octets, wire: Octets)
    requires |message| < SIZE_MODULUS && wire <= Frame(message) && |wire| < |Frame(message)|
    ensures ParseOne(wire) == None
  {
    HeaderRoundTrip(|message|);
    if |wire| >= 4 {
      assert wire[..4] == Frame(message)[..4] == Header(|message|);
    }
  }

  lemma FirstFrame(messages: seq<Octets>, k: nat)
    requires Sendable(messages) && k < |messages|
    ensures Stream(messages[..k + 1]) == Frame(messages[0]) + Stream(messages[1..][..k])
  {
    assert messages[..k + 1][1..] == messages[1..][..k];
  }

  /** Parsing past the first frame of a stream. */
  lemma ParsePastFirst(message: Octets, wire: Octets)
    requires |message| < SIZE_MODULUS && Frame(message) <= wire
    ensures ParseAll(wire) == [message] + ParseAll(wire[|Frame(message)|..])
  {
    var rest := wire[|Frame(message)|..];
    assert wire == Frame(message) + rest;
    FrameRoundTrip(message, rest);
  }

  /**
   Of a stream cut anywhere, the receiver gets exactly the messages whose frames
   are complete.
   */
  lemma {:induction false} CutStream(messages: seq<Octets>, wire: Octets)
    requires Sendable(messages) && wire <= Stream(messages)
    ensures ParseAll(wire) <= messages
    ensures var k := |ParseAll(wire)|;
            |Stream(messages[..k])| <= |wire| && (k < |messages| ==> |wire| < |Stream(messages[..k + 1])|)
    decreases |messages|
  {
    if |messages| > 0 {
      var first, rest := Frame(messages[0]), messages[1..];
      if |wire| < |first| {
        CutFrame(messages[0], wire);
        FirstFrame(messages, 0);
      } else {
        ParsePastFirst(messages[0], wire);
        CutStream(rest, wire[|first|..]);
        var k := |ParseAll(wire[|first|..])|;
        FirstFrame(messages, k);
        if k < |rest| {
          FirstFrame(messages, k + 1);
        }
      }
    }
  }

  /** Everything sent is received, as it was sent. */
  lemma StreamRoundTrip(messages: seq<Octets>)
    requires Sendable(messages)
    ensures ParseAll(Stream(messages)) == messages
  {
    CutStream(messages, Stream(messages));
    var k := |ParseAll(Stream(messages))|;
    if k < |messages| {
      StreamPrefix(messages, k + 1);
    }
    assert messages[..k] == ParseAll(Stream(messages));
  }

  lemma {:induction false} StreamPrefix(messages: seq<Octets>, k: nat)
    requires Sendable(messages) && k <= |messages|
    ensures |Stream(messages[..k])| <= |Stream(messages)|
    decreases k
  {
    if k > 0 {
      StreamPrefix(messages[1..], k - 1);
      assert messages[..k][1..] == messages[1..][..k - 1];
    }
  }

  lemma {:induction false} StreamAppend(messages: seq<Octets>, message: Octets)
    requires Sendable(messages) && |message| < SIZE_MODULUS
    ensures Stream(messages + [message]) == Stream(messages) + Frame(message)
  {
    if |messages| > 0 {
      StreamAppend(messages[1..], message);
      assert (messages + [message])[1..] == messages[1..] + [message];
    }
  }

  /** Parsing consumes at least the frames of the messages it returns. */
  lemma {:induction false} ParsedFits(wire: Octets)
    ensures Sendable(ParseAll(wire)) && |Stream(ParseAll(wire))| <= |wire|
    decreases |wire|
  {
    ParsedIsShort(wire);
    if ParseOne(wire).Some? {
      ParsedFits(ParseOne(wire).value.1);
      var messages := ParseAll(wire);
      assert messages[1..] == ParseAll(ParseOne(wire).value.1);
    }
  }

  /**
   After an error that consumed g bytes, reading on returns the messages still
   owed exactly when g is 0: any consumed byte shifts the sizes.
   */
  lemma ResumeSafeExactly(owed: seq<Octets>, g: nat)
    requires Sendable(owed) && g <= |Stream(owed)|
    ensures ParseAll(Stream(owed)[g..]) == owed <==> g == 0
  {
    StreamRoundTrip(owed);
    ParsedFits(Stream(owed)[g..]);
    assert Stream(owed)[0..] == Stream(owed);
  }

  /** One byte lost in the middle of a header: the message behind it does not come back. */
  lemma ResumeLosesMessages() returns (owed: seq<Octets>)
    ensures owed == [[7]] && Sendable(owed) && |Stream(owed)| == 5 && ParseAll(Stream(owed)[1..]) != owed
  {
    owed := [[7]];
    assert owed[1..] == [];
    ResumeSafeExactly(owed, 1);
  }

  // ----- What a message of more than 2^32 bytes turns into

  /** The header announces a part of the message, and what follows that part is read as frames. */
  lemma OversizedSplits(message: Octets)
    requires |message| > SIZE_MODULUS && |message| % SIZE_MODULUS != 0
    ensures var size := |message| % SIZE_MODULUS;
            ParseAll(SentFrame(message)) == [message[..size]] + ParseAll(message[size..])
  {
    var size := |message| % SIZE_MODULUS;
    HeaderRoundTrip(size);
    ParseSized(Header(size), message[..size], message[size..]);
    assert Header(size) + message[..size] + message[size..] == SentFrame(message);
  }

  function Zeros(n: nat): Octets {
    seq(n, _ => 0)
  }

  function Empties(n: nat): seq<Octets> {
    seq(n, _ => [])
  }

  /** Four zero bytes are an empty message. */
  lemma {:induction false} ZerosAreEmptyMessages(n: nat)
    ensures ParseAll(Zeros(4 * n)) == Empties(n)
  {
    if n > 0 {
      ZerosAreEmptyMessages(n - 1);
      var h, rest := Zeros(4), Zeros(4 * (n - 1));
      assert Zeros(4 * n) == h + [] + rest;
      ParseSized(h, [], rest);
      assert [[]] + Empties(n - 1) == Empties(n);
    } else {
      assert Zeros(0) == [];
    }
  }

  lemma ZerosAfterFirst(n: nat)
    ensures |Zeros(n + 1)| == n + 1 && Zeros(n + 1)[..1] == Zeros(1) && Zeros(n + 1)[1..] == Zeros(n)
  {
  }

  lemma ZerosShatter(message: Octets, n: nat, quarter: nat)
    requires n == 4 * quarter >= SIZE_MODULUS && (n + 1) % SIZE_MODULUS == 1 && message == Zeros(n + 1)
    ensures ParseAll(SentFrame(message)) == [Zeros(1)] + Empties(quarter)
  {
    ZerosAfterFirst(n);
    OversizedSplits(message);
    ZerosAreEmptyMessages(quarter);
  }

  /**
   A message of 2^32 + 1 zero bytes: sendRaw returns nil after one Write, and the
   peer reads a message of one byte and 2^30 empty ones.
   */
  lemma OversizedMessageShatters() returns (message: Octets, quarter: nat)
    ensures |message| == SIZE_MODULUS + 1 && quarter == 0x4000_0000
    ensures ParseAll(SentFrame(message)) == [Zeros(1)] + Empties(quarter)
  {
    quarter := 0x4000_0000;
    message := Zeros(SIZE_MODULUS + 1);
    ZerosShatter(message, SIZE_MODULUS, quarter);
  }
}
