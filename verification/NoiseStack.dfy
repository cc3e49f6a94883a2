/**
 The reliable stream over noiseStream (client/stream.go), with an ideal
 counter-nonce cipher in the sense of section 5.1 of the Noise Protocol
 Framework, while an adversary runs the relay: it may drop, repeat, reorder and
 forge anything. Calls of Encrypt may overlap, so a step seals what it sends under
 any nonce; `NonceRace` says which nonces those are.
 */
module NoiseStack {
  import opened Wrappers
  import opened ReliableEndpoint
  import ChannelId
  import NR = NonceRace
  import RR = ReliableRuns

  /** The two cipher states of Split, in the order it returns them (section 5.3). */
  datatype Key = First | Second

  /** What travels through the relay: a ciphertext, or bytes nobody encrypted under these keys. */
  datatype Blob = Sealed(key: Key, n: nat, packet: Packet) | Forged(junk: nat)

  datatype Peer = Peer(
    end: Endpoint,
    encrypt: Key,
    decrypt: Key,
    expected: nat,                // the counter of the decrypting cipher state
    sealed: seq<NR.Ciphertext>,   // history: everything encrypted
    unsealed: seq<Packet>         // history: every plaintext stateMachine saw
  )

  datatype Stack = Stack(a: Peer, b: Peer, air: set<Blob>)

  /** The keys (encrypt, decrypt) kept by doHandshakeClient and doHandshakeServer. */
  function HandshakeKeys(first: bool): (Key, Key) {
    if first then (First, Second) else (Second, First)
  }

  function FreshPeer(max: int, first: bool): Peer {
    var (enc, dec) := HandshakeKeys(first);
    Peer(Fresh(max), enc, dec, 0, [], [])
  }

  /** Two identities after their handshake. */
  function Established(maxA: int, maxB: int, keyA: seq<bv8>, keyB: seq<bv8>, hash: string -> string): Stack
    requires |keyA| >= 8 && |keyB| >= 8
  {
    Stack(FreshPeer(maxA, ChannelId.ChannelOf(keyA, keyB, hash).1),
          FreshPeer(maxB, ChannelId.ChannelOf(keyB, keyA, hash).1), {})
  }

  datatype Action = Local(event: Event) | Deliver(blob: Blob, ackFault: Option<Fault>)

  /** An action of one side, and the nonce under which it seals the packet it sends, if any. */
  datatype Step = AtA(action: Action, nonce: nat) | AtB(action: Action, nonce: nat)

  /** DecryptWithAd succeeds only on the ciphertext of the expected nonce and key. */
  predicate Opens(p: Peer, blob: Blob) {
    blob.Sealed? && blob.key == p.decrypt && blob.n == p.expected
  }

  /** What the action is to the reliable layer. */
  function Meaning(p: Peer, action: Action): Event {
    match action
    case Local(event) => event
    case Deliver(blob, ackFault) =>
      if Opens(p, blob) then TakePacket(blob.packet, ackFault) else ReceiveFails(StreamFault(0))
  }

  function Mirror(s: Stack): Stack {
    Stack(s.b, s.a, s.air)
  }

  predicate CanStepA(s: Stack, action: Action) {
    && Enabled(s.a.end, Meaning(s.a, action))
    && (action.Local? ==> !action.event.TakePacket?)
    && (action.Deliver? ==> action.blob in s.air || action.blob.Forged?)
  }

  /** Encrypt consumes a nonce even when the channel below then refuses the ciphertext. */
  function Act(p: Peer, action: Action, nonce: nat): Peer
    requires Enabled(p.end, Meaning(p, action))
  {
    var event := Meaning(p, action);
    var out := Emitted(p.end, event);
    var sealing := if out.None? then p else p.(sealed := p.sealed + [NR.Ciphertext(nonce, out.value)]);
    var opening :=
      if action.Deliver? && Opens(p, action.blob)
      then sealing.(expected := p.expected + 1, unsealed := p.unsealed + [action.blob.packet])
      else sealing;
    opening.(end := Apply(p.end, event))
  }

  function Airborne(p: Peer, action: Action, nonce: nat): set<Blob>
    requires Enabled(p.end, Meaning(p, action))
  {
    var event := Meaning(p, action);
    var out := Emitted(p.end, event);
    if out.Some? && Transmitted(event) then {Sealed(p.encrypt, nonce, out.value)} else {}
  }

  function StepA(s: Stack, action: Action, nonce: nat): Stack
    requires CanStepA(s, action)
  {
    s.(a := Act(s.a, action, nonce), air := s.air + Airborne(s.a, action, nonce))
  }

  predicate CanStep(s: Stack, step: Step) {
    CanStepA(if step.AtA? then s else Mirror(s), step.action)
  }

  function Next(s: Stack, step: Step): Stack
    requires CanStep(s, step)
  {
    if step.AtA? then StepA(s, step.action, step.nonce) else Mirror(StepA(Mirror(s), step.action, step.nonce))
  }

  function Execute(start: Stack, steps: seq<Step>): Option<Stack>
    decreases |steps|
  {
    if |steps| == 0 then Some(start)
    else
      var last := steps[|steps| - 1];
      match Execute(start, steps[..|steps| - 1])
      case None => None
      case Some(s) => if CanStep(s, last) then Some(Next(s, last)) else None
  }

  // ----- What the cipher keeps, whatever the nonces

  /** Every ciphertext under `p`'s key is one `p` made. */
  predicate OnlyOwn(p: Peer, air: set<Blob>) {
    forall x :: x in air && x.Sealed? && x.key == p.encrypt ==> NR.Ciphertext(x.n, x.packet) in p.sealed
  }

  /** The plaintexts a side saw arrived one by one, under the nonces 0, 1, 2, ... */
  predicate OpenedInOrder(p: Peer, air: set<Blob>) {
    p.expected == |p.unsealed| && forall k :: 0 <= k < |p.unsealed| ==> Sealed(p.decrypt, k, p.unsealed[k]) in air
  }

  predicate Paired(s: Stack) {
    s.a.encrypt == s.b.decrypt && s.b.encrypt == s.a.decrypt && s.a.encrypt != s.b.encrypt
  }

  predicate Secure(s: Stack) {
    && Paired(s)
    && OnlyOwn(s.a, s.air) && OnlyOwn(s.b, s.air)
    && OpenedInOrder(s.a, s.air) && OpenedInOrder(s.b, s.air)
  }

  lemma SecureStepA(s: Stack, action: Action, nonce: nat)
    requires Secure(s) && CanStepA(s, action)
    ensures Secure(StepA(s, action, nonce))
  {
  }

  lemma EstablishedSecure(maxA: int, maxB: int, keyA: seq<bv8>, keyB: seq<bv8>, hash: string -> string)
    requires |keyA| >= 8 && |keyB| >= 8
    ensures Paired(Established(maxA, maxB, keyA, keyB, hash)) <==> ChannelId.ID(keyA) != ChannelId.ID(keyB)
    ensures ChannelId.ID(keyA) != ChannelId.ID(keyB) ==> Secure(Established(maxA, maxB, keyA, keyB, hash))
  {
    ChannelId.ChannelAgreement(keyA, keyB, hash);
  }

  /** The side with the smaller ID encrypts under the first cipher state, as the initiator of section 5.3 does. */
  lemma InitiatorUsesFirst(maxA: int, maxB: int, keyA: seq<bv8>, keyB: seq<bv8>, hash: string -> string)
    requires |keyA| >= 8 && |keyB| >= 8
    ensures Established(maxA, maxB, keyA, keyB, hash).a.encrypt == First
            <==> ChannelId.Smaller(ChannelId.ID(keyA), ChannelId.ID(keyB))
  {
    ChannelId.InitiatorExactly(keyA, keyB, hash);
  }

  lemma SecureStep(s: Stack, step: Step)
    requires Secure(s) && CanStep(s, step)
    ensures Secure(Next(s, step))
  {
    SecureStepA(if step.AtA? then s else Mirror(s), step.action, step.nonce);
  }

  lemma {:induction false} EveryRunSecure(start: Stack, steps: seq<Step>, s: Stack)
    requires Secure(start) && Execute(start, steps) == Some(s)
    ensures Secure(s)
    decreases |steps|
  {
    if |steps| > 0 {
      var before := Execute(start, steps[..|steps| - 1]).value;
      EveryRunSecure(start, steps[..|steps| - 1], before);
      SecureStep(before, steps[|steps| - 1]);
    }
  }

  lemma SeenIsOpenable(p: Peer, q: Peer, air: set<Blob>)
    requires p.decrypt == q.encrypt && OpenedInOrder(p, air) && OnlyOwn(q, air)
    ensures NR.Openable(q.sealed, p.unsealed)
  {
    forall k | 0 <= k < |p.unsealed| ensures NR.Ciphertext(k, p.unsealed[k]) in q.sealed {
      assert Sealed(p.decrypt, k, p.unsealed[k]) in air;
    }
  }

  /**
   Whatever the relay does, a side has seen a prefix of what the other encrypted,
   if the other's calls of Encrypt, whose nonces are those of `moves`, did not overlap.
   */
  lemma PlaintextsArePrefix(start: Stack, steps: seq<Step>, s: Stack, moves: seq<NR.Move>, cipher: NR.Cipher)
    requires Secure(start) && Execute(start, steps) == Some(s)
    requires NR.Execute(moves) == Some(cipher) && NR.OneAtATime(moves)
    ensures cipher.sealed == s.b.sealed ==> s.a.unsealed <= NR.Plaintexts(s.b.sealed)
    ensures cipher.sealed == s.a.sealed ==> s.b.unsealed <= NR.Plaintexts(s.a.sealed)
  {
    EveryRunSecure(start, steps, s);
    SeenIsOpenable(s.a, s.b, s.air);
    SeenIsOpenable(s.b, s.a, s.air);
    NR.PrefixIfOneAtATime(moves, cipher);
  }

  lemma Extend(start: Stack, steps: seq<Step>, s: Stack, step: Step)
    requires Execute(start, steps) == Some(s) && CanStep(s, step)
    ensures Execute(start, steps + [step]) == Some(Next(s, step))
  {
    assert (steps + [step])[..|steps|] == steps;
  }

  /** Both sides send their first payload. */
  lemma BothSend(start: Stack) returns (steps: seq<Step>, s: Stack)
    requires start == Stack(FreshPeer(1, true), FreshPeer(1, false), {})
    ensures Execute(start, steps) == Some(s) && Sealed(Second, 0, Data(1, [])) in s.air && s.b.unsealed == []
    ensures s.a.sealed == [NR.Ciphertext(0, Data(1, []))] && s.a.encrypt == First && s.a.decrypt == Second
    ensures s.a.expected == 0 && s.a.end.running && s.a.end.rx == Receiver(0, None, [], [], [])
    ensures s.b.expected == 0 && s.b.end.running && s.b.end.rx.hand.None? && s.b.end.tx.ackCh == []
    ensures s.b.decrypt == First
  {
    var first, second := AtB(Local(StartSend([], None)), 0), AtA(Local(StartSend([], None)), 0);
    Extend(start, [], start, first);
    var s1 := Next(start, first);
    Extend(start, [] + [first], s1, second);
    steps, s := [] + [first] + [second], Next(s1, second);
  }

  /** Overlapping calls at work: b opens a's acknowledgement in the place of a's data. */
  lemma AckTakesThePlaceOfData(start: Stack) returns (steps: seq<Step>, s: Stack)
    requires start == Stack(FreshPeer(1, true), FreshPeer(1, false), {})
    ensures Execute(start, steps) == Some(s)
    ensures s.a.sealed == [NR.Ciphertext(0, Data(1, [])), NR.Ciphertext(0, Ack(1))] && s.b.unsealed == [Ack(1)]
  {
    var before, s2 := BothSend(start);
    var third := AtA(Deliver(Sealed(Second, 0, Data(1, [])), None), 0);
    var fourth := AtB(Deliver(Sealed(First, 0, Ack(1)), None), 1);
    Extend(start, before, s2, third);
    var s3 := Next(s2, third);
    Extend(start, before + [third], s3, fourth);
    steps, s := before + [third] + [fourth], Next(s3, fourth);
  }

  // ----- Any deviation is fatal

  lemma {:induction false} StoppedForGood(start: Stack, steps: seq<Step>, s: Stack)
    requires !start.a.end.running && start.a.end.globalErr.Some? && Execute(start, steps) == Some(s)
    ensures !s.a.end.running && s.a.end.globalErr == start.a.end.globalErr && s.a.unsealed == start.a.unsealed
    decreases |steps|
  {
    if |steps| > 0 {
      StoppedForGood(start, steps[..|steps| - 1], Execute(start, steps[..|steps| - 1]).value);
    }
  }

  /** A blob other than a ciphertext of the peer's next nonce ends the stream: no plaintext is ever seen after it. */
  lemma DeviationEndsStream(s: Stack, blob: Blob, ackFault: Option<Fault>, nonce: nat, later: seq<Step>, s': Stack)
    requires Secure(s) && CanStepA(s, Deliver(blob, ackFault))
    requires !(blob.Sealed? && blob.key == s.b.encrypt && blob.n == |s.a.unsealed|)
    requires Execute(StepA(s, Deliver(blob, ackFault), nonce), later) == Some(s')
    ensures !s'.a.end.running && s'.a.end.globalErr.Some? && s'.a.unsealed == s.a.unsealed
  {
    StoppedForGood(StepA(s, Deliver(blob, ackFault), nonce), later, s');
  }

  /** The peer's next ciphertext is opened: its packet is seen, and the stream goes on unless its ack is refused. */
  lemma NextCiphertextOpens(s: Stack, packet: Packet, ackFault: Option<Fault>, nonce: nat)
    requires Secure(s) && Sealed(s.b.encrypt, |s.a.unsealed|, packet) in s.air
    requires s.a.end.running && s.a.end.rx.hand.None? && |s.a.end.tx.ackCh| < MESSAGE_BUFFER
    ensures CanStepA(s, Deliver(Sealed(s.b.encrypt, |s.a.unsealed|, packet), ackFault))
    ensures var s' := StepA(s, Deliver(Sealed(s.b.encrypt, |s.a.unsealed|, packet), ackFault), nonce);
            && s'.a.unsealed == s.a.unsealed + [packet]
            && (packet.Ack? || ackFault.None? ==> s'.a.end.running && s'.a.end.globalErr == s.a.end.globalErr)
            && (packet.Ack? ==> s'.a.end.tx.ackCh == s.a.end.tx.ackCh + [packet.number])
            && (packet.Data? && ackFault.None? && packet.number > s.a.end.rx.lastAckd
                ==> s'.a.end.rx.hand == Some(packet.payload))
  {
  }

  // ----- The stack refines the lossy wire, whatever the nonces

  function Carried(air: set<Blob>, key: Key): set<Packet> {
    set x | x in air && x.Sealed? && x.key == key :: x.packet
  }

  /** Forget the cipher: the wire of each direction is what its key ever sealed. */
  function Abs(s: Stack): RR.System {
    RR.System(s.a.end, s.b.end, Carried(s.air, s.a.encrypt), Carried(s.air, s.b.encrypt))
  }

  lemma CarriedGrows(air: set<Blob>, p: Peer, action: Action, nonce: nat, other: Key)
    requires Enabled(p.end, Meaning(p, action)) && other != p.encrypt
    ensures Carried(air + Airborne(p, action, nonce), p.encrypt)
            == Carried(air, p.encrypt) + OnWire(p.end, Meaning(p, action))
    ensures Carried(air + Airborne(p, action, nonce), other) == Carried(air, other)
  {
    var more := Airborne(p, action, nonce);
    forall q
      ensures q in Carried(air + more, p.encrypt) <==> q in Carried(air, p.encrypt) + OnWire(p.end, Meaning(p, action))
    {
      if q in OnWire(p.end, Meaning(p, action)) {
        assert Sealed(p.encrypt, nonce, q) in more;
      }
    }
  }

  lemma SimulatesA(s: Stack, action: Action, nonce: nat)
    requires Paired(s) && CanStepA(s, action)
    ensures RR.CanStepA(Abs(s), Meaning(s.a, action))
    ensures Abs(StepA(s, action, nonce)) == RR.StepA(Abs(s), Meaning(s.a, action)) && Paired(StepA(s, action, nonce))
  {
    CarriedGrows(s.air, s.a, action, nonce, s.b.encrypt);
  }

  function MeaningStep(s: Stack, step: Step): RR.Step {
    if step.AtA? then RR.AtA(Meaning(s.a, step.action)) else RR.AtB(Meaning(s.b, step.action))
  }

  lemma SimulatesStep(s: Stack, step: Step)
    requires Paired(s) && CanStep(s, step)
    ensures RR.CanStep(Abs(s), MeaningStep(s, step)) && Paired(Next(s, step))
    ensures Abs(Next(s, step)) == RR.Next(Abs(s), MeaningStep(s, step))
  {
    if step.AtA? {
      SimulatesA(s, step.action, step.nonce);
    } else {
      SimulatesA(Mirror(s), step.action, step.nonce);
      assert Abs(Mirror(s)) == RR.Mirror(Abs(s));
    }
  }

  /** Every run of the stack, under any nonces, is to the two endpoints a run over the lossy wire. */
  lemma {:induction false} StackRefinesLossyWire(start: Stack, steps: seq<Step>, s: Stack) returns (lossy: seq<RR.Step>)
    requires Paired(start) && Execute(start, steps) == Some(s)
    ensures RR.Execute(Abs(start), lossy) == Some(Abs(s)) && Paired(s)
    decreases |steps|
  {
    if |steps| == 0 {
      lossy := [];
    } else {
      var before := Execute(start, steps[..|steps| - 1]).value;
      var sofar := StackRefinesLossyWire(start, steps[..|steps| - 1], before);
      SimulatesStep(before, steps[|steps| - 1]);
      lossy := sofar + [MeaningStep(before, steps[|steps| - 1])];
      assert lossy[..|sofar|] == sofar;
    }
  }

  /** End to end, through any relay and under any nonces: both directions deliver what the reliable stream promises. */
  lemma StackDelivers(maxA: int, maxB: int, keyA: seq<bv8>, keyB: seq<bv8>, hash: string -> string,
                      steps: seq<Step>, s: Stack)
    requires |keyA| >= 8 && |keyB| >= 8 && ChannelId.ID(keyA) != ChannelId.ID(keyB)
    requires Execute(Established(maxA, maxB, keyA, keyB, hash), steps) == Some(s)
    ensures RR.NoWrap(Abs(s)) ==> RR.Delivers(Abs(s))
    ensures RR.NoWrap(RR.Mirror(Abs(s))) ==> RR.Delivers(RR.Mirror(Abs(s)))
  {
    var start := Established(maxA, maxB, keyA, keyB, hash);
    EstablishedSecure(maxA, maxB, keyA, keyB, hash);
    var lossy := StackRefinesLossyWire(start, steps, s);
    assert Abs(start) == RR.Start(maxA, maxB);
    RR.EveryRunDelivers(maxA, maxB, lossy, Abs(s));
  }
}
