/**
 What sending again cannot repair. Every copy of a packet is sealed under a nonce
 of its own, and the receiver opens nonces one by one: a ciphertext that never
 arrives stops all that were sealed after it.
 */
module NoiseGaps {
  import opened Wrappers
  import opened ReliableEndpoint
  import opened NoiseStack
  import ChannelId
  import NR = NonceRace
  import RR = ReliableRuns

  // ----- What a continuation leaves in place

  /** Everything of side a and of the air that a later state still has, and what is new in the air. */
  predicate Later(s: Stack, s': Stack) {
    && s'.a.encrypt == s.a.encrypt && s.a.sealed <= s'.a.sealed && s.a.end.tx.sent <= s'.a.end.tx.sent
    && forall x :: x in s'.air && x.Sealed? && x.key == s.a.encrypt
         ==> x in s.air || NR.Ciphertext(x.n, x.packet) in s'.a.sealed[|s.a.sealed|..]
  }

  lemma LaterA(s: Stack, action: Action, nonce: nat, s': Stack)
    requires CanStepA(s, action) && s' == StepA(s, action, nonce)
    ensures Later(s, s')
  {
    forall x | x in s'.air && x.Sealed? && x.key == s.a.encrypt && x !in s.air
      ensures NR.Ciphertext(x.n, x.packet) in s'.a.sealed[|s.a.sealed|..]
    {
      assert s'.a.sealed[|s.a.sealed|..][0] == NR.Ciphertext(x.n, x.packet);
    }
  }

  lemma LaterB(s: Stack, action: Action, nonce: nat, s': Stack)
    requires Paired(s) && CanStepA(Mirror(s), action) && s' == Mirror(StepA(Mirror(s), action, nonce))
    ensures Later(s, s')
  {
  }

  lemma LaterTwice(s: Stack, t: Stack, u: Stack)
    requires Later(s, t) && Later(t, u)
    ensures Later(s, u)
  {
    forall x | x in u.air && x.Sealed? && x.key == s.a.encrypt && x !in s.air
      ensures NR.Ciphertext(x.n, x.packet) in u.a.sealed[|s.a.sealed|..]
    {
      var c, n := NR.Ciphertext(x.n, x.packet), |s.a.sealed|;
      if x in t.air {
        var i :| 0 <= i < |t.a.sealed[n..]| && t.a.sealed[n..][i] == c;
        assert u.a.sealed[n..][i] == t.a.sealed[n + i];
      } else {
        var i :| 0 <= i < |u.a.sealed[|t.a.sealed|..]| && u.a.sealed[|t.a.sealed|..][i] == c;
        assert u.a.sealed[n..][|t.a.sealed| - n + i] == c;
      }
    }
  }

  lemma {:induction false} LaterRun(start: Stack, steps: seq<Step>, s: Stack, all: seq<Step>, s': Stack)
    requires Paired(start) && Execute(start, steps) == Some(s) && steps <= all && Execute(start, all) == Some(s')
    ensures Later(s, s')
    decreases |all|
  {
    if |all| == |steps| {
      assert all == steps;
    } else {
      var front, last := all[..|all| - 1], all[|all| - 1];
      var mid := Execute(start, front).value;
      LaterRun(start, steps, s, front, mid);
      var lossy := StackRefinesLossyWire(start, front, mid);
      if last.AtA? {
        LaterA(mid, last.action, last.nonce, s');
      } else {
        LaterB(mid, last.action, last.nonce, s');
      }
      LaterTwice(s, mid, s');
    }
  }

  // ----- Numbers on both sides

  /** A side has sealed no data under a number it has not given out. */
  predicate KnownNumbers(p: Peer) {
    forall c :: c in p.sealed && c.packet.Data? ==> c.packet.number <= |p.end.tx.sent|
  }

  lemma KnownStep(p: Peer, action: Action, nonce: nat)
    requires KnownNumbers(p) && Enabled(p.end, Meaning(p, action)) && RR.Bookkeeping(p.end.tx)
    requires |Act(p, action, nonce).end.tx.sent| < SEQUENCE_MODULUS
    ensures KnownNumbers(Act(p, action, nonce))
  {
    var event := Meaning(p, action);
    var out := Emitted(p.end, event);
    assert |p.end.tx.sent| <= |Apply(p.end, event).tx.sent|;
    if out.Some? && out.value.Data? {
      assert out.value.number <= |Apply(p.end, event).tx.sent|;
    }
  }

  /** The two identities of a run of the stack, after their handshake. */
  predicate Different(keyA: seq<bv8>, keyB: seq<bv8>) {
    |keyA| >= 8 && |keyB| >= 8 && ChannelId.ID(keyA) != ChannelId.ID(keyB)
  }

  lemma StackBookkeeping(maxA: int, maxB: int, start: Stack, steps: seq<Step>, s: Stack)
    requires Paired(start) && Abs(start) == RR.Start(maxA, maxB) && Execute(start, steps) == Some(s)
    requires RR.NoWrap(Abs(s))
    ensures RR.Intact(Abs(s)) && Paired(s)
  {
    var lossy := StackRefinesLossyWire(start, steps, s);
    RR.EveryRunIntactAB(maxA, maxB, lossy, Abs(s));
  }

  lemma {:induction false} KnownRun(maxA: int, maxB: int, start: Stack, steps: seq<Step>, s: Stack)
    requires Paired(start) && Abs(start) == RR.Start(maxA, maxB) && start.a.sealed == []
    requires Execute(start, steps) == Some(s) && RR.NoWrap(Abs(s))
    ensures KnownNumbers(s.a)
    decreases |steps|
  {
    if |steps| > 0 {
      var front, last := steps[..|steps| - 1], steps[|steps| - 1];
      var before := Execute(start, front).value;
      LaterRun(start, front, before, steps, s);
      KnownRun(maxA, maxB, start, front, before);
      StackBookkeeping(maxA, maxB, start, front, before);
      if last.AtA? {
        KnownStep(before.a, last.action, last.nonce);
      }
    }
  }

  /** The data packet of that number was opened. */
  predicate OpenedNumber(unsealed: seq<Packet>, n: nat) {
    exists k :: 0 <= k < |unsealed| && unsealed[k].Data? && unsealed[k].number == n
  }

  predicate TakenOpened(p: Peer) {
    forall n :: n in p.end.rx.taken ==> OpenedNumber(p.unsealed, n)
  }

  lemma OpenedStays(unsealed: seq<Packet>, n: nat, packet: Packet)
    ensures OpenedNumber(unsealed, n) ==> OpenedNumber(unsealed + [packet], n)
    ensures packet.Data? && packet.number == n ==> OpenedNumber(unsealed + [packet], n)
  {
    assert (unsealed + [packet])[|unsealed|] == packet;
    if OpenedNumber(unsealed, n) {
      var k :| 0 <= k < |unsealed| && unsealed[k].Data? && unsealed[k].number == n;
      assert (unsealed + [packet])[k] == unsealed[k];
    }
  }

  lemma TakenStep(p: Peer, action: Action, nonce: nat)
    requires TakenOpened(p) && Enabled(p.end, Meaning(p, action)) && (action.Local? ==> !action.event.TakePacket?)
    ensures TakenOpened(Act(p, action, nonce))
  {
    var p' := Act(p, action, nonce);
    forall n | n in p'.end.rx.taken ensures OpenedNumber(p'.unsealed, n) {
      if action.Deliver? && Opens(p, action.blob) {
        OpenedStays(p.unsealed, n, action.blob.packet);
      }
    }
  }

  lemma {:induction false} TakenRun(start: Stack, steps: seq<Step>, s: Stack)
    requires TakenOpened(start.b) && Execute(start, steps) == Some(s)
    ensures TakenOpened(s.b)
    decreases |steps|
  {
    if |steps| > 0 {
      var before, last := Execute(start, steps[..|steps| - 1]).value, steps[|steps| - 1];
      TakenRun(start, steps[..|steps| - 1], before);
      if last.AtB? {
        TakenStep(before.b, last.action, last.nonce);
      }
    }
  }

  // ----- The theorems

  /** A run from the handshake of two identities, and a continuation in which a's nonces are numbered. */
  predicate Continues(maxA: int, maxB: int, start: Stack, steps: seq<Step>, s: Stack, all: seq<Step>, s': Stack) {
    && Secure(start) && Abs(start) == RR.Start(maxA, maxB) && start.a.sealed == []
    && Execute(start, steps) == Some(s) && steps <= all && Execute(start, all) == Some(s')
    && NR.Numbered(s'.a.sealed) && RR.NoWrap(Abs(s'))
  }

  lemma EstablishedStarts(maxA: int, maxB: int, keyA: seq<bv8>, keyB: seq<bv8>, hash: string -> string)
    requires Different(keyA, keyB)
    ensures var start := Established(maxA, maxB, keyA, keyB, hash);
            Secure(start) && Abs(start) == RR.Start(maxA, maxB) && start.a.sealed == []
  {
    EstablishedSecure(maxA, maxB, keyA, keyB, hash);
  }

  /** The acknowledged packet was opened at some nonce. */
  lemma AckedWasOpened(maxA: int, maxB: int, start: Stack, all: seq<Step>, s': Stack, j: nat) returns (k: nat)
    requires Secure(start) && Abs(start) == RR.Start(maxA, maxB) && Execute(start, all) == Some(s')
    requires RR.NoWrap(Abs(s'))
    requires j < |s'.a.end.tx.outcomes| && s'.a.end.tx.outcomes[j].Acknowledged?
    ensures k < |s'.b.unsealed| && s'.b.unsealed[k].Data? && s'.b.unsealed[k].number == j + 1
  {
    StackBookkeeping(maxA, maxB, start, all, s');
    assert j + 1 in s'.b.end.rx.taken;
    TakenRun(start, all, s');
    assert OpenedNumber(s'.b.unsealed, j + 1);
    k :| 0 <= k < |s'.b.unsealed| && s'.b.unsealed[k].Data? && s'.b.unsealed[k].number == j + 1;
  }

  /**
   A send that started after s and returned nil means that b opened everything a
   had sealed by s, whatever it was: data, copies and acknowledgements alike.
   */
  lemma AckNeedsAllEarlier(maxA: int, maxB: int, start: Stack, steps: seq<Step>, s: Stack, all: seq<Step>, s': Stack,
                           j: nat)
    requires Continues(maxA, maxB, start, steps, s, all, s')
    requires |s.a.end.tx.sent| <= j < |s'.a.end.tx.outcomes| && s'.a.end.tx.outcomes[j].Acknowledged?
    ensures |s.a.sealed| < |s'.b.unsealed|
  {
    var k := AckedWasOpened(maxA, maxB, start, all, s', j);
    EveryRunSecure(start, all, s');
    SeenIsOpenable(s'.b, s'.a, s'.air);
    NR.NumberedIsPrefix(s'.a.sealed, s'.b.unsealed);
    assert s'.b.unsealed[k] == s'.a.sealed[k].packet;
    LaterRun(start, steps, s, all, s');
    KnownRun(maxA, maxB, start, steps, s);
  }

  /** The ciphertext number k of side a is not in the air. */
  predicate Missing(s: Stack, k: nat) {
    k < |s.a.sealed| && forall x :: x in s.air && x.Sealed? && x.key == s.a.encrypt ==> x.n != k
  }

  /** What is new in the air is under nonces not used before. */
  lemma NewNonces(s: Stack, s': Stack)
    requires Later(s, s') && NR.Numbered(s'.a.sealed)
    ensures forall x :: x in s'.air && x.Sealed? && x.key == s.a.encrypt ==> x in s.air || x.n >= |s.a.sealed|
  {
    forall x | x in s'.air && x.Sealed? && x.key == s.a.encrypt && x !in s.air ensures x.n >= |s.a.sealed| {
      var tail := s'.a.sealed[|s.a.sealed|..];
      var i :| 0 <= i < |tail| && tail[i] == NR.Ciphertext(x.n, x.packet);
      assert s'.a.sealed[|s.a.sealed| + i].nonce == |s.a.sealed| + i;
    }
  }

  lemma OpenedIsInTheAir(p: Peer, air: set<Blob>, k: nat) returns (x: Blob)
    requires OpenedInOrder(p, air) && k < |p.unsealed|
    ensures x in air && x.Sealed? && x.key == p.decrypt && x.n == k
  {
    x := Sealed(p.decrypt, k, p.unsealed[k]);
  }

  lemma MissingIsNotOpened(s: Stack, k: nat)
    requires Paired(s) && OpenedInOrder(s.b, s.air) && Missing(s, k)
    ensures |s.b.unsealed| <= k
  {
    if k < |s.b.unsealed| {
      var x := OpenedIsInTheAir(s.b, s.air, k);
    }
  }

  lemma GapNeverOpened(maxA: int, maxB: int, start: Stack, steps: seq<Step>, s: Stack, all: seq<Step>, s': Stack,
                       k: nat)
    requires Continues(maxA, maxB, start, steps, s, all, s') && Missing(s, k)
    ensures |s'.b.unsealed| <= k
  {
    LaterRun(start, steps, s, all, s');
    EveryRunSecure(start, all, s');
    NewNonces(s, s');
    MissingIsNotOpened(s', k);
  }

  /**
   Once a ciphertext of a was sealed and not transmitted, no send that a starts
   afterwards is ever acknowledged, however often it is sent again.
   */
  lemma GapIsForever(maxA: int, maxB: int, start: Stack, steps: seq<Step>, s: Stack, all: seq<Step>, s': Stack,
                     k: nat, j: nat)
    requires Continues(maxA, maxB, start, steps, s, all, s') && Missing(s, k)
    requires |s.a.end.tx.sent| <= j < |s'.a.end.tx.outcomes|
    ensures !s'.a.end.tx.outcomes[j].Acknowledged?
  {
    GapNeverOpened(maxA, maxB, start, steps, s, all, s', k);
    if s'.a.end.tx.outcomes[j].Acknowledged? {
      AckNeedsAllEarlier(maxA, maxB, start, steps, s, all, s', j);
    }
  }

  /** A first send that the channel below refuses leaves such a gap, and the stream goes on. */
  lemma GapHappens(start: Stack) returns (steps: seq<Step>, s: Stack)
    requires start == Stack(FreshPeer(1, true), FreshPeer(1, false), {})
    ensures Execute(start, steps) == Some(s) && Missing(s, 0) && s.a.end.running && s.a.end.tx.phase.Idle?
  {
    var step := AtA(Local(StartSend([], Some(StreamFault(1)))), 0);
    Extend(start, [], start, step);
    steps, s := [] + [step], Next(start, step);
  }
}
