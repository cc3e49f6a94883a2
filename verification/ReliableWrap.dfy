/** The reliable stream is lossless exactly as long as its 32-bit sequence does not wrap. */
module ReliableWrap {
  import opened Wrappers
  import opened ReliableEndpoint
  import opened ReliableRuns

  predicate AllAcknowledged(tx: Sender) {
    tx.phase.Idle? && forall k :: 0 <= k < |tx.outcomes| ==> tx.outcomes[k].Acknowledged?
  }

  /** Runs of at most n sends in which every send returned nil deliver every payload. */
  ghost predicate LosslessUpTo(n: nat) {
    forall maxA: int, maxB: int, steps: seq<Step>, s: System ::
      Execute(Start(maxA, maxB), steps) == Some(s)
      && |s.a.tx.sent| <= n && AllAcknowledged(s.a.tx)
      ==> s.b.rx.Accepted() == s.a.tx.sent
  }

  /** Nothing is in flight after n acknowledged sends; b sent nothing. */
  predicate Quiet(s: System, n: nat) {
    && 0 < s.a.tx.maxIncorrect && AllAcknowledged(s.a.tx) && s.a.tx.ackCh == []
    && s.a.tx.sequence == n == |s.a.tx.sent| && s.a.running && s.a.rx.hand.None?
    && s.b.rx.lastAckd == n == |s.b.rx.delivered| && s.b.rx.hand.None? && s.b.rx.dataCh == []
    && s.b.running && s.b.tx.sent == []
  }

  lemma Extend(start: System, steps: seq<Step>, s: System, step: Step)
    requires Execute(start, steps) == Some(s) && CanStep(s, step)
    ensures Execute(start, steps + [step]) == Some(Next(s, step))
  {
    assert (steps + [step])[..|steps|] == steps;
  }

  lemma SendStep(s: System, n: nat) returns (s': System)
    requires n == (s.a.tx.sequence + 1) % SEQUENCE_MODULUS && s.a.tx.phase.Idle? && 0 < s.a.tx.maxIncorrect
    ensures CanStep(s, AtA(StartSend([], None))) && s' == Next(s, AtA(StartSend([], None)))
    ensures s'.a == s.a.(tx := s.a.tx.(sequence := n, phase := Waiting(0, Data(n, [])), sent := s.a.tx.sent + [[]]))
    ensures s'.b == s.b && Data(n, []) in s'.ab
  {
    s' := Next(s, AtA(StartSend([], None)));
  }

  lemma TakeStep(s: System, n: nat) returns (s': System)
    requires s.b.running && s.b.rx.hand.None? && Data(n, []) in s.ab
    ensures CanStep(s, AtB(TakePacket(Data(n, []), None))) && s' == Next(s, AtB(TakePacket(Data(n, []), None)))
    ensures s'.a == s.a && s'.b == s.b.(rx := TakeData(s.b.rx, n, [])) && Ack(n) in s'.ba
  {
    s' := Next(s, AtB(TakePacket(Data(n, []), None)));
  }

  lemma AckStep(s: System, n: nat) returns (s': System)
    requires s.a.running && s.a.rx.hand.None? && s.a.tx.ackCh == [] && Ack(n) in s.ba
    ensures CanStep(s, AtA(TakePacket(Ack(n), None))) && s' == Next(s, AtA(TakePacket(Ack(n), None)))
    ensures s'.a == s.a.(tx := s.a.tx.(ackCh := [n])) && s'.b == s.b
  {
    s' := Next(s, AtA(TakePacket(Ack(n), None)));
  }

  lemma WakeStep(s: System, n: nat) returns (s': System)
    requires InLoop(s.a.tx) && s.a.tx.phase.packet.number == n && s.a.tx.ackCh == [n]
    ensures CanStep(s, AtA(WakeSender(AckArrived(n)))) && s' == Next(s, AtA(WakeSender(AckArrived(n))))
    ensures s'.a == s.a.(tx := s.a.tx.(phase := Idle, ackCh := [], outcomes := s.a.tx.outcomes + [Acknowledged]))
    ensures s'.b == s.b
  {
    s' := Next(s, AtA(WakeSender(AckArrived(n))));
  }

  /** Send a payload, let the peer take and acknowledge it, and see the ack. */
  lemma Handshake(start: System, steps: seq<Step>, s: System, n: nat) returns (steps': seq<Step>, s': System)
    requires Execute(start, steps) == Some(s)
    requires n == (s.a.tx.sequence + 1) % SEQUENCE_MODULUS
    requires s.a.tx.phase.Idle? && 0 < s.a.tx.maxIncorrect && s.a.tx.ackCh == []
    requires s.a.running && s.a.rx.hand.None? && s.b.running && s.b.rx.hand.None?
    ensures Execute(start, steps') == Some(s')
    ensures s'.a == s.a.(tx := s.a.tx.(sequence := n, sent := s.a.tx.sent + [[]],
                                       outcomes := s.a.tx.outcomes + [Acknowledged]))
    ensures s'.b == s.b.(rx := TakeData(s.b.rx, n, []))
  {
    var s1 := SendStep(s, n);
    Extend(start, steps, s, AtA(StartSend([], None)));
    var steps1 := steps + [AtA(StartSend([], None))];
    var s2 := TakeStep(s1, n);
    Extend(start, steps1, s1, AtB(TakePacket(Data(n, []), None)));
    var steps2 := steps1 + [AtB(TakePacket(Data(n, []), None))];
    var s3 := AckStep(s2, n);
    Extend(start, steps2, s2, AtA(TakePacket(Ack(n), None)));
    var steps3 := steps2 + [AtA(TakePacket(Ack(n), None))];
    s' := WakeStep(s3, n);
    Extend(start, steps3, s3, AtA(WakeSender(AckArrived(n))));
    steps' := steps3 + [AtA(WakeSender(AckArrived(n)))];
  }

  /** Push the payload in hand and read it. */
  lemma Drain(start: System, steps: seq<Step>, s: System) returns (steps': seq<Step>, s': System)
    requires Execute(start, steps) == Some(s)
    requires s.b.rx.hand.Some? && s.b.rx.dataCh == []
    ensures Execute(start, steps') == Some(s')
    ensures s'.a == s.a
    ensures s'.b == s.b.(rx := s.b.rx.(hand := None, delivered := s.b.rx.delivered + [s.b.rx.hand.value]))
  {
    Extend(start, steps, s, AtB(PushData));
    var pushed := Next(s, AtB(PushData));
    Extend(start, steps + [AtB(PushData)], pushed, AtB(Read));
    steps', s' := steps + [AtB(PushData)] + [AtB(Read)], Next(pushed, AtB(Read));
  }

  lemma StaysQuiet(s: System, mid: System, s': System, n: nat)
    requires Quiet(s, n) && n + 1 < SEQUENCE_MODULUS
    requires mid.a == s.a.(tx := s.a.tx.(sequence := n + 1, sent := s.a.tx.sent + [[]],
                                         outcomes := s.a.tx.outcomes + [Acknowledged]))
    requires mid.b == s.b.(rx := TakeData(s.b.rx, n + 1, []))
    requires s'.a == mid.a
    requires s'.b == mid.b.(rx := mid.b.rx.(hand := None, delivered := mid.b.rx.delivered + [[]]))
    ensures Quiet(s', n + 1)
  {
  }

  lemma NextNumber(k: nat)
    requires k + 1 < SEQUENCE_MODULUS
    ensures (k + 1) % SEQUENCE_MODULUS == k + 1
  {
  }

  /** Below the modulus every number of sends can go through. */
  lemma {:induction false} QuietRun(n: nat) returns (steps: seq<Step>, s: System)
    requires n < SEQUENCE_MODULUS
    ensures Execute(Start(1, 1), steps) == Some(s) && Quiet(s, n)
    decreases n
  {
    var start := Start(1, 1);
    if n == 0 {
      steps, s := [], start;
    } else {
      var before, quiet := QuietRun(n - 1);
      NextNumber(n - 1);
      var during, mid := Handshake(start, before, quiet, n);
      assert mid.b.rx == quiet.b.rx.(lastAckd := n, hand := Some([]), taken := quiet.b.rx.taken + [n]);
      steps, s := Drain(start, during, mid);
      StaysQuiet(quiet, mid, s, n - 1);
    }
  }

  /** Send number 2^32 carries sequence 0: acknowledged by the peer, and dropped. */
  lemma WrappedSendIsLost() returns (steps: seq<Step>, s: System)
    ensures Execute(Start(1, 1), steps) == Some(s)
    ensures |s.a.tx.sent| == SEQUENCE_MODULUS && s.b.tx.sent == [] && AllAcknowledged(s.a.tx)
    ensures |s.b.rx.Accepted()| == SEQUENCE_MODULUS - 1
  {
    var steps0, s0 := QuietRun(SEQUENCE_MODULUS - 1);
    steps, s := Handshake(Start(1, 1), steps0, s0, 0);
  }

  lemma LosslessExactlyBelowWrap(n: nat)
    ensures LosslessUpTo(n) <==> n < 0x1_0000_0000
  {
    if n < SEQUENCE_MODULUS {
      forall maxA: int, maxB: int, steps: seq<Step>, s: System |
        Execute(Start(maxA, maxB), steps) == Some(s)
        && |s.a.tx.sent| <= n && AllAcknowledged(s.a.tx)
        ensures s.b.rx.Accepted() == s.a.tx.sent
      {
        NoFailureMeansPrefix(maxA, maxB, steps, s);
      }
    } else {
      var steps, s := WrappedSendIsLost();
      assert s.b.rx.Accepted() != s.a.tx.sent;
      assert Execute(Start(1, 1), steps) == Some(s);
    }
  }
}
