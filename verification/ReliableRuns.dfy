/**
 Two reliable endpoints over a wire that loses, duplicates and reorders: the
 wire is the set of packets ever put on it, and a receive takes any member.
 */
module ReliableRuns {
  import opened Wrappers
  import opened ReliableEndpoint
  import opened Subsequences

  datatype System = System(a: Endpoint, b: Endpoint, ab: set<Packet>, ba: set<Packet>)

  datatype Step = AtA(event: Event) | AtB(event: Event)

  function Mirror(s: System): System {
    System(s.b, s.a, s.ba, s.ab)
  }

  function MirrorStep(step: Step): Step {
    match step
    case AtA(event) => AtB(event)
    case AtB(event) => AtA(event)
  }

  predicate CanStepA(s: System, event: Event) {
    Enabled(s.a, event) && (event.TakePacket? ==> event.packet in s.ba)
  }

  function StepA(s: System, event: Event): System
    requires CanStepA(s, event)
  {
    s.(a := Apply(s.a, event), ab := s.ab + OnWire(s.a, event))
  }

  predicate CanStep(s: System, step: Step) {
    if step.AtA? then CanStepA(s, step.event) else CanStepA(Mirror(s), step.event)
  }

  function Next(s: System, step: Step): System
    requires CanStep(s, step)
  {
    if step.AtA? then StepA(s, step.event) else Mirror(StepA(Mirror(s), step.event))
  }

  function Start(maxA: int, maxB: int): System {
    System(Fresh(maxA), Fresh(maxB), {}, {})
  }

  /** The state these steps lead to, or None when one of them is not enabled. */
  function Execute(start: System, steps: seq<Step>): Option<System>
    decreases |steps|
  {
    if |steps| == 0 then Some(start)
    else
      var last := steps[|steps| - 1];
      match Execute(start, steps[..|steps| - 1])
      case None => None
      case Some(s) => if CanStep(s, last) then Some(Next(s, last)) else None
  }

  // ----- What one direction keeps

  predicate StrictlyIncreasing(ns: seq<nat>) {
    forall i, j :: 0 <= i < j < |ns| ==> ns[i] < ns[j]
  }

  function Last(ns: seq<nat>): nat {
    if |ns| == 0 then 0 else ns[|ns| - 1]
  }

  /** The receiver's list holds exactly the payloads sent under the numbers it took. */
  predicate CarriesTaken(sent: seq<Payload>, taken: seq<nat>, accepted: seq<Payload>) {
    && |accepted| == |taken|
    && forall i :: 0 <= i < |taken| ==> 1 <= taken[i] <= |sent| && accepted[i] == sent[taken[i] - 1]
  }

  /** An acknowledged number was passed up, or is too old to answer the current send. */
  predicate Settled(rx: Receiver, n: nat) {
    n in rx.taken || n < rx.lastAckd
  }

  predicate Bookkeeping(tx: Sender) {
    && tx.sequence == |tx.sent|
    && |tx.outcomes| + (if tx.phase.Waiting? then 1 else 0) == |tx.sent|
    && (tx.phase.Waiting? ==> tx.phase.packet == Data(tx.sequence, tx.sent[|tx.sent| - 1]))
  }

  predicate WireData(sent: seq<Payload>, w: set<Packet>) {
    forall p :: p in w && p.Data? ==> 1 <= p.number <= |sent| && p.payload == sent[p.number - 1]
  }

  predicate Receiving(sent: seq<Payload>, rx: Receiver) {
    && StrictlyIncreasing(rx.taken)
    && rx.lastAckd == Last(rx.taken)
    && CarriesTaken(sent, rx.taken, rx.Accepted())
  }

  predicate WireAcks(rx: Receiver, v: set<Packet>) {
    forall p :: p in v && p.Ack? ==> Settled(rx, p.number)
  }

  predicate QueuedAcks(tx: Sender, rx: Receiver) {
    forall n :: n in tx.ackCh ==> Settled(rx, n)
  }

  predicate OutcomesHonest(tx: Sender, rx: Receiver) {
    forall k :: 0 <= k < |tx.outcomes| && tx.outcomes[k].Acknowledged? ==> k + 1 in rx.taken
  }

  /** From sender `tx` to receiver `rx`: `w` carries the data, `v` the acknowledgements. */
  predicate Direction(tx: Sender, rx: Receiver, w: set<Packet>, v: set<Packet>) {
    && Bookkeeping(tx)
    && WireData(tx.sent, w)
    && Receiving(tx.sent, rx)
    && WireAcks(rx, v)
    && QueuedAcks(tx, rx)
    && OutcomesHonest(tx, rx)
  }

  lemma BeginKeeps(tx: Sender, rx: Receiver, w: set<Packet>, v: set<Packet>, payload: Payload, fault: Option<Fault>)
    requires Direction(tx, rx, w, v)
    requires tx.phase.Idle? && |tx.sent| + 1 < SEQUENCE_MODULUS
    ensures Direction(Begin(tx, payload, fault), rx, w + {Data(tx.sequence + 1, payload)}, v)
    ensures Direction(Begin(tx, payload, fault), rx, w, v)
  {
  }

  /** A matching ack is never one of an older send. */
  lemma WakeKeeps(tx: Sender, rx: Receiver, w: set<Packet>, v: set<Packet>, wake: Wake)
    requires Direction(tx, rx, w, v)
    requires InLoop(tx) && (wake.AckArrived? ==> |tx.ackCh| > 0 && tx.ackCh[0] == wake.number)
    ensures Direction(Wakeup(tx, wake), rx, w + {tx.phase.packet}, v)
    ensures Direction(Wakeup(tx, wake), rx, w, v)
  {
    if wake.AckArrived? {
      assert Settled(rx, wake.number);
    }
  }

  lemma TakeReceiving(sent: seq<Payload>, rx: Receiver, n: nat, payload: Payload)
    requires Receiving(sent, rx) && rx.hand.None? && 1 <= n <= |sent| && payload == sent[n - 1]
    ensures Receiving(sent, TakeData(rx, n, payload)) && Settled(TakeData(rx, n, payload), n)
    ensures forall m :: Settled(rx, m) ==> Settled(TakeData(rx, n, payload), m)
    ensures forall m :: m in rx.taken ==> m in TakeData(rx, n, payload).taken
  {
    var rx' := TakeData(rx, n, payload);
    if n > rx.lastAckd {
      assert rx'.Accepted() == rx.Accepted() + [payload];
      assert rx'.taken[|rx.taken|] == n;
    }
  }

  lemma TakeDataKeeps(tx: Sender, rx: Receiver, w: set<Packet>, v: set<Packet>, n: nat, payload: Payload)
    requires Direction(tx, rx, w, v)
    requires rx.hand.None? && Data(n, payload) in w
    ensures Direction(tx, TakeData(rx, n, payload), w, v + {Ack(n)})
  {
    TakeReceiving(tx.sent, rx, n, payload);
  }

  lemma SenderKeeps(s: Endpoint, rx: Receiver, w: set<Packet>, v: set<Packet>, event: Event)
    requires Direction(s.tx, rx, w, v)
    requires Enabled(s, event) && (event.TakePacket? ==> event.packet in v)
    requires |Apply(s, event).tx.sent| < SEQUENCE_MODULUS
    ensures Direction(Apply(s, event).tx, rx, w + OnWire(s, event), v)
  {
    match event
    case StartSend(payload, fault) => BeginKeeps(s.tx, rx, w, v, payload, fault);
    case WakeSender(wake) => WakeKeeps(s.tx, rx, w, v, wake);
    case _ =>
  }

  /** Moving a payload towards the application, or adding data to `v`, changes nothing. */
  lemma SameViewKeeps(tx: Sender, rx: Receiver, rx': Receiver, w: set<Packet>, v: set<Packet>, more: set<Packet>)
    requires Direction(tx, rx, w, v)
    requires rx'.taken == rx.taken && rx'.lastAckd == rx.lastAckd && rx'.Accepted() == rx.Accepted()
    requires forall p :: p in more ==> p.Data?
    ensures Direction(tx, rx', w, v + more)
  {
  }

  lemma ReceiverKeeps(tx: Sender, r: Endpoint, w: set<Packet>, v: set<Packet>, event: Event)
    requires Direction(tx, r.rx, w, v)
    requires Enabled(r, event) && (event.TakePacket? ==> event.packet in w)
    ensures Direction(tx, Apply(r, event).rx, w, v + OnWire(r, event))
  {
    match event
    case TakePacket(Data(n, payload), None) => TakeDataKeeps(tx, r.rx, w, v, n, payload);
    case PushData =>
      assert Push(r.rx).Accepted() == r.rx.Accepted();
      SameViewKeeps(tx, r.rx, Push(r.rx), w, v, {});
    case Read =>
      assert Pop(r.rx).Accepted() == r.rx.Accepted();
      SameViewKeeps(tx, r.rx, Pop(r.rx), w, v, {});
    case _ =>
      SameViewKeeps(tx, r.rx, r.rx, w, v, OnWire(r, event));
  }

  // ----- Every run

  /** The direction from a to b is intact. */
  predicate Intact(s: System) {
    Direction(s.a.tx, s.b.rx, s.ab, s.ba)
  }

  /** The sender of that direction has not wrapped its sequence number. */
  predicate NoWrap(s: System) {
    |s.a.tx.sent| < SEQUENCE_MODULUS
  }

  lemma NextKeeps(s: System, step: Step)
    requires Intact(s) && CanStep(s, step) && NoWrap(Next(s, step))
    ensures Intact(Next(s, step))
  {
    if step.AtA? {
      SenderKeeps(s.a, s.b.rx, s.ab, s.ba, step.event);
    } else {
      ReceiverKeeps(s.a.tx, s.b, s.ab, s.ba, step.event);
    }
  }

  lemma SentGrows(s: System, step: Step)
    requires CanStep(s, step)
    ensures s.a.tx.sent <= Next(s, step).a.tx.sent
  {
  }

  lemma {:induction false} EveryRunIntactAB(maxA: int, maxB: int, steps: seq<Step>, s: System)
    requires Execute(Start(maxA, maxB), steps) == Some(s) && NoWrap(s)
    ensures Intact(s)
    decreases |steps|
  {
    if |steps| > 0 {
      var p := Execute(Start(maxA, maxB), steps[..|steps| - 1]).value;
      SentGrows(p, steps[|steps| - 1]);
      EveryRunIntactAB(maxA, maxB, steps[..|steps| - 1], p);
      NextKeeps(p, steps[|steps| - 1]);
    }
  }

  /** Each direction stays intact as long as its own sender has not wrapped. */
  lemma EveryRunIntact(maxA: int, maxB: int, steps: seq<Step>, s: System)
    requires Execute(Start(maxA, maxB), steps) == Some(s)
    ensures NoWrap(s) ==> Intact(s)
    ensures NoWrap(Mirror(s)) ==> Intact(Mirror(s))
  {
    if NoWrap(s) {
      EveryRunIntactAB(maxA, maxB, steps, s);
    }
    if NoWrap(Mirror(s)) {
      RunsMirror(maxA, maxB, steps, s);
      EveryRunIntactAB(maxB, maxA, MirrorSteps(steps), Mirror(s));
    }
  }

  // ----- What the application may rely on

  lemma {:induction false} TakenIsSubsequence(sent: seq<Payload>, taken: seq<nat>, accepted: seq<Payload>)
    requires StrictlyIncreasing(taken) && CarriesTaken(sent, taken, accepted)
    ensures IsSubsequence(accepted, sent)
    decreases |sent|
  {
    if |accepted| > 0 {
      var n := |taken| - 1;
      if taken[n] == |sent| {
        TakenIsSubsequence(sent[..|sent| - 1], taken[..n], accepted[..n]);
      } else {
        TakenIsSubsequence(sent[..|sent| - 1], taken, accepted);
      }
    }
  }

  /** Strictly increasing numbers with the elements of 1..m are 1..m. */
  lemma {:induction false} ExactlyTheFirst(taken: seq<nat>, m: nat)
    requires StrictlyIncreasing(taken)
    requires forall n: nat :: n in taken <==> 1 <= n <= m
    ensures |taken| == m && forall i :: 0 <= i < |taken| ==> taken[i] == i + 1
    decreases m
  {
    if |taken| == 0 {
      assert 1 <= m ==> m in taken;
    } else {
      assert taken[0] in taken;
      assert m in taken;
      var last := |taken| - 1;
      assert taken[last] in taken;
      var front := taken[..last];
      forall n: nat ensures n in front <==> 1 <= n <= m - 1 {
        if n in front {
          var i :| 0 <= i < last && taken[i] == n;
          assert taken[i] < taken[last];
          assert n in taken;
        }
        if 1 <= n <= m - 1 {
          assert n in taken;
        }
      }
      ExactlyTheFirst(front, m - 1);
    }
  }

  /** The numbers 1..m in strictly increasing order, possibly followed by m+1. */
  lemma FirstOrOneMore(taken: seq<nat>, m: nat)
    requires StrictlyIncreasing(taken)
    requires forall n: nat :: n in taken ==> 1 <= n <= m + 1
    requires forall n: nat :: 1 <= n <= m ==> n in taken
    ensures m <= |taken| <= m + 1 && forall i :: 0 <= i < |taken| ==> taken[i] == i + 1
  {
    ExactlyTheFirst(taken, if m + 1 in taken then m + 1 else m);
  }

  /** Send number k+1 returned nil: the peer holds exactly that payload. */
  lemma AcknowledgedMeansAccepted(maxA: int, maxB: int, steps: seq<Step>, s: System, k: nat)
    requires Execute(Start(maxA, maxB), steps) == Some(s) && NoWrap(s)
    requires k < |s.a.tx.outcomes| && s.a.tx.outcomes[k].Acknowledged?
    ensures exists i :: 0 <= i < |s.b.rx.taken| == |s.b.rx.Accepted()| && k < |s.a.tx.sent|
                        && s.b.rx.taken[i] == k + 1 && s.b.rx.Accepted()[i] == s.a.tx.sent[k]
  {
    EveryRunIntactAB(maxA, maxB, steps, s);
    assert k + 1 in s.b.rx.taken;
    var i :| 0 <= i < |s.b.rx.taken| && s.b.rx.taken[i] == k + 1;
    assert s.b.rx.Accepted()[i] == s.a.tx.sent[k];
  }

  /** While no send has failed, the peer accepted all payloads sent, or all but the current one. */
  lemma NoFailureMeansPrefix(maxA: int, maxB: int, steps: seq<Step>, s: System)
    requires Execute(Start(maxA, maxB), steps) == Some(s) && NoWrap(s)
    requires forall k :: 0 <= k < |s.a.tx.outcomes| ==> s.a.tx.outcomes[k].Acknowledged?
    ensures s.b.rx.Accepted() == s.a.tx.sent
            || (s.a.tx.phase.Waiting? && 0 < |s.a.tx.sent| && s.b.rx.Accepted() == s.a.tx.sent[..|s.a.tx.sent| - 1])
    ensures s.b.rx.delivered <= s.a.tx.sent
  {
    EveryRunIntactAB(maxA, maxB, steps, s);
    AcceptedIsPrefix(s.a.tx, s.b.rx);
    assert s.b.rx.delivered <= s.b.rx.Accepted();
  }

  lemma AcceptedIsPrefix(tx: Sender, rx: Receiver)
    requires Bookkeeping(tx) && Receiving(tx.sent, rx) && OutcomesHonest(tx, rx)
    requires forall k :: 0 <= k < |tx.outcomes| ==> tx.outcomes[k].Acknowledged?
    ensures |tx.outcomes| <= |rx.taken| <= |tx.sent| && rx.Accepted() == tx.sent[..|rx.taken|]
  {
    var m := |tx.outcomes|;
    forall n: nat | 1 <= n <= m ensures n in rx.taken {
      assert tx.outcomes[n - 1].Acknowledged?;
    }
    FirstOrOneMore(rx.taken, m);
    assert |rx.taken| > 0 ==> rx.taken[|rx.taken| - 1] <= |tx.sent|;
  }

  /** Whatever failed and however late copies arrive: ordered, at most once, never ahead of the sender. */
  lemma OrderedAtMostOnce(maxA: int, maxB: int, steps: seq<Step>, s: System)
    requires Execute(Start(maxA, maxB), steps) == Some(s) && NoWrap(s)
    ensures StrictlyIncreasing(s.b.rx.taken)
    ensures CarriesTaken(s.a.tx.sent, s.b.rx.taken, s.b.rx.Accepted())
    ensures IsSubsequence(s.b.rx.delivered + s.b.rx.dataCh, s.a.tx.sent)
    ensures s.b.rx.lastAckd <= s.a.tx.sequence
  {
    EveryRunIntactAB(maxA, maxB, steps, s);
    PushedIsSubsequence(s.a.tx.sent, s.b.rx);
  }

  lemma PushedIsSubsequence(sent: seq<Payload>, rx: Receiver)
    requires Receiving(sent, rx)
    ensures IsSubsequence(rx.delivered + rx.dataCh, sent) && rx.lastAckd <= |sent|
  {
    var pushed := rx.delivered + rx.dataCh;
    assert pushed == rx.Accepted()[..|pushed|];
    CarriesPrefix(sent, rx.taken, rx.Accepted(), |pushed|);
    TakenIsSubsequence(sent, rx.taken[..|pushed|], pushed);
  }

  lemma CarriesPrefix(sent: seq<Payload>, taken: seq<nat>, accepted: seq<Payload>, k: nat)
    requires StrictlyIncreasing(taken) && CarriesTaken(sent, taken, accepted) && k <= |taken|
    ensures StrictlyIncreasing(taken[..k]) && CarriesTaken(sent, taken[..k], accepted[..k])
  {
  }

  function MirrorSteps(steps: seq<Step>): seq<Step> {
    seq(|steps|, i requires 0 <= i < |steps| => MirrorStep(steps[i]))
  }

  lemma NextMirrors(s: System, step: Step)
    requires CanStep(s, step)
    ensures CanStep(Mirror(s), MirrorStep(step)) && Next(Mirror(s), MirrorStep(step)) == Mirror(Next(s, step))
  {
  }

  /** The system is symmetric: each theorem about a-to-b holds of b-to-a. */
  lemma {:induction false} RunsMirror(maxA: int, maxB: int, steps: seq<Step>, s: System)
    requires Execute(Start(maxA, maxB), steps) == Some(s)
    ensures Execute(Start(maxB, maxA), MirrorSteps(steps)) == Some(Mirror(s))
    decreases |steps|
  {
    if |steps| > 0 {
      var p := Execute(Start(maxA, maxB), steps[..|steps| - 1]).value;
      RunsMirror(maxA, maxB, steps[..|steps| - 1], p);
      NextMirrors(p, steps[|steps| - 1]);
      assert MirrorSteps(steps)[..|steps| - 1] == MirrorSteps(steps[..|steps| - 1]);
    }
  }

  // ----- The promises of both directions at once

  /** The receiver of a's payloads holds the one of send number k + 1. */
  predicate Holds(s: System, k: nat) {
    exists i :: 0 <= i < |s.b.rx.taken| == |s.b.rx.Accepted()| && k < |s.a.tx.sent|
                && s.b.rx.taken[i] == k + 1 && s.b.rx.Accepted()[i] == s.a.tx.sent[k]
  }

  /**
   From a to b: a send that returned nil was accepted, without a failed send
   nothing is missing, and in any case what was pushed up is in order.
   */
  predicate Delivers(s: System) {
    && (forall k :: 0 <= k < |s.a.tx.outcomes| && s.a.tx.outcomes[k].Acknowledged? ==> Holds(s, k))
    && ((forall k :: 0 <= k < |s.a.tx.outcomes| ==> s.a.tx.outcomes[k].Acknowledged?) ==>
          && (s.b.rx.Accepted() == s.a.tx.sent
              || (s.a.tx.phase.Waiting? && 0 < |s.a.tx.sent| && s.b.rx.Accepted() == s.a.tx.sent[..|s.a.tx.sent| - 1]))
          && s.b.rx.delivered <= s.a.tx.sent)
    && IsSubsequence(s.b.rx.delivered + s.b.rx.dataCh, s.a.tx.sent)
  }

  lemma DeliversAB(maxA: int, maxB: int, steps: seq<Step>, s: System)
    requires Execute(Start(maxA, maxB), steps) == Some(s) && NoWrap(s)
    ensures Delivers(s)
  {
    forall k | 0 <= k < |s.a.tx.outcomes| && s.a.tx.outcomes[k].Acknowledged? ensures Holds(s, k) {
      AcknowledgedMeansAccepted(maxA, maxB, steps, s, k);
    }
    if forall k :: 0 <= k < |s.a.tx.outcomes| ==> s.a.tx.outcomes[k].Acknowledged? {
      NoFailureMeansPrefix(maxA, maxB, steps, s);
    }
    OrderedAtMostOnce(maxA, maxB, steps, s);
  }

  lemma EveryRunDelivers(maxA: int, maxB: int, steps: seq<Step>, s: System)
    requires Execute(Start(maxA, maxB), steps) == Some(s)
    ensures NoWrap(s) ==> Delivers(s)
    ensures NoWrap(Mirror(s)) ==> Delivers(Mirror(s))
  {
    if NoWrap(s) {
      DeliversAB(maxA, maxB, steps, s);
    }
    if NoWrap(Mirror(s)) {
      RunsMirror(maxA, maxB, steps, s);
      DeliversAB(maxB, maxA, MirrorSteps(steps), Mirror(s));
    }
  }
}
