/**
 The methods of `reliableStream` (client/stream.go) as updates of an object, which
 keeps the steps of `ReliableEndpoint` it has taken as a history. The first half
 says what the wait loop of send computes from what ends each of its waits; the
 object then waits on its own ackCh, errCh and done while other goroutines act.
 */
module ReliableStreamObject {
  import opened Wrappers
  import opened ReliableEndpoint

  type Environment = nat -> Wake

  // ----- What the wait loop of send computes

  /** A wait that sends the loop round again: a stale ack or a timeout with a resend. */
  predicate Skipped(number: nat, wake: Wake) {
    || (wake.AckArrived? && wake.number != number)
    || (wake.RetryTimer? && wake.resend.None?)
  }

  function Cost(max: int, wake: Wake): nat
    requires 0 < max
  {
    if wake.RetryTimer? then RetryPenalty(max) + 1 else 1
  }

  /** The loop counter after the first k waits. */
  function Spent(max: int, env: Environment, k: nat): nat
    requires 0 < max
  {
    if k == 0 then 0 else Spent(max, env, k - 1) + Cost(max, env(k - 1))
  }

  predicate SkippedBefore(number: nat, env: Environment, k: nat) {
    forall j :: 0 <= j < k ==> Skipped(number, env(j))
  }

  /** The wait number k is reached: all before it went round and left some budget. */
  predicate Reached(max: int, number: nat, env: Environment, k: nat)
    requires 0 < max
  {
    SkippedBefore(number, env, k) && Spent(max, env, k) < max
  }

  function Await(max: int, number: nat, tries: nat, env: Environment, at: nat): Outcome
    decreases max - tries
  {
    if tries >= max then Failed(TimedOut)
    else
      match OnWake(max, number, tries, env(at))
      case Return(outcome) => outcome
      case KeepWaiting(more) => Await(max, number, more, env, at + 1)
  }

  /** A skipped wait only moves the counter. */
  lemma AwaitSkips(max: int, number: nat, env: Environment, at: nat)
    requires 0 < max && Spent(max, env, at) < max && Skipped(number, env(at))
    ensures Await(max, number, Spent(max, env, at), env, at) == Await(max, number, Spent(max, env, at + 1), env, at + 1)
    ensures Spent(max, env, at) < Spent(max, env, at + 1)
  {
    assert Spent(max, env, at + 1) == Spent(max, env, at) + Cost(max, env(at));
  }

  /** Where the loop ends: at a wait that returns, or with the budget gone. */
  lemma {:induction false} AwaitEnds(max: int, number: nat, env: Environment, at: nat) returns (k: nat)
    requires 0 < max && SkippedBefore(number, env, at)
    requires at > 0 ==> Reached(max, number, env, at - 1)
    ensures at <= k && SkippedBefore(number, env, k) && (k > 0 ==> Reached(max, number, env, k - 1))
    ensures Await(max, number, Spent(max, env, at), env, at) == Await(max, number, Spent(max, env, k), env, k)
    ensures Spent(max, env, k) >= max || !Skipped(number, env(k))
    decreases max - Spent(max, env, at)
  {
    if Spent(max, env, at) >= max || !Skipped(number, env(at)) {
      k := at;
    } else {
      AwaitSkips(max, number, env, at);
      k := AwaitEnds(max, number, env, at + 1);
    }
  }

  lemma {:induction false} SpentGrows(max: int, env: Environment, j: nat, k: nat)
    requires 0 < max && j <= k
    ensures Spent(max, env, j) + (k - j) <= Spent(max, env, k)
    decreases k - j
  {
    if j < k {
      SpentGrows(max, env, j, k - 1);
    }
  }

  /** send returns nil exactly when its own ack arrives at a wait the loop still reaches. */
  lemma AwaitSucceedsExactly(max: int, number: nat, env: Environment)
    requires 0 < max
    ensures Await(max, number, 0, env, 0).Acknowledged?
            <==> exists k :: Reached(max, number, env, k) && env(k) == AckArrived(number)
  {
    var end := AwaitEnds(max, number, env, 0);
    if Await(max, number, 0, env, 0).Acknowledged? {
      assert Reached(max, number, env, end) && env(end) == AckArrived(number);
    }
    forall k | Reached(max, number, env, k) && env(k) == AckArrived(number)
      ensures k == end && Spent(max, env, end) < max
    {
      if end <= k {
        SpentGrows(max, env, end, k);
      }
    }
  }

  /** What send returns when a wait ends it: nil, the stored error, ErrClosed, or the error of the resend. */
  predicate EndsAs(number: nat, wake: Wake, outcome: Outcome) {
    match wake
    case AckArrived(n) => n == number && outcome == Acknowledged
    case ErrorSignalled(fault) => outcome == Failed(fault)
    case DoneSignalled => outcome == Failed(StreamClosed)
    case RetryTimer(resend) => resend.Some? && outcome == Failed(resend.value)
  }

  /**
   Which result send returns: that of the wait which ends the loop, if the loop
   reaches one, and ErrTimeout exactly when it reaches none or that one says so.
   */
  lemma AwaitResultExactly(max: int, number: nat, env: Environment)
    requires 0 < max
    ensures forall k :: Reached(max, number, env, k) && !Skipped(number, env(k))
                        ==> EndsAs(number, env(k), Await(max, number, 0, env, 0))
    ensures Await(max, number, 0, env, 0) == Failed(TimedOut)
            <==> forall k :: Reached(max, number, env, k) && !Skipped(number, env(k))
                             ==> EndsAs(number, env(k), Failed(TimedOut))
  {
    var end := AwaitEnds(max, number, env, 0);
    forall k | Reached(max, number, env, k) && !Skipped(number, env(k)) ensures k == end && Spent(max, env, end) < max {
      if end <= k {
        SpentGrows(max, env, end, k);
      }
    }
    assert Spent(max, env, end) < max ==> Reached(max, number, env, end);
  }

  /** Stale acks and timeouts among the first k waits. */
  function Stale(env: Environment, k: nat): nat {
    if k == 0 then 0 else Stale(env, k - 1) + (if env(k - 1).AckArrived? then 1 else 0)
  }

  function Retries(env: Environment, k: nat): nat {
    if k == 0 then 0 else Retries(env, k - 1) + (if env(k - 1).RetryTimer? then 1 else 0)
  }

  lemma OneMore(t: nat, c: nat)
    ensures (t + 1) * c == t * c + c
  {
  }

  lemma {:induction false} SpentIsWeighted(max: int, number: nat, env: Environment, k: nat)
    requires 0 < max && SkippedBefore(number, env, k)
    ensures Spent(max, env, k) == Stale(env, k) + Retries(env, k) * (1 + RetryPenalty(max))
    ensures k == Stale(env, k) + Retries(env, k)
  {
    if k > 0 {
      SpentIsWeighted(max, number, env, k - 1);
      OneMore(Retries(env, k - 1), 1 + RetryPenalty(max));
    }
  }

  /** Eleven penalties already exceed the whole budget. */
  lemma AtMostTenRetries(max: int, retries: nat)
    requires 0 < max && retries * (1 + RetryPenalty(max)) <= max + RetryPenalty(max)
    ensures retries <= 10
  {
    var c := RetryPenalty(max);
    assert retries >= 11 ==> 11 * (1 + c) <= retries * (1 + c);
  }

  /** The bound on the work of one send, whatever the environment does. */
  lemma WaitsAreBounded(max: int, number: nat, env: Environment, k: nat)
    requires 0 < max && SkippedBefore(number, env, k)
    requires k > 0 ==> Reached(max, number, env, k - 1)
    ensures Stale(env, k) + Retries(env, k) * (1 + RetryPenalty(max)) <= max + RetryPenalty(max)
    ensures k <= max && Retries(env, k) <= 10
  {
    SpentIsWeighted(max, number, env, k);
    if k > 0 {
      SpentGrows(max, env, 0, k - 1);
      var s, r, c := Stale(env, k), Retries(env, k), RetryPenalty(max);
      assert s + r * (1 + c) == Spent(max, env, k) <= max + c;
      AtMostTenRetries(max, r);
    }
  }

  /** What holds when the loop tests its counter. */
  predicate AtLoopTest(max: int, number: nat, env: Environment, i: nat, waits: nat, resent: nat)
    requires 0 < max
  {
    && SkippedBefore(number, env, waits) && i == Spent(max, env, waits) && resent == Retries(env, waits)
    && (waits > 0 ==> Reached(max, number, env, waits - 1))
  }

  lemma OnceRound(max: int, number: nat, env: Environment, i: nat, waits: nat, resent: nat)
    requires 0 < max && AtLoopTest(max, number, env, i, waits, resent) && i < max && Skipped(number, env(waits))
    ensures AtLoopTest(max, number, env, i + Cost(max, env(waits)), waits + 1,
                       resent + (if env(waits).RetryTimer? then 1 else 0))
  {
  }

  /** The loop may be cut anywhere: what it returns is what it returns from there. */
  lemma {:induction false} AwaitFrom(max: int, number: nat, env: Environment, i: nat, waits: nat, resent: nat)
    requires 0 < max && AtLoopTest(max, number, env, i, waits, resent)
    ensures Await(max, number, i, env, waits) == Await(max, number, 0, env, 0)
    decreases waits
  {
    if waits > 0 {
      var k := waits - 1;
      if k > 0 {
        SpentGrows(max, env, k - 1, k);
      }
      AwaitFrom(max, number, env, Spent(max, env, k), k, Retries(env, k));
      AwaitSkips(max, number, env, k);
    }
  }

  lemma LoopBounds(max: int, number: nat, env: Environment, i: nat, waits: nat, resent: nat)
    requires 0 < max && AtLoopTest(max, number, env, i, waits, resent)
    ensures waits <= max && resent <= 10 && (i < max ==> waits < max)
  {
    WaitsAreBounded(max, number, env, waits);
    SpentGrows(max, env, 0, waits);
  }

  // ----- The waits that happened, as an environment

  function Observed(wakes: seq<Wake>): Environment {
    (k: nat) => if k < |wakes| then wakes[k] else DoneSignalled
  }

  lemma {:induction false} SameSpent(max: int, env: Environment, other: Environment, k: nat)
    requires 0 < max && forall j :: 0 <= j < k ==> env(j) == other(j)
    ensures Spent(max, env, k) == Spent(max, other, k) && Retries(env, k) == Retries(other, k)
  {
    if k > 0 {
      SameSpent(max, env, other, k - 1);
    }
  }

  /** One more wait does not change what the waits before it cost. */
  lemma ObserveMore(max: int, number: nat, wakes: seq<Wake>, wake: Wake, i: nat, resent: nat)
    requires 0 < max && AtLoopTest(max, number, Observed(wakes), i, |wakes|, resent)
    ensures AtLoopTest(max, number, Observed(wakes + [wake]), i, |wakes|, resent)
  {
    var env, more := Observed(wakes), Observed(wakes + [wake]);
    forall j | 0 <= j < |wakes| ensures env(j) == more(j) && Skipped(number, env(j)) {
    }
    SameSpent(max, env, more, |wakes|);
    if |wakes| > 0 {
      SameSpent(max, env, more, |wakes| - 1);
    }
  }

  /** All waits but the last went round; the last one ends the loop, or used up its budget. */
  ghost predicate ResultOf(max: int, number: nat, wakes: seq<Wake>, outcome: Outcome)
    requires 0 < max
  {
    && |wakes| > 0 && (forall j :: 0 <= j < |wakes| - 1 ==> Skipped(number, wakes[j]))
    && var last := wakes[|wakes| - 1];
       if Skipped(number, last) then outcome == Failed(TimedOut) && max <= Spent(max, Observed(wakes), |wakes|)
       else EndsAs(number, last, outcome)
  }

  /** Where the waits so far have led: to the next loop test, or to the result. */
  ghost predicate Waited(max: int, number: nat, wakes: seq<Wake>, progress: Progress, copies: nat)
    requires 0 < max
  {
    match progress
    case KeepWaiting(i) => i < max && AtLoopTest(max, number, Observed(wakes), i, |wakes|, copies)
    case Return(outcome) =>
      outcome == Await(max, number, 0, Observed(wakes), 0) && ResultOf(max, number, wakes, outcome)
  }

  lemma WakeResult(max: int, number: nat, wakes: seq<Wake>, wake: Wake, i: nat, copies: nat)
    requires 0 < max && i < max && AtLoopTest(max, number, Observed(wakes), i, |wakes|, copies)
    requires AtLoopTest(max, number, Observed(wakes + [wake]), i, |wakes|, copies)
    ensures var progress := OnWake(max, number, i, wake);
            progress.Return? ==> ResultOf(max, number, wakes + [wake], progress.outcome)
  {
    var env := Observed(wakes + [wake]);
    forall j | 0 <= j < |wakes| ensures Skipped(number, (wakes + [wake])[j]) {
      assert Skipped(number, env(j));
    }
    assert Spent(max, env, |wakes| + 1) == i + Cost(max, env(|wakes|));
  }

  lemma WaitOnce(max: int, number: nat, wakes: seq<Wake>, wake: Wake, i: nat, copies: nat)
    requires 0 < max && Waited(max, number, wakes, KeepWaiting(i), copies)
    ensures var copies' := copies + (if wake == RetryTimer(None) then 1 else 0);
            Waited(max, number, wakes + [wake], OnWake(max, number, i, wake), copies') && copies' <= 10 && |wakes| < max
    ensures OnWake(max, number, i, wake).KeepWaiting? ==> i < OnWake(max, number, i, wake).tries
  {
    var env := Observed(wakes + [wake]);
    ObserveMore(max, number, wakes, wake, i, copies);
    LoopBounds(max, number, env, i, |wakes|, copies);
    AwaitFrom(max, number, env, i, |wakes|, copies);
    WakeResult(max, number, wakes, wake, i, copies);
    assert env(|wakes|) == wake;
    if Skipped(number, wake) {
      OnceRound(max, number, env, i, |wakes|, copies);
      LoopBounds(max, number, env, i + Cost(max, wake), |wakes| + 1, copies + (if wake.RetryTimer? then 1 else 0));
    }
  }

  // ----- Runs of one endpoint

  function Run(e: Endpoint, events: seq<Event>): Option<Endpoint>
    decreases |events|
  {
    if |events| == 0 then Some(e)
    else
      match Run(e, events[..|events| - 1])
      case None => None
      case Some(before) =>
        var last := events[|events| - 1];
        if Enabled(before, last) then Some(Apply(before, last)) else None
  }

  lemma RunMore(e: Endpoint, events: seq<Event>, before: Endpoint, event: Event)
    requires Run(e, events) == Some(before) && Enabled(before, event)
    ensures Run(e, events + [event]) == Some(Apply(before, event))
  {
    assert (events + [event])[..|events|] == events;
  }

  lemma StoppedStep(e: Endpoint, event: Event)
    requires !e.running && e.globalErr.Some? && Enabled(e, event)
    ensures !Apply(e, event).running && Apply(e, event).globalErr == e.globalErr
    ensures Apply(e, event).rx.taken == e.rx.taken && Apply(e, event).rx.Accepted() == e.rx.Accepted()
  {
  }

  lemma {:induction false} StoppedForGood(e: Endpoint, events: seq<Event>, after: Endpoint)
    requires !e.running && e.globalErr.Some? && Run(e, events) == Some(after)
    ensures !after.running && after.globalErr == e.globalErr
    ensures after.rx.taken == e.rx.taken && after.rx.Accepted() == e.rx.Accepted()
    decreases |events|
  {
    if |events| > 0 {
      var before := Run(e, events[..|events| - 1]).value;
      StoppedForGood(e, events[..|events| - 1], before);
      StoppedStep(before, events[|events| - 1]);
    }
  }

  /**
   An acknowledgement that the stream below refuses ends stateMachine: its error is
   stored unless there was one, and neither that payload nor a later one is passed up.
   */
  lemma FailedAckStops(e: Endpoint, n: nat, payload: Payload, fault: Fault, events: seq<Event>, after: Endpoint)
    requires Enabled(e, TakePacket(Data(n, payload), Some(fault)))
    requires Run(Apply(e, TakePacket(Data(n, payload), Some(fault))), events) == Some(after)
    ensures !after.running && after.globalErr == if e.globalErr.Some? then e.globalErr else Some(fault)
    ensures after.rx.taken == e.rx.taken && after.rx.Accepted() == e.rx.Accepted()
  {
    StoppedForGood(Apply(e, TakePacket(Data(n, payload), Some(fault))), events, after);
  }

  /** The same when the stream below fails to receive. */
  lemma FailedReceiveStops(e: Endpoint, fault: Fault, events: seq<Event>, after: Endpoint)
    requires Enabled(e, ReceiveFails(fault)) && Run(Apply(e, ReceiveFails(fault)), events) == Some(after)
    ensures !after.running && after.globalErr == if e.globalErr.Some? then e.globalErr else Some(fault)
    ensures after.rx.taken == e.rx.taken && after.rx.Accepted() == e.rx.Accepted()
  {
    StoppedForGood(Apply(e, ReceiveFails(fault)), events, after);
  }

  /** The error an action reports, if any. */
  function Reported(event: Event): Option<Fault> {
    match event
    case StartSend(_, fault) => fault
    case WakeSender(RetryTimer(fault)) => fault
    case TakePacket(Data(_, _), fault) => fault
    case ReceiveFails(fault) => Some(fault)
    case _ => None
  }

  /** The first error reported is the one that is stored; nothing else stores or clears one. */
  lemma FirstErrorStays(e: Endpoint, event: Event)
    requires Enabled(e, event)
    ensures Apply(e, event).globalErr == if e.globalErr.Some? then e.globalErr else Reported(event)
    ensures Apply(e, event).closed <==> e.closed || event.Close?
    ensures Apply(e, event).running <==>
              e.running && !event.ReceiveFails? && !(event.TakePacket? && event.packet.Data? && event.fault.Some?)
  {
  }

  /** What goes on the wire: a payload under the next number, its copies on timeouts, and acknowledgements. */
  lemma OnWireExactly(e: Endpoint, event: Event, packet: Packet)
    requires Enabled(e, event)
    ensures packet in OnWire(e, event) <==>
              match event
              case StartSend(payload, fault) =>
                fault.None? && packet == Data((e.tx.sequence + 1) % SEQUENCE_MODULUS, payload)
              case WakeSender(wake) => wake == RetryTimer(None) && packet == e.tx.phase.packet
              case TakePacket(taken, fault) => fault.None? && taken.Data? && packet == Ack(taken.number)
              case _ => false
  {
  }

  /** ackCh and dataCh are queues of 100: what comes in last goes out last, and the next one blocks. */
  lemma QueuesOfHundred(e: Endpoint, event: Event)
    requires Enabled(e, event)
    ensures Apply(e, event).tx.ackCh
            == (if event.WakeSender? && event.wake.AckArrived? then e.tx.ackCh[1..] else e.tx.ackCh)
               + (if event.TakePacket? && event.packet.Ack? then [event.packet.number] else [])
    ensures event.TakePacket? && event.packet.Ack? ==> |e.tx.ackCh| < 100
    ensures event.PushData? ==> |e.rx.dataCh| < 100
    ensures Enabled(e, PushData) <==> e.rx.hand.Some? && |e.rx.dataCh| < 100
    ensures forall n, f :: Enabled(e, TakePacket(Ack(n), f)) <==> e.running && e.rx.hand.None? && |e.tx.ackCh| < 100
  {
  }

  /** What goroutines other than the sender leave alone. */
  predicate Aside(e: Endpoint, after: Endpoint) {
    && after.tx == e.tx.(ackCh := after.tx.ackCh)
    && (e.globalErr.Some? ==> after.globalErr == e.globalErr)
  }

  /** What the first half of send does to an endpoint. */
  lemma Started(e: Endpoint, payload: Payload, fault: Option<Fault>)
    requires e.tx.phase.Idle?
    ensures var after := Apply(e, StartSend(payload, fault));
            && after.rx == e.rx && after.running == e.running && after.closed == e.closed
            && after.globalErr == (if e.globalErr.None? then fault else e.globalErr)
            && after.tx.maxIncorrect == e.tx.maxIncorrect && after.tx.ackCh == e.tx.ackCh
            && after.tx.sequence == (e.tx.sequence + 1) % SEQUENCE_MODULUS
  {
  }

  /** What a send in its wait loop, and the other goroutines, did to an endpoint. */
  predicate WaitedTo(e: Endpoint, after: Endpoint, packet: Packet, progress: Progress) {
    && after.tx == e.tx.(ackCh := after.tx.ackCh,
                         phase := if progress.KeepWaiting? then Waiting(progress.tries, packet) else Idle,
                         outcomes := if progress.Return? then e.tx.outcomes + [progress.outcome] else e.tx.outcomes)
    && (e.globalErr.Some? ==> after.globalErr == e.globalErr)
  }

  lemma WokenTo(e: Endpoint, mid: Endpoint, packet: Packet, wake: Wake)
    requires Aside(e, mid) && InLoop(mid.tx) && mid.tx.phase.packet == packet && WakeEnabled(mid, wake)
    ensures var progress := OnWake(mid.tx.maxIncorrect, packet.number, mid.tx.phase.tries, wake);
            WaitedTo(e, Apply(mid, WakeSender(wake)), packet, progress)
  {
  }

  /** The waits of the sending goroutine among the events of an endpoint. */
  function WakesOf(events: seq<Event>): seq<Wake> {
    if |events| == 0 then []
    else
      var last := events[|events| - 1];
      WakesOf(events[..|events| - 1]) + (if last.WakeSender? then [last.wake] else [])
  }

  lemma WakesMore(events: seq<Event>, event: Event)
    ensures WakesOf(events + [event]) == WakesOf(events) + (if event.WakeSender? then [event.wake] else [])
  {
    assert (events + [event])[..|events|] == events;
  }

  lemma {:induction false} WakesConcat(some: seq<Event>, more: seq<Event>)
    ensures WakesOf(some + more) == WakesOf(some) + WakesOf(more)
    decreases |more|
  {
    if |more| == 0 {
      assert some + more == some;
    } else {
      WakesConcat(some, more[..|more| - 1]);
      assert (some + more)[..|some + more| - 1] == some + more[..|more| - 1];
    }
  }

  /** The copies of a packet put on the wire by the timeouts among these waits. */
  function Copies(packet: Packet, wakes: seq<Wake>): seq<Packet> {
    if |wakes| == 0 then []
    else Copies(packet, wakes[..|wakes| - 1]) + (if wakes[|wakes| - 1] == RetryTimer(None) then [packet] else [])
  }

  lemma CopiesMore(packet: Packet, wakes: seq<Wake>, wake: Wake)
    ensures Copies(packet, wakes + [wake])
            == Copies(packet, wakes) + (if wake == RetryTimer(None) then [packet] else [])
  {
    assert (wakes + [wake])[..|wakes|] == wakes;
  }

  /** Where the loop of send stands: its waits, its copies on the wire, and what they led to. */
  ghost predicate Looped(max: int, packet: Packet, steps: seq<Event>, wakes: seq<Wake>, progress: Progress,
                         copies: seq<Packet>)
    requires 0 < max
  {
    && packet.Data? && WakesOf(steps) == wakes && |wakes| <= max
    && copies == Copies(packet, wakes) && |copies| <= 10
    && Waited(max, packet.number, wakes, progress, |copies|)
  }

  lemma LoopOnce(max: int, packet: Packet, steps: seq<Event>, wakes: seq<Wake>, i: nat, copies: seq<Packet>,
                 more: seq<Event>, wake: Wake)
    requires 0 < max && Looped(max, packet, steps, wakes, KeepWaiting(i), copies) && WakesOf(more) == [wake]
    ensures i < max
    ensures var progress := OnWake(max, packet.number, i, wake);
            && Looped(max, packet, steps + more, wakes + [wake], progress,
                      copies + (if wake == RetryTimer(None) then [packet] else []))
            && (progress.KeepWaiting? ==> i < progress.tries)
  {
    WaitOnce(max, packet.number, wakes, wake, i, |copies|);
    CopiesMore(packet, wakes, wake);
    WakesConcat(steps, more);
  }

  // ----- The object

  /** What the other goroutines do before a wait of send, and which case of its select is tried. */
  datatype Turn = Turn(others: seq<Event>, wake: Wake)

  /** The cases of the select in receive. */
  datatype ReadCase = DataReady | ErrorReady | DoneReady | ReadTimeout

  class ReliableStream {
    const maxIncorrect: int
    var sequence: nat
    var ackCh: seq<nat>
    var dataCh: seq<Payload>
    var lastAckd: nat
    var globalErr: Option<Fault>
    var errChClosed: bool
    var doneClosed: bool

    // The payload stateMachine holds, and whether that goroutine still runs.
    var hand: Option<Payload>
    var running: bool

    ghost var history: seq<Event>    // the steps taken so far
    ghost var state: Endpoint        // where they lead

    ghost predicate SenderMatches()
      reads this
    {
      state.tx.maxIncorrect == maxIncorrect && state.tx.sequence == sequence && state.tx.ackCh == ackCh
    }

    ghost predicate ReceiverMatches()
      reads this
    {
      state.rx.lastAckd == lastAckd && state.rx.hand == hand && state.rx.dataCh == dataCh
    }

    /** The fields hold what the state says; errCh is closed exactly when an error is stored. */
    ghost predicate Matches()
      reads this
    {
      && SenderMatches() && ReceiverMatches()
      && state.running == running && state.globalErr == globalErr && state.closed == doneClosed
      && (errChClosed <==> globalErr.Some?)
    }

    ghost predicate Valid()
      reads this
    {
      Matches() && Run(Fresh(maxIncorrect), history) == Some(state)
    }

    constructor (maxIncorrect: int)
      ensures Valid() && this.maxIncorrect == maxIncorrect && history == []
    {
      this.maxIncorrect := maxIncorrect;
      sequence, lastAckd := 0, 0;
      ackCh, dataCh, hand := [], [], None;
      globalErr, errChClosed, doneClosed, running := None, false, false, true;
      history, state := [], Fresh(maxIncorrect);
    }

    /** The state takes a step. */
    ghost method Step(event: Event)
      requires Run(Fresh(maxIncorrect), history) == Some(state) && Enabled(state, event)
      modifies this`history, this`state
      ensures history == old(history) + [event] && state == Apply(old(state), event)
      ensures Run(Fresh(maxIncorrect), history) == Some(state)
    {
      RunMore(Fresh(maxIncorrect), history, state, event);
      history, state := history + [event], Apply(state, event);
    }

    /** setError: the first error stays, and errCh is closed once. */
    method StoreError(fault: Fault)
      requires errChClosed <==> globalErr.Some?
      modifies this`globalErr, this`errChClosed
      ensures errChClosed && globalErr == if old(globalErr).Some? then old(globalErr) else Some(fault)
    {
      if globalErr.Some? {
        return;
      }
      globalErr := Some(fault);
      assert !errChClosed;
      errChClosed := true;
    }

    /** One iteration of stateMachine; `reply` is the packet it hands to the stream below. */
    method HandlePacket(packet: Packet, ackFault: Option<Fault>) returns (reply: Option<Packet>)
      requires Valid() && Enabled(state, TakePacket(packet, ackFault))
      modifies this
      ensures Valid() && history == old(history) + [TakePacket(packet, ackFault)]
      ensures state == Apply(old(state), TakePacket(packet, ackFault)) && sequence == old(sequence)
      ensures reply == Emitted(old(state), TakePacket(packet, ackFault))
      ensures reply == if packet.Data? then Some(Ack(packet.number)) else None
    {
      Step(TakePacket(packet, ackFault));
      match packet {
        case Data(number, payload) =>
          reply := Some(Ack(number));
          if ackFault.Some? {
            StoreError(ackFault.value);
            running := false;
            return;
          }
          if number <= lastAckd {
            return;
          }
          lastAckd := number;
          hand := Some(payload);
        case Ack(number) =>
          reply := None;
          ackCh := ackCh + [number];
      }
    }

    /** stateMachine ends when the stream below fails or delivers no packet. */
    method FailReceive(fault: Fault)
      requires Valid() && Enabled(state, ReceiveFails(fault))
      modifies this
      ensures Valid() && history == old(history) + [ReceiveFails(fault)]
      ensures state == Apply(old(state), ReceiveFails(fault))
    {
      Step(ReceiveFails(fault));
      StoreError(fault);
      running := false;
    }

    method PushHand()
      requires Valid() && Enabled(state, PushData)
      modifies this
      ensures Valid() && history == old(history) + [PushData] && state == Apply(old(state), PushData)
    {
      Step(PushData);
      dataCh := dataCh + [hand.value];
      hand := None;
    }

    /**
     receive, with the case its select took: the oldest payload, or an error
     that leaves everything as it was, so that a later call still gets the payloads.
     */
    method Receive(ready: ReadCase) returns (r: Result<Payload, Fault>)
      requires Valid()
      requires ready.DataReady? ==> |dataCh| > 0
      requires (ready.ErrorReady? ==> errChClosed) && (ready.DoneReady? ==> doneClosed)
      modifies this`dataCh, this`history, this`state
      ensures Valid() && (r.Ok? <==> ready.DataReady?)
      ensures r.Ok? ==> history == old(history) + [Read] && state == Apply(old(state), Read)
      ensures r.Ok? ==> old(dataCh) == [r.value] + dataCh
      ensures r.Err? ==> history == old(history) && state == old(state) && dataCh == old(dataCh)
      ensures r.Err? && ready.ErrorReady? ==> r.error == globalErr.value
      ensures r.Err? && !ready.ErrorReady? ==> r.error == if ready.DoneReady? then StreamClosed else TimedOut
    {
      match ready {
        case DataReady =>
          Step(Read);
          r := Ok(dataCh[0]);
          dataCh := dataCh[1..];
        case ErrorReady => r := Err(globalErr.value);
        case DoneReady => r := Err(StreamClosed);
        case ReadTimeout => r := Err(TimedOut);
      }
    }

    method CloseDone()
      requires Valid() && !doneClosed
      modifies this
      ensures Valid() && history == old(history) + [Close] && state == Apply(old(state), Close) && doneClosed
    {
      Step(Close);
      doneClosed := true;
    }

    /** Another goroutine acts, if it can: stateMachine, a reader, or the one that closes the stream. */
    method Interfere(event: Event) returns (ghost steps: seq<Event>)
      requires Valid()
      modifies this
      ensures Valid() && history == old(history) + steps && WakesOf(steps) == [] && Aside(old(state), state)
    {
      steps := [];
      match event {
        case TakePacket(packet, fault) =>
          if running && hand.None? && (packet.Ack? ==> |ackCh| < MESSAGE_BUFFER) {
            var reply := HandlePacket(packet, fault);
            steps := [event];
          }
        case ReceiveFails(fault) =>
          if running && hand.None? {
            FailReceive(fault);
            steps := [event];
          }
        case PushData =>
          if hand.Some? && |dataCh| < MESSAGE_BUFFER {
            PushHand();
            steps := [event];
          }
        case Read =>
          if |dataCh| > 0 {
            var r := Receive(DataReady);
            steps := [event];
          }
        case Close =>
          if !doneClosed {
            CloseDone();
            steps := [event];
          }
        case _ =>
      }
    }

    method InterfereAll(events: seq<Event>) returns (ghost steps: seq<Event>)
      requires Valid()
      modifies this
      ensures Valid() && history == old(history) + steps && WakesOf(steps) == [] && Aside(old(state), state)
    {
      steps := [];
      for k := 0 to |events|
        invariant Valid() && history == old(history) + steps && WakesOf(steps) == [] && Aside(old(state), state)
      {
        ghost var more := Interfere(events[k]);
        WakesConcat(steps, more);
        steps := steps + more;
      }
    }

    /** Can the select of send take this case now? A timer can always fire. */
    predicate Ready(wake: Wake)
      reads this
    {
      match wake
      case AckArrived(n) => |ackCh| > 0 && ackCh[0] == n
      case ErrorSignalled(fault) => globalErr == Some(fault)
      case DoneSignalled => doneClosed
      case RetryTimer(_) => true
    }

    /** What ended a wait is still to be seen: the error stays stored, and `done` stays closed. */
    predicate Signalled(wake: Wake)
      reads this
    {
      match wake
      case AckArrived(_) => true
      case ErrorSignalled(fault) => globalErr == Some(fault)
      case DoneSignalled => doneClosed
      case RetryTimer(resend) => resend.Some? ==> globalErr.Some?
    }

    /** One pass through the select of send, and the loop test after it, is one step of the protocol. */
    method Select(i: nat, packet: Packet, wake: Wake) returns (progress: Progress, copies: seq<Packet>)
      requires Valid() && state.tx.phase == Waiting(i, packet) && packet.Data? && i < maxIncorrect && Ready(wake)
      modifies this
      ensures Valid() && history == old(history) + [WakeSender(wake)]
      ensures old(WakeEnabled(state, wake)) && state == Apply(old(state), WakeSender(wake))
      ensures progress == OnWake(maxIncorrect, packet.number, i, wake) && Signalled(wake)
      ensures copies == if wake == RetryTimer(None) then [packet] else []
      ensures forall p :: p in copies <==> p in OnWire(old(state), WakeSender(wake))
    {
      Step(WakeSender(wake));
      var next := i + 1;
      copies := [];
      match wake {
        case AckArrived(ack) =>
          ackCh := ackCh[1..];
          if ack == packet.number {
            return Return(Acknowledged), [];
          }
        case ErrorSignalled(fault) => return Return(Failed(fault)), [];
        case DoneSignalled => return Return(Failed(StreamClosed)), [];
        case RetryTimer(None) =>
          next := next + RetryPenalty(maxIncorrect);
          copies := [packet];
        case RetryTimer(Some(fault)) =>
          StoreError(fault);
          return Return(Failed(fault)), [];
      }
      progress := if next < maxIncorrect then KeepWaiting(next) else Return(Failed(TimedOut));
    }

    /** Other goroutines act, then the select of send takes the case of this turn, or times out if it is not ready. */
    method WaitTurn(i: nat, packet: Packet, turn: Turn)
      returns (progress: Progress, copies: seq<Packet>, ghost wake: Wake, ghost steps: seq<Event>)
      requires Valid() && state.tx.phase == Waiting(i, packet) && packet.Data? && i < maxIncorrect
      modifies this
      ensures Valid() && history == old(history) + steps && WakesOf(steps) == [wake]
      ensures progress == OnWake(maxIncorrect, packet.number, i, wake) && Signalled(wake)
      ensures WaitedTo(old(state), state, packet, progress)
      ensures copies == if wake == RetryTimer(None) then [packet] else []
    {
      steps := InterfereAll(turn.others);
      var taken := if Ready(turn.wake) then turn.wake else RetryTimer(None);
      WakesMore(steps, WakeSender(taken));
      WokenTo(old(state), state, packet, taken);
      progress, copies := Select(i, packet, taken);
      wake, steps := taken, steps + [WakeSender(taken)];
    }

    /** One round of the wait loop: `start` is the history before the loop. */
    method LoopTurn(i: nat, packet: Packet, turn: Turn, copies: seq<Packet>,
                    ghost start: seq<Event>, ghost steps: seq<Event>, ghost wakes: seq<Wake>)
      returns (progress: Progress, copies': seq<Packet>, ghost steps': seq<Event>, ghost wakes': seq<Wake>)
      requires Valid() && state.tx.phase == Waiting(i, packet) && history == start + steps && 0 < maxIncorrect
      requires Looped(maxIncorrect, packet, steps, wakes, KeepWaiting(i), copies)
      modifies this
      ensures Valid() && history == start + steps' && WaitedTo(old(state), state, packet, progress)
      ensures Looped(maxIncorrect, packet, steps', wakes', progress, copies')
      ensures |wakes'| > 0 && Signalled(wakes'[|wakes'| - 1])
      ensures progress.KeepWaiting? ==> i < progress.tries
    {
      var more;
      ghost var wake, others;
      progress, more, wake, others := WaitTurn(i, packet, turn);
      LoopOnce(maxIncorrect, packet, steps, wakes, i, copies, others, wake);
      copies', steps', wakes' := copies + more, steps + others, wakes + [wake];
    }

    /** The wait loop of send, while the other goroutines go on. */
    method AwaitOwnAck(packet: Packet, turns: nat -> Turn)
      returns (outcome: Outcome, copies: seq<Packet>, ghost wakes: seq<Wake>, ghost steps: seq<Event>)
      requires Valid() && 0 < maxIncorrect && state.tx.phase == Waiting(0, packet) && packet.Data?
      modifies this
      ensures Valid() && WaitedTo(old(state), state, packet, Return(outcome))
      ensures history == old(history) + steps && Looped(maxIncorrect, packet, steps, wakes, Return(outcome), copies)
      ensures |wakes| > 0 && Signalled(wakes[|wakes| - 1])
    {
      var progress, waits := KeepWaiting(0), 0;
      copies, wakes, steps := [], [], [];
      while progress.KeepWaiting?
        invariant Valid() && WaitedTo(old(state), state, packet, progress)
        invariant history == old(history) + steps && Looped(maxIncorrect, packet, steps, wakes, progress, copies)
        invariant progress.Return? ==> |wakes| > 0 && Signalled(wakes[|wakes| - 1])
        decreases if progress.KeepWaiting? then maxIncorrect - progress.tries else 0
      {
        progress, copies, steps, wakes :=
          LoopTurn(progress.tries, packet, turns(waits), copies, old(history), steps, wakes);
        waits := waits + 1;
      }
      outcome := progress.outcome;
    }

    /** Number the payload and hand it to the stream below, which may fail. */
    method StartSending(payload: Payload, fault: Option<Fault>) returns (packet: Packet)
      requires Valid() && state.tx.phase.Idle?
      modifies this
      ensures Valid() && history == old(history) + [StartSend(payload, fault)]
      ensures state == Apply(old(state), StartSend(payload, fault)) && packet == Data(sequence, payload)
    {
      Started(state, payload, fault);
      Step(StartSend(payload, fault));
      sequence := (sequence + 1) % SEQUENCE_MODULUS;
      packet := Data(sequence, payload);
      if fault.Some? {
        StoreError(fault.value);
      }
    }

    /**
     A whole send, while the other goroutines go on: `steps` is what the endpoint
     did after the packet was first handed down, and `wire` what the stream below
     accepted, the first copy and the resends.
     */
    method Send(payload: Payload, fault: Option<Fault>, turns: nat -> Turn)
      returns (outcome: Outcome, wire: seq<Packet>, ghost wakes: seq<Wake>, ghost steps: seq<Event>)
      requires Valid() && state.tx.phase.Idle?
      modifies this
      ensures Valid() && history == old(history) + [StartSend(payload, fault)] + steps && WakesOf(steps) == wakes
      ensures state.tx.phase.Idle? && state.tx.sent == old(state.tx.sent) + [payload]
      ensures state.tx.outcomes == old(state.tx.outcomes) + [outcome]
      ensures sequence == (old(sequence) + 1) % SEQUENCE_MODULUS
      ensures |wakes| <= if 0 < maxIncorrect then maxIncorrect else 0
      ensures fault.Some? ==> outcome == Failed(fault.value) && wire == [] && steps == [] && globalErr.Some?
      ensures fault.None? ==> outcome == Await(maxIncorrect, sequence, 0, Observed(wakes), 0)
      ensures fault.None? && maxIncorrect <= 0 ==> outcome == Failed(TimedOut)
      ensures fault.None? && 0 < maxIncorrect ==> ResultOf(maxIncorrect, sequence, wakes, outcome)
      ensures fault.None? && 0 < maxIncorrect ==> Signalled(wakes[|wakes| - 1])
      ensures fault.None? ==> wire == [Data(sequence, payload)] + Copies(Data(sequence, payload), wakes) && |wire| <= 11
      ensures old(globalErr).Some? ==> globalErr == old(globalErr)
    {
      var packet := StartSending(payload, fault);
      wire, wakes, steps := [], [], [];
      if fault.Some? {
        return Failed(fault.value), wire, wakes, steps;
      }
      wire := [packet];
      outcome := Failed(TimedOut);
      if 0 < maxIncorrect {
        var copies;
        outcome, copies, wakes, steps := AwaitOwnAck(packet, turns);
        wire := wire + copies;
      }
    }
  }
}
