/**
 One endpoint of the stop-and-wait reliable stream of client/stream.go.

 An `Endpoint` holds the fields of `reliableStream`, the locals of its two
 goroutines (`send` and `stateMachine`) and the histories the theorems speak
 about. Every atomic action of the two goroutines is an `Event`.
 */
module ReliableEndpoint {
  import opened Wrappers

  /** `sequence` is a uint32. */
  const SEQUENCE_MODULUS: nat := 0x1_0000_0000

  /** ReliableMessageBuffer: the capacity of ackCh and dataCh. */
  const MESSAGE_BUFFER: nat := 100

  type Payload = seq<bv8>

  datatype Packet = Data(number: nat, payload: Payload) | Ack(number: nat)

  datatype Fault = StreamFault(code: nat) | TimedOut | StreamClosed

  datatype Outcome = Acknowledged | Failed(fault: Fault)

  /** What ends one `select` of the wait loop in `send`. */
  datatype Wake =
    | AckArrived(number: nat)
    | ErrorSignalled(fault: Fault)
    | DoneSignalled
    | RetryTimer(resend: Option<Fault>)

  datatype Progress = KeepWaiting(tries: nat) | Return(outcome: Outcome)

  datatype SendPhase = Idle | Waiting(tries: nat, packet: Packet)

  /** The sending half: fields and locals of `send`, and the acks it waits for. */
  datatype Sender = Sender(
    maxIncorrect: int,         // MaxIncorrectMessages
    sequence: nat,             // r.sequence
    phase: SendPhase,          // where the goroutine in `send` is
    ackCh: seq<nat>,
    sent: seq<Payload>,        // history: the argument of every send call
    outcomes: seq<Outcome>     // history: the result of every finished send
  )

  /** The receiving half: locals of `stateMachine` and the payloads it passes up. */
  datatype Receiver = Receiver(
    lastAckd: nat,
    hand: Option<Payload>,     // acknowledged, not yet pushed to dataCh
    dataCh: seq<Payload>,
    taken: seq<nat>,           // history: the numbers passed up, in order
    delivered: seq<Payload>    // history: what `receive` handed out
  ) {
    /** Everything accepted from the peer, wherever it is now. */
    function Accepted(): seq<Payload> {
      delivered + dataCh + (if hand.Some? then [hand.value] else [])
    }
  }

  datatype Endpoint = Endpoint(
    tx: Sender,
    rx: Receiver,
    running: bool,             // stateMachine has not returned
    globalErr: Option<Fault>,
    closed: bool               // `done` is closed
  )

  function Fresh(maxIncorrect: int): Endpoint {
    Endpoint(Sender(maxIncorrect, 0, Idle, [], [], []), Receiver(0, None, [], [], []), true, None, false)
  }

  datatype Event =
    | StartSend(payload: Payload, fault: Option<Fault>)
    | WakeSender(wake: Wake)
    | TakePacket(packet: Packet, fault: Option<Fault>)
    | PushData
    | Read
    | ReceiveFails(reason: Fault)
    | Close

  /** ceil(MaxIncorrectMessages / 10), what a timeout adds to the loop counter. */
  function RetryPenalty(maxIncorrect: int): (penalty: nat)
    requires 0 < maxIncorrect
    ensures 10 * (penalty - 1) < maxIncorrect <= 10 * penalty
  {
    (maxIncorrect + 9) / 10
  }

  /** The loop test of `send`, after its counter moved to `tries`. */
  function LoopTest(maxIncorrect: int, tries: nat): Progress {
    if tries < maxIncorrect then KeepWaiting(tries) else Return(Failed(TimedOut))
  }

  /** One pass through the body of the wait loop of `send`. */
  function OnWake(maxIncorrect: int, number: nat, tries: nat, wake: Wake): Progress
    requires tries < maxIncorrect
  {
    match wake
    case AckArrived(n) =>
      if n != number then LoopTest(maxIncorrect, tries + 1) else Return(Acknowledged)
    case ErrorSignalled(fault) => Return(Failed(fault))
    case DoneSignalled => Return(Failed(StreamClosed))
    case RetryTimer(Some(fault)) => Return(Failed(fault))
    case RetryTimer(None) => LoopTest(maxIncorrect, tries + RetryPenalty(maxIncorrect) + 1)
  }

  /** setError keeps the first error only. */
  function SetError(e: Endpoint, fault: Fault): Endpoint {
    if e.globalErr.Some? then e else e.(globalErr := Some(fault))
  }

  function Report(e: Endpoint, fault: Option<Fault>): Endpoint {
    if fault.Some? then SetError(e, fault.value) else e
  }

  function Finish(tx: Sender, outcome: Outcome): Sender {
    tx.(phase := Idle, outcomes := tx.outcomes + [outcome])
  }

  function Advance(tx: Sender, progress: Progress): Sender
    requires tx.phase.Waiting?
  {
    match progress
    case KeepWaiting(tries) => tx.(phase := tx.phase.(tries := tries))
    case Return(outcome) => Finish(tx, outcome)
  }

  /** A send waiting in its loop. */
  predicate InLoop(tx: Sender) {
    tx.phase.Waiting? && tx.phase.packet.Data? && tx.phase.tries < tx.maxIncorrect
  }

  predicate WakeEnabled(e: Endpoint, wake: Wake) {
    match wake
    case AckArrived(n) => |e.tx.ackCh| > 0 && e.tx.ackCh[0] == n
    case ErrorSignalled(fault) => e.globalErr == Some(fault)
    case DoneSignalled => e.closed
    case RetryTimer(_) => true
  }

  predicate Enabled(e: Endpoint, event: Event) {
    match event
    case StartSend(_, _) => e.tx.phase.Idle?
    case WakeSender(wake) => InLoop(e.tx) && WakeEnabled(e, wake)
    case TakePacket(packet, _) =>
      e.running && e.rx.hand.None? && (packet.Ack? ==> |e.tx.ackCh| < MESSAGE_BUFFER)
    case PushData => e.rx.hand.Some? && |e.rx.dataCh| < MESSAGE_BUFFER
    case Read => |e.rx.dataCh| > 0
    case ReceiveFails(_) => e.running && e.rx.hand.None?
    case Close => !e.closed
  }

  /** `send` up to its wait loop: number the payload and transmit it. */
  function Begin(tx: Sender, payload: Payload, fault: Option<Fault>): Sender {
    var number := (tx.sequence + 1) % SEQUENCE_MODULUS;
    var numbered := tx.(sequence := number, sent := tx.sent + [payload]);
    if fault.Some? then Finish(numbered, Failed(fault.value))
    else if 0 < tx.maxIncorrect then numbered.(phase := Waiting(0, Data(number, payload)))
    else Finish(numbered, Failed(TimedOut))
  }

  function Wakeup(tx: Sender, wake: Wake): Sender
    requires InLoop(tx)
    requires wake.AckArrived? ==> |tx.ackCh| > 0
  {
    var progress := OnWake(tx.maxIncorrect, tx.phase.packet.number, tx.phase.tries, wake);
    Advance(if wake.AckArrived? then tx.(ackCh := tx.ackCh[1..]) else tx, progress)
  }

  /** stateMachine on a data packet whose acknowledgement went out. */
  function TakeData(rx: Receiver, n: nat, payload: Payload): Receiver {
    if n <= rx.lastAckd then rx
    else rx.(lastAckd := n, hand := Some(payload), taken := rx.taken + [n])
  }

  function OnPacket(e: Endpoint, packet: Packet, fault: Option<Fault>): Endpoint {
    match packet
    case Ack(n) => e.(tx := e.tx.(ackCh := e.tx.ackCh + [n]))
    case Data(n, payload) =>
      if fault.Some? then SetError(e, fault.value).(running := false)
      else e.(rx := TakeData(e.rx, n, payload))
  }

  function Push(rx: Receiver): Receiver
    requires rx.hand.Some?
  {
    rx.(dataCh := rx.dataCh + [rx.hand.value], hand := None)
  }

  function Pop(rx: Receiver): Receiver
    requires |rx.dataCh| > 0
  {
    rx.(delivered := rx.delivered + [rx.dataCh[0]], dataCh := rx.dataCh[1..])
  }

  function Apply(e: Endpoint, event: Event): Endpoint
    requires Enabled(e, event)
  {
    match event
    case StartSend(payload, fault) => Report(e, fault).(tx := Begin(e.tx, payload, fault))
    case WakeSender(wake) =>
      Report(e, if wake.RetryTimer? then wake.resend else None).(tx := Wakeup(e.tx, wake))
    case TakePacket(packet, fault) => OnPacket(e, packet, fault)
    case PushData => e.(rx := Push(e.rx))
    case Read => e.(rx := Pop(e.rx))
    case ReceiveFails(fault) => SetError(e, fault).(running := false)
    case Close => e.(closed := true)
  }

  /** The packet handed to the stream below; a failed send of it is in the event. */
  function Emitted(e: Endpoint, event: Event): Option<Packet>
    requires Enabled(e, event)
  {
    match event
    case StartSend(payload, _) => Some(Data((e.tx.sequence + 1) % SEQUENCE_MODULUS, payload))
    case WakeSender(RetryTimer(_)) => Some(e.tx.phase.packet)
    case TakePacket(Data(n, _), _) => Some(Ack(n))
    case _ => None
  }

  /** The stream below accepted the emitted packet. */
  predicate Transmitted(event: Event) {
    match event
    case StartSend(_, fault) => fault.None?
    case WakeSender(RetryTimer(fault)) => fault.None?
    case TakePacket(_, fault) => fault.None?
    case _ => true
  }

  /** The packets an event adds to the outgoing wire. */
  function OnWire(e: Endpoint, event: Event): set<Packet>
    requires Enabled(e, event)
  {
    if Emitted(e, event).Some? && Transmitted(event) then {Emitted(e, event).value} else {}
  }
}
