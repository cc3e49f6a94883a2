/** Two stream objects and the wire between them: their interleaved histories are a run of the protocol. */
module ReliableObjects {
  import opened Wrappers
  import opened ReliableEndpoint
  import opened ReliableStreamObject
  import RR = ReliableRuns

  /** The events of one side. */
  function EventsOf(sideA: bool, steps: seq<RR.Step>): seq<Event> {
    if |steps| == 0 then []
    else
      var last := steps[|steps| - 1];
      EventsOf(sideA, steps[..|steps| - 1]) + (if last.AtA? == sideA then [last.event] else [])
  }

  /** Every packet taken by one side had been put on the wire by the other. */
  predicate Carried(maxA: int, maxB: int, steps: seq<RR.Step>)
    decreases |steps|
  {
    |steps| == 0 ||
    var front, last := steps[..|steps| - 1], steps[|steps| - 1];
    && Carried(maxA, maxB, front)
    && (last.event.TakePacket? ==>
          match RR.Execute(RR.Start(maxA, maxB), front)
          case None => false
          case Some(s) => last.event.packet in (if last.AtA? then s.ba else s.ab))
  }

  lemma LastEvent(sideA: bool, steps: seq<RR.Step>)
    requires |steps| > 0
    ensures var front, last := steps[..|steps| - 1], steps[|steps| - 1];
            var before := EventsOf(sideA, front);
            EventsOf(sideA, steps) == if last.AtA? == sideA then before + [last.event] else before
  {
  }

  /** A run of the system goes on with a step that one side and the wire allow. */
  lemma OneMoreStep(start: RR.System, steps: seq<RR.Step>, p: RR.System, a: Endpoint, b: Endpoint)
    returns (s: RR.System)
    requires |steps| > 0 && RR.Execute(start, steps[..|steps| - 1]) == Some(p)
    requires var last := steps[|steps| - 1];
             && Enabled(if last.AtA? then p.a else p.b, last.event)
             && (last.event.TakePacket? ==> last.event.packet in (if last.AtA? then p.ba else p.ab))
             && a == (if last.AtA? then Apply(p.a, last.event) else p.a)
             && b == (if last.AtA? then p.b else Apply(p.b, last.event))
    ensures RR.Execute(start, steps) == Some(s) && s.a == a && s.b == b
  {
    s := RR.Next(p, steps[|steps| - 1]);
  }

  /** A run of one side, without its last event. */
  lemma RunBefore(e: Endpoint, events: seq<Event>, event: Event, after: Endpoint) returns (before: Endpoint)
    requires Run(e, events + [event]) == Some(after)
    ensures Run(e, events) == Some(before) && Enabled(before, event) && after == Apply(before, event)
  {
    assert (events + [event])[..|events|] == events;
    before := Run(e, events).value;
  }

  /** Two runs of single endpoints, interleaved over the wire, are a run of the system. */
  lemma {:induction false} RunsCompose(maxA: int, maxB: int, steps: seq<RR.Step>, a: Endpoint, b: Endpoint)
    returns (s: RR.System)
    requires Carried(maxA, maxB, steps)
    requires Run(Fresh(maxA), EventsOf(true, steps)) == Some(a) && Run(Fresh(maxB), EventsOf(false, steps)) == Some(b)
    ensures RR.Execute(RR.Start(maxA, maxB), steps) == Some(s) && s.a == a && s.b == b
    decreases |steps|
  {
    if |steps| == 0 {
      s := RR.Start(maxA, maxB);
    } else {
      var front, last := steps[..|steps| - 1], steps[|steps| - 1];
      var p: RR.System;
      if last.AtA? {
        LastEvent(true, steps);
        LastEvent(false, steps);
        var before := RunBefore(Fresh(maxA), EventsOf(true, front), last.event, a);
        p := RunsCompose(maxA, maxB, front, before, b);
      } else {
        LastEvent(true, steps);
        LastEvent(false, steps);
        var before := RunBefore(Fresh(maxB), EventsOf(false, front), last.event, b);
        p := RunsCompose(maxA, maxB, front, a, before);
      }
      s := OneMoreStep(RR.Start(maxA, maxB), steps, p, a, b);
    }
  }

  /** The histories of two objects, interleaved so that the wire carried every packet taken. */
  ghost predicate Connected(x: ReliableStream, y: ReliableStream, steps: seq<RR.Step>)
    reads x, y
  {
    && x.Valid() && y.Valid() && Carried(x.maxIncorrect, y.maxIncorrect, steps)
    && EventsOf(true, steps) == x.history && EventsOf(false, steps) == y.history
  }

  /** The two objects as the two sides of the protocol. */
  lemma ObjectsRun(x: ReliableStream, y: ReliableStream, steps: seq<RR.Step>) returns (s: RR.System)
    requires Connected(x, y, steps)
    ensures RR.Execute(RR.Start(x.maxIncorrect, y.maxIncorrect), steps) == Some(s) && s.a == x.state && s.b == y.state
  {
    s := RunsCompose(x.maxIncorrect, y.maxIncorrect, steps, x.state, y.state);
  }

  /** Each object delivers to the other what the protocol promises, below 2^32 sends of its own. */
  lemma ObjectsDeliver(x: ReliableStream, y: ReliableStream, steps: seq<RR.Step>) returns (s: RR.System)
    requires Connected(x, y, steps)
    ensures s.a == x.state && s.b == y.state
    ensures |x.state.tx.sent| < SEQUENCE_MODULUS ==> RR.Delivers(s)
    ensures |y.state.tx.sent| < SEQUENCE_MODULUS ==> RR.Delivers(RR.Mirror(s))
  {
    s := ObjectsRun(x, y, steps);
    RR.EveryRunDelivers(x.maxIncorrect, y.maxIncorrect, steps, s);
  }
}
