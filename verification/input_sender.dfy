/** `PrioritizedInputSender` with its mutable queue, slots and timers, proved equal to the step functions. */
module InputSender {
  import opened Basics
  import opened Control
  import Spec = InputSenderSpec

  /** The transport: each attempt is accepted or refused, and accepted frames are kept in order. */
  class Transport {
    const accepts: Spec.Channel
    var attempts: nat
    var delivered: seq<Spec.Delivery>

    constructor (accepts: Spec.Channel)
      ensures this.accepts == accepts && attempts == 0 && delivered == []
    {
      this.accepts := accepts;
      attempts, delivered := 0, [];
    }

    method Send(kind: Spec.Kind, m: Message) returns (ok: bool)
      modifies this
      ensures ok == accepts(old(attempts)) && attempts == old(attempts) + 1
      ensures delivered == if ok then old(delivered) + [Spec.Delivery(kind, m)] else old(delivered)
    {
      ok := accepts(attempts);
      attempts := attempts + 1;
      if ok {
        delivered := delivered + [Spec.Delivery(kind, m)];
      }
    }
  }

  class PrioritizedInputSender {
    /** The session's one sequence owner; null without a live session. */
    const control: ControlSender?
    const transport: Transport
    var latestMove: Option<Body>
    var moveTimer: bool
    var pendingWheel: Option<Spec.WheelDelta>
    var wheelTimer: bool
    var urgentQueue: seq<Spec.Item>
    var retryTimer: bool
    var droppedMoves: nat
    var sentFrames: nat

    ghost function View(): Spec.State
      reads this, transport, control
    {
      Spec.State(if control == null then None else Some(control.View()),
                 latestMove, moveTimer, pendingWheel, wheelTimer, urgentQueue, retryTimer,
                 droppedMoves, sentFrames, transport.attempts, transport.delivered)
    }

    constructor (control: ControlSender?, transport: Transport)
      ensures this.control == control && this.transport == transport
      ensures View() == Spec.State(if control == null then None else Some(control.View()), None, false, None, false, [], false, 0, 0,
                                   transport.attempts, transport.delivered)
    {
      this.control, this.transport := control, transport;
      latestMove, pendingWheel := None, None;
      moveTimer, wheelTimer, retryTimer := false, false, false;
      urgentQueue, droppedMoves, sentFrames := [], 0, 0;
    }

    /** Run a builder against the session's sender. */
    method Encode(b: Body, ts: int) returns (r: Spec.BuildResult)
      modifies control
      ensures r == Spec.Build(old(View()).control, b, ts)
      ensures View() == old(View()).(control := if r.Made? then Some(r.control) else old(View()).control)
      ensures control != null ==> r != Spec.NoSession
    {
      if control == null {
        return Spec.NoSession;
      }
      var built := control.Build(b, ts);
      match built {
        case Frame(m) => r := Spec.Made(Sender(control.sessionId, control.lastNo), m);
        case Threw => r := Spec.Fails;
      }
    }

    method SendMove(b: Body)
      modifies this`latestMove, this`moveTimer
      ensures View() == Spec.SendMove(old(View()), b)
    {
      latestMove := Some(b);
      if moveTimer {
        return;
      }
      moveTimer := true;
    }

    method FlushMove(ts: int) returns (sent: bool)
      modifies this, transport, control
      ensures View() == Spec.FlushMove(old(View()), transport.accepts, ts)
    {
      var build := latestMove;
      latestMove := None;
      if build.None? {
        return false;
      }
      var raw := Encode(build.value, ts);
      if !raw.Made? {
        return false;
      }
      var ok := transport.Send(Spec.MoveKind, raw.message);
      if ok {
        sentFrames := sentFrames + 1;
        return true;
      }
      droppedMoves := droppedMoves + 1;
      sent := false;
    }

    method SendWheel(d: Spec.WheelDelta)
      modifies this`pendingWheel, this`wheelTimer
      ensures View() == Spec.SendWheel(old(View()), d)
    {
      if pendingWheel.None? {
        pendingWheel := Some(d);
      } else {
        pendingWheel := Some(Spec.WheelDelta(d.x, d.y, pendingWheel.value.deltaX + d.deltaX, pendingWheel.value.deltaY + d.deltaY));
      }
      if wheelTimer {
        return;
      }
      wheelTimer := true;
    }

    method FlushWheel(ts: int) returns (sent: bool)
      modifies this, transport, control
      ensures View() == Spec.FlushWheel(old(View()), transport.accepts, ts)
    {
      var pending := pendingWheel;
      pendingWheel := None;
      if pending.None? {
        return false;
      }
      var raw := Encode(Spec.WheelBody(pending.value), ts);
      if !raw.Made? {
        return false;
      }
      var ok := transport.Send(Spec.WheelKind(pending.value), raw.message);
      if ok {
        sentFrames := sentFrames + 1;
        return true;
      }
      pendingWheel := pending;
      sent := false;
    }

    method SendUrgent(b: Body, ts: int) returns (drained: bool)
      modifies this, transport, control
      ensures View() == Spec.SendUrgent(old(View()), transport.accepts, b, ts)
      ensures drained <==> View().urgent == []
    {
      urgentQueue := urgentQueue + [Spec.Item(b, None)];
      FlushUrgent(ts);
      drained := |urgentQueue| == 0;
    }

    /** The frame of the head of the queue, built on the first attempt only. */
    method EncodeHead(ts: int) returns (r: Spec.BuildResult)
      requires urgentQueue != []
      modifies this, control
      ensures r == Spec.EncodeHead(old(View()), ts)
      ensures View() == if r.Made? then Spec.WithHead(old(View()), r.control, r.message) else old(View())
    {
      var item := urgentQueue[0];
      if item.encoded.Some? {
        return Spec.Made(if control != null then Sender(control.sessionId, control.lastNo) else Sender("", 0), item.encoded.value);
      }
      r := Encode(item.body, ts);
      if r.Made? {
        urgentQueue := [item.(encoded := Some(r.message))] + urgentQueue[1..];
      }
    }

    /** One turn of the loop: drop, send or keep the head of the queue. */
    method TryHead(ts: int) returns (outcome: Spec.HeadOutcome)
      requires urgentQueue != []
      modifies this, transport, control
      ensures (View(), outcome) == Spec.Attempt(old(View()), transport.accepts, ts)
    {
      var raw := EncodeHead(ts);
      match raw {
        case Fails => outcome := Spec.Thrown;
        case NoSession =>
          urgentQueue := urgentQueue[1..];
          outcome := Spec.Gone;
        case Made(_, m) =>
          var ok := transport.Send(Spec.UrgentKind, m);
          if !ok {
            return Spec.Refused;
          }
          urgentQueue := urgentQueue[1..];
          sentFrames := sentFrames + 1;
          outcome := Spec.Gone;
      }
    }

    method FlushUrgent(ts: int)
      modifies this, transport, control
      ensures View() == Spec.FlushUrgent(old(View()), transport.accepts, ts)
    {
      hide Spec.Attempt;
      var outcome := Spec.Gone;
      ghost var goal := Spec.Drain(View(), transport.accepts, ts);
      while |urgentQueue| > 0
        invariant goal == Spec.Drain(View(), transport.accepts, ts)
        invariant outcome.Gone?
        decreases |urgentQueue|
      {
        ghost var before := View();
        outcome := TryHead(ts);
        if !outcome.Gone? {
          break;
        }
        Spec.GoneShrinks(before, transport.accepts, ts);
      }
      if !outcome.Thrown? && |urgentQueue| > 0 && !retryTimer {
        retryTimer := true;
      }
    }

    method FlushNow(ts: int)
      modifies this, transport, control
      ensures View() == Spec.Step(old(View()), transport.accepts, Spec.FlushedNow(ts))
    {
      var _ := FlushMove(ts);
    }

    method Dispose()
      modifies this
      ensures View() == Spec.Dispose(old(View()))
    {
      if moveTimer {
        moveTimer := false;
      }
      if wheelTimer {
        wheelTimer := false;
      }
      if retryTimer {
        retryTimer := false;
      }
    }

    method Reset()
      modifies this
      ensures View() == Spec.Reset(old(View()))
    {
      Dispose();
      latestMove := None;
      pendingWheel := None;
      urgentQueue := [];
    }
  }
}
