/**
 * The coalescing timers of the input sender and its counters: which events
 * leave a pending move or wheel delta without its timer, what an armed timer
 * delivers, and what a sender without a session does.
 */
module InputSenderTimers {
  import opened Basics
  import opened Control
  import opened InputSenderSpec
  import opened InputSenderRuns

  predicate MoveArmed(s: State) { s.latestMove.None? || s.moveTimer }

  predicate WheelArmed(s: State) { s.pendingWheel.None? || s.wheelTimer }

  /** A wheel flush that builds its frame and is refused: the delta goes back without a timer. */
  predicate WheelRefused(s: State, accepts: Channel, ev: Event) {
    ev.WheelTimer? && BuiltBy(s, ev).Made? && !accepts(s.attempts)
  }

  lemma {:induction false} DrainKeepsCoalesced(s: State, accepts: Channel, ts: int)
    ensures var s' := Drain(s, accepts, ts).0;
      && s'.latestMove == s.latestMove && s'.moveTimer == s.moveTimer && s'.droppedMoves == s.droppedMoves
      && s'.pendingWheel == s.pendingWheel && s'.wheelTimer == s.wheelTimer
    decreases |s.urgent|
  {
    hide Schema, Encode;
    if s.urgent == [] {
    } else if Attempt(s, accepts, ts).1.Gone? {
      DrainKeepsCoalesced(Attempt(s, accepts, ts).0, accepts, ts);
    }
  }

  /** Urgent traffic touches neither the pending move nor the pending delta. */
  lemma UrgentKeepsCoalesced(s: State, accepts: Channel, ev: Event)
    requires ev.UrgentSent? || ev.RetryTimer?
    ensures var s' := Step(s, accepts, ev);
      && s'.latestMove == s.latestMove && s'.moveTimer == s.moveTimer && s'.droppedMoves == s.droppedMoves
      && s'.pendingWheel == s.pendingWheel && s'.wheelTimer == s.wheelTimer
  {
    hide Drain;
    if ev.UrgentSent? {
      DrainKeepsCoalesced(s.(urgent := s.urgent + [Item(ev.body, None)]), accepts, ev.ts);
    } else {
      DrainKeepsCoalesced(s.(retryTimer := false), accepts, ev.ts);
    }
  }

  /** One event leaves a pending wheel delta without its timer exactly by disposal or a refused flush, or when it had none. */
  lemma WheelArmedExactly(s: State, accepts: Channel, ev: Event)
    ensures WheelArmed(Step(s, accepts, ev)) <==>
      match ev
      case WheelSent(_) => true
      case WheelTimer(_) => !WheelRefused(s, accepts, ev)
      case Disposed => s.pendingWheel.None?
      case WasReset => true
      case _ => WheelArmed(s)
  {
    hide Drain, Build, WheelBody;
    if ev.UrgentSent? || ev.RetryTimer? {
      UrgentKeepsCoalesced(s, accepts, ev);
    }
  }

  /** One event leaves a pending move without its timer exactly by disposal, or when it had none. */
  lemma MoveArmedExactly(s: State, accepts: Channel, ev: Event)
    ensures MoveArmed(Step(s, accepts, ev)) <==>
      match ev
      case Disposed => s.latestMove.None?
      case MoveSent(_) => true
      case MoveTimer(_) => true
      case FlushedNow(_) => true
      case WasReset => true
      case _ => MoveArmed(s)
  {
    hide Drain, Build, WheelBody;
    if ev.UrgentSent? || ev.RetryTimer? {
      UrgentKeepsCoalesced(s, accepts, ev);
    }
  }

  /** Without disposal a pending move always has its timer; without a refused wheel flush too, so has a pending delta. */
  lemma {:induction false} PendingAlwaysArmed(s: State, accepts: Channel, events: seq<Event>)
    requires MoveArmed(s) && WheelArmed(s) && Disposed !in events
    ensures var s' := After(s, accepts, events);
      && MoveArmed(s')
      && ((forall i :: 0 <= i < |events| ==> !WheelRefused(After(s, accepts, events[..i]), accepts, events[i])) ==> WheelArmed(s'))
    decreases |events|
  {
    hide Step, WheelRefused, MoveArmed, WheelArmed;
    if events == [] {
    } else {
      var n := |events| - 1;
      assert events[n] in events;
      PendingAlwaysArmed(s, accepts, events[..n]);
      assert forall i :: 0 <= i < n ==> events[..n][..i] == events[..i] && events[..n][i] == events[i];
      WheelArmedExactly(After(s, accepts, events[..n]), accepts, events[n]);
      MoveArmedExactly(After(s, accepts, events[..n]), accepts, events[n]);
    }
  }

  /** By the events of a run: a timer is armed by its input and disarmed by firing, disposal and reset. */
  function WheelTimerBy(events: seq<Event>): bool {
    if events == [] then false
    else
      match events[|events| - 1]
      case WheelSent(_) => true
      case WheelTimer(_) => false
      case Disposed => false
      case WasReset => false
      case _ => WheelTimerBy(events[..|events| - 1])
  }

  function MoveTimerBy(events: seq<Event>): bool {
    if events == [] then false
    else
      match events[|events| - 1]
      case MoveSent(_) => true
      case MoveTimer(_) => false
      case Disposed => false
      case WasReset => false
      case _ => MoveTimerBy(events[..|events| - 1])
  }

  /** What one event makes of the timers, of the count of dropped moves and of the place of a pending delta. */
  lemma CoalescedStep(s: State, accepts: Channel, ev: Event)
    ensures var s' := Step(s, accepts, ev);
      && s'.wheelTimer == (match ev
           case WheelSent(_) => true
           case WheelTimer(_) => false
           case Disposed => false
           case WasReset => false
           case _ => s.wheelTimer)
      && s'.moveTimer == (match ev
           case MoveSent(_) => true
           case MoveTimer(_) => false
           case Disposed => false
           case WasReset => false
           case _ => s.moveTimer)
      && s'.droppedMoves == s.droppedMoves + (if MoveRefused(s, accepts, ev) then 1 else 0)
      && (s'.pendingWheel.Some? ==>
            if ev.WheelSent? then s'.pendingWheel.value.x == ev.delta.x && s'.pendingWheel.value.y == ev.delta.y
            else s'.pendingWheel == s.pendingWheel)
  {
    hide Drain, Build, WheelBody;
    if ev.UrgentSent? || ev.RetryTimer? {
      UrgentKeepsCoalesced(s, accepts, ev);
    }
  }

  lemma {:induction false} TimersExactly(sessionId: string, accepts: Channel, events: seq<Event>)
    ensures var s := After(Fresh(sessionId), accepts, events);
      s.wheelTimer == WheelTimerBy(events) && s.moveTimer == MoveTimerBy(events)
    decreases |events|
  {
    hide Step, MoveRefused;
    if events == [] {
    } else {
      var init, ev := events[..|events| - 1], events[|events| - 1];
      TimersExactly(sessionId, accepts, init);
      CoalescedStep(After(Fresh(sessionId), accepts, init), accepts, ev);
    }
  }

  // ----- what a timer delivers ---------------------------------------------------------

  /** The frame a flush would build now. */
  function Due(s: State, b: Body, ts: int): Message
    requires s.control.Some?
  {
    Message(s.control.value.sessionId, s.control.value.lastNo + 1, ts, b)
  }

  /** On a live session the wheel timer delivers the pending delta exactly when its frame is valid and accepted; a refused delta stays. */
  lemma WheelTimerDelivers(s: State, accepts: Channel, ts: int)
    requires s.control.Some? && s.pendingWheel.Some?
    ensures var d := s.pendingWheel.value; var m := Due(s, WheelBody(d), ts); var s' := Step(s, accepts, WheelTimer(ts));
      && s'.delivered == (if Schema(m) && accepts(s.attempts) then s.delivered + [Delivery(WheelKind(d), m)] else s.delivered)
      && s'.pendingWheel == (if Schema(m) && !accepts(s.attempts) then Some(d) else None)
  {
    hide ValidBody, WheelBody;
  }

  /** On a live session the move timer, and a flush before a click, deliver the pending move exactly when its frame is valid and accepted. */
  lemma MoveTimerDelivers(s: State, accepts: Channel, ev: Event)
    requires s.control.Some? && s.latestMove.Some? && (ev.MoveTimer? || ev.FlushedNow?)
    ensures var m := Due(s, s.latestMove.value, ev.ts); var s' := Step(s, accepts, ev);
      && s'.delivered == (if Schema(m) && accepts(s.attempts) then s.delivered + [Delivery(MoveKind, m)] else s.delivered)
      && s'.latestMove.None?
  {
    hide ValidBody;
  }

  function LastWheel(events: seq<Event>): Option<WheelDelta>
    decreases |events|
  {
    if events == [] then None
    else
      match events[|events| - 1]
      case WheelSent(d) => Some(d)
      case _ => LastWheel(events[..|events| - 1])
  }

  /** A pending delta, refused or not, stands at the point of the last wheel input. */
  lemma {:induction false} WheelAtLastPoint(sessionId: string, accepts: Channel, events: seq<Event>)
    ensures var p := After(Fresh(sessionId), accepts, events).pendingWheel;
      p.Some? ==> LastWheel(events).Some? && p.value.x == LastWheel(events).value.x && p.value.y == LastWheel(events).value.y
    decreases |events|
  {
    hide Step, MoveRefused;
    if events == [] {
    } else {
      var init, ev := events[..|events| - 1], events[|events| - 1];
      WheelAtLastPoint(sessionId, accepts, init);
      CoalescedStep(After(Fresh(sessionId), accepts, init), accepts, ev);
    }
  }

  /** The frame stands at the point of the accumulation, and each delta is its nearest integer, halves rounded up. */
  predicate Stands(d: WheelDelta, b: Body) {
    && b.Wheel? && b.x == d.x && b.y == d.y
    && -0.5 < b.deltaX as real - d.deltaX <= 0.5 && -0.5 < b.deltaY as real - d.deltaY <= 0.5
  }

  /** Every wheel frame the channel took stands for its accumulation. */
  lemma WheelFramesStand(sessionId: string, accepts: Channel, events: seq<Event>, i: nat)
    requires var d := After(Fresh(sessionId), accepts, events).delivered; i < |d| && d[i].kind.WheelKind?
    ensures var d := After(Fresh(sessionId), accepts, events).delivered; Stands(d[i].kind.delta, d[i].message.body)
  {
    hide After, Tidy, Stands;
    FreshFacts(sessionId);
    WheelFramesRoundedRuns(Fresh(sessionId), accepts, events);
    BodyStands(After(Fresh(sessionId), accepts, events).delivered[i].kind.delta);
  }

  lemma BodyStands(d: WheelDelta)
    ensures Stands(d, WheelBody(d))
  {
    RoundError(d.deltaX);
    RoundError(d.deltaY);
  }

  // ----- where a drain stops ---------------------------------------------------------------

  /** The queue is empty, or the channel refused its last attempt. */
  predicate Stopped(s: State, accepts: Channel) { s.urgent == [] || (s.attempts > 0 && !accepts(s.attempts - 1)) }

  lemma {:induction false} DrainStops(s: State, accepts: Channel, ts: int)
    ensures var (s', threw) := Drain(s, accepts, ts); threw || Stopped(s', accepts)
    decreases |s.urgent|
  {
    hide Schema, Encode;
    if s.urgent == [] {
    } else if Attempt(s, accepts, ts).1.Gone? {
      DrainStops(Attempt(s, accepts, ts).0, accepts, ts);
    }
  }

  /** Urgent input and a retry send everything that waits, up to the first refusal or the first builder that throws. */
  lemma QueueStopsOnlyAtRefusal(s: State, accepts: Channel, ev: Event)
    requires s.control.Some? && Tidy(s) && (ev.UrgentSent? || ev.RetryTimer?) && !Throws(s, accepts, ev)
    ensures Stopped(Step(s, accepts, ev), accepts)
  {
    hide Tidy, Line, Issued, InSync, Burnt, Drain, ThrowsAt;
    if ev.UrgentSent? {
      var q := s.(urgent := s.urgent + [Item(ev.body, None)]);
      PushKeeps(s, ev.body);
      DrainThrowsExactly(q, accepts, ev.ts);
      DrainStops(q, accepts, ev.ts);
    } else {
      SameTrafficKeeps(s, s.(retryTimer := false));
      DrainIgnoresTimer(s, accepts, ev.ts);
      DrainThrowsExactly(s, accepts, ev.ts);
      DrainStops(s.(retryTimer := false), accepts, ev.ts);
    }
  }

  // ----- counters ------------------------------------------------------------------------

  /** A move flush whose frame the channel refuses. */
  predicate MoveRefused(s: State, accepts: Channel, ev: Event) {
    (ev.MoveTimer? || ev.FlushedNow?) && BuiltBy(s, ev).Made? && !accepts(s.attempts)
  }

  function MovesRefused(s: State, accepts: Channel, events: seq<Event>): nat {
    if events == [] then 0
    else
      var n := |events| - 1;
      MovesRefused(s, accepts, events[..n]) + if MoveRefused(After(s, accepts, events[..n]), accepts, events[n]) then 1 else 0
  }

  /** The count of dropped moves is the number of moves the channel refused. */
  lemma {:induction false} DroppedIsExact(sessionId: string, accepts: Channel, events: seq<Event>)
    ensures After(Fresh(sessionId), accepts, events).droppedMoves == MovesRefused(Fresh(sessionId), accepts, events)
    decreases |events|
  {
    hide Step, MoveRefused;
    if events == [] {
    } else {
      var init, ev := events[..|events| - 1], events[|events| - 1];
      DroppedIsExact(sessionId, accepts, init);
      CoalescedStep(After(Fresh(sessionId), accepts, init), accepts, ev);
    }
  }

  /** How many of the first n attempts the channel accepts. */
  function AcceptedAmong(accepts: Channel, n: nat): nat {
    if n == 0 then 0 else AcceptedAmong(accepts, n - 1) + if accepts(n - 1) then 1 else 0
  }

  predicate Answered(s: State, accepts: Channel) { |s.delivered| == AcceptedAmong(accepts, s.attempts) }

  lemma {:induction false} DrainAnswered(s: State, accepts: Channel, ts: int)
    requires Answered(s, accepts)
    ensures Answered(Drain(s, accepts, ts).0, accepts)
    decreases |s.urgent|
  {
    hide Schema, Encode;
    if s.urgent == [] {
    } else {
      assert Answered(Attempt(s, accepts, ts).0, accepts);
      if Attempt(s, accepts, ts).1.Gone? {
        DrainAnswered(Attempt(s, accepts, ts).0, accepts, ts);
      }
    }
  }

  lemma TransmitAnswered(s: State, accepts: Channel, kind: Kind, m: Message)
    requires Answered(s, accepts)
    ensures Answered(Transmit(s, accepts, kind, m), accepts)
  {
  }

  /** One attempt, answered by the channel. */
  predicate OneAttempt(s: State, s': State, accepts: Channel) {
    s'.attempts == s.attempts + 1 && |s'.delivered| == |s.delivered| + if accepts(s.attempts) then 1 else 0
  }

  /** Besides the queue's drain an event makes one attempt when it builds a frame, and none otherwise. */
  lemma SingleAttempt(s: State, accepts: Channel, ev: Event)
    requires !ev.UrgentSent? && !ev.RetryTimer?
    ensures var s' := Step(s, accepts, ev);
      if BuiltBy(s, ev).Made? then OneAttempt(s, s', accepts) else s'.attempts == s.attempts && s'.delivered == s.delivered
  {
    hide Build, WheelBody;
  }

  lemma StepAnswered(s: State, accepts: Channel, ev: Event)
    requires Answered(s, accepts)
    ensures Answered(Step(s, accepts, ev), accepts)
  {
    hide Drain, BuiltBy;
    match ev
    case UrgentSent(b, ts) => DrainAnswered(s.(urgent := s.urgent + [Item(b, None)]), accepts, ts);
    case RetryTimer(ts) => DrainAnswered(s.(retryTimer := false), accepts, ts);
    case _ =>
      hide Step;
      SingleAttempt(s, accepts, ev);
  }

  /** Every attempt is answered once: the frames that went out are the attempts the channel accepted. */
  lemma {:induction false} EveryAttemptAnswered(sessionId: string, accepts: Channel, events: seq<Event>)
    ensures Answered(After(Fresh(sessionId), accepts, events), accepts)
    decreases |events|
  {
    hide Step;
    if events == [] {
    } else {
      var init := events[..|events| - 1];
      EveryAttemptAnswered(sessionId, accepts, init);
      StepAnswered(After(Fresh(sessionId), accepts, init), accepts, events[|events| - 1]);
    }
  }

  // ----- after a reset --------------------------------------------------------------------

  /** Nothing waits to be sent. */
  predicate Idle(s: State) { s.latestMove.None? && s.pendingWheel.None? && s.urgent == [] }

  predicate IsInput(ev: Event) { ev.MoveSent? || ev.WheelSent? || ev.UrgentSent? || ev.DirectSent? }

  /** A reset drops everything queued for good: until something new is put in, no timer delivers anything. */
  lemma {:induction false} ResetForgets(s: State, accepts: Channel, events: seq<Event>)
    requires forall i :: 0 <= i < |events| ==> !IsInput(events[i])
    ensures var s', t := After(Step(s, accepts, WasReset), accepts, events), Step(s, accepts, WasReset);
      && Idle(s') && s'.delivered == s.delivered && s'.attempts == s.attempts && s'.control == s.control
      && !t.moveTimer && !t.wheelTimer && !t.retryTimer
    decreases |events|
  {
    if events == [] {
    } else {
      ResetForgets(s, accepts, events[..|events| - 1]);
    }
  }

  // ----- without a session ------------------------------------------------------------------

  /** No session, and no frame left over from one. */
  predicate Sessionless(s: State) { s.control.None? && forall i :: 0 <= i < |s.urgent| ==> s.urgent[i].encoded.None? }

  lemma {:induction false} SessionlessDrain(s: State, accepts: Channel, ts: int)
    requires Sessionless(s)
    ensures Drain(s, accepts, ts) == (s.(urgent := []), false)
    decreases |s.urgent|
  {
    if s.urgent == [] {
    } else {
      SessionlessDrain(s.(urgent := s.urgent[1..]), accepts, ts);
    }
  }

  lemma SessionlessStep(s: State, accepts: Channel, ev: Event)
    requires Sessionless(s)
    ensures var s' := Step(s, accepts, ev);
      && Sessionless(s') && s'.attempts == s.attempts && s'.delivered == s.delivered
      && (ev.UrgentSent? || ev.RetryTimer? ==> s'.urgent == [])
      && (ev.MoveTimer? || ev.FlushedNow? ==> s'.latestMove.None?)
      && (ev.WheelTimer? ==> s'.pendingWheel.None?)
  {
    hide Drain, WheelBody;
    match ev
    case UrgentSent(b, ts) => SessionlessDrain(s.(urgent := s.urgent + [Item(b, None)]), accepts, ts);
    case RetryTimer(ts) => SessionlessDrain(s.(retryTimer := false), accepts, ts);
    case _ =>
  }

  /** Without a live session nothing is ever attempted, and whatever is flushed is dropped rather than kept for a later one. */
  lemma {:induction false} NoSessionSendsNothing(s: State, accepts: Channel, events: seq<Event>)
    requires Sessionless(s)
    ensures var s' := After(s, accepts, events);
      && Sessionless(s') && s'.attempts == s.attempts && s'.delivered == s.delivered
      && (events != [] && (events[|events| - 1].UrgentSent? || events[|events| - 1].RetryTimer?) ==> s'.urgent == [])
      && (events != [] && (events[|events| - 1].MoveTimer? || events[|events| - 1].FlushedNow?) ==> s'.latestMove.None?)
      && (events != [] && events[|events| - 1].WheelTimer? ==> s'.pendingWheel.None?)
    decreases |events|
  {
    hide Step, Sessionless;
    if events == [] {
    } else {
      var init := events[..|events| - 1];
      NoSessionSendsNothing(s, accepts, init);
      SessionlessStep(After(s, accepts, init), accepts, events[|events| - 1]);
    }
  }
}
