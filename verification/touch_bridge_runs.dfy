/**
 * Touches end to end: scroll travel is conserved from the glass to the
 * channel, beside whatever the keyboard's queue does, and a pointer mode that
 * never drags.
 */
module TouchBridgeRuns {
  import opened Basics
  import opened Control
  import opened TouchBridge
  import G = Gesture
  import V = VideoRect
  import S = InputSenderSpec
  import R = InputSenderRuns
  import T = TwoQueues

  /** A touch, or anything else that happens to the bridge's sender or the keyboard's: input, timers, direct frames, resets. */
  datatype Happening = Touched(touch: Touch, ts: int) | Other(turn: T.Turn)

  function AtTouch(events: seq<S.Event>): seq<T.Turn> {
    seq(|events|, i requires 0 <= i < |events| => T.AtTouch(events[i]))
  }

  /** The bridge after a run, and everything the two senders were asked to do. */
  function Play(b: Bridge, scale: real, hs: seq<Happening>): (Bridge, seq<T.Turn>)
    decreases |hs|
  {
    if hs == [] then (b, [])
    else
      var (b', turns) := Play(b, scale, hs[..|hs| - 1]);
      match hs[|hs| - 1]
      case Touched(touch, ts) =>
        var (b'', more) := Step(b', scale, touch, ts);
        (b'', turns + AtTouch(more))
      case Other(turn) => (b', turns + [turn])
  }

  /** What the classifier was told in the run. */
  function Inputs(b: Bridge, scale: real, hs: seq<Happening>): seq<G.Input>
    decreases |hs|
  {
    if hs == [] then []
    else
      var init := hs[..|hs| - 1];
      Inputs(b, scale, init) +
      match hs[|hs| - 1]
      case Touched(touch, _) =>
        (match InputOf(Play(b, scale, init).0.active, touch) case Some(i) => [i] case None => [])
      case Other(_) => []
  }

  lemma MoreInput(s: G.State, inputs: seq<G.Input>, i: G.Input)
    ensures var t := G.After(s, inputs);
      G.After(s, inputs + [i]) == (G.Step(t.0, i).0, t.1 + [G.Step(t.0, i).1])
  {
    assert (inputs + [i])[..|inputs|] == inputs;
  }

  lemma {:induction false} WheelTotalAppend(a: seq<S.Event>, b: seq<S.Event>)
    ensures R.WheelTotal(a + b) == Plus(R.WheelTotal(a), R.WheelTotal(b))
    decreases |b|
  {
    hide R.WheelInput;
    if b == [] {
      assert a + b == a;
      PlusZero(R.WheelTotal(a));
    } else {
      var n := |b| - 1;
      WheelTotalAppend(a, b[..n]);
      assert (a + b)[..|a + b| - 1] == a + b[..n];
      PlusAssociates(R.WheelTotal(a), R.WheelTotal(b[..n]), R.WheelInput(b[n]));
    }
  }

  lemma PlusZero(a: Vec)
    ensures Plus(a, ZERO) == a && Plus(ZERO, a) == a
  {
  }

  lemma PlusAssociates(a: Vec, b: Vec, c: Vec)
    ensures Plus(Plus(a, b), c) == Plus(a, Plus(b, c))
  {
  }

  lemma SendsWheel(g: G.Gesture, scale: real, ts: int)
    ensures R.WheelTotal(Sends(g, scale, ts)) == Scaled(scale, G.WheelOf(g))
  {
    ScaledZero(scale);
    var e := Sends(g, scale, ts);
    if g.WheelBy? {
      OneTotal(e[0]);
    } else {
      NoWheel(e);
    }
  }

  lemma {:induction false} NoWheel(e: seq<S.Event>)
    requires forall i :: 0 <= i < |e| ==> !e[i].WheelSent?
    ensures R.WheelTotal(e) == ZERO
    decreases |e|
  {
    if e == [] {
    } else {
      NoWheel(e[..|e| - 1]);
      PlusZero(ZERO);
    }
  }

  lemma ScaledPlus(k: real, a: Vec, b: Vec)
    ensures Scaled(k, Plus(a, b)) == Plus(Scaled(k, a), Scaled(k, b))
  {
  }

  lemma OneTotal(event: S.Event)
    ensures R.WheelTotal([event]) == R.WheelInput(event)
  {
    assert [event][..0] == [];
    PlusZero(R.WheelInput(event));
  }

  /** All wheel input of the bridge's sender comes from touches. */
  predicate NoForeignWheel(hs: seq<Happening>) {
    forall i :: 0 <= i < |hs| && hs[i].Other? && hs[i].turn.AtTouch? ==> !hs[i].turn.event.WheelSent?
  }

  lemma {:induction false} OfTouchAppend(a: seq<T.Turn>, b: seq<T.Turn>)
    ensures T.OfTouch(a + b) == T.OfTouch(a) + T.OfTouch(b)
    decreases |b|
  {
    if b == [] {
      assert a + b == a;
    } else {
      OfTouchAppend(a, b[..|b| - 1]);
      assert (a + b)[..|a + b| - 1] == a + b[..|b| - 1];
    }
  }

  lemma {:induction false} OfTouchAll(events: seq<S.Event>)
    ensures T.OfTouch(AtTouch(events)) == events
    decreases |events|
  {
    if events == [] {
    } else {
      var n := |events| - 1;
      OfTouchAll(events[..n]);
      assert AtTouch(events)[..n] == AtTouch(events[..n]);
    }
  }

  /** One more turn, as the bridge's sender sees it. */
  lemma OneTurn(turns: seq<T.Turn>, turn: T.Turn)
    ensures T.OfTouch(turns + [turn]) == T.OfTouch(turns) + if turn.AtTouch? then [turn.event] else []
  {
    assert (turns + [turn])[..|turns|] == turns;
  }

  lemma GestureSumLast(out: seq<G.Gesture>, g: G.Gesture)
    ensures G.WheelSum(out + [g]) == Plus(G.WheelSum(out), G.WheelOf(g))
  {
    assert (out + [g])[..|out|] == out;
  }

  /** The sender's wheel input is the scale times the deltas the classifier gave out. */
  lemma {:induction false} WheelInputIsScaledGestures(b: Bridge, scale: real, hs: seq<Happening>)
    requires NoForeignWheel(hs)
    ensures G.After(b.classifier, Inputs(b, scale, hs)).0 == Play(b, scale, hs).0.classifier
    ensures R.WheelTotal(T.OfTouch(Play(b, scale, hs).1)) == Scaled(scale, G.WheelSum(G.After(b.classifier, Inputs(b, scale, hs)).1))
    decreases |hs|
  {
    hide G.Step, Sends, Step, Scaled, R.WheelTotal, G.WheelSum, R.WheelInput, T.OfTouch;
    if hs == [] {
      EmptyTotals(scale);
    } else {
      var n := |hs| - 1;
      WheelInputIsScaledGestures(b, scale, hs[..n]);
      var (b', turns) := Play(b, scale, hs[..n]);
      var events := T.OfTouch(turns);
      var inputs := Inputs(b, scale, hs[..n]);
      match hs[n]
      case Other(turn) =>
        OneTurn(turns, turn);
        assert inputs + [] == inputs && events + [] == events;
        if turn.AtTouch? {
          WheelTotalAppend(events, [turn.event]);
          OneTotal(turn.event);
          NoForeign(turn.event);
          PlusZero(R.WheelTotal(events));
        }
      case Touched(touch, ts) =>
        var more := Step(b', scale, touch, ts).1;
        OfTouchAppend(turns, AtTouch(more));
        OfTouchAll(more);
        match InputOf(b'.active, touch) {
          case None =>
            QuietTouch(b', scale, touch, ts);
            assert events + [] == events && inputs + [] == inputs;
          case Some(i) => OneGesture(b.classifier, inputs, i, b', scale, touch, ts, events);
        }
    }
  }

  lemma EmptyTotals(scale: real)
    ensures T.OfTouch([]) == [] && R.WheelTotal([]) == Scaled(scale, G.WheelSum([]))
  {
    ScaledZero(scale);
  }

  lemma NoForeign(event: S.Event)
    requires !event.WheelSent?
    ensures R.WheelInput(event) == ZERO
  {
  }

  lemma QuietTouch(b: Bridge, scale: real, touch: Touch, ts: int)
    requires InputOf(b.active, touch).None?
    ensures Step(b, scale, touch, ts).1 == [] && Step(b, scale, touch, ts).0.classifier == b.classifier
  {
  }

  lemma OneGesture(c: G.State, inputs: seq<G.Input>, i: G.Input, b: Bridge, scale: real, touch: Touch, ts: int, events: seq<S.Event>)
    requires InputOf(b.active, touch) == Some(i) && G.After(c, inputs).0 == b.classifier
    requires R.WheelTotal(events) == Scaled(scale, G.WheelSum(G.After(c, inputs).1))
    ensures G.After(c, inputs + [i]).0 == Step(b, scale, touch, ts).0.classifier
    ensures R.WheelTotal(events + Step(b, scale, touch, ts).1) == Scaled(scale, G.WheelSum(G.After(c, inputs + [i]).1))
  {
    hide G.OnMove, G.OnUp, Sends, G.WheelSum, R.WheelTotal, Scaled;
    MoreInput(c, inputs, i);
    var g := G.Step(b.classifier, i).1;
    var out := G.After(c, inputs).1;
    var more := Step(b, scale, touch, ts).1;
    WheelTotalAppend(events, more);
    GestureSumLast(out, g);
    ScaledPlus(scale, G.WheelSum(out), G.WheelOf(g));
    SendsWheel(g, scale, ts);
    if touch.ChannelSet? {
      OneTotal(S.WasReset);
      assert Scaled(scale, ZERO) == ZERO by { ScaledZero(scale); }
    }
  }

  lemma ScaledZero(k: real)
    ensures Scaled(k, ZERO) == ZERO
  {
  }

  /**
   * Scroll travel is conserved from the glass to the channel, for any refusals and beside any keyboard traffic:
   * what the channel accepted of the bridge's wheel deltas plus what is pending is the scale times the travel of
   * every scroll gesture, ended or under way.
   */
  lemma ScrollConserved(sessionId: string, accepts: S.Channel, b: Bridge, scale: real, hs: seq<Happening>)
    requires b.classifier.downPoint.None? && NoForeignWheel(hs)
    requires T.TouchEncoderNeverThrows(T.FreshPair(sessionId), accepts, Play(b, scale, hs).1)
    ensures var (b', turns) := Play(b, scale, hs);
      var s' := T.PairAfter(T.FreshPair(sessionId), accepts, turns).touch;
      var travel := Plus(G.TravelSum(b.classifier, Inputs(b, scale, hs)), G.Travel(b'.classifier));
      Plus(R.WheelSum(s'.delivered), R.Pending(s')) == Scaled(scale, travel)
  {
    hide T.PairAfter, T.TouchEncoderNeverThrows, T.OfTouch, R.WheelTotal, R.WheelSum, R.Pending;
    hide G.After, G.Travel, G.TravelSum, G.WheelSum, Scaled, Play, Inputs;
    T.PairWheelConserved(sessionId, accepts, Play(b, scale, hs).1);
    WheelInputIsScaledGestures(b, scale, hs);
    G.ScrollTelescopes(b.classifier, Inputs(b, scale, hs));
  }

  // ----- normalized touches -----------------------------------------------------------

  predicate InUnit(p: G.TouchPoint) { 0.0 <= p.x <= 1.0 && 0.0 <= p.y <= 1.0 }

  lemma SquareBound(d: real)
    requires -1.0 <= d <= 1.0
    ensures d * d <= 1.0
  {
    if d >= 0.0 {
      assert d * d <= d * 1.0;
    } else {
      var e := -d;
      assert e * e <= e * 1.0;
      assert e * e == d * d;
    }
  }

  /** Two touches on the video are never eight units apart: the slops are pixels, the coordinates are fractions. */
  lemma UnitPointsAreClose(a: G.TouchPoint, b: G.TouchPoint)
    requires InUnit(a) && InUnit(b)
    ensures G.Within(a, b, G.DRAG_SLOP) && G.Within(a, b, G.TAP_MAX_SLOP) && G.Within(a, b, G.DOUBLE_TAP_MAX_SLOP)
  {
    SquareBound(b.x - a.x);
    SquareBound(b.y - a.y);
  }

  /** The points the bridge gets are normalized. */
  lemma BridgePointsAreUnit(client: Vec, t: real, element: V.Size, video: V.Size)
    ensures ClientToVideo(client, t, element, video).Some? ==> InUnit(ClientToVideo(client, t, element, video).value)
  {
    V.AcceptedExactly(client, element, video);
  }

  /**
   * A finger that goes down, moves anywhere over the video and comes up again is a click exactly when it was
   * quick, and never a drag, however far it went.
   */
  lemma EveryQuickSwipeClicks(s: G.State, down: G.TouchPoint, ps: seq<G.TouchPoint>, up: G.TouchPoint)
    requires s.mode.PointerMode? && InUnit(down) && InUnit(up) && forall i :: 0 <= i < |ps| ==> InUnit(ps[i])
    ensures var t := G.After(G.Step(s, G.Down(down)).0, G.Moves(ps));
      && (forall i :: 0 <= i < |t.1| ==> t.1[i] == G.Nothing)
      && (G.Step(t.0, G.Up(up)).1.Tap? <==> up.t - down.t <= G.TAP_MAX_MS)
  {
    hide G.Within, G.Step, G.After;
    G.PointerGesture(s, down, ps, up);
    var k := G.FirstFar(down, ps);
    if k < |ps| {
      UnitPointsAreClose(down, ps[k]);
      assert false;
    }
    UnitPointsAreClose(down, up);
  }

  predicate UnitTouch(touch: Touch) {
    match touch
    case Pressed(Some(p)) => InUnit(p)
    case Moved(Some(p)) => InUnit(p)
    case Lifted(Some(p)) => InUnit(p)
    case _ => true
  }

  predicate UnitTouches(hs: seq<Happening>) {
    forall i :: 0 <= i < |hs| ==> if hs[i].Touched? then UnitTouch(hs[i].touch) else !hs[i].turn.event.MoveSent?
  }

  predicate NoMove(events: seq<S.Event>) { forall i :: 0 <= i < |events| ==> !events[i].MoveSent? }

  predicate NoMoveTurn(turns: seq<T.Turn>) { forall i :: 0 <= i < |turns| ==> !turns[i].event.MoveSent? }

  predicate Undragged(c: G.State) { !c.dragged && (c.downPoint.Some? ==> InUnit(c.downPoint.value)) }

  lemma UndraggedStep(b: Bridge, scale: real, touch: Touch, ts: int)
    requires UnitTouch(touch) && Undragged(b.classifier)
    ensures Undragged(Step(b, scale, touch, ts).0.classifier) && NoMove(Step(b, scale, touch, ts).1)
  {
    hide G.Within, G.IsTap, G.IsDoubleTap, Scaled;
    if touch.Moved? && touch.p.Some? && b.classifier.downPoint.Some? {
      UnitPointsAreClose(b.classifier.downPoint.value, touch.p.value);
    }
  }

  /** Over whole runs the bridge never sends a pointer move: the drag slop is out of reach of normalized touches. */
  lemma {:induction false} BridgeNeverMovesThePointer(b: Bridge, scale: real, hs: seq<Happening>)
    requires Undragged(b.classifier) && UnitTouches(hs)
    ensures Undragged(Play(b, scale, hs).0.classifier) && NoMoveTurn(Play(b, scale, hs).1)
    decreases |hs|
  {
    hide Step, Undragged;
    if hs == [] {
    } else {
      var n := |hs| - 1;
      BridgeNeverMovesThePointer(b, scale, hs[..n]);
      if hs[n].Touched? {
        UndraggedStep(Play(b, scale, hs[..n]).0, scale, hs[n].touch, hs[n].ts);
      }
    }
  }

  // ----- a closed channel -----------------------------------------------------------------

  /** Whether the bridge was last told that its channel is open. */
  function OpenBy(first: bool, hs: seq<Happening>): bool {
    if hs == [] then first
    else
      match hs[|hs| - 1]
      case Touched(ChannelSet(open), _) => open
      case _ => OpenBy(first, hs[..|hs| - 1])
  }

  /** The turns of a run that no touch asked for. */
  function Others(hs: seq<Happening>): seq<T.Turn> {
    if hs == [] then []
    else Others(hs[..|hs| - 1]) + match hs[|hs| - 1] { case Other(turn) => [turn] case _ => [] }
  }

  /** While its channel is closed a bridge sends nothing, whatever touches come. */
  lemma {:induction false} ClosedBridgeIsSilent(b: Bridge, scale: real, hs: seq<Happening>)
    requires !b.active && forall i :: 0 <= i < |hs| && hs[i].Touched? ==> !hs[i].touch.ChannelSet?
    ensures !Play(b, scale, hs).0.active && Play(b, scale, hs).1 == Others(hs)
    decreases |hs|
  {
    hide G.OnMove, G.OnUp, Scaled;
    if hs == [] {
    } else {
      ClosedBridgeIsSilent(b, scale, hs[..|hs| - 1]);
      assert AtTouch([]) == [];
    }
  }

  lemma {:induction false} ActiveExactly(b: Bridge, scale: real, hs: seq<Happening>)
    ensures Play(b, scale, hs).0.active == OpenBy(b.active, hs)
    decreases |hs|
  {
    hide G.Step, Sends;
    if hs == [] {
    } else {
      ActiveExactly(b, scale, hs[..|hs| - 1]);
    }
  }

  /** When its channel closes, the bridge drops its gesture and resets its queue, and no later lift of that finger clicks. */
  lemma ClosingEndsTheGesture(b: Bridge, scale: real, ts: int)
    ensures var (b', events) := Step(b, scale, ChannelSet(false), ts);
      && events == [S.WasReset] && !b'.active && b'.classifier.downPoint.None?
      && b'.classifier.lastTap == b.classifier.lastTap && b'.classifier.mode == b.classifier.mode
  {
  }

  // ----- what a sample of the finger sends ---------------------------------------------------

  /** In pointer mode a sample sends a move to its own place exactly when the finger drags, or now leaves the drag circle. */
  lemma DragFollowsTheFinger(b: Bridge, scale: real, p: G.TouchPoint, ts: int)
    requires b.active && b.classifier.mode.PointerMode? && b.classifier.downPoint.Some? && b.classifier.last.Some?
    ensures var (b', events) := Step(b, scale, Moved(Some(p)), ts);
      var drags := b.classifier.dragged || !G.Within(b.classifier.downPoint.value, p, 8.0);
      && b'.classifier.dragged == drags
      && if drags then
           |events| == 1 && events[0].MoveSent? && events[0].body.PointerMove?
           && events[0].body.x.value == p.x && events[0].body.y.value == p.y
         else events == []
  {
    hide G.Within;
  }

  /** In scroll mode a sample sends the scaled way from the sample before, at its own place, or nothing if it has not moved. */
  lemma ScrollFollowsTheFinger(b: Bridge, scale: real, p: G.TouchPoint, ts: int)
    requires b.active && b.classifier.mode.ScrollMode? && b.classifier.downPoint.Some? && b.classifier.last.Some?
    ensures var (b', events) := Step(b, scale, Moved(Some(p)), ts);
      var last := b.classifier.last.value;
      && b'.classifier.last == Some(p)
      && if p.x == last.x && p.y == last.y then events == []
         else
           |events| == 1 && events[0].WheelSent?
           && events[0].delta.x.value == p.x && events[0].delta.y.value == p.y
           && events[0].delta.deltaX == scale * (p.x - last.x) && events[0].delta.deltaY == scale * (p.y - last.y)
  {
  }

  /** A press outside the video, a cancelled pointer and a change of mode end the gesture without sending anything. */
  lemma EndsTheGesture(b: Bridge, scale: real, touch: Touch, ts: int)
    requires (touch == Pressed(None) && b.active) || touch.Cancelled? || touch.ModeChosen?
    ensures var (b', events) := Step(b, scale, touch, ts);
      && events == [] && b'.classifier.downPoint.None? && b'.active == b.active
      && b'.classifier.mode == if touch.ModeChosen? then touch.mode else b.classifier.mode
  {
  }

  /** After that nothing is sent until the next press on the video. */
  lemma {:induction false} NothingWithoutPress(b: Bridge, scale: real, hs: seq<Happening>)
    requires b.classifier.downPoint.None?
    requires forall i :: 0 <= i < |hs| && hs[i].Touched? ==> !hs[i].touch.ChannelSet? && (hs[i].touch.Pressed? ==> hs[i].touch.p.None?)
    ensures Play(b, scale, hs).0.classifier.downPoint.None? && Play(b, scale, hs).1 == Others(hs)
    decreases |hs|
  {
    hide G.IsTap, G.IsDoubleTap, G.Within, Scaled;
    if hs == [] {
    } else {
      NothingWithoutPress(b, scale, hs[..|hs| - 1]);
      assert AtTouch([]) == [];
    }
  }

  /** A press on the video starts a gesture there and sends nothing. */
  lemma PressStarts(b: Bridge, scale: real, p: G.TouchPoint, ts: int)
    requires b.active
    ensures var (b', events) := Step(b, scale, Pressed(Some(p)), ts);
      events == [] && b'.classifier == b.classifier.(downPoint := Some(p), last := Some(p), dragged := false)
  {
  }
}
