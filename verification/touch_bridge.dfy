/**
 * The touch bridge: touches on the video become gestures, gestures become
 * input for the prioritized sender.
 */
module TouchBridge {
  import opened Basics
  import opened Control
  import G = Gesture
  import V = VideoRect
  import S = InputSenderSpec
  import R = InputSenderRuns
  import InputSender

  datatype Bridge = Bridge(classifier: G.State, active: bool)

  /** What the page reports; None is a touch outside the video content. */
  datatype Touch =
    | Pressed(p: Option<G.TouchPoint>)
    | Moved(p: Option<G.TouchPoint>)
    | Lifted(p: Option<G.TouchPoint>)
    | Cancelled
    | ModeChosen(mode: G.Mode)
    | ChannelSet(open: bool)

  function ClientToVideo(client: Vec, t: real, element: V.Size, video: V.Size): Option<G.TouchPoint> {
    match V.NormalizePoint(client, element, video)
    case None => None
    case Some(n) => Some(G.TouchPoint(n.x, n.y, t))
  }

  /** What the classifier is told. */
  function InputOf(active: bool, touch: Touch): Option<G.Input> {
    match touch
    case Pressed(p) => if !active then None else if p.None? then Some(G.ResetAll) else Some(G.Down(p.value))
    case Moved(p) => if !active || p.None? then None else Some(G.Move(p.value))
    case Lifted(p) => if !active || p.None? then None else Some(G.Up(p.value))
    case Cancelled => Some(G.ResetAll)
    case ModeChosen(m) => Some(G.ModeSet(m))
    case ChannelSet(open) => if open then None else Some(G.ResetAll)
  }

  /** A coordinate as JSON writes it, in at most 25 characters. */
  function Written(r: real): Coord { Coord(r, 25) }

  /** What a gesture asks of the sender. */
  function Sends(g: G.Gesture, scale: real, ts: int): seq<S.Event> {
    match g
    case DragStart(p) => [S.MoveSent(PointerMove(Written(p.x), Written(p.y)))]
    case DragMove(p) => [S.MoveSent(PointerMove(Written(p.x), Written(p.y)))]
    case WheelBy(p, d) => [S.WheelSent(S.WheelDelta(Written(p.x), Written(p.y), Scaled(scale, d).x, Scaled(scale, d).y))]
    case Tap(p, n) =>
      [S.FlushedNow(ts),
       S.UrgentSent(PointerDown(Written(p.x), Written(p.y), LeftButton, n), ts),
       S.UrgentSent(PointerUp(Written(p.x), Written(p.y), LeftButton, n), ts)]
    case _ => []
  }

  function Step(b: Bridge, scale: real, touch: Touch, ts: int): (Bridge, seq<S.Event>) {
    var active := if touch.ChannelSet? then touch.open else b.active;
    match InputOf(b.active, touch)
    case None => (b.(active := active), [])
    case Some(i) =>
      var (c, g) := G.Step(b.classifier, i);
      (Bridge(c, active), if touch.ChannelSet? then [S.WasReset] else Sends(g, scale, ts))
  }

  // ----- the class ------------------------------------------------------------------

  class TouchBridge {
    const classifier: G.GestureClassifier
    const sender: InputSender.PrioritizedInputSender
    const wheelScale: real
    var active: bool

    ghost function View(): Bridge
      reads this, classifier
    {
      Bridge(classifier.View(), active)
    }

    /** The bridge makes a sender of its own over the session's channel and numbering. */
    constructor (mode: G.Mode, control: ControlSender?, transport: InputSender.Transport, wheelScale: real)
      ensures View() == Bridge(G.State(mode, None, None, false, None), false)
      ensures fresh(sender) && sender.control == control && sender.transport == transport && this.wheelScale == wheelScale
    {
      classifier := new G.GestureClassifier(mode);
      sender := new InputSender.PrioritizedInputSender(control, transport);
      this.wheelScale := wheelScale;
      active := false;
    }

    method SetMode(m: G.Mode)
      modifies classifier
      ensures (View(), []) == Step(old(View()), wheelScale, ModeChosen(m), 0)
    {
      classifier.SetMode(m);
    }

    method SetChannelOpen(open: bool)
      modifies this, classifier, sender
      ensures View() == Step(old(View()), wheelScale, ChannelSet(open), 0).0
      ensures sender.View() == if open then old(sender.View()) else S.Reset(old(sender.View()))
    {
      active := open;
      if !open {
        classifier.ResetGesture();
        sender.Reset();
      }
    }

    method OnCancel()
      modifies classifier
      ensures (View(), []) == Step(old(View()), wheelScale, Cancelled, 0)
    {
      classifier.ResetGesture();
    }

    method OnDown(client: Vec, t: real, element: V.Size, video: V.Size)
      modifies classifier
      ensures (View(), []) == Step(old(View()), wheelScale, Pressed(ClientToVideo(client, t, element, video)), 0)
    {
      if !active {
        return;
      }
      var point := ClientToVideo(client, t, element, video);
      if point.None? {
        classifier.ResetGesture();
        return;
      }
      var _ := classifier.PointerDown(point.value);
    }

    method OnMove(client: Vec, t: real, element: V.Size, video: V.Size, ts: int)
      modifies classifier, sender
      ensures var (b, events) := Step(old(View()), wheelScale, Moved(ClientToVideo(client, t, element, video)), ts);
        View() == b && sender.View() == R.After(old(sender.View()), sender.transport.accepts, events)
    {
      hide V.NormalizePoint, G.OnMove;
      var point := ClientToVideo(client, t, element, video);
      if !active || point.None? {
        return;
      }
      var gesture := classifier.MoveTo(point.value);
      MoveNeverClicks(old(View()).classifier, point.value);
      Forward(gesture, ts);
    }

    /** A drag sample becomes a move, a scroll sample a wheel delta. */
    method Forward(gesture: G.Gesture, ts: int)
      requires !gesture.Tap?
      modifies sender
      ensures sender.View() == R.After(old(sender.View()), sender.transport.accepts, Sends(gesture, wheelScale, ts))
    {
      OneEvent(sender.View(), sender.transport.accepts, Sends(gesture, wheelScale, ts));
      match gesture {
        case DragStart(p) => sender.SendMove(PointerMove(Written(p.x), Written(p.y)));
        case DragMove(p) => sender.SendMove(PointerMove(Written(p.x), Written(p.y)));
        case WheelBy(p, d) =>
          var v := Scaled(wheelScale, d);
          sender.SendWheel(S.WheelDelta(Written(p.x), Written(p.y), v.x, v.y));
        case _ =>
      }
    }

    method OnUp(client: Vec, t: real, element: V.Size, video: V.Size, ts: int)
      modifies classifier, sender, sender.transport, sender.control
      ensures var (b, events) := Step(old(View()), wheelScale, Lifted(ClientToVideo(client, t, element, video)), ts);
        View() == b && sender.View() == R.After(old(sender.View()), sender.transport.accepts, events)
    {
      hide V.NormalizePoint, G.OnUp, S.SendUrgent, S.FlushMove;
      var point := ClientToVideo(client, t, element, video);
      if !active || point.None? {
        return;
      }
      var gesture := classifier.Lift(point.value);
      UpOnlyClicks(old(View()).classifier, point.value);
      if gesture.Tap? {
        Click(gesture.point, gesture.clickCount, ts);
      }
    }

    method Click(p: G.TouchPoint, n: int, ts: int)
      modifies sender, sender.transport, sender.control
      ensures sender.View() == R.After(old(sender.View()), sender.transport.accepts, Sends(G.Tap(p, n), wheelScale, ts))
    {
      hide S.SendUrgent, S.FlushMove;
      ghost var before := sender.View();
      sender.FlushNow(ts);
      var _ := sender.SendUrgent(PointerDown(Written(p.x), Written(p.y), LeftButton, n), ts);
      var _ := sender.SendUrgent(PointerUp(Written(p.x), Written(p.y), LeftButton, n), ts);
      ThreeEvents(before, sender.transport.accepts, Sends(G.Tap(p, n), wheelScale, ts));
    }
  }

  lemma MoveNeverClicks(s: G.State, p: G.TouchPoint)
    ensures !G.OnMove(s, p).1.Tap? && !G.OnMove(s, p).1.DragEnd?
  {
  }

  lemma UpOnlyClicks(s: G.State, p: G.TouchPoint)
    ensures var g := G.OnUp(s, p).1; g.Nothing? || g.Tap? || g.DragEnd?
  {
  }

  lemma OneEvent(s: S.State, accepts: S.Channel, events: seq<S.Event>)
    requires |events| <= 1
    ensures R.After(s, accepts, events) == if events == [] then s else S.Step(s, accepts, events[0])
  {
    if events != [] {
      assert events[..0] == [];
    }
  }

  lemma ThreeEvents(s: S.State, accepts: S.Channel, e: seq<S.Event>)
    requires |e| == 3
    ensures R.After(s, accepts, e) == S.Step(S.Step(S.Step(s, accepts, e[0]), accepts, e[1]), accepts, e[2])
  {
    assert e[..2][..1] == e[..1] && e[..1][..0] == [];
    assert e[..2][1] == e[1] && e[..1][0] == e[0];
    hide S.Step;
    assert R.After(s, accepts, e[..1]) == S.Step(s, accepts, e[0]);
    assert R.After(s, accepts, e[..2]) == S.Step(S.Step(s, accepts, e[0]), accepts, e[1]);
  }
}
