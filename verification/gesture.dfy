/**
 * The gesture classifier of the viewer over real coordinates: taps, double
 * taps and drags in pointer mode, wheel deltas in scroll mode.
 */
module Gesture {
  import opened Basics

  const TAP_MAX_MS := 300.0
  const TAP_MAX_SLOP := 10.0
  const DOUBLE_TAP_MAX_MS := 300.0
  const DOUBLE_TAP_MAX_SLOP := 40.0
  const DRAG_SLOP := 8.0

  datatype Mode = PointerMode | ScrollMode

  datatype TouchPoint = TouchPoint(x: real, y: real, t: real)

  datatype Gesture =
    | Nothing
    | Tap(point: TouchPoint, clickCount: int)
    | DragStart(point: TouchPoint)
    | DragMove(point: TouchPoint)
    | DragEnd(point: TouchPoint)
    | WheelBy(point: TouchPoint, delta: Vec)

  /** `distance(a, b) <= r`, compared by squares. */
  predicate Within(a: TouchPoint, b: TouchPoint, r: real) {
    (b.x - a.x) * (b.x - a.x) + (b.y - a.y) * (b.y - a.y) <= r * r
  }

  // ----- the classifier as a value ------------------------------------------------

  datatype State = State(
    mode: Mode,
    downPoint: Option<TouchPoint>,
    last: Option<TouchPoint>,
    dragged: bool,
    lastTap: Option<TouchPoint>)

  datatype Input = Down(p: TouchPoint) | Move(p: TouchPoint) | Up(p: TouchPoint) | ResetAll | ModeSet(mode: Mode)

  function Reset(s: State): State { s.(downPoint := None, last := None, dragged := false) }

  function OnMove(s: State, p: TouchPoint): (State, Gesture) {
    if s.downPoint.None? || s.last.None? then (s, Nothing)
    else if s.mode.ScrollMode? then
      var d := Vec(p.x - s.last.value.x, p.y - s.last.value.y);
      (s.(last := Some(p)), if d == ZERO then Nothing else WheelBy(p, d))
    else if !s.dragged && !Within(s.downPoint.value, p, DRAG_SLOP) then (s.(dragged := true), DragStart(p))
    else (s.(last := Some(p)), if s.dragged then DragMove(p) else Nothing)
  }

  predicate IsDoubleTap(s: State, p: TouchPoint) {
    s.lastTap.Some? && p.t - s.lastTap.value.t <= DOUBLE_TAP_MAX_MS && Within(s.lastTap.value, p, DOUBLE_TAP_MAX_SLOP)
  }

  predicate IsTap(down: TouchPoint, up: TouchPoint) {
    up.t - down.t <= TAP_MAX_MS && Within(down, up, TAP_MAX_SLOP)
  }

  function OnUp(s: State, p: TouchPoint): (State, Gesture) {
    if s.downPoint.None? then (s, Nothing)
    else
      var s1 := s.(downPoint := None);
      if s.mode.ScrollMode? then (s1.(last := None), Nothing)
      else if s.dragged then (s1.(dragged := false), DragEnd(p))
      else if !IsTap(s.downPoint.value, p) then (s1, Nothing)
      else if IsDoubleTap(s, p) then (s1.(lastTap := None), Tap(p, 2))
      else (s1.(lastTap := Some(p)), Tap(p, 1))
  }

  function Step(s: State, i: Input): (State, Gesture) {
    match i
    case Down(p) => (Reset(s).(downPoint := Some(p), last := Some(p)), Nothing)
    case Move(p) => OnMove(s, p)
    case Up(p) => OnUp(s, p)
    case ResetAll => (Reset(s), Nothing)
    case ModeSet(m) => (Reset(s.(mode := m)), Nothing)
  }

  // ----- the class ------------------------------------------------------------------

  class GestureClassifier {
    var downPoint: Option<TouchPoint>
    var last: Option<TouchPoint>
    var dragged: bool
    var lastTap: Option<TouchPoint>
    var mode: Mode

    ghost function View(): State
      reads this
    {
      State(mode, downPoint, last, dragged, lastTap)
    }

    constructor (mode: Mode)
      ensures View() == State(mode, None, None, false, None)
    {
      this.mode := mode;
      downPoint, last, dragged, lastTap := None, None, false, None;
    }

    method SetMode(m: Mode)
      modifies this
      ensures (View(), Nothing) == Step(old(View()), ModeSet(m))
    {
      mode := m;
      ResetGesture();
    }

    method ResetGesture()
      modifies this
      ensures (View(), Nothing) == Step(old(View()), ResetAll)
    {
      downPoint := None;
      last := None;
      dragged := false;
    }

    method PointerDown(p: TouchPoint) returns (g: Gesture)
      modifies this
      ensures (View(), g) == Step(old(View()), Down(p))
    {
      ResetGesture();
      downPoint := Some(p);
      last := Some(p);
      g := Nothing;
    }

    method MoveTo(p: TouchPoint) returns (g: Gesture)
      modifies this
      ensures (View(), g) == Step(old(View()), Move(p))
    {
      if downPoint.None? || last.None? {
        return Nothing;
      }
      var near := Within(downPoint.value, p, DRAG_SLOP);
      if mode.ScrollMode? {
        var dx := p.x - last.value.x;
        var dy := p.y - last.value.y;
        last := Some(p);
        if dx == 0.0 && dy == 0.0 {
          return Nothing;
        }
        return WheelBy(p, Vec(dx, dy));
      }
      if !dragged && !near {
        dragged := true;
        return DragStart(p);
      }
      if dragged {
        last := Some(p);
        return DragMove(p);
      }
      last := Some(p);
      g := Nothing;
    }

    method Lift(p: TouchPoint) returns (g: Gesture)
      modifies this
      ensures (View(), g) == Step(old(View()), Up(p))
    {
      var down := downPoint;
      downPoint := None;
      if down.None? {
        return Nothing;
      }
      if mode.ScrollMode? {
        last := None;
        return Nothing;
      }
      if dragged {
        dragged := false;
        return DragEnd(p);
      }
      if p.t - down.value.t <= TAP_MAX_MS && Within(down.value, p, TAP_MAX_SLOP) {
        var clickCount := 1;
        if lastTap.Some? && p.t - lastTap.value.t <= DOUBLE_TAP_MAX_MS && Within(lastTap.value, p, DOUBLE_TAP_MAX_SLOP) {
          clickCount := 2;
          lastTap := None;
        } else {
          lastTap := Some(p);
        }
        return Tap(p, clickCount);
      }
      g := Nothing;
    }
  }

  // ----- runs -------------------------------------------------------------------------

  /** The state after a run, and what each input gave. */
  function After(s: State, inputs: seq<Input>): (State, seq<Gesture>)
    decreases |inputs|
  {
    if inputs == [] then (s, [])
    else
      var (s', out) := After(s, inputs[..|inputs| - 1]);
      var (s'', g) := Step(s', inputs[|inputs| - 1]);
      (s'', out + [g])
  }

  /** A finger on the glass always has a latest sample. */
  predicate Valid(s: State) { s.downPoint.Some? ==> s.last.Some? }

  lemma {:induction false} ValidRuns(s: State, inputs: seq<Input>)
    requires Valid(s)
    ensures Valid(After(s, inputs).0) && |After(s, inputs).1| == |inputs|
    decreases |inputs|
  {
    if inputs == [] {
    } else {
      ValidRuns(s, inputs[..|inputs| - 1]);
    }
  }

  // ----- scrolling telescopes ------------------------------------------------------------

  function At(p: TouchPoint): Vec { Vec(p.x, p.y) }

  /** How far the finger of the current scroll gesture has come since it went down. */
  function Travel(s: State): Vec {
    if s.mode.ScrollMode? && s.downPoint.Some? && s.last.Some? then Minus(At(s.last.value), At(s.downPoint.value)) else ZERO
  }

  function WheelOf(g: Gesture): Vec { if g.WheelBy? then g.delta else ZERO }

  function WheelSum(out: seq<Gesture>): Vec
    decreases |out|
  {
    if out == [] then ZERO else Plus(WheelSum(out[..|out| - 1]), WheelOf(out[|out| - 1]))
  }

  /** The travel of a gesture counts when the next input ends it. */
  function Ended(s: State, i: Input): Vec { if i.Move? then ZERO else Travel(s) }

  /** Summed travel, last accepted sample minus down point, of all scroll gestures that ended in the run. */
  function TravelSum(s: State, inputs: seq<Input>): Vec
    decreases |inputs|
  {
    if inputs == [] then ZERO
    else
      var init := inputs[..|inputs| - 1];
      Plus(TravelSum(s, init), Ended(After(s, init).0, inputs[|inputs| - 1]))
  }

  lemma StepTelescopes(s: State, i: Input)
    requires Valid(s)
    ensures Plus(Travel(s), WheelOf(Step(s, i).1)) == Plus(Ended(s, i), Travel(Step(s, i).0))
  {
    hide OnMove, OnUp, Travel, WheelOf;
    match i
    case Move(p) => MoveTelescopes(s, p);
    case Up(p) => UpTelescopes(s, p);
    case _ => ResetTelescopes(s, i);
  }

  lemma ResetTelescopes(s: State, i: Input)
    requires !i.Move? && !i.Up?
    ensures WheelOf(Step(s, i).1) == ZERO == Travel(Step(s, i).0)
  {
    hide OnMove, OnUp;
  }

  lemma MoveTelescopes(s: State, p: TouchPoint)
    requires Valid(s)
    ensures Plus(Travel(s), WheelOf(OnMove(s, p).1)) == Plus(ZERO, Travel(OnMove(s, p).0))
  {
    hide Within;
    if s.mode.ScrollMode? && s.downPoint.Some? {
      SampleTelescopes(s.downPoint.value, s.last.value, p);
    }
  }

  lemma UpTelescopes(s: State, p: TouchPoint)
    requires Valid(s)
    ensures WheelOf(OnUp(s, p).1) == ZERO == Travel(OnUp(s, p).0)
  {
    hide IsTap, IsDoubleTap;
  }

  lemma SampleTelescopes(down: TouchPoint, last: TouchPoint, p: TouchPoint)
    ensures Plus(Minus(At(last), At(down)), Minus(At(p), At(last))) == Minus(At(p), At(down))
    ensures Minus(At(p), At(last)) == Vec(p.x - last.x, p.y - last.y)
  {
  }

  /**
   * Whatever the inputs, the wheel deltas given out add up to the travel of the gestures that ended plus the
   * travel of the one still under way: nothing is counted twice and no sample is lost.
   */
  lemma {:induction false} ScrollTelescopes(s: State, inputs: seq<Input>)
    requires Valid(s) && s.downPoint.None?
    ensures WheelSum(After(s, inputs).1) == Plus(TravelSum(s, inputs), Travel(After(s, inputs).0))
    decreases |inputs|
  {
    hide Step, Travel, Ended, WheelOf;
    if inputs == [] {
      assert Travel(s) == ZERO by { NoTravel(s); }
    } else {
      var init, last := inputs[..|inputs| - 1], inputs[|inputs| - 1];
      ScrollTelescopes(s, init);
      ValidRuns(s, init);
      StepTelescopes(After(s, init).0, last);
      var out := After(s, inputs).1;
      assert out[..|out| - 1] == After(s, init).1;
    }
  }

  lemma NoTravel(s: State)
    requires s.downPoint.None?
    ensures Travel(s) == ZERO
  {
  }

  function Moves(ps: seq<TouchPoint>): seq<Input> { seq(|ps|, i requires 0 <= i < |ps| => Move(ps[i])) }

  lemma MovesLast(ps: seq<TouchPoint>)
    requires ps != []
    ensures Moves(ps)[..|ps| - 1] == Moves(ps[..|ps| - 1]) && Moves(ps)[|ps| - 1] == Move(ps[|ps| - 1])
  {
  }

  /** One scroll gesture of any length: the deltas add up to the last sample minus the down point, and it never clicks. */
  lemma {:induction false} ScrollGesture(s: State, down: TouchPoint, ps: seq<TouchPoint>, up: TouchPoint)
    requires s.mode.ScrollMode?
    ensures var t := After(Step(s, Down(down)).0, Moves(ps));
      && WheelSum(t.1) == Minus(At(if ps == [] then down else ps[|ps| - 1]), At(down))
      && (forall i :: 0 <= i < |t.1| ==> t.1[i].Nothing? || t.1[i].WheelBy?)
      && t.0 == s.(downPoint := Some(down), last := Some(if ps == [] then down else ps[|ps| - 1]), dragged := false)
      && Step(t.0, Up(up)) == (Reset(s), Nothing)
    decreases |ps|
  {
    if ps == [] {
    } else {
      MovesLast(ps);
      ScrollGesture(s, down, ps[..|ps| - 1], up);
      var out := After(Step(s, Down(down)).0, Moves(ps)).1;
      assert out[..|out| - 1] == After(Step(s, Down(down)).0, Moves(ps[..|ps| - 1])).1;
    }
  }

  // ----- pointer gestures -------------------------------------------------------------------

  /** The first sample that leaves the drag circle around the down point, or the number of samples. */
  function FirstFar(down: TouchPoint, ps: seq<TouchPoint>): (k: nat)
    ensures k <= |ps|
    ensures forall i :: 0 <= i < k ==> Within(down, ps[i], DRAG_SLOP)
    ensures k < |ps| ==> !Within(down, ps[k], DRAG_SLOP)
    decreases |ps|
  {
    if ps == [] then 0
    else
      var k := FirstFar(down, ps[..|ps| - 1]);
      if k < |ps| - 1 || !Within(down, ps[|ps| - 1], DRAG_SLOP) then k else |ps|
  }

  /** What the i-th sample of a pointer gesture gives when sample k is the first to leave the drag circle. */
  function DragOutput(p: TouchPoint, i: nat, k: nat): Gesture {
    if i < k then Nothing else if i == k then DragStart(p) else DragMove(p)
  }

  lemma FirstFarOneMore(down: TouchPoint, ps: seq<TouchPoint>)
    requires ps != []
    ensures var n := |ps| - 1; var k := FirstFar(down, ps[..n]);
      FirstFar(down, ps) == if k < n || !Within(down, ps[n], DRAG_SLOP) then k else n + 1
  {
    hide Within;
  }

  /** One sample of a pointer gesture. */
  lemma OneSample(s: State, p: TouchPoint)
    requires s.mode.PointerMode? && s.downPoint.Some? && s.last.Some?
    ensures var (s', g) := Step(s, Move(p));
      var far := !Within(s.downPoint.value, p, DRAG_SLOP);
      && s' == s.(last := s'.last, dragged := s.dragged || far) && s'.last.Some?
      && g == if s.dragged then DragMove(p) else if far then DragStart(p) else Nothing
  {
    hide Within;
  }

  /** The samples of a pointer gesture: nothing before the first outside the drag circle, a drag from that one on. */
  lemma {:induction false} PointerSamples(s: State, down: TouchPoint, ps: seq<TouchPoint>)
    requires s.mode.PointerMode? && s.downPoint == Some(down) && s.last.Some? && !s.dragged
    ensures var (t, out) := After(s, Moves(ps));
      && |out| == |ps|
      && (forall i :: 0 <= i < |ps| ==> out[i] == DragOutput(ps[i], i, FirstFar(down, ps)))
      && t == s.(last := t.last, dragged := FirstFar(down, ps) < |ps|) && t.last.Some?
    decreases |ps|
  {
    hide Within, Step, FirstFar;
    if ps == [] {
      NoSampleIsFar(down);
    } else {
      var n := |ps| - 1;
      MovesLast(ps);
      PointerSamples(s, down, ps[..n]);
      FirstFarOneMore(down, ps);
      OneSample(After(s, Moves(ps[..n])).0, ps[n]);
    }
  }

  lemma NoSampleIsFar(down: TouchPoint)
    ensures FirstFar(down, []) == 0
  {
  }

  /**
   * One pointer gesture: nothing before the first sample outside the drag circle, a drag from that sample on,
   * and at the end either the end of the drag or, if the finger never left, a tap exactly when it was short and
   * came up close enough. A drag never clicks.
   */
  lemma PointerGesture(s: State, down: TouchPoint, ps: seq<TouchPoint>, up: TouchPoint)
    requires s.mode.PointerMode?
    ensures var (t, out) := After(Step(s, Down(down)).0, Moves(ps));
      && |out| == |ps|
      && (forall i :: 0 <= i < |ps| ==> out[i] == DragOutput(ps[i], i, FirstFar(down, ps)))
      && Step(t, Up(up)).1 == (
        if FirstFar(down, ps) < |ps| then DragEnd(up)
        else if up.t - down.t > 300.0 || !Within(down, up, 10.0) then Nothing
        else Tap(up, if s.lastTap.Some? && up.t - s.lastTap.value.t <= 300.0 && Within(s.lastTap.value, up, 40.0) then 2 else 1))
  {
    hide Within, FirstFar, After;
    PointerSamples(Step(s, Down(down)).0, down, ps);
  }

  /** `d` being the Euclidean distance, `Within` compares it with the bound. */
  lemma WithinIsDistance(a: TouchPoint, b: TouchPoint, r: real, d: real)
    requires d >= 0.0 && r >= 0.0 && d * d == (a.x - b.x) * (a.x - b.x) + (a.y - b.y) * (a.y - b.y)
    ensures Within(a, b, r) <==> d <= r
  {
    assert (b.x - a.x) * (b.x - a.x) == (a.x - b.x) * (a.x - b.x);
    assert (b.y - a.y) * (b.y - a.y) == (a.y - b.y) * (a.y - b.y);
    SquaresInOrder(d, r);
  }

  lemma SquaresInOrder(d: real, r: real)
    requires d >= 0.0 && r >= 0.0
    ensures d <= r <==> d * d <= r * r
  {
    var gap, sum := d - r, d + r;
    assert d * d - r * r == gap * sum;
    assert gap > 0.0 && sum > 0.0 ==> gap * sum > 0.0;
    assert gap <= 0.0 && sum >= 0.0 ==> gap * sum <= 0.0;
  }

  /** Without a finger on the glass nothing is recognized: a reset or a change of mode ends the gesture for good. */
  lemma {:induction false} NoGestureWithoutDown(s: State, inputs: seq<Input>)
    requires s.downPoint.None? && forall i :: 0 <= i < |inputs| ==> !inputs[i].Down?
    ensures After(s, inputs).0.downPoint.None?
    ensures forall g :: g in After(s, inputs).1 ==> g == Nothing
    decreases |inputs|
  {
    if inputs == [] {
    } else {
      NoGestureWithoutDown(s, inputs[..|inputs| - 1]);
    }
  }

  lemma ResetEndsTheGesture(s: State, i: Input, inputs: seq<Input>)
    requires (i.ResetAll? || i.ModeSet?) && forall j :: 0 <= j < |inputs| ==> !inputs[j].Down?
    ensures Step(s, i).1 == Nothing && forall g :: g in After(Step(s, i).0, inputs).1 ==> g == Nothing
  {
    NoGestureWithoutDown(Step(s, i).0, inputs);
  }

  /** The mode is the one chosen last. */
  function ModeBy(first: Mode, inputs: seq<Input>): Mode {
    if inputs == [] then first
    else if inputs[|inputs| - 1].ModeSet? then inputs[|inputs| - 1].mode
    else ModeBy(first, inputs[..|inputs| - 1])
  }

  /** In every run the mode is the one chosen last, and without a finger on the glass no drag is under way. */
  lemma {:induction false} ModeAndDragExactly(mode: Mode, inputs: seq<Input>)
    ensures var s := After(State(mode, None, None, false, None), inputs).0;
      s.mode == ModeBy(mode, inputs) && (s.downPoint.None? ==> !s.dragged) && (s.mode.ScrollMode? ==> !s.dragged)
    decreases |inputs|
  {
    hide Within;
    if inputs == [] {
    } else {
      ModeAndDragExactly(mode, inputs[..|inputs| - 1]);
    }
  }

  // ----- double taps ---------------------------------------------------------------------------

  /** The last tap of a run. */
  function LastTapOf(out: seq<Gesture>): Option<Gesture>
    decreases |out|
  {
    if out == [] then None
    else if out[|out| - 1].Tap? then Some(out[|out| - 1])
    else LastTapOf(out[..|out| - 1])
  }

  /** The double clicks are exactly the taps whose last tap before was a single click, close in time and space. */
  predicate DoublesFollowSingles(out: seq<Gesture>) {
    forall i :: 0 <= i < |out| && out[i].Tap? ==> (out[i].clickCount == 2 <==> DoubleFollows(LastTapOf(out[..i]), out[i]))
  }

  predicate DoubleFollows(before: Option<Gesture>, g: Gesture)
    requires g.Tap?
  {
    && before.Some? && before.value.Tap? && before.value.clickCount == 1
    && g.point.t - before.value.point.t <= 300.0
    && Within(before.value.point, g.point, 40.0)
  }

  lemma TapStep(s: State, i: Input)
    ensures var (s', g) := Step(s, i);
      if g.Tap? then
        && (g.clickCount == 1 || g.clickCount == 2)
        && s'.lastTap == (if g.clickCount == 1 then Some(g.point) else None)
        && (g.clickCount == 2 <==> s.lastTap.Some? && DoubleFollows(Some(Tap(s.lastTap.value, 1)), g))
      else s'.lastTap == s.lastTap
  {
    hide Within, IsTap;
  }

  /**
   * A tap counts two exactly when the last tap before it was a single click at most 300 ms ago and 40 units away;
   * so two doubles are never neighbours: a double uses up its single.
   */
  lemma {:induction false} DoubleTaps(mode: Mode, inputs: seq<Input>)
    ensures var t := After(State(mode, None, None, false, None), inputs);
      && DoublesFollowSingles(t.1)
      && (forall i :: 0 <= i < |t.1| && t.1[i].Tap? ==> t.1[i].clickCount == 1 || t.1[i].clickCount == 2)
      && t.0.lastTap == (match LastTapOf(t.1) case Some(Tap(p, 1)) => Some(p) case _ => None)
    decreases |inputs|
  {
    hide Within, Step;
    if inputs == [] {
    } else {
      var n := |inputs| - 1;
      DoubleTaps(mode, inputs[..n]);
      var before := After(State(mode, None, None, false, None), inputs[..n]);
      var out := After(State(mode, None, None, false, None), inputs).1;
      var m := |before.1|;
      assert out[..m] == before.1;
      assert forall i :: 0 <= i < m ==> out[..i] == before.1[..i];
      TapStep(before.0, inputs[n]);
    }
  }
}
