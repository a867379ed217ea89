/**
 * What every run of the input sender keeps, for any mix of input, any order of
 * timers and any pattern of refusals: urgent input is first in, first out and
 * framed once, the numbering reaches the receiver without a gap exactly when
 * no coalesced frame was refused or overtook a waiting one, and wheel deltas
 * are conserved.
 */
module InputSenderRuns {
  import opened Basics
  import opened Control
  import opened InputSenderSpec

  /** The state after a run of events; a timer may fire at any time. */
  function After(s: State, accepts: Channel, events: seq<Event>): State
    decreases |events|
  {
    if events == [] then s else Step(After(s, accepts, events[..|events| - 1]), accepts, events[|events| - 1])
  }

  predicate WithoutReset(events: seq<Event>) { WasReset !in events }

  // ----- what a state shows -----------------------------------------------------

  /** The frames of the urgent queue that the channel accepted, in order. */
  function UrgentFrames(d: seq<Delivery>): seq<Message> {
    if d == [] then []
    else UrgentFrames(d[..|d| - 1]) + if d[|d| - 1].kind.UrgentKind? then [d[|d| - 1].message] else []
  }

  lemma OneMoreUrgent(d: seq<Delivery>, x: Delivery)
    ensures UrgentFrames(d + [x]) == UrgentFrames(d) + if x.kind.UrgentKind? then [x.message] else []
  {
    assert (d + [x])[..|d|] == d;
  }

  function Bodies(frames: seq<Message>): seq<Body> { seq(|frames|, i requires 0 <= i < |frames| => frames[i].body) }

  function Waiting(q: seq<Item>): seq<Body> { seq(|q|, i requires 0 <= i < |q| => q[i].body) }

  function HeadFrame(q: seq<Item>): seq<Message> {
    if q != [] && q[0].encoded.Some? then [q[0].encoded.value] else []
  }

  /** Urgent frames ever built: those accepted, and the one the head holds. */
  function Issued(s: State): seq<Message> { UrgentFrames(s.delivered) + HeadFrame(s.urgent) }

  /** Urgent input in line: accepted, then still waiting. */
  function Line(s: State): seq<Body> { Bodies(UrgentFrames(s.delivered)) + Waiting(s.urgent) }

  function Enqueued(events: seq<Event>): seq<Body> {
    if events == [] then []
    else Enqueued(events[..|events| - 1]) +
         match events[|events| - 1] { case UrgentSent(b, _) => [b] case _ => [] }
  }

  // ----- the structural invariant ---------------------------------------------------

  predicate Numbered(m: Message, c: Sender) {
    1 <= m.seqNo <= c.lastNo && m.seqNo <= MAX_SAFE_INTEGER && m.sessionId == c.sessionId && Schema(m)
  }

  predicate TidyQueue(s: State)
    requires s.control.Some?
  {
    && (forall i :: 0 < i < |s.urgent| ==> s.urgent[i].encoded.None?)
    && (s.urgent != [] && s.urgent[0].encoded.Some? ==>
        (var m := s.urgent[0].encoded.value;
         m.body == s.urgent[0].body && Numbered(m, s.control.value)
         && forall i :: 0 <= i < |s.delivered| ==> s.delivered[i].message.seqNo != m.seqNo))
  }

  /** Only the head holds a frame, every frame carries the session, and no number is used twice. */
  predicate Tidy(s: State) {
    && s.control.Some?
    && TidyQueue(s)
    && (forall i :: 0 <= i < |s.delivered| ==> Numbered(s.delivered[i].message, s.control.value))
    && (forall i, j :: 0 <= i < j < |s.delivered| ==> s.delivered[i].message.seqNo != s.delivered[j].message.seqNo)
  }

  predicate Consecutive(d: seq<Delivery>) { forall i :: 0 <= i < |d| ==> d[i].message.seqNo == i + 1 }

  /** The receiver has every number handed out, except the one the head holds, which is next. */
  predicate InSync(s: State)
    requires s.control.Some?
  {
    && Consecutive(s.delivered)
    && s.control.value.lastNo == |s.delivered| + |HeadFrame(s.urgent)|
    && (HeadFrame(s.urgent) != [] ==> HeadFrame(s.urgent)[0].seqNo == s.control.value.lastNo)
  }

  /** A number handed out that the channel has not accepted and no queued frame holds. */
  predicate Burnt(s: State, n: int)
    requires s.control.Some?
  {
    && 1 <= n <= s.control.value.lastNo
    && (forall i :: 0 <= i < |s.delivered| ==> s.delivered[i].message.seqNo != n)
    && (HeadFrame(s.urgent) != [] ==> HeadFrame(s.urgent)[0].seqNo != n)
  }

  // ----- wheel sums --------------------------------------------------------------------

  function WheelVec(d: WheelDelta): Vec { Vec(d.deltaX, d.deltaY) }

  function Pending(s: State): Vec { if s.pendingWheel.Some? then WheelVec(s.pendingWheel.value) else ZERO }

  function WheelSum(d: seq<Delivery>): Vec {
    if d == [] then ZERO
    else Plus(WheelSum(d[..|d| - 1]), match d[|d| - 1].kind { case WheelKind(w) => WheelVec(w) case _ => ZERO })
  }

  lemma OneMoreWheel(d: seq<Delivery>, x: Delivery)
    ensures WheelSum(d + [x]) == Plus(WheelSum(d), match x.kind { case WheelKind(w) => WheelVec(w) case _ => ZERO })
  {
    assert (d + [x])[..|d|] == d;
  }

  /** Every accepted wheel frame carries the rounded deltas of the accumulation it stands for. */
  predicate WheelFramesRounded(d: seq<Delivery>) {
    forall i :: 0 <= i < |d| && d[i].kind.WheelKind? ==> d[i].message.body == WheelBody(d[i].kind.delta)
  }

  // ----- draining the queue ---------------------------------------------------------------

  /** What draining may change and what it keeps. */
  ghost predicate Drained(s: State, s': State)
    requires s.control.Some?
  {
    && s' == s.(control := s'.control, urgent := s'.urgent, sentFrames := s'.sentFrames,
                attempts := s'.attempts, delivered := s'.delivered)
    && s'.control.Some? && Tidy(s')
    && s'.control.value.sessionId == s.control.value.sessionId
    && s'.control.value.lastNo >= s.control.value.lastNo
    && Line(s') == Line(s)
    && Issued(s) <= Issued(s')
    && WheelSum(s'.delivered) == WheelSum(s.delivered)
    && (WheelFramesRounded(s.delivered) ==> WheelFramesRounded(s'.delivered))
    && (InSync(s') <==> InSync(s))
    && (forall n :: Burnt(s, n) ==> Burnt(s', n))
  }

  /** Building the head's frame: the number it takes is the head's own. */
  lemma HeadFramed(s: State, c: Sender, m: Message, ts: int)
    requires Tidy(s) && s.urgent != [] && EncodeHead(s, ts) == Made(c, m)
    ensures var s1 := WithHead(s, c, m); Drained(s, s1) && HeadFrame(s1.urgent) == [m] && s1.delivered == s.delivered
    ensures s.urgent[0].encoded.None? ==> m == Candidate(s.control.value, s.urgent[0].body, ts)
  {
    hide Schema, UrgentFrames, WheelSum;
    var s1 := WithHead(s, c, m);
    assert Waiting(s1.urgent) == Waiting(s.urgent);
    if s.urgent[0].encoded.Some? {
      assert s1 == s;
    } else {
      EncodedNumber(s.control.value, s.urgent[0].body, ts);
      assert Issued(s1) == Issued(s) + [m];
    }
  }

  lemma EncodedNumber(c: Sender, b: Body, ts: int)
    ensures Encode(c, b, ts).1.Frame? ==>
      && Encode(c, b, ts) == (c.(lastNo := c.lastNo + 1), Frame(Candidate(c, b, ts)))
      && c.lastNo < MAX_SAFE_INTEGER && Schema(Candidate(c, b, ts))
    ensures Encode(c, b, ts).1.Threw? ==> Encode(c, b, ts).0 == c
  {
  }

  /** The head's frame goes out and the next item becomes the head. */
  lemma HeadSent(s: State, s': State, m: Message)
    requires Tidy(s) && HeadFrame(s.urgent) == [m]
    requires s' == s.(delivered := s.delivered + [Delivery(UrgentKind, m)], urgent := s.urgent[1..],
                      attempts := s.attempts + 1, sentFrames := s.sentFrames + 1)
    ensures Drained(s, s')
  {
    OneMoreUrgent(s.delivered, Delivery(UrgentKind, m));
    OneMoreWheel(s.delivered, Delivery(UrgentKind, m));
    hide UrgentFrames, WheelSum, WheelBody;
    assert HeadFrame(s'.urgent) == [];
    assert Issued(s') == Issued(s);
    assert Line(s') == Line(s);
    HeadSentSync(s, s', m);
  }

  lemma HeadSentSync(s: State, s': State, m: Message)
    requires Tidy(s) && HeadFrame(s.urgent) == [m] && HeadFrame(s'.urgent) == []
    requires s'.control == s.control && s'.delivered == s.delivered + [Delivery(UrgentKind, m)]
    ensures InSync(s') <==> InSync(s)
  {
    assert s'.delivered[|s.delivered|].message == m;
    assert forall i :: 0 <= i < |s.delivered| ==> s'.delivered[i] == s.delivered[i];
  }

  lemma DrainedTwice(s: State, t: State, u: State)
    requires s.control.Some? && Drained(s, t) && Drained(t, u)
    ensures Drained(s, u)
  {
    hide UrgentFrames, WheelSum, WheelFramesRounded, Tidy, InSync, Burnt, Line, Issued;
  }

  lemma AttemptDrains(s: State, accepts: Channel, ts: int)
    requires s.control.Some? && Tidy(s) && s.urgent != []
    ensures Drained(s, Attempt(s, accepts, ts).0)
    ensures EncodeHead(s, ts) != NoSession
  {
    hide Schema, Tidy, InSync, Burnt, Line, Issued, UrgentFrames, WheelSum, WheelFramesRounded;
    match EncodeHead(s, ts)
    case Fails =>
    case Made(c, m) =>
      HeadFramed(s, c, m, ts);
      var s1 := WithHead(s, c, m);
      assert s1.attempts == s.attempts && s1.sentFrames == s.sentFrames;
      var s2 := Attempt(s, accepts, ts).0;
      if accepts(s.attempts) {
        HeadSent(s1, s2, m);
        DrainedTwice(s, s1, s2);
      } else {
        AttemptsIrrelevant(s1, s2);
        DrainedTwice(s, s1, s2);
      }
  }

  lemma AttemptsIrrelevant(s: State, s': State)
    requires Tidy(s) && s' == s.(attempts := s.attempts + 1)
    ensures Drained(s, s')
  {
  }

  lemma {:induction false} DrainDrains(s: State, accepts: Channel, ts: int)
    requires s.control.Some? && Tidy(s)
    ensures Drained(s, Drain(s, accepts, ts).0)
    decreases |s.urgent|
  {
    hide Schema, Tidy, InSync, Burnt, Line, Issued, UrgentFrames, WheelSum, WheelFramesRounded, Attempt, EncodeHead;
    if s.urgent == [] {
      NothingDrained(s);
    } else {
      AttemptDrains(s, accepts, ts);
      var (s1, o) := Attempt(s, accepts, ts);
      if o.Gone? {
        assert |s1.urgent| < |s.urgent| by { GoneShrinks(s, accepts, ts); }
        DrainDrains(s1, accepts, ts);
        DrainedTwice(s, s1, Drain(s1, accepts, ts).0);
      }
    }
  }

  lemma NothingDrained(s: State)
    requires Tidy(s)
    ensures Drained(s, s)
  {
  }

  // ----- one event ---------------------------------------------------------------------------

  /** What an event sends outside the urgent queue: a move, a wheel delta or a direct frame. */
  function Outgoing(s: State, ev: Event): Option<Body> {
    match ev
    case MoveTimer(_) => s.latestMove
    case FlushedNow(_) => s.latestMove
    case WheelTimer(_) => if s.pendingWheel.Some? then Some(WheelBody(s.pendingWheel.value)) else None
    case DirectSent(b, _) => Some(b)
    case _ => None
  }

  function BuiltBy(s: State, ev: Event): BuildResult {
    if Outgoing(s, ev).None? then NoSession else Build(s.control, Outgoing(s, ev).value, ev.ts)
  }

  /**
   * An event that costs the receiver a number: such a frame is refused, or overtakes a framed urgent head that
   * the channel refused earlier; or a reset drops a framed head.
   */
  predicate Breaks(s: State, accepts: Channel, ev: Event) {
    || (BuiltBy(s, ev).Made? && (HeadFrame(s.urgent) != [] || !accepts(s.attempts)))
    || (ev.WasReset? && HeadFrame(s.urgent) != [])
  }

  function WheelInput(ev: Event): Vec { if ev.WheelSent? then WheelVec(ev.delta) else ZERO }

  /** Deltas an event throws away: the encoder threw, or a reset. */
  function WheelLost(s: State, ev: Event): Vec {
    if ev.WasReset? || (ev.WheelTimer? && !BuiltBy(s, ev).Made?) then Pending(s) else ZERO
  }

  ghost predicate Stepped(s: State, accepts: Channel, ev: Event, s': State)
    requires s.control.Some?
  {
    && s'.control.Some? && Tidy(s')
    && s'.control.value.sessionId == s.control.value.sessionId
    && (ev != WasReset ==> Line(s') == Line(s) + Enqueued([ev]) && Issued(s) <= Issued(s'))
    && (InSync(s') <==> InSync(s) && !Breaks(s, accepts, ev))
    && (forall n :: Burnt(s, n) ==> Burnt(s', n))
    && (WheelFramesRounded(s.delivered) ==> WheelFramesRounded(s'.delivered))
    && Plus(Plus(WheelSum(s'.delivered), Pending(s')), WheelLost(s, ev)) == Plus(Plus(WheelSum(s.delivered), Pending(s)), WheelInput(ev))
  }

  lemma BuiltNumber(c: Sender, b: Body, ts: int, c': Sender, m: Message)
    requires Build(Some(c), b, ts) == Made(c', m)
    ensures c' == c.(lastNo := c.lastNo + 1) && m == Candidate(c, b, ts) && c.lastNo < MAX_SAFE_INTEGER && Schema(m)
  {
    EncodedNumber(c, b, ts);
  }

  /** A frame that goes out past the urgent queue. */
  ghost predicate Emitted(s: State, ok: bool, kind: Kind, m: Message, s': State)
    requires s.control.Some? && s'.control.Some?
  {
    && Tidy(s')
    && s'.control.value.sessionId == s.control.value.sessionId
    && Line(s') == Line(s)
    && Issued(s') == Issued(s)
    && (InSync(s') <==> InSync(s) && HeadFrame(s.urgent) == [] && ok)
    && (forall n :: Burnt(s, n) ==> Burnt(s', n))
    && (!ok ==> Burnt(s', m.seqNo))
    && ((kind.WheelKind? ==> m.body == WheelBody(kind.delta)) && WheelFramesRounded(s.delivered) ==> WheelFramesRounded(s'.delivered))
    && WheelSum(s'.delivered) == Plus(WheelSum(s.delivered), if ok && kind.WheelKind? then WheelVec(kind.delta) else ZERO)
  }

  lemma EmitKeeps(s: State, accepts: Channel, kind: Kind, c: Sender, m: Message, b: Body, ts: int)
    requires s.control.Some? && Tidy(s) && Build(s.control, b, ts) == Made(c, m) && !kind.UrgentKind?
    ensures Emitted(s, accepts(s.attempts), kind, m, Transmit(s.(control := Some(c)), accepts, kind, m))
  {
    hide Schema, Build, Encode, UrgentFrames, WheelSum, WheelFramesRounded, Tidy, InSync, Burnt, Bodies, Waiting, HeadFrame;
    BuiltNumber(s.control.value, b, ts, c, m);
    OneMoreUrgent(s.delivered, Delivery(kind, m));
    OneMoreWheel(s.delivered, Delivery(kind, m));
    var s' := Transmit(s.(control := Some(c)), accepts, kind, m);
    assert UrgentFrames(s'.delivered) == UrgentFrames(s.delivered);
    EmitTidy(s, s', accepts(s.attempts), kind, m);
    if WheelFramesRounded(s.delivered) && (kind.WheelKind? ==> m.body == WheelBody(kind.delta)) {
      EmitRounded(s.delivered, kind, m);
    }
    EmitSync(s, s', accepts(s.attempts), kind, m);
  }

  lemma EmitRounded(d: seq<Delivery>, kind: Kind, m: Message)
    requires WheelFramesRounded(d) && (kind.WheelKind? ==> m.body == WheelBody(kind.delta))
    ensures WheelFramesRounded(d + [Delivery(kind, m)])
  {
    hide WheelBody;
  }

  lemma EmitTidy(s: State, s': State, ok: bool, kind: Kind, m: Message)
    requires s.control.Some? && Tidy(s) && s'.control.Some?
    requires s'.control.value == s.control.value.(lastNo := s.control.value.lastNo + 1)
    requires m.sessionId == s.control.value.sessionId && m.seqNo == s'.control.value.lastNo <= MAX_SAFE_INTEGER && Schema(m)
    requires s'.urgent == s.urgent && s'.delivered == if ok then s.delivered + [Delivery(kind, m)] else s.delivered
    ensures Tidy(s') && (forall n :: Burnt(s, n) ==> Burnt(s', n)) && (!ok ==> Burnt(s', m.seqNo))
  {
    var d := s.delivered;
    assert forall i :: 0 <= i < |d| ==> s'.delivered[i] == d[i] && d[i].message.seqNo < m.seqNo;
    assert ok ==> s'.delivered[|d|].message == m;
  }

  lemma EmitSync(s: State, s': State, ok: bool, kind: Kind, m: Message)
    requires s.control.Some? && Tidy(s) && s'.control.Some?
    requires s'.control.value.lastNo == s.control.value.lastNo + 1 == m.seqNo
    requires s'.urgent == s.urgent && s'.delivered == if ok then s.delivered + [Delivery(kind, m)] else s.delivered
    ensures InSync(s') <==> InSync(s) && HeadFrame(s.urgent) == [] && ok
  {
    var d := s.delivered;
    assert d != [] ==> d[|d| - 1].message.seqNo <= s.control.value.lastNo;
    if ok {
      assert s'.delivered[|d|].message == m;
      assert forall i :: 0 <= i < |d| ==> s'.delivered[i] == d[i];
    }
  }

  /** Fields no property speaks about. */
  predicate SameTraffic(s: State, s': State) {
    s'.control == s.control && s'.urgent == s.urgent && s'.delivered == s.delivered
  }

  lemma SameTrafficKeeps(s: State, s': State)
    requires s.control.Some? && Tidy(s) && SameTraffic(s, s')
    ensures Tidy(s') && Line(s') == Line(s) && Issued(s') == Issued(s) && (InSync(s') <==> InSync(s))
    ensures forall n :: Burnt(s, n) ==> Burnt(s', n)
  {
  }

  lemma EnqueuedOne(ev: Event)
    ensures Enqueued([ev]) == if ev.UrgentSent? then [ev.body] else []
  {
    assert [ev][..0] == [];
  }

  lemma MoveStep(s: State, accepts: Channel, ev: Event)
    requires s.control.Some? && Tidy(s) && (ev.MoveTimer? || ev.FlushedNow?)
    ensures Stepped(s, accepts, ev, Step(s, accepts, ev))
  {
    EnqueuedOne(ev);
    hide Schema, Build, UrgentFrames, WheelSum, WheelFramesRounded, Tidy, InSync, Burnt, Line, Issued, Enqueued;
    var s' := Step(s, accepts, ev);
    var r := BuiltBy(s, ev);
    if r.Made? {
      var t := Transmit(s.(control := Some(r.control)), accepts, MoveKind, r.message);
      EmitKeeps(s, accepts, MoveKind, r.control, r.message, s.latestMove.value, ev.ts);
      assert SameTraffic(t, s') && s'.pendingWheel == s.pendingWheel;
      SameTrafficKeeps(t, s');
    } else {
      SameTrafficKeeps(s, s');
    }
  }

  lemma WheelStep(s: State, accepts: Channel, ev: Event)
    requires s.control.Some? && Tidy(s) && ev.WheelTimer?
    ensures Stepped(s, accepts, ev, Step(s, accepts, ev))
  {
    EnqueuedOne(ev);
    hide Schema, Encode, UrgentFrames, WheelSum, WheelFramesRounded, Tidy, InSync, Burnt, Line, Issued, Enqueued, WheelBody;
    var s' := Step(s, accepts, ev);
    match BuiltBy(s, ev)
    case Made(c, m) =>
      var d := s.pendingWheel.value;
      BuiltNumber(s.control.value, WheelBody(d), ev.ts, c, m);
      EmitKeeps(s, accepts, WheelKind(d), c, m, WheelBody(d), ev.ts);
      SameTrafficKeeps(Transmit(s.(control := Some(c)), accepts, WheelKind(d), m), s');
    case _ =>
      SameTrafficKeeps(s, s');
  }

  lemma DirectStep(s: State, accepts: Channel, ev: Event)
    requires s.control.Some? && Tidy(s) && ev.DirectSent?
    ensures Stepped(s, accepts, ev, Step(s, accepts, ev))
  {
    EnqueuedOne(ev);
    hide Schema, Encode, UrgentFrames, WheelSum, WheelFramesRounded, Tidy, InSync, Burnt, Line, Issued, Enqueued;
    match BuiltBy(s, ev)
    case Made(c, m) =>
      EmitKeeps(s, accepts, DirectKind, c, m, ev.body, ev.ts);
    case _ =>
      SameTrafficKeeps(s, s);
  }

  lemma PushKeeps(s: State, b: Body)
    requires s.control.Some? && Tidy(s)
    ensures var s1 := s.(urgent := s.urgent + [Item(b, None)]);
      Tidy(s1) && Line(s1) == Line(s) + [b] && Issued(s1) == Issued(s) && (InSync(s1) <==> InSync(s)) && forall n :: Burnt(s, n) ==> Burnt(s1, n)
  {
    var s1 := s.(urgent := s.urgent + [Item(b, None)]);
    assert HeadFrame(s1.urgent) == HeadFrame(s.urgent);
    assert Waiting(s1.urgent) == Waiting(s.urgent) + [b];
  }

  lemma UrgentStep(s: State, accepts: Channel, ev: Event)
    requires s.control.Some? && Tidy(s) && (ev.UrgentSent? || ev.RetryTimer?)
    ensures Stepped(s, accepts, ev, Step(s, accepts, ev))
  {
    EnqueuedOne(ev);
    hide Schema, Encode, UrgentFrames, WheelSum, WheelFramesRounded, Tidy, InSync, Burnt, Line, Issued, Enqueued, Drain;
    var s' := Step(s, accepts, ev);
    var s1 := if ev.UrgentSent? then s.(urgent := s.urgent + [Item(ev.body, None)]) else s.(retryTimer := false);
    if ev.UrgentSent? {
      PushKeeps(s, ev.body);
    } else {
      SameTrafficKeeps(s, s1);
    }
    DrainDrains(s1, accepts, ev.ts);
    SameTrafficKeeps(Drain(s1, accepts, ev.ts).0, s');
  }

  lemma ResetStep(s: State, accepts: Channel)
    requires s.control.Some? && Tidy(s)
    ensures Stepped(s, accepts, WasReset, Step(s, accepts, WasReset))
  {
    hide UrgentFrames, WheelSum, WheelBody;
    var s' := Step(s, accepts, WasReset);
    if HeadFrame(s.urgent) != [] {
      var n := HeadFrame(s.urgent)[0].seqNo;
      assert 1 <= n <= |s.delivered| ==> s.delivered[n - 1].message.seqNo != n;
    }
  }

  lemma StepKeeps(s: State, accepts: Channel, ev: Event)
    requires s.control.Some? && Tidy(s)
    ensures Stepped(s, accepts, ev, Step(s, accepts, ev))
  {
    EnqueuedOne(ev);
    hide Schema, Encode, UrgentFrames, WheelSum, WheelFramesRounded, Tidy, InSync, Burnt, Line, Issued, Enqueued, Drain;
    match ev
    case MoveTimer(_) => MoveStep(s, accepts, ev);
    case FlushedNow(_) => MoveStep(s, accepts, ev);
    case WheelTimer(_) => WheelStep(s, accepts, ev);
    case DirectSent(_, _) => DirectStep(s, accepts, ev);
    case UrgentSent(_, _) => UrgentStep(s, accepts, ev);
    case RetryTimer(_) => UrgentStep(s, accepts, ev);
    case WasReset => ResetStep(s, accepts);
    case MoveSent(_) => SameTrafficKeeps(s, Step(s, accepts, ev));
    case Disposed => SameTrafficKeeps(s, Step(s, accepts, ev));
    case WheelSent(_) => SameTrafficKeeps(s, Step(s, accepts, ev));
  }

  // ----- whole runs -----------------------------------------------------------------------------

  lemma {:induction false} TidyRuns(s: State, accepts: Channel, events: seq<Event>)
    requires s.control.Some? && Tidy(s)
    ensures After(s, accepts, events).control.Some? && Tidy(After(s, accepts, events))
    ensures After(s, accepts, events).control.value.sessionId == s.control.value.sessionId
    decreases |events|
  {
    hide Step, Tidy;
    if events == [] {
    } else {
      var init := events[..|events| - 1];
      TidyRuns(s, accepts, init);
      StepFacts(After(s, accepts, init), accepts, events[|events| - 1]);
    }
  }

  lemma StepFacts(s: State, accepts: Channel, ev: Event)
    requires s.control.Some? && Tidy(s)
    ensures Step(s, accepts, ev).control.Some? && Stepped(s, accepts, ev, Step(s, accepts, ev))
    ensures Tidy(Step(s, accepts, ev)) && Step(s, accepts, ev).control.value.sessionId == s.control.value.sessionId
  {
    hide Step, Tidy, Line, Issued, InSync, Burnt, WheelSum, Enqueued;
    StepKeeps(s, accepts, ev);
  }

  /** The initial state of a live session is tidy and in sync, and nothing is in line. */
  lemma FreshFacts(sessionId: string)
    ensures Tidy(Fresh(sessionId)) && InSync(Fresh(sessionId)) && Line(Fresh(sessionId)) == [] && Issued(Fresh(sessionId)) == []
  {
  }

  lemma EnqueuedLast(events: seq<Event>)
    requires events != []
    ensures Enqueued(events) == Enqueued(events[..|events| - 1]) + Enqueued([events[|events| - 1]])
  {
    EnqueuedOne(events[|events| - 1]);
  }

  /**
   * Urgent input is first in, first out and never lost: what the channel accepted, followed by what still
   * waits, is what was in line before followed by everything enqueued since.
   */
  lemma {:induction false} UrgentFifo(s: State, accepts: Channel, events: seq<Event>)
    requires s.control.Some? && Tidy(s) && WithoutReset(events)
    ensures Line(After(s, accepts, events)) == Line(s) + Enqueued(events)
    decreases |events|
  {
    hide Step, Tidy, Line, Enqueued, Stepped;
    if events == [] {
      assert Enqueued(events) == [] by { EnqueuedNone(); }
    } else {
      var init, last := events[..|events| - 1], events[|events| - 1];
      assert last in events;
      UrgentFifo(s, accepts, init);
      TidyRuns(s, accepts, init);
      LineStep(After(s, accepts, init), accepts, last);
      EnqueuedLast(events);
    }
  }

  lemma EnqueuedNone()
    ensures Enqueued([]) == []
  {
  }

  lemma LineStep(s: State, accepts: Channel, ev: Event)
    requires s.control.Some? && Tidy(s) && ev != WasReset
    ensures Line(Step(s, accepts, ev)) == Line(s) + Enqueued([ev])
    ensures Issued(s) <= Issued(Step(s, accepts, ev))
  {
    hide Step, Tidy, Line, Issued, Enqueued, InSync, Burnt, WheelSum;
    StepFacts(s, accepts, ev);
  }

  /**
   * An urgent frame is built once: whatever the channel does, the frames built so far stay, in order and
   * unchanged, at the front of the frames built later.
   */
  lemma {:induction false} UrgentFramedOnce(s: State, accepts: Channel, events: seq<Event>)
    requires s.control.Some? && Tidy(s) && WithoutReset(events)
    ensures Issued(s) <= Issued(After(s, accepts, events))
    decreases |events|
  {
    hide Step, Tidy, Issued;
    if events == [] {
    } else {
      var init, last := events[..|events| - 1], events[|events| - 1];
      assert last in events;
      UrgentFramedOnce(s, accepts, init);
      TidyRuns(s, accepts, init);
      LineStep(After(s, accepts, init), accepts, last);
    }
  }

  /** Some event of the run costs the receiver a number. */
  predicate RunBreaks(s: State, accepts: Channel, events: seq<Event>) {
    exists i :: 0 <= i < |events| && Breaks(After(s, accepts, events[..i]), accepts, events[i])
  }

  /** The numbering stays in step with the receiver exactly when no event of the run breaks it. */
  lemma {:induction false} InSyncExactly(s: State, accepts: Channel, events: seq<Event>)
    requires s.control.Some? && Tidy(s) && InSync(s)
    ensures After(s, accepts, events).control.Some?
    ensures InSync(After(s, accepts, events)) <==> !RunBreaks(s, accepts, events)
    decreases |events|
  {
    hide Step, Tidy, InSync, Breaks, Stepped;
    TidyRuns(s, accepts, events);
    if events == [] {
    } else {
      var n := |events| - 1;
      var init, last := events[..n], events[n];
      InSyncExactly(s, accepts, init);
      TidyRuns(s, accepts, init);
      SyncStep(After(s, accepts, init), accepts, last);
      assert forall i :: 0 <= i < n ==> init[..i] == events[..i] && init[i] == events[i];
    }
  }

  lemma SyncStep(s: State, accepts: Channel, ev: Event)
    requires s.control.Some? && Tidy(s)
    ensures Step(s, accepts, ev).control.Some?
    ensures InSync(Step(s, accepts, ev)) <==> InSync(s) && !Breaks(s, accepts, ev)
    ensures forall n :: Burnt(s, n) ==> Burnt(Step(s, accepts, ev), n)
  {
    hide Step, Tidy, Line, Issued, Enqueued, InSync, Burnt, WheelSum, Breaks;
    StepFacts(s, accepts, ev);
  }

  // ----- what the receiver makes of it ----------------------------------------------------------

  /** The guard's last number after the frames it was given, accepted or not. */
  function GuardAfter(d: seq<Delivery>): nat {
    if d == [] then 0 else CheckSeq(GuardAfter(d[..|d| - 1]), d[|d| - 1].message.seqNo).0
  }

  predicate AllAccepted(d: seq<Delivery>) {
    forall i :: 0 <= i < |d| ==> CheckSeq(GuardAfter(d[..i]), d[i].message.seqNo).1.Accepted?
  }

  /** A guard that starts at 0 accepts every frame exactly when the numbers are 1, 2, 3 and so on. */
  lemma {:induction false} GuardExactly(d: seq<Delivery>)
    requires forall i :: 0 <= i < |d| ==> d[i].message.seqNo <= MAX_SAFE_INTEGER
    ensures AllAccepted(d) <==> Consecutive(d)
    ensures Consecutive(d) ==> GuardAfter(d) == |d|
    ensures GuardAfter(d) <= |d|
    decreases |d|
  {
    hide CheckSeq;
    if d == [] {
    } else {
      var n := |d| - 1;
      GuardExactly(d[..n]);
      AcceptedLast(d);
      ConsecutiveLast(d);
      OneCheck(GuardAfter(d[..n]), d[n].message.seqNo);
    }
  }

  lemma OneCheck(last: nat, n: int)
    requires n <= MAX_SAFE_INTEGER
    ensures CheckSeq(last, n) == (n, Accepted) || (CheckSeq(last, n).0 == last && CheckSeq(last, n).1 != Accepted)
    ensures CheckSeq(last, n).1.Accepted? <==> n == last + 1
  {
  }

  lemma AcceptedLast(d: seq<Delivery>)
    requires d != []
    ensures var n := |d| - 1; AllAccepted(d) <==> AllAccepted(d[..n]) && CheckSeq(GuardAfter(d[..n]), d[n].message.seqNo).1.Accepted?
  {
    hide CheckSeq, GuardAfter;
    var n := |d| - 1;
    assert forall i :: 0 <= i < n ==> d[..n][..i] == d[..i] && d[..n][i] == d[i];
  }

  lemma ConsecutiveLast(d: seq<Delivery>)
    requires d != []
    ensures var n := |d| - 1; Consecutive(d) <==> Consecutive(d[..n]) && d[n].message.seqNo == n + 1
  {
    var n := |d| - 1;
    assert forall i :: 0 <= i < n ==> d[..n][i] == d[i];
  }

  /** While no event breaks the numbering, the receiver accepts every frame the channel took. */
  lemma ReceiverAcceptsAll(sessionId: string, accepts: Channel, events: seq<Event>)
    requires !RunBreaks(Fresh(sessionId), accepts, events)
    ensures AllAccepted(After(Fresh(sessionId), accepts, events).delivered)
    ensures GuardAfter(After(Fresh(sessionId), accepts, events).delivered) == |After(Fresh(sessionId), accepts, events).delivered|
  {
    hide RunBreaks, Step, After, AllAccepted;
    var s := Fresh(sessionId);
    FreshFacts(sessionId);
    InSyncExactly(s, accepts, events);
    TidyRuns(s, accepts, events);
    GuardExactly(After(s, accepts, events).delivered);
  }

  lemma {:induction false} BurntStays(s: State, accepts: Channel, events: seq<Event>, n: int)
    requires s.control.Some? && Tidy(s) && Burnt(s, n)
    ensures After(s, accepts, events).control.Some? && Burnt(After(s, accepts, events), n)
    decreases |events|
  {
    hide Step, Tidy, Burnt, InSync;
    if events == [] {
    } else {
      var init := events[..|events| - 1];
      BurntStays(s, accepts, init, n);
      TidyRuns(s, accepts, init);
      SyncStep(After(s, accepts, init), accepts, events[|events| - 1]);
    }
  }

  /** A guard never reaches a number that never arrives. */
  lemma {:induction false} GuardBelow(d: seq<Delivery>, n: int)
    requires n >= 1 && forall i :: 0 <= i < |d| ==> d[i].message.seqNo != n
    ensures GuardAfter(d) < n
    decreases |d|
  {
    if d == [] {
    } else {
      GuardBelow(d[..|d| - 1], n);
    }
  }

  /** A number that came before its turn is never the guard's: it was rejected, and it does not come again. */
  lemma {:induction false} GuardStuck(d: seq<Delivery>, k: nat, n: int)
    requires k < |d| && d[k].message.seqNo == n && GuardAfter(d[..k]) < n - 1
    requires forall i :: k < i < |d| ==> d[i].message.seqNo != n
    ensures GuardAfter(d) < n
    decreases |d|
  {
    var m := |d| - 1;
    if m == k {
      assert d[..m] == d[..k];
    } else {
      assert d[..m][..k] == d[..k];
      GuardStuck(d[..m], k, n);
    }
  }

  /**
   * An event that breaks the numbering stops the receiver for the rest of the session: whatever follows, the guard
   * stays at or below the last number handed out before it.
   */
  lemma BrokenNumberingStopsTheReceiver(s: State, accepts: Channel, ev: Event, events: seq<Event>)
    requires s.control.Some? && Tidy(s) && Breaks(s, accepts, ev)
    ensures GuardAfter(After(Step(s, accepts, ev), accepts, events).delivered) <= s.control.value.lastNo
  {
    hide After, Tidy, Step, Burnt, HeadFrame;
    var s' := Step(s, accepts, ev);
    StepFacts(s, accepts, ev);
    if BuiltBy(s, ev).Made? && accepts(s.attempts) {
      OvertakenHead(s, accepts, ev);
      DeliveredGrows(s', accepts, events);
      TidyRuns(s', accepts, events);
      var d, k := After(s', accepts, events).delivered, |s.delivered|;
      assert d[..k] == s.delivered && d[k] == s'.delivered[k];
      UniqueNumbers(After(s', accepts, events), k);
      GuardStuck(d, k, s.control.value.lastNo + 1);
    } else {
      var n := BurntByBreak(s, accepts, ev);
      BurntStays(s', accepts, events, n);
      BurntNumber(After(s', accepts, events), n);
    }
  }

  lemma BurntNumber(s: State, n: int)
    requires s.control.Some? && Burnt(s, n)
    ensures GuardAfter(s.delivered) < n <= s.control.value.lastNo
  {
    GuardBelow(s.delivered, n);
  }

  lemma UniqueNumbers(s: State, k: nat)
    requires s.control.Some? && Tidy(s) && k < |s.delivered|
    ensures forall i :: k < i < |s.delivered| ==> s.delivered[i].message.seqNo != s.delivered[k].message.seqNo
  {
    hide Schema;
  }

  /** A frame goes out while the head waits with an older one. */
  lemma OvertakenHead(s: State, accepts: Channel, ev: Event)
    requires s.control.Some? && Tidy(s) && BuiltBy(s, ev).Made? && accepts(s.attempts) && HeadFrame(s.urgent) != []
    ensures var d := Step(s, accepts, ev).delivered;
      |d| == |s.delivered| + 1 && s.delivered <= d && d[|s.delivered|].message.seqNo == s.control.value.lastNo + 1
    ensures GuardAfter(s.delivered) < s.control.value.lastNo
  {
    hide Schema, Encode, WheelBody, Build;
    var r := BuiltBy(s, ev);
    BuiltNumber(s.control.value, Outgoing(s, ev).value, ev.ts, r.control, r.message);
    GuardBelow(s.delivered, HeadFrame(s.urgent)[0].seqNo);
  }

  /** A refusal burns the number just taken, a reset the number its head held. */
  lemma BurntByBreak(s: State, accepts: Channel, ev: Event) returns (n: int)
    requires s.control.Some? && Tidy(s) && Breaks(s, accepts, ev) && !(BuiltBy(s, ev).Made? && accepts(s.attempts))
    ensures Step(s, accepts, ev).control.Some? && Burnt(Step(s, accepts, ev), n) && n <= s.control.value.lastNo + 1
  {
    hide Schema, Build, WheelBody;
    if BuiltBy(s, ev).Made? {
      BurntByRefusal(s, accepts, ev);
      n := s.control.value.lastNo + 1;
    } else {
      n := HeadFrame(s.urgent)[0].seqNo;
    }
  }

  lemma BurntByRefusal(s: State, accepts: Channel, ev: Event)
    requires s.control.Some? && Tidy(s) && BuiltBy(s, ev).Made? && !accepts(s.attempts)
    ensures Step(s, accepts, ev).control.Some? && Burnt(Step(s, accepts, ev), s.control.value.lastNo + 1)
  {
    hide Schema, Encode, WheelBody, Build;
    var r := BuiltBy(s, ev);
    BuiltNumber(s.control.value, Outgoing(s, ev).value, ev.ts, r.control, r.message);
  }

  // ----- deliveries only grow --------------------------------------------------------------------

  lemma {:induction false} DrainGrows(s: State, accepts: Channel, ts: int)
    ensures s.delivered <= Drain(s, accepts, ts).0.delivered
    decreases |s.urgent|
  {
    hide Schema, Encode;
    if s.urgent == [] {
    } else if Attempt(s, accepts, ts).1.Gone? {
      DrainGrows(Attempt(s, accepts, ts).0, accepts, ts);
    }
  }

  lemma StepGrows(s: State, accepts: Channel, ev: Event)
    ensures s.delivered <= Step(s, accepts, ev).delivered
  {
    hide Drain, Build, WheelBody;
    match ev
    case UrgentSent(b, ts) => DrainGrows(s.(urgent := s.urgent + [Item(b, None)]), accepts, ts);
    case RetryTimer(ts) => DrainGrows(s.(retryTimer := false), accepts, ts);
    case _ =>
  }

  lemma {:induction false} DeliveredGrows(s: State, accepts: Channel, events: seq<Event>)
    ensures s.delivered <= After(s, accepts, events).delivered
    decreases |events|
  {
    hide Step;
    if events == [] {
    } else {
      var init := events[..|events| - 1];
      DeliveredGrows(s, accepts, init);
      StepGrows(After(s, accepts, init), accepts, events[|events| - 1]);
    }
  }

  // ----- a channel that accepts everything ------------------------------------------------------

  lemma {:induction false} DrainLeavesNoHead(s: State, accepts: Channel, ts: int)
    requires s.control.Some? && Tidy(s) && HeadFrame(s.urgent) == [] && forall n :: accepts(n)
    ensures HeadFrame(Drain(s, accepts, ts).0.urgent) == []
    decreases |s.urgent|
  {
    hide Schema, Encode, InSync, Burnt, Line, Issued, UrgentFrames, WheelSum, WheelFramesRounded;
    if s.urgent == [] {
    } else {
      AttemptDrains(s, accepts, ts);
      var (s1, o) := Attempt(s, accepts, ts);
      if o.Gone? {
        assert s1.urgent == s.urgent[1..];
        DrainLeavesNoHead(s1, accepts, ts);
      }
    }
  }

  lemma StepLeavesNoHead(s: State, accepts: Channel, ev: Event)
    requires s.control.Some? && Tidy(s) && HeadFrame(s.urgent) == [] && forall n :: accepts(n)
    ensures HeadFrame(Step(s, accepts, ev).urgent) == []
    ensures !Breaks(s, accepts, ev)
  {
    hide Schema, Encode, Build, Tidy, Drain, WheelBody;
    match ev
    case UrgentSent(b, ts) =>
      PushKeeps(s, b);
      DrainLeavesNoHead(s.(urgent := s.urgent + [Item(b, None)]), accepts, ts);
    case RetryTimer(ts) =>
      SameTrafficKeeps(s, s.(retryTimer := false));
      DrainLeavesNoHead(s.(retryTimer := false), accepts, ts);
    case _ =>
  }

  /**
   * On a channel that accepts everything, any mix of direct frames, moves, wheel deltas and urgent input, with
   * any resets and any builder that throws, reaches the receiver without a gap.
   */
  lemma {:induction false} AcceptingChannelNeverBreaks(s: State, accepts: Channel, events: seq<Event>)
    requires s.control.Some? && Tidy(s) && HeadFrame(s.urgent) == [] && forall n :: accepts(n)
    ensures !RunBreaks(s, accepts, events) && HeadFrame(After(s, accepts, events).urgent) == []
    decreases |events|
  {
    hide Step, Tidy, Breaks, HeadFrame;
    if events == [] {
    } else {
      var n := |events| - 1;
      AcceptingChannelNeverBreaks(s, accepts, events[..n]);
      TidyRuns(s, accepts, events[..n]);
      StepLeavesNoHead(After(s, accepts, events[..n]), accepts, events[n]);
      assert forall i :: 0 <= i < n ==> events[..n][..i] == events[..i] && events[..n][i] == events[i];
    }
  }

  lemma AcceptingChannelReachesTheReceiver(sessionId: string, accepts: Channel, events: seq<Event>)
    requires forall n :: accepts(n)
    ensures AllAccepted(After(Fresh(sessionId), accepts, events).delivered)
    ensures GuardAfter(After(Fresh(sessionId), accepts, events).delivered) == |After(Fresh(sessionId), accepts, events).delivered|
  {
    hide RunBreaks, After, AllAccepted;
    FreshFacts(sessionId);
    AcceptingChannelNeverBreaks(Fresh(sessionId), accepts, events);
    ReceiverAcceptsAll(sessionId, accepts, events);
  }

  // ----- urgent input only ------------------------------------------------------------------------

  /** Keys, buttons, text and their retries; a flush before a click finds no move. */
  predicate UrgentOnly(events: seq<Event>) {
    forall i :: 0 <= i < |events| ==> events[i].UrgentSent? || events[i].RetryTimer? || events[i].FlushedNow? || events[i].Disposed?
  }

  lemma UrgentEventHarmless(s: State, accepts: Channel, ev: Event)
    requires s.control.Some? && Tidy(s) && s.latestMove.None? && (ev.UrgentSent? || ev.RetryTimer? || ev.FlushedNow? || ev.Disposed?)
    ensures !Breaks(s, accepts, ev) && Step(s, accepts, ev).latestMove.None?
  {
    hide Drain, Tidy, Line, Issued, InSync, Burnt, UrgentFrames, WheelSum;
    if ev.UrgentSent? {
      PushKeeps(s, ev.body);
      DrainDrains(s.(urgent := s.urgent + [Item(ev.body, None)]), accepts, ev.ts);
    } else if ev.RetryTimer? {
      SameTrafficKeeps(s, s.(retryTimer := false));
      DrainDrains(s.(retryTimer := false), accepts, ev.ts);
    }
  }

  lemma {:induction false} UrgentNeverBreaks(s: State, accepts: Channel, events: seq<Event>)
    requires s.control.Some? && Tidy(s) && s.latestMove.None? && UrgentOnly(events)
    ensures !RunBreaks(s, accepts, events) && After(s, accepts, events).latestMove.None?
    decreases |events|
  {
    hide Step, Tidy, Breaks;
    if events == [] {
    } else {
      var n := |events| - 1;
      UrgentNeverBreaks(s, accepts, events[..n]);
      TidyRuns(s, accepts, events[..n]);
      UrgentEventHarmless(After(s, accepts, events[..n]), accepts, events[n]);
      assert forall i :: 0 <= i < n ==> events[..n][..i] == events[..i] && events[..n][i] == events[i];
    }
  }

  /**
   * Urgent input under any refusals: the receiver accepts every frame, and the bodies it has, followed by those
   * still queued, are exactly the bodies enqueued, in order.
   */
  lemma UrgentReachesTheReceiver(sessionId: string, accepts: Channel, events: seq<Event>)
    requires UrgentOnly(events)
    ensures var s' := After(Fresh(sessionId), accepts, events);
      && AllAccepted(s'.delivered)
      && Consecutive(s'.delivered)
      && Bodies(UrgentFrames(s'.delivered)) + Waiting(s'.urgent) == Enqueued(events)
  {
    hide RunBreaks, After, AllAccepted, Step;
    var s := Fresh(sessionId);
    FreshFacts(sessionId);
    UrgentNeverBreaks(s, accepts, events);
    ReceiverAcceptsAll(sessionId, accepts, events);
    InSyncExactly(s, accepts, events);
    assert WithoutReset(events);
    UrgentFifo(s, accepts, events);
    assert [] + Enqueued(events) == Enqueued(events);
  }

  // ----- the retry timer ----------------------------------------------------------------------------

  predicate Armed(s: State) { s.urgent == [] || s.retryTimer }

  /** The message the k-th item of a queue would carry if all items before it go out. */
  function WouldBe(s: State, k: nat, ts: int): Message
    requires s.control.Some? && k < |s.urgent|
  {
    var c := s.control.value;
    Message(c.sessionId, c.lastNo + 1 + k - |HeadFrame(s.urgent)|, ts, s.urgent[k].body)
  }

  /** Item j is built and accepted when its turn comes. */
  predicate GoesOut(s: State, accepts: Channel, ts: int, j: nat)
    requires s.control.Some? && j < |s.urgent|
  {
    accepts(s.attempts + j) && (s.urgent[j].encoded.Some? || Schema(WouldBe(s, j, ts)))
  }

  /** Item k has no frame yet and its schema refuses it, and the items before it go out. */
  predicate ThrowsAt(s: State, accepts: Channel, ts: int, k: nat)
    requires s.control.Some? && k < |s.urgent|
  {
    && s.urgent[k].encoded.None? && !Schema(WouldBe(s, k, ts))
    && forall j: nat :: j < k ==> GoesOut(s, accepts, ts, j)
  }

  /** A builder throws when this event drains the queue. */
  predicate Throws(s: State, accepts: Channel, ev: Event)
    requires s.control.Some?
  {
    match ev
    case UrgentSent(b, ts) =>
      var q := s.(urgent := s.urgent + [Item(b, None)]);
      exists k :: 0 <= k < |q.urgent| && ThrowsAt(q, accepts, ts, k)
    case RetryTimer(ts) => exists k :: 0 <= k < |s.urgent| && ThrowsAt(s, accepts, ts, k)
    case _ => false
  }

  lemma {:induction false} DrainThrowsExactly(s: State, accepts: Channel, ts: int)
    requires s.control.Some? && Tidy(s)
    ensures Drain(s, accepts, ts).1 <==> exists k :: 0 <= k < |s.urgent| && ThrowsAt(s, accepts, ts, k)
    decreases |s.urgent|
  {
    hide Schema, Tidy, InSync, Burnt, Line, Issued, UrgentFrames, WheelSum, WheelFramesRounded, ThrowsAt, Attempt;
    if s.urgent == [] {
    } else {
      AttemptDrains(s, accepts, ts);
      var (s1, o) := Attempt(s, accepts, ts);
      ThrowsFirst(s, accepts, ts);
      if o.Gone? {
        GoneShrinks(s, accepts, ts);
        DrainThrowsExactly(s1, accepts, ts);
        forall k | 0 < k < |s.urgent| ensures ThrowsAt(s, accepts, ts, k) <==> ThrowsAt(s1, accepts, ts, k - 1) {
          ThrowsLater(s, accepts, ts, k);
        }
        if k: nat :| k < |s1.urgent| && ThrowsAt(s1, accepts, ts, k) {
          assert ThrowsAt(s, accepts, ts, k + 1);
        }
      } else {
        forall k | 0 < k < |s.urgent| ensures !ThrowsAt(s, accepts, ts, k) {
          ThrowsLater(s, accepts, ts, k);
        }
      }
    }
  }

  lemma ThrowsFirst(s: State, accepts: Channel, ts: int)
    requires s.control.Some? && Tidy(s) && s.urgent != []
    ensures ThrowsAt(s, accepts, ts, 0) <==> Attempt(s, accepts, ts).1.Thrown?
    ensures GoesOut(s, accepts, ts, 0) <==> Attempt(s, accepts, ts).1.Gone?
  {
    hide ValidBody, ValidId;
  }

  /** After the head left, item j + 1 is item j. */
  lemma NextGoesOut(s: State, accepts: Channel, ts: int, j: nat)
    requires s.control.Some? && Tidy(s) && j + 1 < |s.urgent| && Attempt(s, accepts, ts).1.Gone?
    ensures var s1 := Attempt(s, accepts, ts).0;
      && s1.control.Some? && |s1.urgent| == |s.urgent| - 1 && s1.urgent[j] == s.urgent[j + 1]
      && WouldBe(s1, j, ts) == WouldBe(s, j + 1, ts)
      && (GoesOut(s1, accepts, ts, j) <==> GoesOut(s, accepts, ts, j + 1))
  {
    hide Schema;
  }

  lemma ThrowsLater(s: State, accepts: Channel, ts: int, k: nat)
    requires s.control.Some? && Tidy(s) && 0 < k < |s.urgent|
    ensures var (s1, o) := Attempt(s, accepts, ts);
      if o.Gone? then s1.control.Some? && k - 1 < |s1.urgent| && (ThrowsAt(s, accepts, ts, k) <==> ThrowsAt(s1, accepts, ts, k - 1))
      else !ThrowsAt(s, accepts, ts, k)
  {
    hide Schema, GoesOut, Attempt, Tidy, WouldBe;
    ThrowsFirst(s, accepts, ts);
    var (s1, o) := Attempt(s, accepts, ts);
    if o.Gone? {
      NextGoesOut(s, accepts, ts, k - 1);
      forall j: nat | j < k - 1 ensures GoesOut(s1, accepts, ts, j) <==> GoesOut(s, accepts, ts, j + 1) {
        NextGoesOut(s, accepts, ts, j);
      }
      if ThrowsAt(s1, accepts, ts, k - 1) {
        forall j: nat | j < k ensures GoesOut(s, accepts, ts, j) {
          if j > 0 {
            assert GoesOut(s1, accepts, ts, j - 1);
          }
        }
      }
    }
  }

  /** A queue loses its retry only to a builder that threw while no retry was armed, or to disposal. */
  lemma ArmedExactly(s: State, accepts: Channel, ev: Event)
    requires s.control.Some? && Tidy(s)
    ensures Armed(Step(s, accepts, ev)) <==>
      match ev
      case UrgentSent(_, _) => s.retryTimer || !Throws(s, accepts, ev)
      case RetryTimer(_) => !Throws(s, accepts, ev)
      case Disposed => s.urgent == []
      case WasReset => true
      case _ => Armed(s)
  {
    hide Tidy, Line, Issued, InSync, Burnt, UrgentFrames, WheelSum, WheelFramesRounded, Attempt, Build, ThrowsAt;
    match ev
    case UrgentSent(b, ts) =>
      var q := s.(urgent := s.urgent + [Item(b, None)]);
      PushKeeps(s, b);
      DrainKeepsTimer(q, accepts, ts);
      DrainThrowsExactly(q, accepts, ts);
    case RetryTimer(ts) =>
      SameTrafficKeeps(s, s.(retryTimer := false));
      DrainKeepsTimer(s.(retryTimer := false), accepts, ts);
      DrainIgnoresTimer(s, accepts, ts);
      DrainThrowsExactly(s, accepts, ts);
    case _ =>
  }

  lemma {:induction false} DrainKeepsTimer(s: State, accepts: Channel, ts: int)
    requires s.control.Some? && Tidy(s)
    ensures Drain(s, accepts, ts).0.retryTimer == s.retryTimer
    ensures Drain(s, accepts, ts).1 ==> Drain(s, accepts, ts).0.urgent != []
    decreases |s.urgent|
  {
    hide Schema, Encode, Tidy, InSync, Burnt, Line, Issued, UrgentFrames, WheelSum, WheelFramesRounded;
    if s.urgent == [] {
    } else {
      AttemptDrains(s, accepts, ts);
      if Attempt(s, accepts, ts).1.Gone? {
        DrainKeepsTimer(Attempt(s, accepts, ts).0, accepts, ts);
      }
    }
  }

  lemma {:induction false} DrainIgnoresTimer(s: State, accepts: Channel, ts: int)
    ensures Drain(s.(retryTimer := false), accepts, ts).1 == Drain(s, accepts, ts).1
    decreases |s.urgent|
  {
    hide Schema, Encode;
    if s.urgent == [] {
    } else if Attempt(s, accepts, ts).1.Gone? {
      assert Attempt(s.(retryTimer := false), accepts, ts).0 == Attempt(s, accepts, ts).0.(retryTimer := false);
      DrainIgnoresTimer(Attempt(s, accepts, ts).0, accepts, ts);
    }
  }

  /** Without disposal and without a builder that throws, a queue that waits always has its retry armed. */
  lemma {:induction false} RetryAlwaysArmed(s: State, accepts: Channel, events: seq<Event>)
    requires s.control.Some? && Tidy(s) && Armed(s)
    requires forall i :: 0 <= i < |events| ==>
      (var t := After(s, accepts, events[..i]); events[i] != Disposed && t.control.Some? && !Throws(t, accepts, events[i]))
    ensures Armed(After(s, accepts, events))
    decreases |events|
  {
    hide Step, Tidy, Throws;
    if events == [] {
    } else {
      var n := |events| - 1;
      assert forall i :: 0 <= i < n ==> events[..n][..i] == events[..i] && events[..n][i] == events[i];
      RetryAlwaysArmed(s, accepts, events[..n]);
      TidyRuns(s, accepts, events[..n]);
      ArmedExactly(After(s, accepts, events[..n]), accepts, events[n]);
    }
  }

  // ----- a body that never encodes ----------------------------------------------------------------

  /** The head has no frame and no time at which it could get one. */
  predicate Stuck(s: State) {
    && s.control.Some? && s.urgent != [] && s.urgent[0].encoded.None?
    && !ValidBody(s.urgent[0].body)
  }

  lemma StuckDrain(s: State, accepts: Channel, ts: int)
    requires Stuck(s)
    ensures Drain(s, accepts, ts) == (s, true)
  {
    hide ValidBody;
  }

  /** A queued body that its schema refuses blocks everything behind it until a reset. */
  lemma {:induction false} InvalidHeadBlocksTheQueue(s: State, accepts: Channel, events: seq<Event>)
    requires s.control.Some? && Tidy(s) && Stuck(s) && WithoutReset(events)
    ensures Stuck(After(s, accepts, events))
    ensures UrgentFrames(After(s, accepts, events).delivered) == UrgentFrames(s.delivered)
    decreases |events|
  {
    hide Step, Tidy, Stuck, UrgentFrames;
    if events == [] {
    } else {
      var n := |events| - 1;
      assert events[n] in events;
      InvalidHeadBlocksTheQueue(s, accepts, events[..n]);
      StuckStep(After(s, accepts, events[..n]), accepts, events[n]);
    }
  }

  lemma StuckStep(s: State, accepts: Channel, ev: Event)
    requires Stuck(s) && ev != WasReset
    ensures Stuck(Step(s, accepts, ev))
    ensures UrgentFrames(Step(s, accepts, ev).delivered) == UrgentFrames(s.delivered)
  {
    hide ValidBody, Drain, Schema, UrgentFrames, WheelBody, Build;
    match ev
    case UrgentSent(b, ts) => StuckDrain(s.(urgent := s.urgent + [Item(b, None)]), accepts, ts);
    case RetryTimer(ts) => StuckDrain(s.(retryTimer := false), accepts, ts);
    case MoveTimer(_) => QuietAppend(s, MoveKind, BuiltBy(s, ev));
    case FlushedNow(_) => QuietAppend(s, MoveKind, BuiltBy(s, ev));
    case WheelTimer(_) => if s.pendingWheel.Some? { QuietAppend(s, WheelKind(s.pendingWheel.value), BuiltBy(s, ev)); }
    case DirectSent(_, _) => QuietAppend(s, DirectKind, BuiltBy(s, ev));
    case _ =>
  }

  lemma QuietAppend(s: State, kind: Kind, r: BuildResult)
    requires !kind.UrgentKind?
    ensures r.Made? ==> UrgentFrames(s.delivered + [Delivery(kind, r.message)]) == UrgentFrames(s.delivered)
  {
    hide UrgentFrames;
    if r.Made? {
      OneMoreUrgent(s.delivered, Delivery(kind, r.message));
    }
  }

  // ----- wheel deltas -------------------------------------------------------------------------------

  function WheelTotal(events: seq<Event>): Vec {
    if events == [] then ZERO else Plus(WheelTotal(events[..|events| - 1]), WheelInput(events[|events| - 1]))
  }

  function WheelLoss(s: State, accepts: Channel, events: seq<Event>): Vec {
    if events == [] then ZERO
    else
      var init := events[..|events| - 1];
      Plus(WheelLoss(s, accepts, init), WheelLost(After(s, accepts, init), events[|events| - 1]))
  }

  lemma WheelStepBalance(s: State, accepts: Channel, ev: Event)
    requires s.control.Some? && Tidy(s)
    ensures Plus(Plus(WheelSum(Step(s, accepts, ev).delivered), Pending(Step(s, accepts, ev))), WheelLost(s, ev))
         == Plus(Plus(WheelSum(s.delivered), Pending(s)), WheelInput(ev))
  {
    hide Step, Tidy, Line, Issued, Enqueued, InSync, Burnt, WheelSum, Breaks;
    StepFacts(s, accepts, ev);
  }

  /**
   * Wheel deltas balance in every run: what the channel took, plus what is pending, plus what a reset or a
   * throwing encoder dropped, is what was put in. Refusals lose nothing.
   */
  lemma {:induction false} WheelBalance(s: State, accepts: Channel, events: seq<Event>)
    requires s.control.Some? && Tidy(s)
    ensures var s' := After(s, accepts, events);
      Plus(Plus(WheelSum(s'.delivered), Pending(s')), WheelLoss(s, accepts, events))
      == Plus(Plus(WheelSum(s.delivered), Pending(s)), WheelTotal(events))
    decreases |events|
  {
    hide Step, Tidy, WheelSum, Pending, WheelLost, WheelInput;
    if events == [] {
    } else {
      var n := |events| - 1;
      WheelBalance(s, accepts, events[..n]);
      TidyRuns(s, accepts, events[..n]);
      WheelStepBalance(After(s, accepts, events[..n]), accepts, events[n]);
    }
  }

  /** No reset, and the encoder takes every accumulated delta it is given. */
  predicate EncoderNeverThrows(s: State, accepts: Channel, events: seq<Event>) {
    forall i :: 0 <= i < |events| ==>
      (events[i].WheelTimer? ==> var t := After(s, accepts, events[..i]); t.pendingWheel.Some? ==> BuiltBy(t, events[i]).Made?)
  }

  lemma {:induction false} NothingLost(s: State, accepts: Channel, events: seq<Event>)
    requires s.control.Some? && WithoutReset(events) && EncoderNeverThrows(s, accepts, events)
    ensures WheelLoss(s, accepts, events) == ZERO
    decreases |events|
  {
    hide Step, BuiltBy, EncoderNeverThrows, WithoutReset, After;
    if events == [] {
    } else {
      QuietPrefix(s, accepts, events);
      NothingLost(s, accepts, events[..|events| - 1]);
    }
  }

  lemma QuietPrefix(s: State, accepts: Channel, events: seq<Event>)
    requires events != [] && WithoutReset(events) && EncoderNeverThrows(s, accepts, events)
    ensures var init := events[..|events| - 1];
      && WithoutReset(init) && EncoderNeverThrows(s, accepts, init)
      && WheelLost(After(s, accepts, init), events[|events| - 1]) == ZERO
  {
    hide Step, BuiltBy, After;
    var n := |events| - 1;
    assert events[n] in events;
    assert forall i :: 0 <= i < n ==> events[..n][..i] == events[..i] && events[..n][i] == events[i];
  }

  lemma FreshBalance(sessionId: string)
    ensures Plus(WheelSum(Fresh(sessionId).delivered), Pending(Fresh(sessionId))) == ZERO
  {
  }

  /** With no reset and no throwing encoder, accepted plus pending deltas are the deltas put in. */
  lemma WheelConserved(sessionId: string, accepts: Channel, events: seq<Event>)
    requires WithoutReset(events) && EncoderNeverThrows(Fresh(sessionId), accepts, events)
    ensures var s' := After(Fresh(sessionId), accepts, events); Plus(WheelSum(s'.delivered), Pending(s')) == WheelTotal(events)
  {
    hide After, Step, EncoderNeverThrows, WheelTotal, WheelLoss, Tidy, InSync, Line, Issued, WheelSum, Pending;
    var s := Fresh(sessionId);
    FreshFacts(sessionId);
    WheelBalance(s, accepts, events);
    NothingLost(s, accepts, events);
    assert Plus(WheelSum(s.delivered), Pending(s)) == ZERO by { FreshBalance(sessionId); }
  }

  /** The integer deltas the receiver is given. */
  function ReceivedSum(d: seq<Delivery>): Vec {
    if d == [] then ZERO
    else
      Plus(ReceivedSum(d[..|d| - 1]),
           match (d[|d| - 1].kind, d[|d| - 1].message.body) {
             case (WheelKind(_), Wheel(_, _, dx, dy)) => Vec(dx as real, dy as real)
             case _ => ZERO
           })
  }

  function WheelCount(d: seq<Delivery>): nat {
    if d == [] then 0 else WheelCount(d[..|d| - 1]) + if d[|d| - 1].kind.WheelKind? then 1 else 0
  }

  lemma RoundError(r: real)
    ensures -0.5 < Round(r) as real - r <= 0.5
  {
  }

  lemma {:induction false} RoundingBound(d: seq<Delivery>)
    requires WheelFramesRounded(d)
    ensures var n := WheelCount(d) as real; var r, w := ReceivedSum(d), WheelSum(d);
      -n <= 2.0 * (r.x - w.x) <= n && -n <= 2.0 * (r.y - w.y) <= n
    decreases |d|
  {
    if d == [] {
    } else {
      var n := |d| - 1;
      RoundingBound(d[..n]);
      if d[n].kind.WheelKind? {
        RoundError(d[n].kind.delta.deltaX);
        RoundError(d[n].kind.delta.deltaY);
      }
    }
  }

  lemma {:induction false} WheelFramesRoundedRuns(s: State, accepts: Channel, events: seq<Event>)
    requires s.control.Some? && Tidy(s) && WheelFramesRounded(s.delivered)
    ensures WheelFramesRounded(After(s, accepts, events).delivered)
    decreases |events|
  {
    hide Step, Tidy, WheelFramesRounded, Line, Issued, Enqueued, InSync, Burnt, WheelSum, Breaks;
    if events == [] {
    } else {
      var init := events[..|events| - 1];
      WheelFramesRoundedRuns(s, accepts, init);
      TidyRuns(s, accepts, init);
      StepFacts(After(s, accepts, init), accepts, events[|events| - 1]);
    }
  }

  // ----- coalesced moves ----------------------------------------------------------------------------

  /** The body of the last move asked for. */
  function LastMove(events: seq<Event>): Option<Body>
    decreases |events|
  {
    if events == [] then None
    else
      match events[|events| - 1]
      case MoveSent(b) => Some(b)
      case _ => LastMove(events[..|events| - 1])
  }

  lemma {:induction false} DrainKeepsMove(s: State, accepts: Channel, ts: int)
    ensures Drain(s, accepts, ts).0.latestMove == s.latestMove
    decreases |s.urgent|
  {
    hide Schema, Encode;
    if s.urgent == [] {
    } else if Attempt(s, accepts, ts).1.Gone? {
      DrainKeepsMove(Attempt(s, accepts, ts).0, accepts, ts);
    }
  }

  lemma MoveAfter(s: State, accepts: Channel, ev: Event)
    ensures Step(s, accepts, ev).latestMove == (match ev
      case MoveSent(b) => Some(b)
      case MoveTimer(_) => None
      case FlushedNow(_) => None
      case WasReset => None
      case _ => s.latestMove)
  {
    hide Drain, Build, WheelBody;
    match ev
    case UrgentSent(b, ts) => DrainKeepsMove(s.(urgent := s.urgent + [Item(b, None)]), accepts, ts);
    case RetryTimer(ts) => DrainKeepsMove(s.(retryTimer := false), accepts, ts);
    case _ =>
  }

  /** Of all moves asked for only the latest is ever kept. */
  lemma {:induction false} OnlyLatestMove(sessionId: string, accepts: Channel, events: seq<Event>)
    ensures var m := After(Fresh(sessionId), accepts, events).latestMove; m.None? || m == LastMove(events)
    decreases |events|
  {
    hide Step;
    if events == [] {
    } else {
      var init := events[..|events| - 1];
      OnlyLatestMove(sessionId, accepts, init);
      MoveAfter(After(Fresh(sessionId), accepts, init), accepts, events[|events| - 1]);
    }
  }

  /** A flush that sends a move sends the last one asked for, whatever happened in between. */
  lemma FlushSendsLatestMove(sessionId: string, accepts: Channel, events: seq<Event>, ev: Event)
    requires ev.MoveTimer? || ev.FlushedNow?
    ensures var s, s' := After(Fresh(sessionId), accepts, events), After(Fresh(sessionId), accepts, events + [ev]);
      s'.delivered == s.delivered ||
      (exists d: Delivery :: d.kind.MoveKind? && Some(d.message.body) == LastMove(events) && s'.delivered == s.delivered + [d])
  {
    var s := After(Fresh(sessionId), accepts, events);
    assert (events + [ev])[..|events|] == events;
    OnlyLatestMove(sessionId, accepts, events);
    FreshFacts(sessionId);
    TidyRuns(Fresh(sessionId), accepts, events);
    FlushSends(s, accepts, ev);
  }

  lemma FlushSends(s: State, accepts: Channel, ev: Event)
    requires s.control.Some? && (ev.MoveTimer? || ev.FlushedNow?)
    ensures var s' := Step(s, accepts, ev);
      s'.delivered == s.delivered ||
      (exists d: Delivery :: d.kind.MoveKind? && Some(d.message.body) == s.latestMove && s'.delivered == s.delivered + [d])
  {
    hide Schema;
    if s.latestMove.Some? {
      var r := Build(s.control, s.latestMove.value, ev.ts);
      if r.Made? && accepts(s.attempts) {
        assert Step(s, accepts, ev).delivered == s.delivered + [Delivery(MoveKind, r.message)];
      }
    }
  }

  // ----- the statistics -----------------------------------------------------------------------------

  /** Accepted frames other than direct ones. */
  function QueuedCount(d: seq<Delivery>): nat {
    if d == [] then 0 else QueuedCount(d[..|d| - 1]) + if d[|d| - 1].kind.DirectKind? then 0 else 1
  }

  lemma OneMoreCounted(d: seq<Delivery>, x: Delivery)
    ensures QueuedCount(d + [x]) == QueuedCount(d) + if x.kind.DirectKind? then 0 else 1
  {
    assert (d + [x])[..|d|] == d;
  }

  predicate Counted(s: State) { s.sentFrames == QueuedCount(s.delivered) }

  lemma {:induction false} DrainCounts(s: State, accepts: Channel, ts: int)
    requires Counted(s)
    ensures Counted(Drain(s, accepts, ts).0)
    decreases |s.urgent|
  {
    hide Schema, Encode, QueuedCount;
    if s.urgent == [] {
    } else {
      var (s1, o) := Attempt(s, accepts, ts);
      var r := EncodeHead(s, ts);
      if r.Made? {
        OneMoreCounted(s.delivered, Delivery(UrgentKind, r.message));
      }
      assert Counted(s1);
      if o.Gone? {
        DrainCounts(s1, accepts, ts);
      }
    }
  }

  lemma StepCounts(s: State, accepts: Channel, ev: Event)
    requires Counted(s)
    ensures Counted(Step(s, accepts, ev))
  {
    hide Drain, Build, WheelBody, QueuedCount;
    match ev
    case UrgentSent(b, ts) => DrainCounts(s.(urgent := s.urgent + [Item(b, None)]), accepts, ts);
    case RetryTimer(ts) => DrainCounts(s.(retryTimer := false), accepts, ts);
    case MoveTimer(_) => CountMore(s, MoveKind, BuiltBy(s, ev));
    case FlushedNow(_) => CountMore(s, MoveKind, BuiltBy(s, ev));
    case WheelTimer(_) => if s.pendingWheel.Some? { CountMore(s, WheelKind(s.pendingWheel.value), BuiltBy(s, ev)); }
    case DirectSent(_, _) => CountMore(s, DirectKind, BuiltBy(s, ev));
    case _ =>
  }

  lemma CountMore(s: State, kind: Kind, r: BuildResult)
    ensures r.Made? ==>
      QueuedCount(s.delivered + [Delivery(kind, r.message)]) == QueuedCount(s.delivered) + if kind.DirectKind? then 0 else 1
  {
    if r.Made? {
      OneMoreCounted(s.delivered, Delivery(kind, r.message));
    }
  }

  /** The count of sent frames is the number of moves, wheel deltas and urgent frames the channel accepted. */
  lemma {:induction false} SentIsExact(sessionId: string, accepts: Channel, events: seq<Event>)
    ensures Counted(After(Fresh(sessionId), accepts, events))
    decreases |events|
  {
    hide Step, Counted;
    if events == [] {
      FreshCounted(sessionId);
    } else {
      var init := events[..|events| - 1];
      SentIsExact(sessionId, accepts, init);
      StepCounts(After(Fresh(sessionId), accepts, init), accepts, events[|events| - 1]);
    }
  }

  lemma FreshCounted(sessionId: string)
    ensures Counted(Fresh(sessionId))
  {
  }
}
