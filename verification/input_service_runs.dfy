/**
 * What every run of the input service keeps: an adapter call comes from one
 * frame, exactly next in its session, behind all gates; and what the phone
 * queued is what the adapter is asked to do, in order.
 */
module InputServiceRuns {
  import opened Basics
  import opened Control
  import opened InputServiceSpec
  import S = InputSenderSpec
  import R = InputSenderRuns
  import T = TwoQueues

  // ----- the invariant ---------------------------------------------------------------

  /** The frames accepted in this arming carry the numbers 1 to the guard's last, in order. */
  predicate GuardCounts(l: Ledger) {
    && (l.service.guard.Some? <==> l.service.sessionId.Some?)
    && (l.service.guard.Some? ==>
        && |l.accepted| == l.service.guard.value
        && forall i :: 0 <= i < |l.accepted| ==> l.accepted[i].seqNo == i + 1 && Some(l.accepted[i].sessionId) == l.service.sessionId)
  }

  predicate Before(a: Call, b: Call) {
    a.arming < b.arming || (a.arming == b.arming && a.message.seqNo < b.message.seqNo)
  }

  /** No frame acts twice, and calls come in the order of their frames. */
  predicate CallsOrdered(l: Ledger) {
    && (forall i, j :: 0 <= i < j < |l.calls| ==> Before(l.calls[i], l.calls[j]))
    && (forall i :: 0 <= i < |l.calls| ==> l.calls[i].arming <= l.armings && IsInput(l.calls[i].message.body))
    && (l.service.guard.Some? ==>
        forall i :: 0 <= i < |l.calls| && l.calls[i].arming == l.armings ==> l.calls[i].message in l.accepted)
  }

  /** Laptop frames are numbered 1, 2, 3 and so on over the life of the service, across sessions. */
  predicate LaptopNumbered(l: Ledger) {
    |l.sent| == l.service.laptopSeq && forall i :: 0 <= i < |l.sent| ==> l.sent[i].seqNo == i + 1
  }

  predicate Inv(l: Ledger) { GuardCounts(l) && CallsOrdered(l) && LaptopNumbered(l) }

  lemma AcceptedFrame(raw: Raw, last: nat, id: string)
    ensures var (next, p) := AcceptControlFrame(raw, last, id);
      && (p.Ok? ==> raw.content == Some(p.message) && next == last + 1 == p.message.seqNo && p.message.sessionId == id && Schema(p.message))
      && (p.Err? ==> next == last)
  {
    hide Schema;
  }

  /** When a frame calls the adapter, and what became of the guard. */
  lemma HandledFrame(s: Service, id: string, raw: Raw, phase: string, target: Option<int>)
    ensures var (s', o) := HandleFrame(s, id, raw, phase, target);
      && s' == s.(guard := s'.guard)
      && (s'.guard != s.guard ==>
          && s.guard.Some? && s.sessionId == Some(id) && raw.content.Some?
          && raw.content.value.seqNo == s.guard.value + 1 && raw.content.value.sessionId == id
          && s'.guard == Some(s.guard.value + 1))
      && (o.Acts? ==>
          && s'.guard != s.guard && raw.content == Some(o.message) && IsInput(o.message.body)
          && phase == REMOTE_ACTIVE && target.Some? && s.attached)
  {
    hide Schema, AcceptControlFrame;
    if s.guard.Some? {
      AcceptedFrame(raw, s.guard.value, id);
    }
  }

  lemma StepKeepsInv(l: Ledger, ev: Event)
    requires Inv(l)
    ensures Inv(Step(l, ev))
  {
    hide HandleFrame;
    match ev
    case FrameCame(id, raw, phase, target) =>
      HandledFrame(l.service, id, raw, phase, target);
      FrameKeepsInv(l, id, raw, phase, target);
    case _ =>
  }

  lemma FrameKeepsInv(l: Ledger, id: string, raw: Raw, phase: string, target: Option<int>)
    requires Inv(l)
    ensures Inv(Step(l, FrameCame(id, raw, phase, target)))
  {
    hide HandleFrame, IsInput;
    HandledFrame(l.service, id, raw, phase, target);
    var l' := Step(l, FrameCame(id, raw, phase, target));
    if l'.service.guard != l.service.guard {
      assert forall i :: 0 <= i < |l.accepted| ==> l'.accepted[i] == l.accepted[i];
      assert raw.content.value == l'.accepted[|l.accepted|];
    }
  }

  lemma {:induction false} RunKeepsInv(events: seq<Event>)
    ensures Inv(After(EMPTY, events))
    decreases |events|
  {
    hide Step;
    if events == [] {
      EmptyInv();
    } else {
      RunKeepsInv(events[..|events| - 1]);
      StepKeepsInv(After(EMPTY, events[..|events| - 1]), events[|events| - 1]);
    }
  }

  lemma EmptyInv()
    ensures Inv(EMPTY)
  {
  }

  // ----- the gates -----------------------------------------------------------------------

  /** A frame that acts: current session, exactly next, remote-active, a target, attached. */
  predicate MayAct(s: Service, ev: Event, m: Message) {
    && ev.FrameCame? && ev.raw.bytes <= MAX_CONTROL_FRAME_BYTES && ev.raw.content == Some(m) && Schema(m) && IsInput(m.body)
    && s.sessionId == Some(ev.sessionId) && m.sessionId == ev.sessionId
    && s.guard.Some? && m.seqNo == s.guard.value + 1
    && ev.phase == REMOTE_ACTIVE && ev.target.Some? && s.attached
  }

  /** The adapter is called for a frame exactly when it may act, and an event calls the adapter at most once. */
  lemma ActsExactly(l: Ledger, ev: Event)
    ensures var l' := Step(l, ev);
      && (l'.calls == l.calls || (ev.FrameCame? && ev.raw.content.Some? && l'.calls == l.calls + [Call(l.armings, ev.raw.content.value)]))
      && (l'.calls != l.calls <==> ev.FrameCame? && ev.raw.content.Some? && MayAct(l.service, ev, ev.raw.content.value))
  {
    hide ValidBody;
    if ev.FrameCame? {
      var o := HandleFrame(l.service, ev.sessionId, ev.raw, ev.phase, ev.target).1;
      if o.Acts? {
        assert Step(l, ev).calls == l.calls + [Call(l.armings, o.message)];
        assert |Step(l, ev).calls| == |l.calls| + 1;
      }
    }
  }

  predicate CallComesFrom(events: seq<Event>, i: nat, c: Call)
    requires i < |events|
  {
    MayAct(After(EMPTY, events[..i]).service, events[i], c.message) && After(EMPTY, events[..i]).armings == c.arming
  }

  /** Every adapter call of a run goes back to one event that may act, in the state that event met. */
  lemma {:induction false} CallsAreGated(events: seq<Event>, k: nat)
    requires k < |After(EMPTY, events).calls|
    ensures exists i :: 0 <= i < |events| && CallComesFrom(events, i, After(EMPTY, events).calls[k])
    decreases |events|
  {
    hide Step, MayAct;
    if events == [] {
    } else {
      var n := |events| - 1;
      var before := After(EMPTY, events[..n]);
      ActsExactly(before, events[n]);
      if k < |before.calls| {
        CallsAreGated(events[..n], k);
        var i: nat :| i < n && CallComesFrom(events[..n], i, before.calls[k]);
        assert events[..n][..i] == events[..i] && events[..n][i] == events[i];
        assert CallComesFrom(events, i, After(EMPTY, events).calls[k]);
      } else {
        assert CallComesFrom(events, n, After(EMPTY, events).calls[k]);
      }
    }
  }

  /** No frame acts twice in a run: calls are strictly ordered by arming and number. */
  lemma NoFrameActsTwice(events: seq<Event>, i: nat, j: nat)
    requires i < j < |After(EMPTY, events).calls|
    ensures Before(After(EMPTY, events).calls[i], After(EMPTY, events).calls[j])
  {
    hide After;
    RunKeepsInv(events);
  }

  /** How many frames the guard let through since the last arming, whatever the later gates said. */
  function AcceptedSince(events: seq<Event>): nat
    decreases |events|
  {
    if events == [] then 0
    else
      var init, ev := events[..|events| - 1], events[|events| - 1];
      match ev
      case Began(_) => 0
      case FrameCame(id, raw, phase, target) =>
        AcceptedSince(init) + if HandleFrame(After(EMPTY, init).service, id, raw, phase, target).0 != After(EMPTY, init).service then 1 else 0
      case _ => AcceptedSince(init)
  }

  /** While armed, the guard's last number is the number of frames accepted since, those refused for phase included. */
  lemma {:induction false} GuardCountsAccepted(events: seq<Event>)
    ensures var s := After(EMPTY, events).service; s.guard.Some? ==> s.guard.value == AcceptedSince(events)
    decreases |events|
  {
    hide HandleFrame;
    if events == [] {
    } else {
      var init, ev := events[..|events| - 1], events[|events| - 1];
      GuardCountsAccepted(init);
      if ev.FrameCame? {
        HandledFrame(After(EMPTY, init).service, ev.sessionId, ev.raw, ev.phase, ev.target);
      }
    }
  }

  // ----- from the phone's queue to the adapter --------------------------------------------

  function Arrivals(sessionId: string, frames: seq<Message>, target: int): seq<Event> {
    seq(|frames|, i requires 0 <= i < |frames| => FrameCame(sessionId, Wire(frames[i]), REMOTE_ACTIVE, Some(target)))
  }

  function CallsFor(arming: nat, frames: seq<Message>): seq<Call>
    decreases |frames|
  {
    if frames == [] then []
    else
      CallsFor(arming, frames[..|frames| - 1]) +
      if IsInput(frames[|frames| - 1].body) then [Call(arming, frames[|frames| - 1])] else []
  }

  predicate NextInLine(s: Service, frames: seq<Message>) {
    && s.guard.Some? && s.sessionId.Some? && s.attached
    && forall i :: 0 <= i < |frames| ==>
         Schema(frames[i]) && frames[i].sessionId == s.sessionId.value && frames[i].seqNo == s.guard.value + 1 + i
  }

  /** An attached service acts on a gapless stretch of frames once each, in order, and nothing else. */
  lemma {:induction false} FramesActInOrder(l: Ledger, frames: seq<Message>, target: int)
    requires l.service.guard.Some? && l.service.sessionId.Some? && NextInLine(l.service, frames)
    ensures var l' := After(l, Arrivals(l.service.sessionId.value, frames, target));
      && l'.calls == l.calls + CallsFor(l.armings, frames)
      && l'.service == l.service.(guard := Some(l.service.guard.value + |frames|)) && l'.armings == l.armings
    decreases |frames|
  {
    hide Schema, Step, IsInput, NextInLine, Arrivals, Wire;
    LineFacts(l.service, frames);
    var id := l.service.sessionId.value;
    var events := Arrivals(id, frames, target);
    ArrivalsLast(id, frames, target);
    if frames == [] {
      assert l.calls + [] == l.calls;
    } else {
      var n := |frames| - 1;
      FramesActInOrder(l, frames[..n], target);
      var mid := After(l, events[..n]);
      assert mid.service == l.service.(guard := Some(l.service.guard.value + n));
      OneActs(mid, frames[n], target);
      assert After(l, events) == Step(mid, events[n]);
    }
  }

  lemma LineFacts(s: Service, frames: seq<Message>)
    requires NextInLine(s, frames)
    ensures s.guard.Some? && s.sessionId.Some?
    ensures frames != [] ==>
      NextInLine(s, frames[..|frames| - 1]) && NextInLine(s.(guard := Some(s.guard.value + |frames| - 1)), [frames[|frames| - 1]])
  {
    hide Schema;
  }

  lemma ArrivalsLast(id: string, frames: seq<Message>, target: int)
    ensures var events := Arrivals(id, frames, target);
      && |events| == |frames|
      && (frames != [] ==>
          && events[..|frames| - 1] == Arrivals(id, frames[..|frames| - 1], target)
          && events[|frames| - 1] == FrameCame(id, Wire(frames[|frames| - 1]), REMOTE_ACTIVE, Some(target)))
  {
  }

  lemma OneActs(l: Ledger, m: Message, target: int)
    requires l.service.guard.Some? && l.service.sessionId.Some? && NextInLine(l.service, [m])
    ensures var l' := Step(l, FrameCame(l.service.sessionId.value, Wire(m), REMOTE_ACTIVE, Some(target)));
      && l'.calls == l.calls + (if IsInput(m.body) then [Call(l.armings, m)] else [])
      && l'.service == l.service.(guard := Some(l.service.guard.value + 1)) && l'.armings == l.armings
  {
    hide Schema, AcceptControlFrame, Wire;
    assert [m][0] == m;
    WireAccepted(m, l.service.guard.value);
  }

  /** A frame in its schema passes the receiver's checks when its number is next. */
  lemma WireAccepted(m: Message, last: nat)
    requires Schema(m) && m.seqNo == last + 1
    ensures AcceptControlFrame(Wire(m), last, m.sessionId) == (m.seqNo, Ok(m)) && Wire(m).content == Some(m)
  {
    ValidFrameFits(m);
    SafeNumber(m);
    hide Schema, FrameBytes;
  }

  lemma SafeNumber(m: Message)
    requires Schema(m)
    ensures 1 <= m.seqNo <= MAX_SAFE_INTEGER
  {
  }

  function Frames(d: seq<S.Delivery>): seq<Message> { seq(|d|, i requires 0 <= i < |d| => d[i].message) }

  /** The laptop is armed for the phone's session, attached, and has accepted all the channel took so far. */
  predicate CaughtUp(l: Ledger, s: S.State) {
    && s.control.Some? && l.service.attached
    && l.service.guard == Some(|s.delivered|) && l.service.sessionId == Some(s.control.value.sessionId)
  }

  /** The frames the channel took in a run. */
  function NewFrames(s: S.State, accepts: S.Channel, events: seq<S.Event>): seq<Message> {
    var d := R.After(s, accepts, events).delivered;
    if |s.delivered| <= |d| then Frames(d[|s.delivered|..]) else []
  }

  /** A stretch of consecutive deliveries acts once each and in order at a laptop that has accepted what came before. */
  lemma DeliveredActs(d: seq<S.Delivery>, k: nat, sessionId: string, l: Ledger, target: int)
    requires k <= |d| && R.Consecutive(d)
    requires forall i :: 0 <= i < |d| ==> Schema(d[i].message) && d[i].message.sessionId == sessionId
    requires l.service.attached && l.service.guard == Some(k) && l.service.sessionId == Some(sessionId)
    ensures After(l, Arrivals(sessionId, Frames(d[k..]), target)).calls == l.calls + CallsFor(l.armings, Frames(d[k..]))
  {
    hide Schema, After;
    var frames := Frames(d[k..]);
    assert forall i :: 0 <= i < |frames| ==> frames[i] == d[k + i].message;
    assert NextInLine(l.service, frames);
    FramesActInOrder(l, frames, target);
  }

  lemma TidyFrames(s: S.State)
    requires s.control.Some? && R.Tidy(s)
    ensures forall i :: 0 <= i < |s.delivered| ==>
      Schema(s.delivered[i].message) && s.delivered[i].message.sessionId == s.control.value.sessionId
  {
    hide Schema;
  }

  /**
   * From the phone to the adapter: as long as no event on the phone breaks its numbering, every input frame its
   * channel takes acts on the tab, once each and in the order it was sent.
   */
  lemma PhoneInputActs(s: S.State, accepts: S.Channel, events: seq<S.Event>, l: Ledger, target: int)
    requires s.control.Some? && R.Tidy(s) && R.InSync(s) && !R.RunBreaks(s, accepts, events) && CaughtUp(l, s)
    ensures var frames := NewFrames(s, accepts, events);
      After(l, Arrivals(s.control.value.sessionId, frames, target)).calls == l.calls + CallsFor(l.armings, frames)
  {
    hide R.RunBreaks, R.After, R.Tidy, Schema, After, CallsFor, Arrivals, Frames;
    R.InSyncExactly(s, accepts, events);
    R.TidyRuns(s, accepts, events);
    R.DeliveredGrows(s, accepts, events);
    TidyFrames(R.After(s, accepts, events));
    DeliveredActs(R.After(s, accepts, events).delivered, |s.delivered|, s.control.value.sessionId, l, target);
  }

  /** The frames the channel took from the two queues in a run, as the keyboard's queue sees them. */
  function NewPairFrames(p: T.Pair, accepts: S.Channel, turns: seq<T.Turn>): seq<Message> {
    var d := T.PairAfter(p, accepts, turns).keys.delivered;
    if |p.keys.delivered| <= |d| then Frames(d[|p.keys.delivered|..]) else []
  }

  /** The same for the two queues of the viewer: while neither breaks the numbering, every input frame of both acts, in order. */
  lemma PairInputActs(p: T.Pair, accepts: S.Channel, turns: seq<T.Turn>, l: Ledger, target: int)
    requires T.PairTidy(p) && p.touch.control.Some? && T.PairInStep(p) && !T.PairRunBreaks(p, accepts, turns) && CaughtUp(l, p.keys)
    ensures p.keys.control.Some?
    ensures var frames := NewPairFrames(p, accepts, turns);
      After(l, Arrivals(p.keys.control.value.sessionId, frames, target)).calls == l.calls + CallsFor(l.armings, frames)
  {
    hide T.PairRunBreaks, T.PairAfter, T.PairStep, T.Beside, T.SameMessages, R.Tidy, Schema, After, CallsFor, Arrivals, Frames;
    T.TwoQueuesInStepExactly(p, accepts, turns);
    T.PairRuns(p, accepts, turns);
    T.BesideControl(p.touch, p.keys);
    var q := T.PairAfter(p, accepts, turns);
    T.BesideMessages(q.touch, q.keys);
    T.BesideSymmetric(q.touch, q.keys);
    T.BesideHolds(q.keys, q.touch);
    T.InStepEitherWay(q.touch, q.keys);
    TidyFrames(q.keys);
    DeliveredActs(q.keys.delivered, |p.keys.delivered|, p.keys.control.value.sessionId, l, target);
  }
}
