/**
 * A tap end to end: the finger lifts on the phone, and the laptop's adapter is
 * asked to press and then release at the place of the page it points at.
 */
module TapToPage {
  import opened Basics
  import opened Control
  import S = InputSenderSpec
  import R = InputSenderRuns
  import B = TouchBridge
  import U = TouchBridgeRuns
  import G = Gesture
  import V = VideoRect
  import L = InputServiceSpec
  import I = InputServiceRuns

  /** A live sender in step with its receiver, with nothing urgent waiting and a channel that accepts from now on. */
  ghost predicate Ready(s: S.State, accepts: S.Channel, more: nat) {
    && s.control.Some? && R.Tidy(s) && R.InSync(s) && s.urgent == []
    && (forall k: nat :: k >= s.attempts ==> accepts(k))
    && ValidId(s.control.value.sessionId) && s.control.value.lastNo + more <= MAX_SAFE_INTEGER
  }

  predicate GoodTime(ts: int) { 1 <= ts <= MAX_SAFE_INTEGER }

  function NextMessage(s: S.State, b: Body, ts: int): Message
    requires s.control.Some?
  {
    Message(s.control.value.sessionId, s.control.value.lastNo + 1, ts, b)
  }

  /** One urgent body goes out at once, under the next number. */
  lemma SendsNow(s: S.State, accepts: S.Channel, b: Body, ts: int, more: nat)
    requires Ready(s, accepts, more + 1) && ValidBody(b) && GoodTime(ts)
    ensures var s' := S.Step(s, accepts, S.UrgentSent(b, ts));
      && Ready(s', accepts, more)
      && s'.delivered == s.delivered + [S.Delivery(S.UrgentKind, NextMessage(s, b, ts))]
      && s'.control.value.sessionId == s.control.value.sessionId
  {
    var m := NextMessage(s, b, ts);
    assert Schema(m);
    R.SyncStep(s, accepts, S.UrgentSent(b, ts));
    R.StepFacts(s, accepts, S.UrgentSent(b, ts));
    hide R.Tidy, R.InSync, ValidBody, Schema;
    var q := s.(urgent := s.urgent + [S.Item(b, None)]);
    assert q.urgent == [S.Item(b, None)];
    assert S.Build(q.control, b, ts) == S.Made(q.control.value.(lastNo := q.control.value.lastNo + 1), m);
    DrainsOne(q, accepts, ts, m);
  }

  lemma DrainsOne(q: S.State, accepts: S.Channel, ts: int, m: Message)
    requires q.control.Some? && |q.urgent| == 1 && q.urgent[0].encoded.None? && accepts(q.attempts)
    requires S.Build(q.control, q.urgent[0].body, ts) == S.Made(q.control.value.(lastNo := q.control.value.lastNo + 1), m)
    ensures S.Drain(q, accepts, ts) ==
      (q.(control := Some(q.control.value.(lastNo := q.control.value.lastNo + 1)), urgent := [], attempts := q.attempts + 1,
          sentFrames := q.sentFrames + 1, delivered := q.delivered + [S.Delivery(S.UrgentKind, m)]), false)
  {
    hide S.Build;
    var q' := S.Attempt(q, accepts, ts).0;
    assert q'.urgent == [];
    assert S.Drain(q', accepts, ts) == (q', false);
  }

  /** The flush before a click sends at most the one pending move. */
  lemma FlushesFirst(s: S.State, accepts: S.Channel, ts: int, more: nat)
    requires Ready(s, accepts, more + 1)
    ensures var s' := S.Step(s, accepts, S.FlushedNow(ts));
      && Ready(s', accepts, more)
      && s'.control.value.sessionId == s.control.value.sessionId
      && (s'.delivered == s.delivered
          || exists m: Message :: s.latestMove == Some(m.body) && s'.delivered == s.delivered + [S.Delivery(S.MoveKind, m)])
  {
    R.SyncStep(s, accepts, S.FlushedNow(ts));
    R.StepFacts(s, accepts, S.FlushedNow(ts));
    hide R.Tidy, R.InSync, Schema;
    if s.latestMove.Some? {
      var r := S.Build(s.control, s.latestMove.value, ts);
      if r.Made? {
        assert S.Step(s, accepts, S.FlushedNow(ts)).delivered == s.delivered + [S.Delivery(S.MoveKind, r.message)];
      }
    }
  }

  /** The two frames of a click. */
  function Press(p: G.TouchPoint, n: int): Body { PointerDown(Coord(p.x, 25), Coord(p.y, 25), LeftButton, n) }

  function Release(p: G.TouchPoint, n: int): Body { PointerUp(Coord(p.x, 25), Coord(p.y, 25), LeftButton, n) }

  /** What the channel takes of a tap: perhaps the pending move, then press and release. */
  ghost predicate ClickFrames(frames: seq<Message>, move: Option<Body>, p: G.TouchPoint, n: int) {
    && 2 <= |frames| <= 3
    && frames[|frames| - 2].body == Press(p, n) && frames[|frames| - 1].body == Release(p, n)
    && (|frames| == 3 ==> move == Some(frames[0].body))
  }

  lemma TapSends(s: S.State, accepts: S.Channel, p: G.TouchPoint, n: int, scale: real, ts: int)
    requires Ready(s, accepts, 3) && U.InUnit(p) && 1 <= n <= 2 && GoodTime(ts)
    ensures var events := B.Sends(G.Tap(p, n), scale, ts);
      && R.After(s, accepts, events).control.Some? && R.InSync(R.After(s, accepts, events))
      && ClickFrames(I.NewFrames(s, accepts, events), s.latestMove, p, n)
  {
    hide R.Tidy, R.InSync, S.Step, R.After;
    var events := B.Sends(G.Tap(p, n), scale, ts);
    assert events == [S.FlushedNow(ts), S.UrgentSent(Press(p, n), ts), S.UrgentSent(Release(p, n), ts)];
    B.ThreeEvents(s, accepts, events);
    FlushesFirst(s, accepts, ts, 2);
    var s1 := S.Step(s, accepts, S.FlushedNow(ts));
    SendsNow(s1, accepts, Press(p, n), ts, 1);
    var s2 := S.Step(s1, accepts, S.UrgentSent(Press(p, n), ts));
    SendsNow(s2, accepts, Release(p, n), ts, 0);
    var d := R.After(s, accepts, events).delivered;
    assert d == s1.delivered + [S.Delivery(S.UrgentKind, NextMessage(s1, Press(p, n), ts)), S.Delivery(S.UrgentKind, NextMessage(s2, Release(p, n), ts))];
    var frames := I.NewFrames(s, accepts, events);
    assert forall i :: 0 <= i < |frames| ==> frames[i] == d[|s.delivered| + i].message;
  }

  lemma {:induction false} CallsForAll(arming: nat, frames: seq<Message>)
    requires forall i :: 0 <= i < |frames| ==> L.IsInput(frames[i].body)
    ensures var calls := I.CallsFor(arming, frames);
      |calls| == |frames| && forall i :: 0 <= i < |frames| ==> calls[i] == L.Call(arming, frames[i])
    decreases |frames|
  {
    if frames == [] {
    } else {
      CallsForAll(arming, frames[..|frames| - 1]);
    }
  }

  /** At a laptop that has kept up, the adapter is asked for the pending move, if any, then to press and to release. */
  ghost predicate Clicks(before: seq<L.Call>, after: seq<L.Call>, move: Option<Body>, p: G.TouchPoint, n: int) {
    var k := |before|;
    && k + 2 <= |after| <= k + 3 && after[..k] == before
    && after[|after| - 2].message.body == Press(p, n) && after[|after| - 1].message.body == Release(p, n)
    && (|after| == k + 3 ==> move == Some(after[k].message.body))
  }

  lemma TapReachesTheTab(s: S.State, accepts: S.Channel, p: G.TouchPoint, n: int, scale: real, ts: int, l: L.Ledger, target: int)
    requires Ready(s, accepts, 3) && U.InUnit(p) && 1 <= n <= 2 && GoodTime(ts) && I.CaughtUp(l, s)
    requires s.latestMove.Some? ==> s.latestMove.value.PointerMove?
    ensures var frames := I.NewFrames(s, accepts, B.Sends(G.Tap(p, n), scale, ts));
      Clicks(l.calls, L.After(l, I.Arrivals(s.control.value.sessionId, frames, target)).calls, s.latestMove, p, n)
  {
    hide R.Tidy, R.InSync, R.After, R.RunBreaks, L.After, I.Arrivals, I.NewFrames, B.Sends;
    var events := B.Sends(G.Tap(p, n), scale, ts);
    TapSends(s, accepts, p, n, scale, ts);
    R.InSyncExactly(s, accepts, events);
    I.PhoneInputActs(s, accepts, events, l, target);
    var frames := I.NewFrames(s, accepts, events);
    forall i | 0 <= i < |frames| ensures L.IsInput(frames[i].body) {
    }
    CallsForAll(l.armings, frames);
  }

  /** The finger on the glass has been down for at most 300 ms, has not dragged, and lifts within 10 units on the video. */
  predicate IsTapAt(b: B.Bridge, client: Vec, t: real, element: V.Size, video: V.Size) {
    && b.active && b.classifier.mode.PointerMode? && b.classifier.downPoint.Some? && !b.classifier.dragged
    && V.NormalizePoint(client, element, video).Some?
    && (var n := V.NormalizePoint(client, element, video).value;
        var down := b.classifier.downPoint.value;
        t - down.t <= 300.0 && G.Within(down, G.TouchPoint(n.x, n.y, t), 10.0))
  }

  /**
   * A tap at a point of the glass becomes a press and then a release of the left button, in this order and at one
   * place of the page: the place the finger points at, a hundredth of a pixel off at most.
   */
  lemma TapClicksWhereTouched(b: B.Bridge, scale: real, client: Vec, t: real, element: V.Size, video: V.Size, page: V.Size,
                              s: S.State, accepts: S.Channel, ts: int, l: L.Ledger, target: int) returns (p: G.TouchPoint, n: int)
    requires IsTapAt(b, client, t, element, video) && V.Positive(page)
    requires Ready(s, accepts, 3) && GoodTime(ts) && I.CaughtUp(l, s)
    requires s.latestMove.Some? ==> s.latestMove.value.PointerMove?
    ensures 1 <= n <= 2
    ensures var events := B.Step(b, scale, B.Lifted(B.ClientToVideo(client, t, element, video)), ts).1;
      var frames := I.NewFrames(s, accepts, events);
      Clicks(l.calls, L.After(l, I.Arrivals(s.control.value.sessionId, frames, target)).calls, s.latestMove, p, n)
    ensures V.ContentRect(element, video).Some? && V.ContentRect(element, video).value.width > 0.0 && V.ContentRect(element, video).value.height > 0.0
    ensures var aimed, css := V.Aimed(client, V.ContentRect(element, video).value, page), V.Denormalize(Vec(p.x, p.y), page);
      && 0.0 <= aimed.x - V.ClampCss(css.x, page.width) <= 0.01
      && 0.0 <= aimed.y - V.ClampCss(css.y, page.height) <= 0.01
  {
    hide V.NormalizePoint, V.ContentRect, G.Within, V.Aimed, V.ClampCss, V.Denormalize, Ready, I.CaughtUp, L.After, I.Arrivals, I.NewFrames;
    V.ContentRectFits(element, video);
    V.TouchLandsOnThePage(client, element, video, page);
    U.BridgePointsAreUnit(client, t, element, video);
    var v := V.NormalizePoint(client, element, video).value;
    p := G.TouchPoint(v.x, v.y, t);
    n := TapCounts(b, scale, p, ts);
    TapReachesTheTab(s, accepts, p, n, scale, ts, l, target);
  }

  lemma TapCounts(b: B.Bridge, scale: real, p: G.TouchPoint, ts: int) returns (n: int)
    requires b.active && b.classifier.mode.PointerMode? && b.classifier.downPoint.Some? && !b.classifier.dragged
    requires p.t - b.classifier.downPoint.value.t <= 300.0 && G.Within(b.classifier.downPoint.value, p, 10.0)
    ensures 1 <= n <= 2 && B.Step(b, scale, B.Lifted(Some(p)), ts).1 == B.Sends(G.Tap(p, n), scale, ts)
  {
    hide G.Within, B.Sends;
    n := if G.IsDoubleTap(b.classifier, p) then 2 else 1;
  }
}
