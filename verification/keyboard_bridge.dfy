/**
 * Typed text end to end: split into chunks on the phone, queued, numbered,
 * accepted and inserted on the laptop.
 */
module KeyboardBridge {
  import opened Basics
  import opened Control
  import opened Utf16Text
  import S = InputSenderSpec
  import R = InputSenderRuns
  import T = TwoQueues
  import B = TouchBridge
  import G = Gesture
  import L = InputServiceSpec
  import I = InputServiceRuns

  const CHUNK := 500

  /** What sending a text enqueues. */
  function TextBodies(chunks: seq<Text>): seq<Body> { seq(|chunks|, i requires 0 <= i < |chunks| => TextInsert(chunks[i])) }

  /** Every chunk of a well-formed text passes its schema, so typed text never blocks the queue. */
  lemma TypedTextIsValid(t: Text)
    requires WellFormed(t)
    ensures forall b :: b in TextBodies(SplitSpec(t, CHUNK)) ==> ValidBody(b)
  {
    hide WellFormed;
    ChunksCover(t, 0, CHUNK);
    ChunksWellFormedExactly(t, CHUNK);
    assert forall c :: c in SplitSpec(t, CHUNK) ==> 0 < |c| <= CHUNK && WellFormed(c);
  }

  // ----- urgent traffic delivers urgent frames only -----------------------------------

  predicate UrgentFrom(d: seq<S.Delivery>, k: nat) { forall i :: k <= i < |d| ==> d[i].kind.UrgentKind? }

  lemma {:induction false} DrainStaysUrgent(s: S.State, accepts: S.Channel, ts: int, k: nat)
    requires UrgentFrom(s.delivered, k)
    ensures UrgentFrom(S.Drain(s, accepts, ts).0.delivered, k)
    decreases |s.urgent|
  {
    hide Schema, Encode;
    if s.urgent == [] {
    } else if S.Attempt(s, accepts, ts).1.Gone? {
      DrainStaysUrgent(S.Attempt(s, accepts, ts).0, accepts, ts, k);
    }
  }

  lemma StepStaysUrgent(s: S.State, accepts: S.Channel, ev: S.Event, k: nat)
    requires UrgentFrom(s.delivered, k) && s.latestMove.None?
    requires ev.UrgentSent? || ev.RetryTimer? || ev.FlushedNow? || ev.Disposed?
    ensures UrgentFrom(S.Step(s, accepts, ev).delivered, k)
  {
    hide S.Drain;
    if ev.UrgentSent? {
      DrainStaysUrgent(s.(urgent := s.urgent + [S.Item(ev.body, None)]), accepts, ev.ts, k);
    } else if ev.RetryTimer? {
      DrainStaysUrgent(s.(retryTimer := false), accepts, ev.ts, k);
    }
  }

  lemma {:induction false} RunStaysUrgent(s: S.State, accepts: S.Channel, events: seq<S.Event>)
    requires s.control.Some? && R.Tidy(s) && s.latestMove.None? && R.UrgentOnly(events)
    ensures UrgentFrom(R.After(s, accepts, events).delivered, |s.delivered|)
    decreases |events|
  {
    hide S.Step, R.Tidy;
    if events == [] {
    } else {
      var n := |events| - 1;
      RunStaysUrgent(s, accepts, events[..n]);
      R.UrgentNeverBreaks(s, accepts, events[..n]);
      StepStaysUrgent(R.After(s, accepts, events[..n]), accepts, events[n], |s.delivered|);
    }
  }

  lemma {:induction false} UrgentFramesFrom(d: seq<S.Delivery>, k: nat)
    requires k <= |d| && UrgentFrom(d, k)
    ensures R.UrgentFrames(d) == R.UrgentFrames(d[..k]) + I.Frames(d[k..])
    decreases |d|
  {
    var n := |d| - 1;
    if k == |d| {
      assert d[..k] == d;
    } else {
      UrgentFramesFrom(d[..n], k);
      assert d[..n][..k] == d[..k];
      assert I.Frames(d[k..]) == I.Frames(d[..n][k..]) + [d[n].message];
    }
  }

  // ----- the text the tab is given --------------------------------------------------------

  /** The text of the `insertText` calls, joined. */
  function Inserted(calls: seq<L.Call>): Text
    decreases |calls|
  {
    if calls == [] then []
    else
      Inserted(calls[..|calls| - 1]) +
      match calls[|calls| - 1].message.body { case TextInsert(t) => t case _ => [] }
  }

  lemma {:induction false} InsertedAppend(a: seq<L.Call>, b: seq<L.Call>)
    ensures Inserted(a + b) == Inserted(a) + Inserted(b)
    decreases |b|
  {
    if b == [] {
      assert a + b == a;
    } else {
      InsertedAppend(a, b[..|b| - 1]);
      assert (a + b)[..|a + b| - 1] == a + b[..|b| - 1];
    }
  }

  lemma SingleChunk(c: Text)
    ensures Concat([c]) == c
  {
    var one := [c];
    assert one[1..] == [];
  }

  lemma {:induction false} TextCalls(arming: nat, frames: seq<Message>, chunks: seq<Text>)
    requires R.Bodies(frames) == TextBodies(chunks)
    ensures Inserted(I.CallsFor(arming, frames)) == Concat(chunks)
    decreases |frames|
  {
    assert |R.Bodies(frames)| == |TextBodies(chunks)|;
    if frames == [] {
    } else {
      var n := |frames| - 1;
      assert R.Bodies(frames[..n]) == R.Bodies(frames)[..n] == TextBodies(chunks)[..n] == TextBodies(chunks[..n]);
      TextCalls(arming, frames[..n], chunks[..n]);
      assert frames[n].body == R.Bodies(frames)[n] == TextInsert(chunks[n]);
      var one := [L.Call(arming, frames[n])];
      InsertedAppend(I.CallsFor(arming, frames[..n]), one);
      assert one[..0] == [];
      assert Inserted(one) == chunks[n];
      assert chunks == chunks[..n] + [chunks[n]];
      ConcatAppend(chunks[..n], [chunks[n]]);
      SingleChunk(chunks[n]);
    }
  }

  /** The bodies delivered in a run that starts and ends with an empty queue are the bodies enqueued in it. */
  lemma DrainedBodies(s: S.State, accepts: S.Channel, events: seq<S.Event>)
    requires s.control.Some? && R.Tidy(s) && s.latestMove.None? && s.urgent == [] && R.UrgentOnly(events)
    requires R.After(s, accepts, events).urgent == []
    ensures R.Bodies(I.NewFrames(s, accepts, events)) == R.Enqueued(events)
  {
    hide R.After, R.Tidy, R.UrgentFrames, R.Enqueued;
    var s' := R.After(s, accepts, events);
    var k := |s.delivered|;
    R.UrgentFifo(s, accepts, events);
    RunStaysUrgent(s, accepts, events);
    R.DeliveredGrows(s, accepts, events);
    UrgentFramesFrom(s'.delivered, k);
    assert s'.delivered[..k] == s.delivered;
    var earlier, later := R.UrgentFrames(s.delivered), I.NewFrames(s, accepts, events);
    assert R.Bodies(earlier + later) == R.Bodies(earlier) + R.Bodies(later);
    assert R.Line(s) == R.Bodies(earlier) && R.Line(s') == R.Bodies(earlier) + R.Bodies(later);
    assert (R.Bodies(earlier) + R.Bodies(later))[|earlier|..] == R.Bodies(later);
    assert (R.Bodies(earlier) + R.Enqueued(events))[|earlier|..] == R.Enqueued(events);
  }

  /**
   * Without touch traffic typed text arrives whole with no condition on the channel: whatever is refused on the
   * way, once the queue has drained, the text the tab is given is what was typed.
   */
  lemma TypedTextArrivesAlone(s: S.State, accepts: S.Channel, events: seq<S.Event>, t: Text, l: L.Ledger, target: int)
    requires WellFormed(t) && R.UrgentOnly(events) && R.Enqueued(events) == TextBodies(SplitSpec(t, CHUNK))
    requires s.control.Some? && R.Tidy(s) && R.InSync(s) && s.latestMove.None? && s.urgent == []
    requires R.After(s, accepts, events).urgent == [] && I.CaughtUp(l, s)
    ensures var frames := I.NewFrames(s, accepts, events);
      Inserted(L.After(l, I.Arrivals(s.control.value.sessionId, frames, target)).calls) == Inserted(l.calls) + t
  {
    hide R.After, R.Tidy, R.InSync, R.RunBreaks, L.After, I.Arrivals, I.CallsFor, I.CaughtUp, I.NewFrames, Inserted, R.Enqueued, R.Bodies;
    R.UrgentNeverBreaks(s, accepts, events);
    DrainedBodies(s, accepts, events);
    var frames := I.NewFrames(s, accepts, events);
    I.PhoneInputActs(s, accepts, events, l, target);
    TextCalls(l.armings, frames, SplitSpec(t, CHUNK));
    InsertedAppend(l.calls, I.CallsFor(l.armings, frames));
    SplitLosesNothingExactly(t, CHUNK);
  }

  // ----- beside the touch queue -----------------------------------------------------------

  /** Nothing the touch queue holds, or is asked to send, is text: the bridge sends moves, buttons and wheel deltas. */
  predicate Wordless(s: S.State) {
    && (s.latestMove.Some? ==> !s.latestMove.value.TextInsert?)
    && forall i :: 0 <= i < |s.urgent| ==>
         !s.urgent[i].body.TextInsert? && (s.urgent[i].encoded.Some? ==> !s.urgent[i].encoded.value.body.TextInsert?)
  }

  predicate WordlessEvent(ev: S.Event) {
    match ev
    case MoveSent(b) => !b.TextInsert?
    case UrgentSent(b, _) => !b.TextInsert?
    case DirectSent(b, _) => !b.TextInsert?
    case _ => true
  }

  /** Whatever a gesture asks of the sender carries no text. */
  lemma TouchesAreWordless(g: G.Gesture, scale: real, ts: int)
    ensures forall i :: 0 <= i < |B.Sends(g, scale, ts)| ==> WordlessEvent(B.Sends(g, scale, ts)[i])
  {
  }

  predicate WordlessFrom(d: seq<S.Delivery>, k: nat) { forall i :: k <= i < |d| ==> !d[i].message.body.TextInsert? }

  lemma BuiltBody(control: Option<Sender>, b: Body, ts: int)
    ensures var r := S.Build(control, b, ts); r.Made? ==> r.message.body == b
  {
    hide Schema;
  }

  lemma {:induction false} DrainIsWordless(s: S.State, accepts: S.Channel, ts: int, k: nat)
    requires Wordless(s) && WordlessFrom(s.delivered, k)
    ensures Wordless(S.Drain(s, accepts, ts).0) && WordlessFrom(S.Drain(s, accepts, ts).0.delivered, k)
    decreases |s.urgent|
  {
    hide S.Attempt, Wordless, WordlessFrom;
    if s.urgent == [] {
    } else {
      AttemptIsWordless(s, accepts, ts, k);
      if S.Attempt(s, accepts, ts).1.Gone? {
        S.GoneShrinks(s, accepts, ts);
        DrainIsWordless(S.Attempt(s, accepts, ts).0, accepts, ts, k);
      }
    }
  }

  lemma HeadIsWordless(s: S.State, ts: int)
    requires s.urgent != [] && Wordless(s)
    ensures var r := S.EncodeHead(s, ts); r.Made? ==> !r.message.body.TextInsert? && Wordless(S.WithHead(s, r.control, r.message))
  {
    hide S.Build;
    BuiltBody(s.control, s.urgent[0].body, ts);
  }

  lemma AttemptIsWordless(s: S.State, accepts: S.Channel, ts: int, k: nat)
    requires s.urgent != [] && Wordless(s) && WordlessFrom(s.delivered, k)
    ensures Wordless(S.Attempt(s, accepts, ts).0) && WordlessFrom(S.Attempt(s, accepts, ts).0.delivered, k)
  {
    hide S.EncodeHead, S.WithHead, Wordless;
    HeadIsWordless(s, ts);
    var r := S.EncodeHead(s, ts);
    if r.Made? {
      var s1 := S.WithHead(s, r.control, r.message);
      WithHeadKeeps(s, r.control, r.message);
      TailIsWordless(s1, S.Attempt(s, accepts, ts).0);
    } else {
      TailIsWordless(s, S.Attempt(s, accepts, ts).0);
    }
  }

  lemma WithHeadKeeps(s: S.State, c: Sender, m: Message)
    requires s.urgent != []
    ensures var s1 := S.WithHead(s, c, m); s1.urgent != [] && s1.latestMove == s.latestMove && s1.delivered == s.delivered
  {
  }

  lemma TailIsWordless(s: S.State, s': S.State)
    requires s.urgent != [] && Wordless(s) && s'.latestMove == s.latestMove && (s'.urgent == s.urgent || s'.urgent == s.urgent[1..])
    ensures Wordless(s')
  {
  }

  lemma OutgoingIsWordless(s: S.State, accepts: S.Channel, ev: S.Event)
    requires Wordless(s) && WordlessEvent(ev) && (ev.MoveTimer? || ev.FlushedNow? || ev.WheelTimer? || ev.DirectSent?)
    ensures Wordless(S.Step(s, accepts, ev)) && WordlessFrom(S.Step(s, accepts, ev).delivered, |s.delivered|)
  {
    hide S.Build;
    if R.Outgoing(s, ev).Some? {
      BuiltBody(s.control, R.Outgoing(s, ev).value, ev.ts);
    }
  }

  lemma StepIsWordless(s: S.State, accepts: S.Channel, ev: S.Event)
    requires Wordless(s) && WordlessEvent(ev)
    ensures Wordless(S.Step(s, accepts, ev)) && WordlessFrom(S.Step(s, accepts, ev).delivered, |s.delivered|)
  {
    hide S.Drain, S.FlushMove, S.FlushWheel, S.SendDirect;
    match ev
    case UrgentSent(b, ts) => DrainIsWordless(s.(urgent := s.urgent + [S.Item(b, None)]), accepts, ts, |s.delivered|);
    case RetryTimer(ts) => DrainIsWordless(s.(retryTimer := false), accepts, ts, |s.delivered|);
    case MoveTimer(_) => OutgoingIsWordless(s, accepts, ev);
    case FlushedNow(_) => OutgoingIsWordless(s, accepts, ev);
    case WheelTimer(_) => OutgoingIsWordless(s, accepts, ev);
    case DirectSent(_, _) => OutgoingIsWordless(s, accepts, ev);
    case _ =>
  }

  /** From index k on, what the keyboard's queue did not send carries no text. */
  predicate OnlyOwnWords(d: seq<S.Delivery>, k: nat) {
    forall i :: k <= i < |d| && !d[i].kind.UrgentKind? ==> !d[i].message.body.TextInsert?
  }

  predicate WordlessTouches(turns: seq<T.Turn>) {
    forall i :: 0 <= i < |turns| && turns[i].AtTouch? ==> WordlessEvent(turns[i].event)
  }

  /** The keyboard's bridge sends text and keys only. */
  predicate KeysUrgentOnly(turns: seq<T.Turn>) {
    forall i :: 0 <= i < |turns| && turns[i].AtKeys? ==>
      turns[i].event.UrgentSent? || turns[i].event.RetryTimer? || turns[i].event.FlushedNow? || turns[i].event.Disposed?
  }

  lemma TouchTurnWords(o: S.State, s: S.State, s': S.State, k: nat)
    requires T.SameMessages(s.delivered, o.delivered) && s.delivered <= s'.delivered && WordlessFrom(s'.delivered, |s.delivered|)
    requires k <= |o.delivered| && OnlyOwnWords(o.delivered, k)
    ensures OnlyOwnWords(T.Seen(o, s').delivered, k)
  {
    var e := T.Seen(o, s').delivered;
    T.SeenMessages(o, s, s');
    assert forall i :: 0 <= i < |o.delivered| ==> e[i] == o.delivered[i];
  }

  lemma TurnWords(p: T.Pair, accepts: S.Channel, turn: T.Turn, k: nat)
    requires T.PairTidy(p) && k <= |p.keys.delivered| && p.keys.latestMove.None?
    requires Wordless(p.touch) && OnlyOwnWords(p.keys.delivered, k)
    requires turn.AtTouch? ==> WordlessEvent(turn.event)
    requires turn.AtKeys? ==> turn.event.UrgentSent? || turn.event.RetryTimer? || turn.event.FlushedNow? || turn.event.Disposed?
    ensures var q := T.PairStep(p, accepts, turn); Wordless(q.touch) && OnlyOwnWords(q.keys.delivered, k) && q.keys.latestMove.None?
  {
    hide S.Step, T.Beside, R.Tidy, T.Seen, T.SameMessages, WordlessFrom;
    T.BesideMessages(p.touch, p.keys);
    match turn
    case AtTouch(ev) =>
      var t := S.Step(p.touch, accepts, ev);
      StepIsWordless(p.touch, accepts, ev);
      R.StepGrows(p.touch, accepts, ev);
      TouchTurnWords(p.keys, p.touch, t, k);
      T.SeenFields(p.keys, t);
    case AtKeys(ev) =>
      var s := S.Step(p.keys, accepts, ev);
      T.BesideSymmetric(p.touch, p.keys);
      T.BesideHolds(p.keys, p.touch);
      R.UrgentEventHarmless(p.keys, accepts, ev);
      KeyTurnWords(p.keys, accepts, ev, k);
      T.SeenFields(p.touch, s);
  }

  lemma KeyTurnWords(s: S.State, accepts: S.Channel, ev: S.Event, k: nat)
    requires s.latestMove.None? && k <= |s.delivered| && OnlyOwnWords(s.delivered, k)
    requires ev.UrgentSent? || ev.RetryTimer? || ev.FlushedNow? || ev.Disposed?
    ensures OnlyOwnWords(S.Step(s, accepts, ev).delivered, k)
  {
    hide S.Step;
    R.StepGrows(s, accepts, ev);
    StepStaysUrgent(s, accepts, ev, |s.delivered|);
    var d := S.Step(s, accepts, ev).delivered;
    assert forall i :: 0 <= i < |s.delivered| ==> d[i] == s.delivered[i];
  }

  lemma {:induction false} PairWords(p: T.Pair, accepts: S.Channel, turns: seq<T.Turn>)
    requires T.PairTidy(p) && p.keys.latestMove.None? && Wordless(p.touch) && WordlessTouches(turns) && KeysUrgentOnly(turns)
    ensures var q := T.PairAfter(p, accepts, turns);
      Wordless(q.touch) && OnlyOwnWords(q.keys.delivered, |p.keys.delivered|) && q.keys.latestMove.None?
    decreases |turns|
  {
    hide T.PairStep, T.Beside, Wordless, WordlessEvent, OnlyOwnWords;
    if turns == [] {
      assert OnlyOwnWords(p.keys.delivered, |p.keys.delivered|) by { NoWordsYet(p.keys.delivered); }
    } else {
      var n := |turns| - 1;
      PairWords(p, accepts, turns[..n]);
      T.PairRuns(p, accepts, turns[..n]);
      TurnWords(T.PairAfter(p, accepts, turns[..n]), accepts, turns[n], |p.keys.delivered|);
    }
  }

  lemma NoWordsYet(d: seq<S.Delivery>)
    ensures OnlyOwnWords(d, |d|)
  {
  }

  /** The texts of a list of frames, joined. */
  function Words(frames: seq<Message>): Text
    decreases |frames|
  {
    if frames == [] then []
    else
      Words(frames[..|frames| - 1]) + match frames[|frames| - 1].body { case TextInsert(t) => t case _ => [] }
  }

  lemma {:induction false} CallsInsertWords(arming: nat, frames: seq<Message>)
    ensures Inserted(I.CallsFor(arming, frames)) == Words(frames)
    decreases |frames|
  {
    if frames == [] {
    } else {
      var n := |frames| - 1;
      CallsInsertWords(arming, frames[..n]);
      var one := [L.Call(arming, frames[n])];
      InsertedAppend(I.CallsFor(arming, frames[..n]), one);
      assert one[..0] == [];
      assert I.CallsFor(arming, frames[..n]) + [] == I.CallsFor(arming, frames[..n]);
    }
  }

  /** Frames of others carry no words, so the words are those of the keyboard's own frames. */
  lemma {:induction false} OwnWords(d: seq<S.Delivery>, k: nat)
    requires k <= |d| && OnlyOwnWords(d, k)
    ensures R.UrgentFrames(d[..k]) <= R.UrgentFrames(d)
    ensures Words(I.Frames(d[k..])) == Words(R.UrgentFrames(d)[|R.UrgentFrames(d[..k])|..])
    decreases |d|
  {
    if k == |d| {
      assert d[..k] == d;
    } else {
      var n := |d| - 1;
      OwnWords(d[..n], k);
      assert d[..n][..k] == d[..k];
      assert I.Frames(d[k..]) == I.Frames(d[..n][k..]) + [d[n].message];
      MoreWords(I.Frames(d[..n][k..]), d[n].message);
      var before, after := R.UrgentFrames(d[..n]), R.UrgentFrames(d);
      var j := |R.UrgentFrames(d[..k])|;
      if d[n].kind.UrgentKind? {
        assert after[j..] == before[j..] + [d[n].message];
        MoreWords(before[j..], d[n].message);
      } else {
        assert after == before;
      }
    }
  }

  lemma MoreWords(frames: seq<Message>, m: Message)
    ensures Words(frames + [m]) == Words(frames) + match m.body { case TextInsert(t) => t case _ => [] }
  {
    assert (frames + [m])[..|frames|] == frames;
  }

  lemma {:induction false} WordsOfChunks(frames: seq<Message>, chunks: seq<Text>)
    requires R.Bodies(frames) == TextBodies(chunks)
    ensures Words(frames) == Concat(chunks)
    decreases |frames|
  {
    assert |R.Bodies(frames)| == |TextBodies(chunks)|;
    if frames == [] {
    } else {
      var n := |frames| - 1;
      assert R.Bodies(frames[..n]) == R.Bodies(frames)[..n] == TextBodies(chunks)[..n] == TextBodies(chunks[..n]);
      WordsOfChunks(frames[..n], chunks[..n]);
      assert frames[n].body == R.Bodies(frames)[n] == TextInsert(chunks[n]);
      assert chunks == chunks[..n] + [chunks[n]];
      ConcatAppend(chunks[..n], [chunks[n]]);
      SingleChunk(chunks[n]);
    }
  }

  /** The keyboard's frames of a run that starts and ends with an empty queue are the bodies it enqueued. */
  lemma KeysDrained(p: T.Pair, accepts: S.Channel, turns: seq<T.Turn>)
    requires T.PairTidy(p) && p.keys.urgent == [] && KeysUrgentOnly(turns) && T.PairAfter(p, accepts, turns).keys.urgent == []
    ensures var before, after := R.UrgentFrames(p.keys.delivered), R.UrgentFrames(T.PairAfter(p, accepts, turns).keys.delivered);
      |before| <= |after| && R.Bodies(after[|before|..]) == R.Enqueued(T.OfKeys(turns))
  {
    hide T.PairAfter, T.Beside, R.UrgentFrames, R.Enqueued, T.OfKeys;
    KeysNeverReset(turns);
    T.QueuesKeepTheirOrder(p, accepts, turns);
    var q := T.PairAfter(p, accepts, turns);
    var before, after := R.UrgentFrames(p.keys.delivered), R.UrgentFrames(q.keys.delivered);
    var x := R.Enqueued(T.OfKeys(turns));
    assert R.Line(p.keys) == R.Bodies(before) && R.Line(q.keys) == R.Bodies(after);
    assert R.Bodies(after) == R.Bodies(before) + x;
    assert |R.Bodies(after)| == |after| && |R.Bodies(before)| == |before|;
    assert R.Bodies(after[|before|..]) == R.Bodies(after)[|before|..];
  }

  lemma {:induction false} KeysNeverReset(turns: seq<T.Turn>)
    requires KeysUrgentOnly(turns)
    ensures R.WithoutReset(T.OfKeys(turns))
    decreases |turns|
  {
    if turns == [] {
    } else {
      KeysNeverReset(turns[..|turns| - 1]);
      T.OfTurns(turns);
    }
  }

  /**
   * Typed text arrives whole beside any touch traffic: while nothing breaks the common numbering, once the
   * keyboard's queue has drained, the text the tab is given is what was typed.
   */
  lemma TypedTextArrives(p: T.Pair, accepts: S.Channel, turns: seq<T.Turn>, t: Text, l: L.Ledger, target: int)
    requires WellFormed(t) && R.Enqueued(T.OfKeys(turns)) == TextBodies(SplitSpec(t, CHUNK))
    requires T.PairTidy(p) && p.touch.control.Some? && p.keys.control.Some? && T.PairInStep(p) && !T.PairRunBreaks(p, accepts, turns)
    requires p.keys.latestMove.None? && p.keys.urgent == [] && KeysUrgentOnly(turns)
    requires Wordless(p.touch) && WordlessTouches(turns)
    requires T.PairAfter(p, accepts, turns).keys.urgent == [] && I.CaughtUp(l, p.keys)
    ensures var frames := I.NewPairFrames(p, accepts, turns);
      Inserted(L.After(l, I.Arrivals(p.keys.control.value.sessionId, frames, target)).calls) == Inserted(l.calls) + t
  {
    hide T.PairAfter, T.PairStep, T.Beside, R.Tidy, T.InStepWith, T.PairRunBreaks, L.After, I.Arrivals, I.CallsFor, I.CaughtUp;
    hide Inserted, Words, R.Enqueued, R.Bodies, R.UrgentFrames, T.OfKeys, KeysUrgentOnly, WordlessTouches, Wordless, OnlyOwnWords;
    var q, k := T.PairAfter(p, accepts, turns), |p.keys.delivered|;
    T.PairRuns(p, accepts, turns);
    PairWords(p, accepts, turns);
    OwnWords(q.keys.delivered, k);
    assert q.keys.delivered[..k] == p.keys.delivered;
    KeysDrained(p, accepts, turns);
    WordsOfChunks(R.UrgentFrames(q.keys.delivered)[|R.UrgentFrames(p.keys.delivered)|..], SplitSpec(t, CHUNK));
    var frames := I.NewPairFrames(p, accepts, turns);
    I.PairInputActs(p, accepts, turns, l, target);
    CallsInsertWords(l.armings, frames);
    InsertedAppend(l.calls, I.CallsFor(l.armings, frames));
    SplitLosesNothingExactly(t, CHUNK);
  }
}
