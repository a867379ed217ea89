/**
 * Two senders over one numbering and one channel, as the viewer wires them:
 * the touch bridge has a queue of its own beside the keyboard's. What each
 * queue keeps on its own, and exactly when both together reach the receiver.
 */
module TwoQueues {
  import opened Basics
  import opened Control
  import opened InputSenderSpec
  import opened InputSenderRuns

  datatype Pair = Pair(touch: State, keys: State)

  datatype Turn = AtTouch(event: Event) | AtKeys(event: Event)

  function OfTouch(turns: seq<Turn>): seq<Event>
    decreases |turns|
  {
    if turns == [] then []
    else
      OfTouch(turns[..|turns| - 1]) + match turns[|turns| - 1] { case AtTouch(ev) => [ev] case AtKeys(_) => [] }
  }

  function OfKeys(turns: seq<Turn>): seq<Event>
    decreases |turns|
  {
    if turns == [] then []
    else
      OfKeys(turns[..|turns| - 1]) + match turns[|turns| - 1] { case AtKeys(ev) => [ev] case AtTouch(_) => [] }
  }

  /** Frames that did not come from this queue. */
  function Foreign(d: seq<Delivery>): seq<Delivery> {
    seq(|d|, i requires 0 <= i < |d| => Delivery(DirectKind, d[i].message))
  }

  /** A queue after the other one moved: numbering and channel went on, and frames went out that are not its own. */
  function Seen(o: State, s: State): State {
    o.(control := s.control, attempts := s.attempts,
       delivered := o.delivered + if |o.delivered| <= |s.delivered| then Foreign(s.delivered[|o.delivered|..]) else [])
  }

  function PairStep(p: Pair, accepts: Channel, turn: Turn): Pair {
    match turn
    case AtTouch(ev) => var s := Step(p.touch, accepts, ev); Pair(s, Seen(p.keys, s))
    case AtKeys(ev) => var s := Step(p.keys, accepts, ev); Pair(Seen(p.touch, s), s)
  }

  function PairAfter(p: Pair, accepts: Channel, turns: seq<Turn>): Pair
    decreases |turns|
  {
    if turns == [] then p else PairStep(PairAfter(p, accepts, turns[..|turns| - 1]), accepts, turns[|turns| - 1])
  }

  // ----- what the two always agree on -------------------------------------------------

  predicate SameMessages(d: seq<Delivery>, e: seq<Delivery>) {
    |d| == |e| && forall i :: 0 <= i < |d| ==> d[i].message == e[i].message
  }

  /** One queue and the other: one numbering, one channel, and the other's held frame is out of this queue's hands. */
  predicate Beside(s: State, o: State) {
    && s.control.Some? && o.control == s.control && o.attempts == s.attempts
    && SameMessages(s.delivered, o.delivered)
    && Tidy(s) && Tidy(o)
    && (HeadFrame(o.urgent) != [] ==> Burnt(s, HeadFrame(o.urgent)[0].seqNo))
  }

  predicate PairTidy(p: Pair) { Beside(p.touch, p.keys) }

  lemma BesideSymmetric(s: State, o: State)
    requires Beside(s, o)
    ensures Beside(o, s)
  {
    if HeadFrame(s.urgent) != [] {
      var n := HeadFrame(s.urgent)[0].seqNo;
      assert forall i :: 0 <= i < |o.delivered| ==> o.delivered[i].message == s.delivered[i].message;
      assert Burnt(o, n);
    }
  }

  lemma SeenMessages(o: State, s: State, s': State)
    requires SameMessages(s.delivered, o.delivered) && s.delivered <= s'.delivered
    ensures SameMessages(s'.delivered, Seen(o, s').delivered)
  {
    var k := |o.delivered|;
    var e := Seen(o, s').delivered;
    forall i | 0 <= i < |s'.delivered| ensures s'.delivered[i].message == e[i].message {
      if i < k {
        assert s'.delivered[i] == s.delivered[i];
      } else {
        assert e[i] == Foreign(s'.delivered[k..])[i - k];
      }
    }
  }

  lemma StepBeside(s: State, o: State, accepts: Channel, ev: Event)
    requires Beside(s, o)
    ensures Beside(Step(s, accepts, ev), Seen(o, Step(s, accepts, ev)))
    ensures s.delivered <= Step(s, accepts, ev).delivered
    ensures Step(s, accepts, ev).control.value.sessionId == s.control.value.sessionId
  {
    hide Step, Tidy, Burnt, SameMessages, Stepped, Seen;
    var s' := Step(s, accepts, ev);
    StepFacts(s, accepts, ev);
    SyncStep(s, accepts, ev);
    StepGrows(s, accepts, ev);
    SeenMessages(o, s, s');
    SeenFields(o, s');
    SeenTidy(s, o, s', Seen(o, s'));
  }

  lemma SeenFields(o: State, s': State)
    ensures var o' := Seen(o, s'); o' == o.(control := s'.control, attempts := s'.attempts, delivered := o'.delivered)
  {
  }

  lemma SeenTidy(s: State, o: State, s': State, o': State)
    requires Beside(s, o) && s'.control.Some? && Tidy(s') && (forall n :: Burnt(s, n) ==> Burnt(s', n))
    requires s'.control.value.sessionId == s.control.value.sessionId
    requires o' == o.(control := s'.control, attempts := s'.attempts, delivered := o'.delivered)
    requires SameMessages(s'.delivered, o'.delivered)
    ensures Tidy(o') && (HeadFrame(o'.urgent) != [] ==> Burnt(s', HeadFrame(o'.urgent)[0].seqNo))
  {
    hide Schema;
    if HeadFrame(o.urgent) != [] {
      var n := HeadFrame(o.urgent)[0].seqNo;
      assert Burnt(s', n);
    }
    assert forall i :: 0 <= i < |o'.delivered| ==> o'.delivered[i].message == s'.delivered[i].message;
  }

  /** What every turn keeps. */
  lemma TurnKeeps(p: Pair, accepts: Channel, turn: Turn)
    requires PairTidy(p)
    ensures PairTidy(PairStep(p, accepts, turn))
    ensures p.touch.delivered <= PairStep(p, accepts, turn).touch.delivered
    ensures p.keys.delivered <= PairStep(p, accepts, turn).keys.delivered
    ensures PairStep(p, accepts, turn).touch.control.value.sessionId == p.touch.control.value.sessionId
  {
    hide Step, Beside;
    BesideControl(p.touch, p.keys);
    match turn
    case AtTouch(ev) => StepBeside(p.touch, p.keys, accepts, ev);
    case AtKeys(ev) =>
      BesideSymmetric(p.touch, p.keys);
      StepBeside(p.keys, p.touch, accepts, ev);
      BesideSymmetric(Step(p.keys, accepts, ev), Seen(p.touch, Step(p.keys, accepts, ev)));
  }

  lemma BesideControl(s: State, o: State)
    requires Beside(s, o)
    ensures s.control.Some? && o.control == s.control
  {
  }

  lemma {:induction false} PairRuns(p: Pair, accepts: Channel, turns: seq<Turn>)
    requires PairTidy(p)
    ensures PairTidy(PairAfter(p, accepts, turns))
    ensures p.touch.delivered <= PairAfter(p, accepts, turns).touch.delivered
    ensures p.keys.delivered <= PairAfter(p, accepts, turns).keys.delivered
    ensures PairAfter(p, accepts, turns).touch.control.Some? && p.touch.control.Some?
    ensures PairAfter(p, accepts, turns).keys.control == PairAfter(p, accepts, turns).touch.control
    ensures PairAfter(p, accepts, turns).touch.control.value.sessionId == p.touch.control.value.sessionId
    decreases |turns|
  {
    hide PairStep, Beside;
    BesideControl(p.touch, p.keys);
    if turns == [] {
    } else {
      var init := turns[..|turns| - 1];
      PairRuns(p, accepts, init);
      TurnKeeps(PairAfter(p, accepts, init), accepts, turns[|turns| - 1]);
      BesideControl(PairAfter(p, accepts, turns).touch, PairAfter(p, accepts, turns).keys);
    }
  }

  /** Two fresh queues of one session. */
  function FreshPair(sessionId: string): Pair { Pair(Fresh(sessionId), Fresh(sessionId)) }

  lemma FreshPairFacts(sessionId: string)
    ensures PairTidy(FreshPair(sessionId)) && PairInStep(FreshPair(sessionId))
  {
  }

  // ----- in step with the receiver --------------------------------------------------------

  /** The receiver has every number handed out, except those that the heads of the two queues hold. */
  predicate InStepWith(s: State, held: nat)
    requires s.control.Some?
  {
    Consecutive(s.delivered) && s.control.value.lastNo == |s.delivered| + |HeadFrame(s.urgent)| + held
  }

  predicate PairInStep(p: Pair)
    requires p.touch.control.Some?
  {
    InStepWith(p.touch, |HeadFrame(p.keys.urgent)|)
  }

  predicate Newer(m: Message, held: seq<Message>) { held != [] && m.seqNo > held[0].seqNo }

  /**
   * Draining this queue gets a frame accepted while the other queue holds an older one: the head itself is newer,
   * or the head is older, leaves, and the next item is built and accepted.
   */
  predicate Overtakes(s: State, held: seq<Message>, accepts: Channel, ts: int) {
    && s.urgent != [] && held != [] && accepts(s.attempts)
    && EncodeHead(s, ts).Made?
    && (|| EncodeHead(s, ts).message.seqNo > held[0].seqNo
        || (|s.urgent| > 1 && accepts(s.attempts + 1) && Build(s.control, s.urgent[1].body, ts).Made?))
  }

  /** The queue an event drains. */
  function Drains(s: State, ev: Event): State {
    match ev
    case UrgentSent(b, _) => s.(urgent := s.urgent + [Item(b, None)])
    case RetryTimer(_) => s
    case _ => s.(urgent := [])
  }

  /**
   * An event at one queue costs the receiver a number: a coalesced or direct frame is refused, or accepted while a
   * queue holds a frame; a reset drops a framed head; or a queued frame is accepted while the other queue holds an
   * older one.
   */
  predicate BreaksBeside(s: State, held: seq<Message>, accepts: Channel, ev: Event) {
    || (BuiltBy(s, ev).Made? && (HeadFrame(s.urgent) != [] || held != [] || !accepts(s.attempts)))
    || (ev.WasReset? && HeadFrame(s.urgent) != [])
    || ((ev.UrgentSent? || ev.RetryTimer?) && Overtakes(Drains(s, ev), held, accepts, ev.ts))
  }

  predicate PairBreaks(p: Pair, accepts: Channel, turn: Turn) {
    match turn
    case AtTouch(ev) => BreaksBeside(p.touch, HeadFrame(p.keys.urgent), accepts, ev)
    case AtKeys(ev) => BreaksBeside(p.keys, HeadFrame(p.touch.urgent), accepts, ev)
  }

  predicate PairRunBreaks(p: Pair, accepts: Channel, turns: seq<Turn>) {
    exists i :: 0 <= i < |turns| && PairBreaks(PairAfter(p, accepts, turns[..i]), accepts, turns[i])
  }

  /** A number that a consecutive receiver does not have is beyond what it has. */
  lemma Beyond(d: seq<Delivery>, n: int)
    requires n >= 1 && forall i :: 0 <= i < |d| ==> d[i].message.seqNo != n
    ensures Consecutive(d) ==> n > |d|
  {
    assert 1 <= n <= |d| ==> d[n - 1].message.seqNo != n;
  }

  predicate Holds(s: State, held: seq<Message>)
    requires s.control.Some?
  {
    |held| <= 1 && (held != [] ==> Burnt(s, held[0].seqNo))
  }

  lemma SendSync(s: State, d': seq<Delivery>, m: Message, held: seq<Message>)
    requires s.control.Some? && Tidy(s) && HeadFrame(s.urgent) == [m] && Holds(s, held)
    requires d' == s.delivered + [Delivery(UrgentKind, m)]
    ensures Consecutive(d') && s.control.value.lastNo == |d'| + |held| <==> InStepWith(s, |held|) && !Newer(m, held)
  {
    hide Schema;
    var d := s.delivered;
    Beyond(d, m.seqNo);
    if held != [] {
      Beyond(d, held[0].seqNo);
    }
    assert d'[|d|].message == m;
    assert forall i :: 0 <= i < |d| ==> d'[i] == d[i];
  }

  /** One attempt at the head of this queue. */
  lemma AttemptSync(s: State, accepts: Channel, ts: int, held: seq<Message>)
    requires s.control.Some? && Tidy(s) && s.urgent != [] && Holds(s, held)
    ensures var (s', o) := Attempt(s, accepts, ts);
      && s'.control.Some? && Tidy(s') && Holds(s', held)
      && (InStepWith(s', |held|) <==>
          InStepWith(s, |held|) && !(o.Gone? && EncodeHead(s, ts).Made? && Newer(EncodeHead(s, ts).message, held)))
  {
    hide Schema, Tidy, InSync, Burnt, Line, Issued, UrgentFrames, WheelSum, WheelFramesRounded, Consecutive;
    AttemptDrains(s, accepts, ts);
    match EncodeHead(s, ts)
    case Fails =>
    case Made(c, m) =>
      HeadFramed(s, c, m, ts);
      FramedSync(s, c, m, ts, |held|);
      var s1 := WithHead(s, c, m);
      assert Holds(s1, held);
      if accepts(s.attempts) {
        SendSync(s1, s1.delivered + [Delivery(UrgentKind, m)], m, held);
        GoneHead(s, c, m, accepts, ts);
      }
  }

  /** A head that leaves takes its frame with it: the next item has none. */
  lemma GoneHead(s: State, c: Sender, m: Message, accepts: Channel, ts: int)
    requires s.control.Some? && Tidy(s) && s.urgent != [] && EncodeHead(s, ts) == Made(c, m) && accepts(s.attempts)
    ensures var s1, s' := WithHead(s, c, m), Attempt(s, accepts, ts).0;
      s'.delivered == s1.delivered + [Delivery(UrgentKind, m)] && HeadFrame(s'.urgent) == [] && s'.control == s1.control
  {
    hide Schema, Encode, Build;
  }

  lemma FramedSync(s: State, c: Sender, m: Message, ts: int, held: nat)
    requires s.control.Some? && s.urgent != [] && EncodeHead(s, ts) == Made(c, m)
    ensures WithHead(s, c, m).control.Some? && (InStepWith(WithHead(s, c, m), held) <==> InStepWith(s, held))
  {
    hide Schema, Encode;
    if s.urgent[0].encoded.None? {
      BuiltNumber(s.control.value, s.urgent[0].body, ts, c, m);
    }
  }

  /** Some attempt of a drain is accepted with a frame newer than the held one. */
  predicate AcceptsNewer(s: State, held: seq<Message>, accepts: Channel, ts: int)
    decreases |s.urgent|
  {
    && s.urgent != [] && Attempt(s, accepts, ts).1.Gone? && EncodeHead(s, ts).Made?
    && (Newer(EncodeHead(s, ts).message, held) || AcceptsNewer(Attempt(s, accepts, ts).0, held, accepts, ts))
  }

  lemma {:induction false} DrainSync(s: State, accepts: Channel, ts: int, held: seq<Message>)
    requires s.control.Some? && Tidy(s) && Holds(s, held)
    ensures var s' := Drain(s, accepts, ts).0;
      && s'.control.Some? && (InStepWith(s', |held|) <==> InStepWith(s, |held|) && !AcceptsNewer(s, held, accepts, ts))
    decreases |s.urgent|
  {
    hide Schema, Tidy, InStepWith, Holds, Attempt, EncodeHead, Newer;
    if s.urgent == [] {
    } else {
      AttemptSync(s, accepts, ts, held);
      var (s1, o) := Attempt(s, accepts, ts);
      if o.Gone? {
        GoneShrinks(s, accepts, ts);
        GoneWasMade(s, accepts, ts);
        DrainSync(s1, accepts, ts, held);
      }
    }
  }

  lemma GoneWasMade(s: State, accepts: Channel, ts: int)
    requires s.control.Some? && s.urgent != [] && Attempt(s, accepts, ts).1.Gone?
    ensures EncodeHead(s, ts).Made?
  {
    hide Schema, Encode;
  }

  /** The guard a caller can check: only the first two items decide whether a drain overtakes. */
  lemma OvertakesExactly(s: State, accepts: Channel, ts: int, held: seq<Message>)
    requires s.control.Some? && Tidy(s) && Holds(s, held)
    ensures Overtakes(s, held, accepts, ts) <==> AcceptsNewer(s, held, accepts, ts)
  {
    hide Schema, Encode;
    if s.urgent == [] || !EncodeHead(s, ts).Made? || !accepts(s.attempts) {
    } else if held == [] {
      NothingNewer(s, accepts, ts);
    } else if EncodeHead(s, ts).message.seqNo <= held[0].seqNo {
      OlderHead(s, accepts, ts, held);
    }
  }

  lemma {:induction false} NothingNewer(s: State, accepts: Channel, ts: int)
    ensures !AcceptsNewer(s, [], accepts, ts)
    decreases |s.urgent|
  {
    hide Schema, Encode, EncodeHead;
    if s.urgent == [] {
    } else if Attempt(s, accepts, ts).1.Gone? {
      GoneShrinks(s, accepts, ts);
      NothingNewer(Attempt(s, accepts, ts).0, accepts, ts);
    }
  }

  /** An older head was framed before; after it leaves, whatever is built next is newer than every held frame. */
  lemma OlderHead(s: State, accepts: Channel, ts: int, held: seq<Message>)
    requires s.control.Some? && Tidy(s) && Holds(s, held) && held != [] && s.urgent != [] && accepts(s.attempts)
    requires EncodeHead(s, ts).Made? && EncodeHead(s, ts).message.seqNo <= held[0].seqNo
    ensures AcceptsNewer(s, held, accepts, ts) <==>
      |s.urgent| > 1 && accepts(s.attempts + 1) && Build(s.control, s.urgent[1].body, ts).Made?
  {
    hide Schema, Encode;
    if s.urgent[0].encoded.None? {
      BuiltNumber(s.control.value, s.urgent[0].body, ts, EncodeHead(s, ts).control, EncodeHead(s, ts).message);
      assert false;
    }
    var s1 := Attempt(s, accepts, ts).0;
    assert s1.urgent == s.urgent[1..] && s1.control == s.control && s1.attempts == s.attempts + 1;
    if s1.urgent != [] {
      assert s1.urgent[0] == s.urgent[1];
      assert EncodeHead(s1, ts) == Build(s.control, s.urgent[1].body, ts);
      if EncodeHead(s1, ts).Made? {
        BuiltNumber(s.control.value, s.urgent[1].body, ts, EncodeHead(s1, ts).control, EncodeHead(s1, ts).message);
        assert Newer(EncodeHead(s1, ts).message, held);
      }
    }
  }

  /** A frame past the urgent queue. */
  lemma EmitSyncBeside(s: State, s': State, ok: bool, kind: Kind, m: Message, held: seq<Message>)
    requires s.control.Some? && Tidy(s) && s'.control.Some? && Holds(s, held)
    requires s'.control.value.lastNo == s.control.value.lastNo + 1 == m.seqNo
    requires s'.urgent == s.urgent && s'.delivered == if ok then s.delivered + [Delivery(kind, m)] else s.delivered
    ensures InStepWith(s', |held|) <==> InStepWith(s, |held|) && HeadFrame(s.urgent) == [] && held == [] && ok
  {
    hide Schema;
    var d := s.delivered;
    BeyondHeld(s, held);
    if ok {
      assert s'.delivered[|d|].message == m;
      assert forall i :: 0 <= i < |d| ==> s'.delivered[i] == d[i];
    }
  }

  /** Held numbers lie between what was delivered and the last number handed out. */
  lemma BeyondHeld(s: State, held: seq<Message>)
    requires s.control.Some? && Tidy(s) && Holds(s, held)
    ensures Consecutive(s.delivered) ==> |s.delivered| + |HeadFrame(s.urgent)| + |held| <= s.control.value.lastNo
  {
    hide Schema;
    var d := s.delivered;
    assert d != [] ==> d[|d| - 1].message.seqNo <= s.control.value.lastNo;
    if HeadFrame(s.urgent) != [] {
      Beyond(d, HeadFrame(s.urgent)[0].seqNo);
    }
    if held != [] {
      Beyond(d, held[0].seqNo);
    }
  }

  lemma SameTrafficInStep(s: State, s': State, held: nat)
    requires s.control.Some? && SameTraffic(s, s')
    ensures InStepWith(s', held) <==> InStepWith(s, held)
  {
  }

  lemma OutgoingSync(s: State, accepts: Channel, ev: Event, held: seq<Message>)
    requires s.control.Some? && Tidy(s) && Holds(s, held)
    requires ev.MoveTimer? || ev.FlushedNow? || ev.WheelTimer? || ev.DirectSent?
    ensures Step(s, accepts, ev).control.Some?
    ensures InStepWith(Step(s, accepts, ev), |held|) <==> InStepWith(s, |held|) && !BreaksBeside(s, held, accepts, ev)
  {
    hide Schema, Build, Tidy, InStepWith, Holds, WheelBody, Overtakes;
    var s' := Step(s, accepts, ev);
    var r := BuiltBy(s, ev);
    if r.Made? {
      BuiltNumber(s.control.value, Outgoing(s, ev).value, ev.ts, r.control, r.message);
      var kind := if ev.WheelTimer? then WheelKind(s.pendingWheel.value) else if ev.DirectSent? then DirectKind else MoveKind;
      EmitSyncBeside(s, s', accepts(s.attempts), kind, r.message, held);
    } else {
      SameTrafficInStep(s, s', |held|);
    }
  }

  lemma UrgentSync(s: State, accepts: Channel, ev: Event, held: seq<Message>)
    requires s.control.Some? && Tidy(s) && Holds(s, held) && (ev.UrgentSent? || ev.RetryTimer?)
    ensures Step(s, accepts, ev).control.Some?
    ensures InStepWith(Step(s, accepts, ev), |held|) <==> InStepWith(s, |held|) && !BreaksBeside(s, held, accepts, ev)
  {
    hide Schema, Tidy, InSync, Burnt, Line, Issued, UrgentFrames, WheelSum, WheelFramesRounded, Drain, Overtakes;
    var s1 := if ev.UrgentSent? then s.(urgent := s.urgent + [Item(ev.body, None)]) else s.(retryTimer := false);
    if ev.UrgentSent? {
      PushKeeps(s, ev.body);
      assert HeadFrame(s1.urgent) == HeadFrame(s.urgent);
    } else {
      SameTrafficKeeps(s, s1);
    }
    DrainSync(s1, accepts, ev.ts, held);
    OvertakesExactly(s1, accepts, ev.ts, held);
    OvertakesIgnoresTimer(Drains(s, ev), s1, held, accepts, ev.ts);
    SameTrafficInStep(Drain(s1, accepts, ev.ts).0, Step(s, accepts, ev), |held|);
  }

  lemma OvertakesIgnoresTimer(s: State, s1: State, held: seq<Message>, accepts: Channel, ts: int)
    requires s1.urgent == s.urgent && s1.control == s.control && s1.attempts == s.attempts
    ensures Overtakes(s, held, accepts, ts) <==> Overtakes(s1, held, accepts, ts)
  {
    hide Build;
  }

  lemma ResetSync(s: State, accepts: Channel, held: seq<Message>)
    requires s.control.Some? && Tidy(s) && Holds(s, held)
    ensures Step(s, accepts, WasReset).control.Some?
    ensures InStepWith(Step(s, accepts, WasReset), |held|) <==> InStepWith(s, |held|) && HeadFrame(s.urgent) == []
  {
    hide Schema, Tidy, Holds;
    BeyondHeld(s, held);
  }

  /** One event at one queue: in step afterwards if and only if in step before and the event does not break it. */
  lemma StepSync(s: State, accepts: Channel, ev: Event, held: seq<Message>)
    requires s.control.Some? && Tidy(s) && Holds(s, held)
    ensures Step(s, accepts, ev).control.Some?
    ensures InStepWith(Step(s, accepts, ev), |held|) <==> InStepWith(s, |held|) && !BreaksBeside(s, held, accepts, ev)
  {
    hide Schema, Tidy, InStepWith, Holds, Overtakes, Drain, Build;
    match ev
    case MoveTimer(_) => OutgoingSync(s, accepts, ev, held);
    case FlushedNow(_) => OutgoingSync(s, accepts, ev, held);
    case WheelTimer(_) => OutgoingSync(s, accepts, ev, held);
    case DirectSent(_, _) => OutgoingSync(s, accepts, ev, held);
    case UrgentSent(_, _) => UrgentSync(s, accepts, ev, held);
    case RetryTimer(_) => UrgentSync(s, accepts, ev, held);
    case WasReset => ResetSync(s, accepts, held);
    case MoveSent(_) => SameTrafficInStep(s, Step(s, accepts, ev), |held|);
    case Disposed => SameTrafficInStep(s, Step(s, accepts, ev), |held|);
    case WheelSent(_) => SameTrafficInStep(s, Step(s, accepts, ev), |held|);
  }

  lemma BesideHolds(s: State, o: State)
    requires Beside(s, o)
    ensures s.control.Some? && o.control == s.control && Tidy(s) && Holds(s, HeadFrame(o.urgent))
  {
    hide Tidy, Burnt;
  }

  /** Both sides count the same: deliveries agree, and each sees the other's head. */
  lemma InStepEitherWay(s: State, o: State)
    requires s.control.Some? && o.control == s.control && SameMessages(s.delivered, o.delivered)
    ensures InStepWith(s, |HeadFrame(o.urgent)|) <==> InStepWith(o, |HeadFrame(s.urgent)|)
  {
    var d, e := s.delivered, o.delivered;
    assert Consecutive(d) <==> Consecutive(e) by {
      assert forall i :: 0 <= i < |d| ==> d[i].message == e[i].message;
    }
  }

  lemma BesideMessages(s: State, o: State)
    requires Beside(s, o)
    ensures s.control.Some? && o.control == s.control && SameMessages(s.delivered, o.delivered)
  {
  }

  lemma TurnSync(p: Pair, accepts: Channel, turn: Turn)
    requires PairTidy(p)
    ensures p.touch.control.Some? && PairStep(p, accepts, turn).touch.control.Some?
    ensures PairInStep(PairStep(p, accepts, turn)) <==> PairInStep(p) && !PairBreaks(p, accepts, turn)
  {
    hide Step, Beside, InStepWith, BreaksBeside, Tidy, Holds, SameMessages;
    TurnKeeps(p, accepts, turn);
    var p' := PairStep(p, accepts, turn);
    BesideMessages(p.touch, p.keys);
    BesideMessages(p'.touch, p'.keys);
    InStepEitherWay(p.touch, p.keys);
    InStepEitherWay(p'.touch, p'.keys);
    match turn
    case AtTouch(ev) =>
      BesideHolds(p.touch, p.keys);
      StepSync(p.touch, accepts, ev, HeadFrame(p.keys.urgent));
      SeenFields(p.keys, p'.touch);
    case AtKeys(ev) =>
      BesideSymmetric(p.touch, p.keys);
      BesideHolds(p.keys, p.touch);
      StepSync(p.keys, accepts, ev, HeadFrame(p.touch.urgent));
      SeenFields(p.touch, p'.keys);
  }

  /**
   * Two queues over one numbering stay in step with the receiver if and only if no coalesced or direct frame is
   * refused, no reset drops a framed head, and nothing is accepted while either queue holds an older frame.
   */
  lemma {:induction false} TwoQueuesInStepExactly(p: Pair, accepts: Channel, turns: seq<Turn>)
    requires PairTidy(p) && p.touch.control.Some? && PairInStep(p)
    ensures PairAfter(p, accepts, turns).touch.control.Some?
    ensures PairInStep(PairAfter(p, accepts, turns)) <==> !PairRunBreaks(p, accepts, turns)
    decreases |turns|
  {
    hide PairStep, Beside, InStepWith, PairBreaks;
    if turns == [] {
    } else {
      var n := |turns| - 1;
      TwoQueuesInStepExactly(p, accepts, turns[..n]);
      PairRuns(p, accepts, turns[..n]);
      TurnSync(PairAfter(p, accepts, turns[..n]), accepts, turns[n]);
      assert forall i :: 0 <= i < n ==> turns[..n][..i] == turns[..i] && turns[..n][i] == turns[i];
    }
  }

  /** While nothing breaks the numbering the receiver accepts every frame the channel took, whichever queue sent it. */
  lemma PairReachesTheReceiver(sessionId: string, accepts: Channel, turns: seq<Turn>)
    requires !PairRunBreaks(FreshPair(sessionId), accepts, turns)
    ensures var d := PairAfter(FreshPair(sessionId), accepts, turns).touch.delivered; AllAccepted(d) && GuardAfter(d) == |d|
  {
    hide PairRunBreaks, PairStep, PairAfter, AllAccepted, Beside, Tidy;
    var p := FreshPair(sessionId);
    FreshPairFacts(sessionId);
    TwoQueuesInStepExactly(p, accepts, turns);
    PairRuns(p, accepts, turns);
    var p' := PairAfter(p, accepts, turns);
    BesideHolds(p'.touch, p'.keys);
    SafeNumbers(p'.touch);
    GuardExactly(p'.touch.delivered);
  }

  lemma SafeNumbers(s: State)
    requires s.control.Some? && Tidy(s)
    ensures forall i :: 0 <= i < |s.delivered| ==> s.delivered[i].message.seqNo <= MAX_SAFE_INTEGER
  {
    hide Schema;
  }

  // ----- a channel that accepts everything --------------------------------------------------

  lemma TurnLeavesNoHead(p: Pair, accepts: Channel, turn: Turn)
    requires PairTidy(p) && HeadFrame(p.touch.urgent) == [] && HeadFrame(p.keys.urgent) == [] && forall n :: accepts(n)
    ensures !PairBreaks(p, accepts, turn)
    ensures var p' := PairStep(p, accepts, turn); HeadFrame(p'.touch.urgent) == [] && HeadFrame(p'.keys.urgent) == []
  {
    hide Step, Beside, Tidy, HeadFrame;
    BesideHolds(p.touch, p.keys);
    BesideSymmetric(p.touch, p.keys);
    BesideHolds(p.keys, p.touch);
    match turn
    case AtTouch(ev) => StepLeavesNoHead(p.touch, accepts, ev);
    case AtKeys(ev) => StepLeavesNoHead(p.keys, accepts, ev);
  }

  /** On such a channel both queues together never break the numbering, whatever either does. */
  lemma {:induction false} AcceptingChannelKeepsPair(p: Pair, accepts: Channel, turns: seq<Turn>)
    requires PairTidy(p) && HeadFrame(p.touch.urgent) == [] && HeadFrame(p.keys.urgent) == [] && forall n :: accepts(n)
    ensures !PairRunBreaks(p, accepts, turns)
    ensures var p' := PairAfter(p, accepts, turns); HeadFrame(p'.touch.urgent) == [] && HeadFrame(p'.keys.urgent) == []
    decreases |turns|
  {
    hide PairStep, Beside, PairBreaks, HeadFrame;
    if turns == [] {
    } else {
      var n := |turns| - 1;
      AcceptingChannelKeepsPair(p, accepts, turns[..n]);
      PairRuns(p, accepts, turns[..n]);
      TurnLeavesNoHead(PairAfter(p, accepts, turns[..n]), accepts, turns[n]);
      assert forall i :: 0 <= i < n ==> turns[..n][..i] == turns[..i] && turns[..n][i] == turns[i];
    }
  }

  // ----- a touch and a key ---------------------------------------------------------------------

  /**
   * Two empty queues and one urgent send at each: the pair stays in step if and only if it is not that the touch
   * is refused and the key then accepted. In that case the key has overtaken the touch.
   */
  lemma TwoQueuesOvertake(p: Pair, accepts: Channel, x: Body, y: Body, ts: int)
    requires PairTidy(p) && p.touch.control.Some? && PairInStep(p) && p.touch.urgent == [] && p.keys.urgent == []
    requires var c := p.touch.control.value;
      Encode(c, x, ts).1.Frame? && Encode(c.(lastNo := c.lastNo + 1), y, ts).1.Frame?
    ensures var p' := PairAfter(p, accepts, [AtTouch(UrgentSent(x, ts)), AtKeys(UrgentSent(y, ts))]);
      p'.touch.control.Some? && (PairInStep(p') <==> accepts(p.touch.attempts) || !accepts(p.touch.attempts + 1))
    ensures var p' := PairAfter(p, accepts, [AtTouch(UrgentSent(x, ts)), AtKeys(UrgentSent(y, ts))]);
      !accepts(p.touch.attempts) && accepts(p.touch.attempts + 1) ==>
        GuardAfter(p'.touch.delivered) < p'.touch.control.value.lastNo && !AllAccepted(p'.touch.delivered)
  {
    hide Schema, Encode, AllAccepted, Beside, Tidy, InStepWith, Drain, PairRunBreaks, PairAfter;
    var turns := [AtTouch(UrgentSent(x, ts)), AtKeys(UrgentSent(y, ts))];
    var p1 := PairStep(p, accepts, turns[0]);
    TwoTurns(p, accepts, turns);
    BesideControl(p.touch, p.keys);
    TurnKeeps(p, accepts, turns[0]);
    TurnSync(p, accepts, turns[0]);
    BesideControl(p1.touch, p1.keys);
    TurnSync(p1, accepts, turns[1]);
    SingleSend(p.touch, accepts, x, ts);
    SeenFields(p.keys, p1.touch);
    SecondBreaks(p1, accepts, y, ts);
    if !accepts(p.touch.attempts) && accepts(p.touch.attempts + 1) {
      NoTurns(PairStep(p1, accepts, turns[1]), accepts);
      BrokenPairStopsTheReceiver(p1, accepts, turns[1], []);
      BesideMessages(p1.touch, p1.keys);
      SingleSend(p1.keys, accepts, y, ts);
      TurnKeeps(p1, accepts, turns[1]);
      KeyRejected(p, p1, PairStep(p1, accepts, turns[1]));
    }
  }

  lemma NoTurns(p: Pair, accepts: Channel)
    ensures PairAfter(p, accepts, []) == p
  {
  }

  /** The key is the next delivery but one number too high. */
  lemma KeyRejected(p: Pair, p1: Pair, p2: Pair)
    requires PairTidy(p2) && p.touch.control.Some? && PairInStep(p) && p.touch.urgent == [] && p.keys.urgent == []
    requires p1.touch.delivered == p.touch.delivered && p1.touch.delivered <= p2.touch.delivered
    requires |p2.keys.delivered| == |p.touch.delivered| + 1
    requires p2.keys.delivered[|p.touch.delivered|].message.seqNo == p.touch.control.value.lastNo + 2
    ensures !AllAccepted(p2.touch.delivered)
  {
    hide Schema;
    var d, n := p2.touch.delivered, |p.touch.delivered|;
    assert d[n].message == p2.keys.delivered[n].message;
    assert p.touch.control.value.lastNo == n;
    SafeNumbers(p2.touch);
    GuardExactly(d);
  }

  lemma SecondBreaks(p: Pair, accepts: Channel, y: Body, ts: int)
    requires p.touch.control.Some? && p.keys.control == p.touch.control && p.keys.attempts == p.touch.attempts && p.keys.urgent == []
    requires |HeadFrame(p.touch.urgent)| <= 1
    requires HeadFrame(p.touch.urgent) != [] ==> HeadFrame(p.touch.urgent)[0].seqNo <= p.touch.control.value.lastNo
    requires Encode(p.touch.control.value, y, ts).1.Frame?
    ensures PairBreaks(p, accepts, AtKeys(UrgentSent(y, ts))) <==> HeadFrame(p.touch.urgent) != [] && accepts(p.touch.attempts)
  {
    hide Schema, Encode;
    EncodedNumber(p.touch.control.value, y, ts);
  }

  lemma TwoTurns(p: Pair, accepts: Channel, turns: seq<Turn>)
    requires |turns| == 2
    ensures PairAfter(p, accepts, turns) == PairStep(PairStep(p, accepts, turns[0]), accepts, turns[1])
  {
    hide PairStep;
    assert turns[..1][..0] == [] && turns[..1][0] == turns[0];
    assert PairAfter(p, accepts, turns[..1]) == PairStep(p, accepts, turns[0]);
  }

  /** One urgent send from an empty queue whose frame can be built. */
  lemma SingleSend(s: State, accepts: Channel, x: Body, ts: int)
    requires s.control.Some? && s.urgent == [] && Encode(s.control.value, x, ts).1.Frame?
    ensures var m := Candidate(s.control.value, x, ts);
      var s' := Step(s, accepts, UrgentSent(x, ts));
      && s'.control == Some(s.control.value.(lastNo := s.control.value.lastNo + 1))
      && s'.attempts == s.attempts + 1
      && HeadFrame(s'.urgent) == (if accepts(s.attempts) then [] else [m])
      && s'.delivered == (if accepts(s.attempts) then s.delivered + [Delivery(UrgentKind, m)] else s.delivered)
  {
    hide Schema;
    var s1 := s.(urgent := [Item(x, None)]);
    assert s.urgent + [Item(x, None)] == s1.urgent;
    EncodedNumber(s.control.value, x, ts);
    var (s2, o) := Attempt(s1, accepts, ts);
    if o.Gone? {
      assert s2.urgent == [];
      assert Drain(s2, accepts, ts) == (s2, false);
    }
    assert Drain(s1, accepts, ts) == (s2, false);
  }

  // ----- what a break means for the receiver ------------------------------------------------------

  /** Burnt for both queues: handed out, not delivered, and held by neither head. */
  predicate PairBurnt(p: Pair, n: int)
    requires p.touch.control.Some? && p.keys.control.Some?
  {
    Burnt(p.touch, n) && Burnt(p.keys, n)
  }

  lemma SeenBurnt(s: State, o: State, s': State, o': State, n: int)
    requires s'.control.Some? && Burnt(s', n) && (HeadFrame(o.urgent) != [] ==> HeadFrame(o.urgent)[0].seqNo != n)
    requires o' == o.(control := s'.control, attempts := s'.attempts, delivered := o'.delivered) && SameMessages(s'.delivered, o'.delivered)
    ensures Burnt(o', n)
  {
    assert forall i :: 0 <= i < |o'.delivered| ==> o'.delivered[i].message == s'.delivered[i].message;
  }

  lemma BurntNotHeld(s: State, n: int)
    requires s.control.Some? && Burnt(s, n)
    ensures HeadFrame(s.urgent) != [] ==> HeadFrame(s.urgent)[0].seqNo != n
  {
  }

  lemma TurnBurnt(p: Pair, accepts: Channel, turn: Turn, n: int)
    requires PairTidy(p) && p.touch.control.Some? && p.keys.control.Some? && PairBurnt(p, n)
    ensures var p' := PairStep(p, accepts, turn); p'.touch.control.Some? && p'.keys.control.Some? && PairBurnt(p', n)
  {
    hide Step, Beside, Burnt, SameMessages, Tidy, Breaks, InSync, Holds;
    TurnKeeps(p, accepts, turn);
    var p' := PairStep(p, accepts, turn);
    BesideMessages(p'.touch, p'.keys);
    match turn
    case AtTouch(ev) =>
      BesideHolds(p.touch, p.keys);
      SyncStep(p.touch, accepts, ev);
      SeenFields(p.keys, p'.touch);
      BurntNotHeld(p.keys, n);
      SeenBurnt(p.touch, p.keys, p'.touch, p'.keys, n);
    case AtKeys(ev) =>
      BesideSymmetric(p.touch, p.keys);
      BesideHolds(p.keys, p.touch);
      SyncStep(p.keys, accepts, ev);
      SeenFields(p.touch, p'.keys);
      BesideSymmetric(p'.touch, p'.keys);
      BesideMessages(p'.keys, p'.touch);
      BurntNotHeld(p.touch, n);
      SeenBurnt(p.keys, p.touch, p'.keys, p'.touch, n);
  }

  lemma {:induction false} PairBurntStays(p: Pair, accepts: Channel, turns: seq<Turn>, n: int)
    requires PairTidy(p) && p.touch.control.Some? && p.keys.control.Some? && PairBurnt(p, n)
    ensures var p' := PairAfter(p, accepts, turns); p'.touch.control.Some? && p'.keys.control.Some? && PairBurnt(p', n)
    decreases |turns|
  {
    hide PairStep, Beside, PairBurnt;
    if turns == [] {
    } else {
      var init := turns[..|turns| - 1];
      PairBurntStays(p, accepts, init, n);
      PairRuns(p, accepts, init);
      TurnBurnt(PairAfter(p, accepts, init), accepts, turns[|turns| - 1], n);
    }
  }

  /** Some frame came before its turn: a lower number was still out when it was delivered. */
  ghost predicate CameEarly(s: State, k: nat)
    requires k < |s.delivered|
  {
    GuardAfter(s.delivered[..k]) < s.delivered[k].message.seqNo - 1
  }

  /** A drain that overtakes delivers a frame newer than the held one. */
  lemma {:induction false} NewerDelivered(s: State, accepts: Channel, ts: int, held: seq<Message>) returns (k: nat)
    requires s.control.Some? && Tidy(s) && Holds(s, held) && held != [] && AcceptsNewer(s, held, accepts, ts)
    ensures var d := Drain(s, accepts, ts).0.delivered; k < |d| && d[k].message.seqNo > held[0].seqNo
    decreases |s.urgent|
  {
    hide Schema, Tidy, Holds, EncodeHead, Attempt;
    AttemptSync(s, accepts, ts, held);
    GoneShrinks(s, accepts, ts);
    var s1 := Attempt(s, accepts, ts).0;
    if Newer(EncodeHead(s, ts).message, held) {
      AcceptedLastly(s, accepts, ts);
      DrainGrows(s1, accepts, ts);
      k := |s1.delivered| - 1;
    } else {
      k := NewerDelivered(s1, accepts, ts, held);
    }
  }

  lemma AcceptedLastly(s: State, accepts: Channel, ts: int)
    requires s.urgent != [] && EncodeHead(s, ts).Made? && Attempt(s, accepts, ts).1.Gone?
    ensures var d := Attempt(s, accepts, ts).0.delivered; d != [] && d[|d| - 1].message == EncodeHead(s, ts).message
  {
    hide Schema, Encode;
  }

  /** A number that was handed out below a delivered one, but never delivered, makes that one early. */
  lemma EarlyFrame(s: State, k: nat, n: int)
    requires s.control.Some? && Burnt(s, n) && k < |s.delivered| && s.delivered[k].message.seqNo > n
    ensures CameEarly(s, k)
  {
    var d := s.delivered;
    assert forall i :: 0 <= i < k ==> d[..k][i] == d[i];
    GuardBelow(d[..k], n);
  }

  /** A held number that an event past the queue, or a drain, jumps over; or a number it burns. */
  lemma BreakLeaves(s: State, accepts: Channel, ev: Event, held: seq<Message>) returns (early: bool, k: nat, n: int)
    requires s.control.Some? && Tidy(s) && Holds(s, held) && BreaksBeside(s, held, accepts, ev)
    ensures var s' := Step(s, accepts, ev);
      && s'.control.Some?
      && (if early then k < |s'.delivered| && CameEarly(s', k)
          else Burnt(s', n) && (held != [] ==> n != held[0].seqNo))
  {
    hide Schema, Tidy, Build, WheelBody, Drain, CameEarly, Overtakes;
    early, k, n := false, 0, 0;
    SyncStep(s, accepts, ev);
    if BuiltBy(s, ev).Made? {
      if accepts(s.attempts) {
        early, k := true, |s.delivered|;
        JumpedOver(s, accepts, ev, held);
      } else {
        BurntByRefusal(s, accepts, ev);
        n := s.control.value.lastNo + 1;
      }
    } else if ev.WasReset? {
      n := HeadFrame(s.urgent)[0].seqNo;
      ResetBurns(s, accepts);
    } else {
      early := true;
      k := DrainJumps(s, accepts, ev, held);
    }
  }

  lemma ResetBurns(s: State, accepts: Channel)
    requires s.control.Some? && Tidy(s) && HeadFrame(s.urgent) != []
    ensures Step(s, accepts, WasReset).control.Some? && Burnt(Step(s, accepts, WasReset), HeadFrame(s.urgent)[0].seqNo)
  {
    hide Schema;
  }

  lemma JumpedOver(s: State, accepts: Channel, ev: Event, held: seq<Message>)
    requires s.control.Some? && Tidy(s) && Holds(s, held) && BuiltBy(s, ev).Made? && accepts(s.attempts)
    requires HeadFrame(s.urgent) != [] || held != []
    ensures |Step(s, accepts, ev).delivered| > |s.delivered| && CameEarly(Step(s, accepts, ev), |s.delivered|)
  {
    hide Schema, Build, WheelBody, Tidy, Holds;
    var r := BuiltBy(s, ev);
    BuiltNumber(s.control.value, Outgoing(s, ev).value, ev.ts, r.control, r.message);
    HeldBackGuard(s, held);
    var d := Step(s, accepts, ev).delivered;
    assert d[..|s.delivered|] == s.delivered && d[|s.delivered|].message == r.message;
  }

  /** A held frame keeps the guard below the last number. */
  lemma HeldBackGuard(s: State, held: seq<Message>)
    requires s.control.Some? && Tidy(s) && Holds(s, held) && (HeadFrame(s.urgent) != [] || held != [])
    ensures GuardAfter(s.delivered) < s.control.value.lastNo
  {
    hide Schema;
    GuardBelow(s.delivered, if held != [] then held[0].seqNo else HeadFrame(s.urgent)[0].seqNo);
  }

  lemma DrainJumps(s: State, accepts: Channel, ev: Event, held: seq<Message>) returns (k: nat)
    requires s.control.Some? && Tidy(s) && Holds(s, held) && (ev.UrgentSent? || ev.RetryTimer?)
    requires Overtakes(Drains(s, ev), held, accepts, ev.ts)
    ensures k < |Step(s, accepts, ev).delivered| && CameEarly(Step(s, accepts, ev), k)
  {
    hide Schema, Tidy, InSync, Burnt, Line, Issued, UrgentFrames, WheelSum, WheelFramesRounded, Drain, CameEarly, AcceptsNewer;
    var s1 := if ev.UrgentSent? then s.(urgent := s.urgent + [Item(ev.body, None)]) else s.(retryTimer := false);
    if ev.UrgentSent? {
      PushKeeps(s, ev.body);
    } else {
      SameTrafficKeeps(s, s1);
    }
    OvertakesIgnoresTimer(Drains(s, ev), s1, held, accepts, ev.ts);
    OvertakesExactly(s1, accepts, ev.ts, held);
    k := NewerDelivered(s1, accepts, ev.ts, held);
    DrainDrains(s1, accepts, ev.ts);
    var t := Drain(s1, accepts, ev.ts).0;
    EarlyFrame(t, k, held[0].seqNo);
    SameDeliveries(t, Step(s, accepts, ev), k);
  }

  lemma SameDeliveries(t: State, u: State, k: nat)
    requires t.delivered == u.delivered && k < |t.delivered|
    ensures CameEarly(t, k) <==> CameEarly(u, k)
  {
  }

  /** An early frame keeps the guard below its own number for good. */
  lemma EarlyStops(s: State, s': State, k: nat)
    requires s'.control.Some? && Tidy(s') && s.delivered <= s'.delivered && k < |s.delivered| && CameEarly(s, k)
    requires s.control.Some? && Tidy(s)
    ensures GuardAfter(s'.delivered) < s.control.value.lastNo
  {
    hide Schema;
    var d := s'.delivered;
    assert d[..k] == s.delivered[..k] && d[k] == s.delivered[k];
    UniqueNumbers(s', k);
    GuardStuck(d, k, d[k].message.seqNo);
  }

  /** The breaking turn seen from its own queue, with the other queue beside it. */
  lemma BreakStopsBeside(s: State, o: State, accepts: Channel, ev: Event) returns (early: bool, k: nat, n: int)
    requires Beside(s, o) && BreaksBeside(s, HeadFrame(o.urgent), accepts, ev)
    ensures var s' := Step(s, accepts, ev);
      && s'.control.Some? && Tidy(s')
      && (if early then k < |s'.delivered| && CameEarly(s', k)
          else Burnt(s', n) && Seen(o, s').control.Some? && Burnt(Seen(o, s'), n))
  {
    hide Step, Tidy, Burnt, BreaksBeside, CameEarly, SameMessages, Seen;
    var s' := Step(s, accepts, ev);
    BesideHolds(s, o);
    StepBeside(s, o, accepts, ev);
    BesideMessages(s', Seen(o, s'));
    SeenFields(o, s');
    early, k, n := BreakLeaves(s, accepts, ev, HeadFrame(o.urgent));
    if !early {
      SeenBurnt(s, o, s', Seen(o, s'), n);
    }
  }

  lemma {:induction false} SameGuard(d: seq<Delivery>, e: seq<Delivery>)
    requires SameMessages(d, e)
    ensures GuardAfter(d) == GuardAfter(e)
    decreases |d|
  {
    if d == [] {
    } else {
      var n := |d| - 1;
      assert forall i :: 0 <= i < n ==> d[..n][i] == d[i] && e[..n][i] == e[i];
      SameGuard(d[..n], e[..n]);
    }
  }

  /** After a break at either queue the guard stays below the number handed out last, whatever both queues do later. */
  lemma BrokenPairStopsTheReceiver(p: Pair, accepts: Channel, turn: Turn, turns: seq<Turn>)
    requires PairTidy(p) && PairBreaks(p, accepts, turn)
    ensures var p1 := PairStep(p, accepts, turn);
      p1.touch.control.Some? && GuardAfter(PairAfter(p1, accepts, turns).touch.delivered) < p1.touch.control.value.lastNo
  {
    hide Step, Beside, Tidy, Burnt, BreaksBeside, CameEarly, SameMessages, PairAfter, Seen;
    var p1 := PairStep(p, accepts, turn);
    TurnKeeps(p, accepts, turn);
    PairRuns(p1, accepts, turns);
    var p2 := PairAfter(p1, accepts, turns);
    BesideHolds(p1.touch, p1.keys);
    BesideHolds(p2.touch, p2.keys);
    BesideMessages(p2.touch, p2.keys);
    SameGuard(p2.touch.delivered, p2.keys.delivered);
    match turn
    case AtTouch(ev) =>
      var early, k, n := BreakStopsBeside(p.touch, p.keys, accepts, ev);
      if early {
        EarlyStops(p1.touch, p2.touch, k);
      } else {
        PairBurntStays(p1, accepts, turns, n);
        BurntNumber(p2.touch, n);
        BurntNumber(p1.touch, n);
      }
    case AtKeys(ev) =>
      BesideSymmetric(p.touch, p.keys);
      var early, k, n := BreakStopsBeside(p.keys, p.touch, accepts, ev);
      if early {
        BesideSymmetric(p2.touch, p2.keys);
        BesideHolds(p2.keys, p2.touch);
        EarlyStops(p1.keys, p2.keys, k);
      } else {
        PairBurntStays(p1, accepts, turns, n);
        BurntNumber(p2.touch, n);
        BurntNumber(p1.touch, n);
      }
  }

  // ----- what each queue keeps on its own -----------------------------------------------------------

  lemma {:induction false} ForeignIsQuiet(d: seq<Delivery>, x: seq<Delivery>)
    ensures UrgentFrames(d + Foreign(x)) == UrgentFrames(d)
    ensures WheelSum(d + Foreign(x)) == WheelSum(d)
    decreases |x|
  {
    hide UrgentFrames, WheelSum;
    if x == [] {
      assert d + Foreign(x) == d;
    } else {
      var n := |x| - 1;
      ForeignIsQuiet(d, x[..n]);
      assert d + Foreign(x) == d + Foreign(x[..n]) + [Delivery(DirectKind, x[n].message)];
      OneMoreForeign(d + Foreign(x[..n]), x[n].message);
    }
  }

  lemma OneMoreForeign(d: seq<Delivery>, m: Message)
    ensures UrgentFrames(d + [Delivery(DirectKind, m)]) == UrgentFrames(d)
    ensures WheelSum(d + [Delivery(DirectKind, m)]) == WheelSum(d)
  {
    OneMoreUrgent(d, Delivery(DirectKind, m));
    OneMoreWheel(d, Delivery(DirectKind, m));
  }

  /** The other queue's traffic leaves this queue's line, frames and wheel deltas alone. */
  lemma SeenIsQuiet(o: State, s: State)
    ensures var o' := Seen(o, s); Line(o') == Line(o) && Issued(o') == Issued(o) && WheelSum(o'.delivered) == WheelSum(o.delivered)
  {
    ForeignIsQuiet(o.delivered, if |o.delivered| <= |s.delivered| then s.delivered[|o.delivered|..] else []);
    hide UrgentFrames, WheelSum;
    assert Foreign([]) == [];
  }

  lemma OfTurns(turns: seq<Turn>)
    requires turns != []
    ensures OfTouch(turns) == OfTouch(turns[..|turns| - 1]) + (match turns[|turns| - 1] { case AtTouch(ev) => [ev] case AtKeys(_) => [] })
    ensures OfKeys(turns) == OfKeys(turns[..|turns| - 1]) + (match turns[|turns| - 1] { case AtKeys(ev) => [ev] case AtTouch(_) => [] })
  {
  }

  lemma MoreEnqueued(events: seq<Event>, ev: Event)
    ensures Enqueued(events + [ev]) == Enqueued(events) + Enqueued([ev])
  {
    EnqueuedLast(events + [ev]);
    assert (events + [ev])[..|events|] == events;
  }

  lemma TurnLines(p: Pair, accepts: Channel, turn: Turn)
    requires PairTidy(p)
    ensures var p' := PairStep(p, accepts, turn);
      turn != AtTouch(WasReset) ==>
        Line(p'.touch) == Line(p.touch) + (if turn.AtTouch? then Enqueued([turn.event]) else []) && Issued(p.touch) <= Issued(p'.touch)
    ensures var p' := PairStep(p, accepts, turn);
      turn != AtKeys(WasReset) ==>
        Line(p'.keys) == Line(p.keys) + (if turn.AtKeys? then Enqueued([turn.event]) else []) && Issued(p.keys) <= Issued(p'.keys)
  {
    hide Step, Beside, Tidy, Line, Issued, Enqueued, Seen;
    BesideHolds(p.touch, p.keys);
    BesideSymmetric(p.touch, p.keys);
    BesideHolds(p.keys, p.touch);
    match turn
    case AtTouch(ev) =>
      if ev != WasReset {
        LineStep(p.touch, accepts, ev);
      }
      SeenIsQuiet(p.keys, Step(p.touch, accepts, ev));
    case AtKeys(ev) =>
      if ev != WasReset {
        LineStep(p.keys, accepts, ev);
      }
      SeenIsQuiet(p.touch, Step(p.keys, accepts, ev));
  }

  /** Without a reset of its own each queue is first in, first out, loses nothing and builds a frame once, whatever the other does. */
  lemma {:induction false} QueuesKeepTheirOrder(p: Pair, accepts: Channel, turns: seq<Turn>)
    requires PairTidy(p)
    ensures var p' := PairAfter(p, accepts, turns);
      WithoutReset(OfTouch(turns)) ==> Line(p'.touch) == Line(p.touch) + Enqueued(OfTouch(turns)) && Issued(p.touch) <= Issued(p'.touch)
    ensures var p' := PairAfter(p, accepts, turns);
      WithoutReset(OfKeys(turns)) ==> Line(p'.keys) == Line(p.keys) + Enqueued(OfKeys(turns)) && Issued(p.keys) <= Issued(p'.keys)
    decreases |turns|
  {
    hide PairStep, Beside, Line, Issued, Enqueued;
    if turns == [] {
      EnqueuedNone();
    } else {
      var n := |turns| - 1;
      var init := turns[..n];
      QueuesKeepTheirOrder(p, accepts, init);
      PairRuns(p, accepts, init);
      TurnLines(PairAfter(p, accepts, init), accepts, turns[n]);
      OfTurns(turns);
      MoreEnqueued(OfTouch(init), turns[n].event);
      MoreEnqueued(OfKeys(init), turns[n].event);
      assert OfTouch(init) + [] == OfTouch(init) && OfKeys(init) + [] == OfKeys(init);
    }
  }

  /** Deltas the touch queue throws away in a run. */
  function PairWheelLoss(p: Pair, accepts: Channel, turns: seq<Turn>): Vec
    decreases |turns|
  {
    if turns == [] then ZERO
    else
      var init := turns[..|turns| - 1];
      Plus(PairWheelLoss(p, accepts, init),
           match turns[|turns| - 1] {
             case AtTouch(ev) => WheelLost(PairAfter(p, accepts, init).touch, ev)
             case AtKeys(_) => ZERO
           })
  }

  lemma TurnBalance(p: Pair, accepts: Channel, turn: Turn)
    requires PairTidy(p)
    ensures var t, t' := p.touch, PairStep(p, accepts, turn).touch;
      Plus(Plus(WheelSum(t'.delivered), Pending(t')), if turn.AtTouch? then WheelLost(t, turn.event) else ZERO)
      == Plus(Plus(WheelSum(t.delivered), Pending(t)), if turn.AtTouch? then WheelInput(turn.event) else ZERO)
  {
    hide Step, Beside, Tidy, WheelSum, WheelLost, WheelInput, Seen;
    BesideHolds(p.touch, p.keys);
    match turn
    case AtTouch(ev) => WheelStepBalance(p.touch, accepts, ev);
    case AtKeys(ev) =>
      var s := Step(p.keys, accepts, ev);
      SeenIsQuiet(p.touch, s);
      SeenFields(p.touch, s);
  }

  /** The touch queue's wheel deltas balance in every run of both queues. */
  lemma {:induction false} PairWheelBalance(p: Pair, accepts: Channel, turns: seq<Turn>)
    requires PairTidy(p)
    ensures var t' := PairAfter(p, accepts, turns).touch;
      Plus(Plus(WheelSum(t'.delivered), Pending(t')), PairWheelLoss(p, accepts, turns))
      == Plus(Plus(WheelSum(p.touch.delivered), Pending(p.touch)), WheelTotal(OfTouch(turns)))
    decreases |turns|
  {
    hide PairStep, Beside, WheelSum, Pending, WheelLost, WheelInput;
    if turns == [] {
    } else {
      var n := |turns| - 1;
      var init := turns[..n];
      PairWheelBalance(p, accepts, init);
      PairRuns(p, accepts, init);
      TurnBalance(PairAfter(p, accepts, init), accepts, turns[n]);
      OfTurns(turns);
      if turns[n].AtTouch? {
        MoreWheel(OfTouch(init), turns[n].event);
      } else {
        assert OfTouch(init) + [] == OfTouch(init);
      }
    }
  }

  lemma MoreWheel(events: seq<Event>, ev: Event)
    ensures WheelTotal(events + [ev]) == Plus(WheelTotal(events), WheelInput(ev))
  {
    assert (events + [ev])[..|events|] == events;
  }

  /** No reset at the touch queue, and its encoder takes every accumulated delta it is given. */
  predicate TouchEncoderNeverThrows(p: Pair, accepts: Channel, turns: seq<Turn>) {
    forall i :: 0 <= i < |turns| && turns[i].AtTouch? ==>
      (var t := PairAfter(p, accepts, turns[..i]).touch;
       turns[i].event != WasReset && (turns[i].event.WheelTimer? && t.pendingWheel.Some? ==> BuiltBy(t, turns[i].event).Made?))
  }

  lemma TouchEncoderPrefix(p: Pair, accepts: Channel, turns: seq<Turn>)
    requires turns != [] && TouchEncoderNeverThrows(p, accepts, turns)
    ensures var n := |turns| - 1;
      && TouchEncoderNeverThrows(p, accepts, turns[..n])
      && (turns[n].AtTouch? ==> WheelLost(PairAfter(p, accepts, turns[..n]).touch, turns[n].event) == ZERO)
  {
    hide PairAfter, BuiltBy;
    var n := |turns| - 1;
    assert forall i :: 0 <= i < n ==> turns[..n][..i] == turns[..i] && turns[..n][i] == turns[i];
  }

  lemma {:induction false} PairNothingLost(p: Pair, accepts: Channel, turns: seq<Turn>)
    requires TouchEncoderNeverThrows(p, accepts, turns)
    ensures PairWheelLoss(p, accepts, turns) == ZERO
    decreases |turns|
  {
    hide PairAfter, TouchEncoderNeverThrows, WheelLost;
    if turns == [] {
    } else {
      TouchEncoderPrefix(p, accepts, turns);
      PairNothingLost(p, accepts, turns[..|turns| - 1]);
    }
  }

  /** With no reset and no throwing encoder at the touch queue, its accepted plus pending deltas are the deltas put in. */
  lemma PairWheelConserved(sessionId: string, accepts: Channel, turns: seq<Turn>)
    requires TouchEncoderNeverThrows(FreshPair(sessionId), accepts, turns)
    ensures var t' := PairAfter(FreshPair(sessionId), accepts, turns).touch;
      Plus(WheelSum(t'.delivered), Pending(t')) == WheelTotal(OfTouch(turns))
  {
    hide PairAfter, PairStep, TouchEncoderNeverThrows, WheelTotal, PairWheelLoss, Beside, PairInStep, WheelSum, Pending;
    var p := FreshPair(sessionId);
    FreshPairFacts(sessionId);
    PairWheelBalance(p, accepts, turns);
    PairNothingLost(p, accepts, turns);
    FreshBalance(sessionId);
  }
}
