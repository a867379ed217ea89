/**
 * When the input service is armed and attached, told by the events of a run
 * alone; what a stopped or not yet attached service does with a frame; and
 * which frame gets which answer.
 */
module InputServiceArming {
  import opened Basics
  import opened Control
  import opened InputServiceSpec
  import opened InputServiceRuns

  /** Attached by the events of a run: an attach with no begin and no detach since. */
  function AttachedBy(events: seq<Event>): bool {
    if events == [] then false
    else
      match events[|events| - 1]
      case AttachedTo => true
      case Began(_) => false
      case Detached => false
      case _ => AttachedBy(events[..|events| - 1])
  }

  /** A stop is complete when the adapter has detached, or at once when it was not attached. */
  predicate CompletesStop(events: seq<Event>, j: nat)
    requires j < |events|
  {
    events[j].Detached? || (events[j].StopAsked? && !AttachedBy(events[..j]))
  }

  /** The session armed by the events of a run: that of the last begin, unless a stop completed since. */
  function ArmedBy(events: seq<Event>): Option<string> {
    if events == [] then None
    else
      var n := |events| - 1;
      if events[n].Began? then Some(events[n].sessionId)
      else if CompletesStop(events, n) then None
      else ArmedBy(events[..n])
  }

  /** What the laptop has sent by the events of a run: numbered from 1, each with the session armed at the time. */
  function LaptopFrames(events: seq<Event>): seq<Message> {
    if events == [] then []
    else
      var init, ev := events[..|events| - 1], events[|events| - 1];
      LaptopFrames(init) +
      match ev {
        case LaptopFrame(b, ts) =>
          [Message(match ArmedBy(init) { case Some(id) => id case None => "" }, |LaptopFrames(init)| + 1, ts, b)]
        case _ => []
      }
  }

  lemma FrameKeepsArming(s: Service, id: string, raw: Raw, phase: string, target: Option<int>)
    ensures var s' := HandleFrame(s, id, raw, phase, target).0;
      && s'.sessionId == s.sessionId && s'.attached == s.attached && s'.laptopSeq == s.laptopSeq
      && (s'.guard.Some? <==> s.guard.Some?)
  {
    HandledFrame(s, id, raw, phase, target);
  }

  /** In every run the service is armed, attached and has sent exactly as the events say. */
  lemma {:induction false} ArmingExactly(events: seq<Event>)
    ensures var l := After(EMPTY, events);
      && l.service.sessionId == ArmedBy(events)
      && (l.service.guard.Some? <==> ArmedBy(events).Some?)
      && l.service.attached == AttachedBy(events)
      && l.sent == LaptopFrames(events)
    decreases |events|
  {
    hide HandleFrame;
    if events == [] {
    } else {
      var init, ev := events[..|events| - 1], events[|events| - 1];
      ArmingExactly(init);
      RunKeepsInv(init);
      if ev.FrameCame? {
        FrameKeepsArming(After(EMPTY, init).service, ev.sessionId, ev.raw, ev.phase, ev.target);
      }
    }
  }

  // ----- after a stop, and before an attach -----------------------------------------

  predicate NoBeginAfter(events: seq<Event>, j: nat) { forall k :: j < k < |events| ==> !events[k].Began? }

  predicate NoAttachAfter(events: seq<Event>, j: nat) { forall k :: j < k < |events| ==> !events[k].AttachedTo? }

  lemma {:induction false} StaysDisarmed(events: seq<Event>, j: nat)
    requires j < |events| && CompletesStop(events, j) && NoBeginAfter(events, j)
    ensures ArmedBy(events).None?
    decreases |events|
  {
    var n := |events| - 1;
    if j < n {
      assert events[..n][..j] == events[..j];
      StaysDisarmed(events[..n], j);
    }
  }

  lemma {:induction false} StaysUnattached(events: seq<Event>, j: nat)
    requires j < |events| && (events[j].Began? || events[j].Detached?) && NoAttachAfter(events, j)
    ensures !AttachedBy(events)
    decreases |events|
  {
    var n := |events| - 1;
    if j < n {
      StaysUnattached(events[..n], j);
    }
  }

  /**
   * From a completed stop until the next begin the guard is absent, every frame whatever it claims is refused as
   * not attached and changes nothing, and the adapter is not called.
   */
  lemma {:induction false} StoppedIsSilent(events: seq<Event>, j: nat, id: string, raw: Raw, phase: string, target: Option<int>)
    requires j < |events| && CompletesStop(events, j) && NoBeginAfter(events, j)
    ensures var l := After(EMPTY, events);
      && l.service.guard.None? && l.service.sessionId.None?
      && HandleFrame(l.service, id, raw, phase, target) == (l.service, Refused(InputNotAttached))
      && l.calls == After(EMPTY, events[..j]).calls
    decreases |events|
  {
    hide ArmedBy, CompletesStop;
    var n := |events| - 1;
    ArmingExactly(events);
    StaysDisarmed(events, j);
    ActsExactly(After(EMPTY, events[..n]), events[n]);
    if j < n {
      assert events[..n][..j] == events[..j];
      assert CompletesStop(events[..n], j) by { StopInPrefix(events, n, j); }
      StoppedIsSilent(events[..n], j, id, raw, phase, target);
    } else {
      StopIsNoFrame(events, j);
    }
  }

  lemma StopInPrefix(events: seq<Event>, n: nat, j: nat)
    requires j < n <= |events| && CompletesStop(events, j)
    ensures CompletesStop(events[..n], j)
  {
    assert events[..n][..j] == events[..j];
  }

  lemma StopIsNoFrame(events: seq<Event>, j: nat)
    requires j < |events| && CompletesStop(events, j)
    ensures !events[j].FrameCame?
  {
  }

  /** From a begin until its attach only peer authentication gets past the gates, and the adapter is not called. */
  lemma {:induction false} UnattachedOnlyAuthenticates(events: seq<Event>, j: nat, id: string, raw: Raw, phase: string, target: Option<int>)
    requires j < |events| && events[j].Began? && NoAttachAfter(events, j)
    ensures var l := After(EMPTY, events); var o := HandleFrame(l.service, id, raw, phase, target).1;
      && (o.Refused? || (o.PeerAuth? && IsPeerAuth(o.message.body)))
      && l.calls == After(EMPTY, events[..j]).calls
    decreases |events|
  {
    hide AttachedBy, ArmedBy, AcceptControlFrame, IsPeerAuth, IsInput;
    var n := |events| - 1;
    ArmingExactly(events);
    ArmingExactly(events[..n]);
    StaysUnattached(events, j);
    ActsExactly(After(EMPTY, events[..n]), events[n]);
    if j < n {
      assert events[..n][..j] == events[..j];
      StaysUnattached(events[..n], j);
      UnattachedOnlyAuthenticates(events[..n], j, id, raw, phase, target);
    }
  }

  // ----- which frame gets which answer ---------------------------------------------------

  /** The frame fits, is in its schema, names the armed session and is exactly next. */
  predicate Passes(s: Service, id: string, raw: Raw) {
    && raw.bytes <= MAX_CONTROL_FRAME_BYTES && raw.content.Some? && Schema(raw.content.value)
    && s.sessionId == Some(id) && raw.content.value.sessionId == id
    && s.guard.Some? && raw.content.value.seqNo == s.guard.value + 1
  }

  /** Input is let through to the tab. */
  predicate Live(s: Service, phase: string, target: Option<int>) { phase == REMOTE_ACTIVE && target.Some? && s.attached }

  /** Each answer has its exact condition; the guard moves exactly for a frame that passes, whatever the later gates say. */
  lemma AnswersExactly(s: Service, id: string, raw: Raw, phase: string, target: Option<int>)
    ensures var (s', o) := HandleFrame(s, id, raw, phase, target);
      var passes := Passes(s, id, raw);
      var auth := passes && IsPeerAuth(raw.content.value.body);
      && s' == (if passes then s.(guard := Some(s.guard.value + 1)) else s)
      && (o.PeerAuth? <==> auth)
      && (o.Acts? <==> passes && Live(s, phase, target) && IsInput(raw.content.value.body))
      && (o.AsksViewport? <==> passes && Live(s, phase, target) && raw.content.value.body.ViewportRequest?)
      && (o.StopNoted? <==> passes && Live(s, phase, target) && raw.content.value.body.SessionStop?)
      && (o.PeerAuth? || o.Acts? ==> o.message == raw.content.value)
      && (o == Refused(InputNotAttached) <==>
            || s.sessionId != Some(id) || s.guard.None?
            || (passes && !auth && (phase != REMOTE_ACTIVE || (target.Some? && !s.attached))))
      && (o == Refused(TargetTabClosed) <==> passes && !auth && phase == REMOTE_ACTIVE && target.None?)
      && (passes && Live(s, phase, target) ==> (o == Refused(Invalid) <==> raw.content.value.body.ViewportSync?))
  {
    hide ValidBody, FrameBytes;
  }

  /** A frame of the armed session that fits and is in its schema is refused as a replay exactly when its number was accepted since the begin. */
  lemma ReplayedExactly(events: seq<Event>, id: string, raw: Raw, phase: string, target: Option<int>)
    requires ArmedBy(events) == Some(id)
    requires raw.bytes <= MAX_CONTROL_FRAME_BYTES && raw.content.Some? && Schema(raw.content.value) && raw.content.value.sessionId == id
    ensures var l := After(EMPTY, events);
      HandleFrame(l.service, id, raw, phase, target).1 == Refused(Replayed)
      <==> exists i :: 0 <= i < |l.accepted| && l.accepted[i].seqNo == raw.content.value.seqNo
  {
    hide After, ArmedBy, ValidBody;
    ArmingExactly(events);
    RunKeepsInv(events);
    var l := After(EMPTY, events);
    var k := raw.content.value.seqNo;
    if k <= l.service.guard.value {
      assert l.accepted[k - 1].seqNo == k;
    }
  }

  /** Whoever the frame comes from: too large is told first, then what fails the schema or names another session. */
  lemma MalformedExactly(s: Service, id: string, raw: Raw, phase: string, target: Option<int>)
    requires s.sessionId == Some(id) && s.guard.Some?
    ensures var o := HandleFrame(s, id, raw, phase, target).1;
      && (o == Refused(TooLarge) <==> raw.bytes > MAX_CONTROL_FRAME_BYTES)
      && (o == Refused(Replayed) ==> raw.content.Some? && Schema(raw.content.value) && raw.content.value.sessionId == id)
  {
    hide ValidBody;
  }
}
