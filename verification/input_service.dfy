/** `acceptControlFrame` and `InputService`, proved equal to the step functions. */
module InputService {
  import opened Basics
  import opened Control
  import opened Spec = InputServiceSpec

  method AcceptFrame(raw: Raw, guard: SequenceGuard, expectedSessionId: string) returns (r: Parsed)
    modifies guard
    ensures (guard.lastSeq, r) == Spec.AcceptControlFrame(raw, old(guard.lastSeq), expectedSessionId)
  {
    if raw.bytes > MAX_CONTROL_FRAME_BYTES {
      return Err(TooLarge);
    }
    if raw.content.None? || !Schema(raw.content.value) {
      return Err(Invalid);
    }
    var message := raw.content.value;
    if message.sessionId != expectedSessionId {
      return Err(Invalid);
    }
    var v := guard.Check(message.seqNo);
    match v {
      case Accepted => r := Ok(message);
      case ReplayRejected => r := Err(Replayed);
      case _ => r := Err(Invalid);
    }
  }

  class InputService {
    var guard: SequenceGuard?
    var sessionId: Option<string>
    var attached: bool
    var laptopSeq: nat

    ghost function View(): Service
      reads this, guard
    {
      Service(if guard == null then None else Some(guard.lastSeq), sessionId, attached, laptopSeq)
    }

    constructor ()
      ensures View() == START
    {
      guard, sessionId, attached, laptopSeq := null, None, false, 0;
    }

    /** Arm the session guard without touching the debugger. */
    method Begin(id: string)
      modifies this
      ensures View() == Spec.Begin(old(View()), id)
    {
      guard := new SequenceGuard();
      sessionId := Some(id);
      attached := false;
    }

    /** After the adapter attached. */
    method AttachDone()
      modifies this
      ensures View() == Spec.AttachDone(old(View()))
    {
      attached := true;
    }

    /** Stop up to its await; true when the adapter has to detach first. */
    method StopCalled() returns (mustDetach: bool)
      modifies this
      ensures View() == Spec.StopCalled(old(View())) && mustDetach == old(attached)
    {
      if attached {
        return true;
      }
      guard := null;
      sessionId := None;
      mustDetach := false;
    }

    method DetachDone()
      modifies this
      ensures View() == Spec.DetachDone(old(View()))
    {
      attached := false;
      guard := null;
      sessionId := None;
    }

    method BuildLaptopFrame(b: Body, ts: int) returns (m: Message)
      modifies this`laptopSeq
      ensures (View(), m) == Spec.BuildLaptopFrame(old(View()), b, ts)
    {
      laptopSeq := laptopSeq + 1;
      m := Message(if sessionId.Some? then sessionId.value else "", laptopSeq, ts, b);
    }

    /** Handle one frame up to its first await. */
    method HandleFrame(id: string, raw: Raw, phase: string, target: Option<int>) returns (r: Outcome)
      modifies guard
      ensures (View(), r) == Spec.HandleFrame(old(View()), id, raw, phase, target)
    {
      hide Spec.AcceptControlFrame, Schema;
      if sessionId != Some(id) || guard == null {
        return Refused(InputNotAttached);
      }
      var parsed := AcceptFrame(raw, guard, id);
      if parsed.Err? {
        return Refused(parsed.code);
      }
      r := Dispatch(parsed.message, phase, target);
    }

    method Dispatch(m: Message, phase: string, target: Option<int>) returns (r: Outcome)
      ensures r == Gate(View(), m, phase, target)
    {
      if m.body.PeerChallenge? || m.body.PeerProof? {
        return PeerAuth(m);
      }
      if phase != REMOTE_ACTIVE {
        return Refused(InputNotAttached);
      }
      if target.None? {
        return Refused(TargetTabClosed);
      }
      if !attached {
        return Refused(InputNotAttached);
      }
      match m.body {
        case PointerMove(_, _) => r := Acts(m);
        case PointerDown(_, _, _, _) => r := Acts(m);
        case PointerUp(_, _, _, _) => r := Acts(m);
        case Wheel(_, _, _, _) => r := Acts(m);
        case KeyDown(_, _, _) => r := Acts(m);
        case KeyUp(_, _, _) => r := Acts(m);
        case TextInsert(_) => r := Acts(m);
        case ViewportRequest => r := AsksViewport;
        case SessionStop(_) => r := StopNoted;
        case _ => r := Refused(Invalid);
      }
    }
  }
}
