/**
 * The laptop's input service as step functions: one atomic step from each
 * await to the next. Only its own fields and what it asks of the adapter and
 * the channel are modelled.
 */
module InputServiceSpec {
  import opened Basics
  import opened Control

  const REMOTE_ACTIVE := "remote-active"

  /** A text frame off the wire: its size in bytes, and what parsing makes of it. */
  datatype Raw = Raw(bytes: nat, content: Option<Message>)

  /** The wire form of a frame that its sender built. */
  function Wire(m: Message): Raw { Raw(FrameBytes(m), Some(m)) }

  datatype Code = InputNotAttached | TargetTabClosed | Invalid | TooLarge | Replayed

  datatype Parsed = Ok(message: Message) | Err(code: Code)

  /** `acceptControlFrame`: size, schema, session, and only then the sequence guard. */
  function AcceptControlFrame(raw: Raw, last: nat, expected: string): (nat, Parsed) {
    if raw.bytes > MAX_CONTROL_FRAME_BYTES then (last, Err(TooLarge))
    else if raw.content.None? || !Schema(raw.content.value) then (last, Err(Invalid))
    else if raw.content.value.sessionId != expected then (last, Err(Invalid))
    else
      match CheckSeq(last, raw.content.value.seqNo)
      case (next, Accepted) => (next, Ok(raw.content.value))
      case (next, ReplayRejected) => (next, Err(Replayed))
      case (next, _) => (next, Err(Invalid))
  }

  datatype Service = Service(guard: Option<nat>, sessionId: Option<string>, attached: bool, laptopSeq: nat)

  const START := Service(None, None, false, 0)

  /** What handling a frame does before its first await. */
  datatype Outcome =
    | Refused(code: Code)
    | PeerAuth(message: Message)
    | Acts(message: Message)
    | AsksViewport
    | StopNoted

  predicate IsPeerAuth(b: Body) { b.PeerChallenge? || b.PeerProof? }

  /** Frames that call the adapter. */
  predicate IsInput(b: Body) {
    b.PointerMove? || b.PointerDown? || b.PointerUp? || b.Wheel? || b.KeyDown? || b.KeyUp? || b.TextInsert?
  }

  /** The gates after validation, in the order the service checks them. */
  function Gate(s: Service, m: Message, phase: string, target: Option<int>): Outcome {
    if IsPeerAuth(m.body) then PeerAuth(m)
    else if phase != REMOTE_ACTIVE then Refused(InputNotAttached)
    else if target.None? then Refused(TargetTabClosed)
    else if !s.attached then Refused(InputNotAttached)
    else if IsInput(m.body) then Acts(m)
    else if m.body.ViewportRequest? then AsksViewport
    else if m.body.SessionStop? then StopNoted
    else Refused(Invalid)
  }

  function HandleFrame(s: Service, sessionId: string, raw: Raw, phase: string, target: Option<int>): (Service, Outcome) {
    if s.sessionId != Some(sessionId) || s.guard.None? then (s, Refused(InputNotAttached))
    else
      match AcceptControlFrame(raw, s.guard.value, sessionId)
      case (next, Err(code)) => (s.(guard := Some(next)), Refused(code))
      case (next, Ok(m)) => (s.(guard := Some(next)), Gate(s, m, phase, target))
  }

  function Begin(s: Service, sessionId: string): Service { s.(guard := Some(0), sessionId := Some(sessionId), attached := false) }

  /** The adapter attached; the viewport is asked for next. */
  function AttachDone(s: Service): Service { s.(attached := true) }

  /** Stop up to its await: an attached service first detaches. */
  function StopCalled(s: Service): Service { if s.attached then s else s.(guard := None, sessionId := None) }

  function DetachDone(s: Service): Service { s.(guard := None, sessionId := None, attached := false) }

  /** Any frame to the phone: the laptop's own numbering, never reset. */
  function BuildLaptopFrame(s: Service, b: Body, ts: int): (Service, Message) {
    (s.(laptopSeq := s.laptopSeq + 1), Message(if s.sessionId.Some? then s.sessionId.value else "", s.laptopSeq + 1, ts, b))
  }

  // ----- steps ----------------------------------------------------------------------

  datatype Event =
    | Began(sessionId: string)
    | AttachedTo
    | StopAsked
    | Detached
    | FrameCame(sessionId: string, raw: Raw, phase: string, target: Option<int>)
    | LaptopFrame(body: Body, ts: int)

  /** One call of an input operation on the adapter, for the frame that caused it, in its arming. */
  datatype Call = Call(arming: nat, message: Message)

  /** The service with its history: how often it was armed, the frames accepted since, every adapter call, every frame sent. */
  datatype Ledger = Ledger(service: Service, armings: nat, accepted: seq<Message>, calls: seq<Call>, sent: seq<Message>)

  const EMPTY := Ledger(START, 0, [], [], [])

  function Step(l: Ledger, ev: Event): Ledger {
    match ev
    case Began(id) => l.(service := Begin(l.service, id), armings := l.armings + 1, accepted := [])
    case AttachedTo => l.(service := AttachDone(l.service))
    case StopAsked => l.(service := StopCalled(l.service))
    case Detached => l.(service := DetachDone(l.service))
    case FrameCame(id, raw, phase, target) =>
      var (s', o) := HandleFrame(l.service, id, raw, phase, target);
      l.(service := s',
         accepted := if s'.guard != l.service.guard then l.accepted + [raw.content.value] else l.accepted,
         calls := if o.Acts? then l.calls + [Call(l.armings, o.message)] else l.calls)
    case LaptopFrame(b, ts) =>
      var (s', m) := BuildLaptopFrame(l.service, b, ts);
      l.(service := s', sent := l.sent + [m])
  }

  function After(l: Ledger, events: seq<Event>): Ledger
    decreases |events|
  {
    if events == [] then l else Step(After(l, events[..|events| - 1]), events[|events| - 1])
  }
}
