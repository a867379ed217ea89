/**
 * The prioritized input sender as step functions over one value: one urgent
 * queue, one coalesced move, one accumulated wheel delta and three timers, over
 * a channel that accepts or refuses each attempt as it pleases.
 */
module InputSenderSpec {
  import opened Basics
  import opened Control

  datatype WheelDelta = WheelDelta(x: Coord, y: Coord, deltaX: real, deltaY: real)

  /** A queued key, button or text; `encoded` keeps the frame of the first attempt. */
  datatype Item = Item(body: Body, encoded: Option<Message>)

  datatype Kind = UrgentKind | MoveKind | WheelKind(delta: WheelDelta) | DirectKind

  datatype Delivery = Delivery(kind: Kind, message: Message)

  /** Whether the channel accepts its n-th attempt. */
  type Channel = nat -> bool

  datatype State = State(
    control: Option<Sender>,
    latestMove: Option<Body>,
    moveTimer: bool,
    pendingWheel: Option<WheelDelta>,
    wheelTimer: bool,
    urgent: seq<Item>,
    retryTimer: bool,
    droppedMoves: nat,
    sentFrames: nat,
    attempts: nat,
    delivered: seq<Delivery>)

  /** A live session whose sender has not numbered anything yet. */
  function Fresh(sessionId: string): State {
    State(Some(Sender(sessionId, 0)), None, false, None, false, [], false, 0, 0, 0, [])
  }

  // ----- encoding and transmitting ----------------------------------------------

  /** What calling a builder gives: '' without a live session, an exception, or a numbered frame. */
  datatype BuildResult = NoSession | Fails | Made(control: Sender, message: Message)

  function Build(control: Option<Sender>, b: Body, ts: int): BuildResult {
    if control.None? then NoSession
    else
      match Encode(control.value, b, ts)
      case (s, Frame(m)) => Made(s, m)
      case (_, Threw) => Fails
  }

  /** One attempt on the channel. */
  function Transmit(s: State, accepts: Channel, kind: Kind, m: Message): State {
    if accepts(s.attempts) then s.(attempts := s.attempts + 1, delivered := s.delivered + [Delivery(kind, m)])
    else s.(attempts := s.attempts + 1)
  }

  /** `Math.round`. */
  function Round(r: real): int { (r + 0.5).Floor }

  function WheelBody(d: WheelDelta): Body { Wheel(d.x, d.y, Round(d.deltaX), Round(d.deltaY)) }

  // ----- moves --------------------------------------------------------------------

  function SendMove(s: State, b: Body): State { s.(latestMove := Some(b), moveTimer := true) }

  function FlushMove(s: State, accepts: Channel, ts: int): State {
    if s.latestMove.None? then s
    else
      var s1 := s.(latestMove := None);
      match Build(s.control, s.latestMove.value, ts)
      case NoSession => s1
      case Fails => s1
      case Made(c, m) =>
        var s2 := Transmit(s1.(control := Some(c)), accepts, MoveKind, m);
        if accepts(s.attempts) then s2.(sentFrames := s2.sentFrames + 1) else s2.(droppedMoves := s2.droppedMoves + 1)
  }

  // ----- wheel ----------------------------------------------------------------------

  function Accumulate(p: Option<WheelDelta>, d: WheelDelta): WheelDelta {
    if p.None? then d else WheelDelta(d.x, d.y, p.value.deltaX + d.deltaX, p.value.deltaY + d.deltaY)
  }

  function SendWheel(s: State, d: WheelDelta): State {
    s.(pendingWheel := Some(Accumulate(s.pendingWheel, d)), wheelTimer := true)
  }

  function FlushWheel(s: State, accepts: Channel, ts: int): State {
    if s.pendingWheel.None? then s
    else
      var d := s.pendingWheel.value;
      var s1 := s.(pendingWheel := None);
      match Build(s.control, WheelBody(d), ts)
      case NoSession => s1
      case Fails => s1
      case Made(c, m) =>
        var s2 := Transmit(s1.(control := Some(c)), accepts, WheelKind(d), m);
        if accepts(s.attempts) then s2.(sentFrames := s2.sentFrames + 1) else s2.(pendingWheel := Some(d))
  }

  // ----- urgent input -------------------------------------------------------------------

  /** The head of the queue with its frame, encoding it on the first attempt only. */
  function EncodeHead(s: State, ts: int): BuildResult
    requires s.urgent != []
  {
    if s.urgent[0].encoded.Some? then Made(if s.control.Some? then s.control.value else Sender("", 0), s.urgent[0].encoded.value)
    else Build(s.control, s.urgent[0].body, ts)
  }

  function WithHead(s: State, c: Sender, m: Message): State
    requires s.urgent != []
  {
    if s.urgent[0].encoded.Some? then s
    else s.(control := Some(c), urgent := [Item(s.urgent[0].body, Some(m))] + s.urgent[1..])
  }

  /** What became of the head of the queue: it left, the channel refused it, or its builder threw. */
  datatype HeadOutcome = Gone | Refused | Thrown

  /** One turn: drop, send or keep the head. */
  function Attempt(s: State, accepts: Channel, ts: int): (State, HeadOutcome)
    requires s.urgent != []
  {
    match EncodeHead(s, ts)
    case NoSession => (s.(urgent := s.urgent[1..]), Gone)
    case Fails => (s, Thrown)
    case Made(c, m) =>
      var s1 := WithHead(s, c, m);
      var s2 := Transmit(s1, accepts, UrgentKind, m);
      if accepts(s.attempts) then (s2.(urgent := s1.urgent[1..], sentFrames := s2.sentFrames + 1), Gone) else (s2, Refused)
  }

  /** A head that left shortens the queue by one. */
  lemma GoneShrinks(s: State, accepts: Channel, ts: int)
    requires s.urgent != [] && Attempt(s, accepts, ts).1.Gone?
    ensures |Attempt(s, accepts, ts).0.urgent| == |s.urgent| - 1
  {
  }

  /** Send from the head until the channel refuses or the queue is empty; true when a builder threw. */
  function Drain(s: State, accepts: Channel, ts: int): (State, bool)
    decreases |s.urgent|
  {
    if s.urgent == [] then (s, false)
    else
      match Attempt(s, accepts, ts)
      case (s', Gone) => Drain(s', accepts, ts)
      case (s', o) => (s', o.Thrown?)
  }

  function FlushUrgent(s: State, accepts: Channel, ts: int): State {
    var (s', threw) := Drain(s, accepts, ts);
    if !threw && s'.urgent != [] then s'.(retryTimer := true) else s'
  }

  function SendUrgent(s: State, accepts: Channel, b: Body, ts: int): State {
    FlushUrgent(s.(urgent := s.urgent + [Item(b, None)]), accepts, ts)
  }

  /** A frame the session sends at once, past the queue: challenges and proofs. */
  function SendDirect(s: State, accepts: Channel, b: Body, ts: int): State {
    match Build(s.control, b, ts)
    case NoSession => s
    case Fails => s
    case Made(c, m) => Transmit(s.(control := Some(c)), accepts, DirectKind, m)
  }

  function Dispose(s: State): State { s.(moveTimer := false, wheelTimer := false, retryTimer := false) }

  function Reset(s: State): State { Dispose(s).(latestMove := None, pendingWheel := None, urgent := []) }

  // ----- steps ------------------------------------------------------------------------------

  datatype Event =
    | MoveSent(body: Body)
    | MoveTimer(ts: int)
    | WheelSent(delta: WheelDelta)
    | WheelTimer(ts: int)
    | UrgentSent(body: Body, ts: int)
    | RetryTimer(ts: int)
    | FlushedNow(ts: int)
    | DirectSent(body: Body, ts: int)
    | Disposed
    | WasReset

  function Step(s: State, accepts: Channel, ev: Event): State {
    match ev
    case MoveSent(b) => SendMove(s, b)
    case MoveTimer(ts) => FlushMove(s.(moveTimer := false), accepts, ts)
    case WheelSent(d) => SendWheel(s, d)
    case WheelTimer(ts) => FlushWheel(s.(wheelTimer := false), accepts, ts)
    case UrgentSent(b, ts) => SendUrgent(s, accepts, b, ts)
    case RetryTimer(ts) => FlushUrgent(s.(retryTimer := false), accepts, ts)
    case FlushedNow(ts) => FlushMove(s, accepts, ts)
    case DirectSent(b, ts) => SendDirect(s, accepts, b, ts)
    case Disposed => Dispose(s)
    case WasReset => Reset(s)
  }
}
