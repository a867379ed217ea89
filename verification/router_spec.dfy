/**
 * The signaling router as pure step functions over one immutable state.
 * `Router.SignalingRouter` is the same machine with mutable tables and is
 * proved equal to it, handler by handler.
 */
module RouterSpec {
  import opened Basics
  import opened OrderedMap
  import opened SignalingTypes

  datatype State = State(
    mode: AuthMode,
    conns: map<Id, Conn>,
    byDevice: map<Id, Id>,
    handles: set<Id>,
    authenticated: set<Id>,
    pendingAuth: map<Id, PendingAuth>,
    requests: OMap<string, Request>,
    pairings: OMap<Id, Pairing>,
    sessions: OMap<Id, Session>,
    devices: map<Id, Device>)
  {
    predicate Bound(c: Id) { c in conns && conns[c].role.Some? && conns[c].deviceId.Some? }
    predicate BoundAs(c: Id, r: Role, d: Id) { c in conns && conns[c].role == Some(r) && conns[c].deviceId == Some(d) }
    predicate HasRole(c: Id, r: Role) { Bound(c) && conns[c].role == Some(r) }
    predicate Revoked(d: Id) { d in devices && devices[d].revokedAtMs.Some? }
    /** In required mode only a proved key may create or join a pairing or request a session; accepting one asks for none. */
    predicate MayUse(c: Id) { mode == OpenMode || c in authenticated }
  }

  datatype Outcome = Outcome(st: State, out: seq<Delivery>, result: InboundResult)

  /** A fresh router over a device registry that may already hold devices. */
  function Init(mode: AuthMode, devices: map<Id, Device>): State {
    State(mode, map[], map[], {}, {}, map[], Empty(), Empty(), Empty(), devices)
  }

  /** Domain separator of the device-auth transcript. */
  const WS_AUTH_DOMAIN := "remotetab.v1.ws-auth"

  /** The text fields a device signs to prove its key to the signaling service. */
  function AuthFields(nonce: string, deviceId: Id): seq<string> {
    [WS_AUTH_DOMAIN, "1", nonce, deviceId.text]
  }

  // ----- sending ---------------------------------------------------------

  function Plain(body: Body): Frame { Frame(None, None, body) }
  function Reply(replyTo: Option<Id>, body: Body): Frame { Frame(None, replyTo, body) }

  /** Sending through the handle table: nothing happens without a handle. */
  function Send(handles: set<Id>, to: Id, frame: Frame): seq<Delivery> {
    if to in handles then [Delivery(to, frame)] else []
  }

  function Refuse(st: State, c: Id, code: ErrorCode, replyTo: Option<Id>): Outcome {
    Outcome(st, [Delivery(c, Reply(replyTo, Error(code)))], Ok)
  }

  function RefuseFatally(st: State, c: Id, code: ErrorCode, close: int): Outcome {
    Outcome(st, [Delivery(c, Plain(Error(code)))], Fatal(close))
  }

  // ----- connections -----------------------------------------------------

  function OnOpen(st: State, c: Id, now: int): State {
    st.(conns := st.conns[c := Conn(None, None, now)], handles := st.handles + {c})
  }

  function CanBind(st: State, c: Id, d: Id): bool {
    c in st.conns && !(d in st.byDevice && st.byDevice[d] != c && st.byDevice[d] in st.conns)
  }

  function OnHello(st: State, c: Id, frame: Frame, nonce: string): Outcome
    requires frame.body.Hello?
  {
    if c !in st.conns then Outcome(st, [], Fatal(WS_CLOSE_POLICY))
    else if st.conns[c].role.Some? then RefuseFatally(st, c, MESSAGE_INVALID, WS_CLOSE_PROTOCOL_ERROR)
    else if !CanBind(st, c, frame.body.deviceId) then RefuseFatally(st, c, SESSION_CONFLICT, WS_CLOSE_POLICY)
    else
      Outcome(
        st.(conns := st.conns[c := Conn(Some(frame.body.role), Some(frame.body.deviceId), st.conns[c].lastSeenMs)],
            byDevice := st.byDevice[frame.body.deviceId := c],
            pendingAuth := st.pendingAuth[c := PendingAuth(nonce, 0)]),
        [Delivery(c, Reply(frame.id, HelloOk(15, 45))), Delivery(c, Plain(AuthChallenge(nonce)))],
        Ok)
  }

  // ----- device authentication, cut at its awaits ---------------------------

  function AuthFailure(st: State, c: Id): Outcome {
    var failures := if c in st.pendingAuth then st.pendingAuth[c].failures + 1 else 1;
    var st' := if c in st.pendingAuth
               then st.(pendingAuth := st.pendingAuth[c := st.pendingAuth[c].(failures := failures)])
               else st;
    Outcome(st', [], if st.mode == Required || failures >= MAX_AUTH_FAILURES then Fatal(WS_CLOSE_POLICY) else Ok)
  }

  function OnAuthProof(st: State, c: Id, frame: Frame): Outcome
    requires frame.body.AuthProof?
  {
    if c !in st.pendingAuth || c !in st.conns || st.conns[c].deviceId.None? then
      RefuseFatally(st, c, MESSAGE_INVALID, WS_CLOSE_PROTOCOL_ERROR)
    else
      Outcome(st, [], Awaiting(AuthTask(c, st.conns[c].deviceId.value, st.pendingAuth[c].nonce,
                                        frame.body.proof, frame.id, AwaitingFingerprint)))
  }

  /** The step after the fingerprint of the presented key is known. */
  function ResumeFingerprint(st: State, task: AuthTask, fingerprint: string): Outcome {
    if fingerprint != task.proof.fingerprint then AuthFailure(st, task.connId)
    else if st.Revoked(task.deviceId) then RefuseFatally(st, task.connId, DEVICE_REVOKED, WS_CLOSE_POLICY)
    else Outcome(st, [], Awaiting(task.(stage := AwaitingVerify)))
  }

  function Enroll(devices: map<Id, Device>, d: Id, p: Proof): (EnrollResult, map<Id, Device>) {
    if d !in devices then (Enrolled, devices[d := Device(p.spki, p.fingerprint, p.displayName, None)])
    else if devices[d].spki == p.spki && devices[d].fingerprint == p.fingerprint then (Known, devices)
    else (Conflict, devices)
  }

  /** Whether a checked proof is let in: the key of a known device, or an unknown device in open mode. */
  predicate Admits(st: State, task: AuthTask, ok: bool) {
    && ok
    && (if task.deviceId in st.devices
        then st.devices[task.deviceId].spki == task.proof.spki
             && st.devices[task.deviceId].fingerprint == task.proof.fingerprint
        else st.mode == OpenMode)
  }

  /** The step after the signature has been checked. */
  function ResumeVerify(st: State, task: AuthTask, ok: bool): Outcome {
    if !Admits(st, task, ok) then AuthFailure(st, task.connId)
    else
      Outcome(
        st.(devices := Enroll(st.devices, task.deviceId, task.proof).1,
            pendingAuth := st.pendingAuth - {task.connId},
            authenticated := st.authenticated + {task.connId}),
        [Delivery(task.connId, Reply(task.replyTo, AuthOk(task.deviceId !in st.devices)))],
        Ok)
  }

  function Revoke(devices: map<Id, Device>, d: Id, now: int): map<Id, Device> {
    if d in devices && devices[d].revokedAtMs.None? then devices[d := devices[d].(revokedAtMs := Some(now))]
    else devices
  }

  // ----- pairing -----------------------------------------------------------

  function OpenPairingsPresentedBy(m: OMap<Id, Pairing>, c: Id): set<Id> {
    set k | k in m.rows && m.rows[k].Open() && m.rows[k].desktopConnId == c
  }

  function SetPairingState(m: OMap<Id, Pairing>, k: Id, state: PairingState): OMap<Id, Pairing>
    requires k in m.rows
  {
    m.(rows := m.rows[k := m.rows[k].(state := state)])
  }

  /** A new pairing cancels the first open one the desktop connection still presents. */
  function Supersede(m: OMap<Id, Pairing>, c: Id): OMap<Id, Pairing> {
    var open := First(m.order, OpenPairingsPresentedBy(m, c));
    if open.Some? then SetPairingState(m, open.value, CANCELLED) else m
  }

  function NewPairing(pairId: Id, c: Id, d: Id, f: Body, now: int): Pairing
    requires f.PairCreate?
  {
    Pairing(pairId, c, d, f.displayName, f.spki, f.fingerprint, None, None, None, None, None,
            CREATED, now, now + f.ttlSeconds * 1000)
  }

  function OnPairCreate(st: State, c: Id, frame: Frame, now: int, pairId: Id): Outcome
    requires frame.body.PairCreate?
  {
    if !st.MayUse(c) || !st.HasRole(c, Desktop) then RefuseFatally(st, c, MESSAGE_INVALID, WS_CLOSE_POLICY)
    else
      var p := NewPairing(pairId, c, st.conns[c].deviceId.value, frame.body, now);
      Outcome(st.(pairings := Supersede(st.pairings, c).Put(pairId, p)),
              [Delivery(c, Reply(frame.id, PairCreated(pairId, p.expiresAtMs)))], Ok)
  }

  function Joined(p: Pairing, c: Id, f: Body): Pairing
    requires f.PairJoin?
  {
    p.(state := JOINED, phoneConnId := Some(c), phoneDeviceId := Some(f.deviceId), phoneDisplayName := f.displayName,
       phoneSpki := Some(f.spki), phoneFingerprint := Some(f.fingerprint))
  }

  function OnPairJoin(st: State, c: Id, frame: Frame, now: int): Outcome
    requires frame.body.PairJoin?
  {
    var k := frame.body.pairId;
    if !st.MayUse(c) || !st.HasRole(c, Phone) then RefuseFatally(st, c, MESSAGE_INVALID, WS_CLOSE_POLICY)
    else if st.Revoked(st.conns[c].deviceId.value) then Refuse(st, c, DEVICE_REVOKED, frame.id)
    else if k !in st.pairings.rows then Refuse(st, c, PAIR_EXPIRED, frame.id)
    else
      JoinKnown(st, c, frame, now)
  }

  /** A join of a pairing on record. */
  function JoinKnown(st: State, c: Id, frame: Frame, now: int): Outcome
    requires frame.body.PairJoin? && frame.body.pairId in st.pairings.rows
  {
    var k := frame.body.pairId;
    var p := st.pairings.rows[k];
    match p.state
    case EXPIRED => Refuse(st, c, PAIR_EXPIRED, frame.id)
    case CANCELLED => Refuse(st, c, PAIR_EXPIRED, frame.id)
    case CONSUMED => Refuse(st, c, PAIR_ALREADY_USED, frame.id)
    case REJECTED => Refuse(st, c, PAIR_INVALID_PROOF, frame.id)
    case _ =>
      if now >= p.expiresAtMs then
        Refuse(st.(pairings := SetPairingState(st.pairings, k, EXPIRED)), c, PAIR_EXPIRED, frame.id)
      else
        Outcome(st.(pairings := st.pairings.Put(k, Joined(p, c, frame.body))), Send(st.handles, p.desktopConnId, frame), Ok)
  }

  function DecidePairing(st: State, c: Id, frame: Frame, k: Id, accept: bool): Outcome {
    if !st.HasRole(c, Desktop) then RefuseFatally(st, c, MESSAGE_INVALID, WS_CLOSE_POLICY)
    else if k !in st.pairings.rows then Refuse(st, c, SESSION_NOT_FOUND, frame.id)
    else
      var p := st.pairings.rows[k];
      if Some(p.desktopDeviceId) != st.conns[c].deviceId || p.desktopConnId != c then
        RefuseFatally(st, c, MESSAGE_INVALID, WS_CLOSE_POLICY)
      else if p.state != JOINED then
        Refuse(st, c, if p.state == CONSUMED then PAIR_ALREADY_USED else PAIR_EXPIRED, frame.id)
      else if !accept then
        var rejected := PairRejected(p.pairId, PAIR_INVALID_PROOF);
        Outcome(st.(pairings := SetPairingState(st.pairings, k, REJECTED)),
                Send(st.handles, p.desktopConnId, Reply(frame.id, rejected))
                + (if p.phoneConnId.Some? then Send(st.handles, p.phoneConnId.value, Plain(rejected)) else []),
                Ok)
      else
        var st' := st.(pairings := SetPairingState(st.pairings, k, CONSUMED));
        if !p.HasPhone() then Refuse(st', c, PAIR_EXPIRED, frame.id)
        else
          var accepted := PairAccepted(p.pairId, p.DesktopIdentity(), p.PhoneIdentity());
          Outcome(st',
                  Send(st.handles, p.desktopConnId, Reply(frame.id, accepted))
                  + Send(st.handles, p.phoneConnId.value, Plain(accepted)),
                  Ok)
  }

  // ----- sessions ----------------------------------------------------------

  function RequestKey(desktopDeviceId: Id, phoneDeviceId: Id): string {
    desktopDeviceId.text + "|" + phoneDeviceId.text
  }

  function OnSessionRequest(st: State, c: Id, frame: Frame): Outcome
    requires frame.body.SessionRequest?
  {
    var d := frame.body.desktopDeviceId;
    if !st.MayUse(c) || !st.HasRole(c, Phone) then RefuseFatally(st, c, MESSAGE_INVALID, WS_CLOSE_POLICY)
    else if st.Revoked(st.conns[c].deviceId.value) || st.Revoked(d) then Refuse(st, c, DEVICE_REVOKED, frame.id)
    else if d !in st.byDevice then Refuse(st, c, SESSION_NOT_FOUND, frame.id)
    else
      Outcome(st.(requests := st.requests.Put(RequestKey(d, st.conns[c].deviceId.value), Request(c, frame))),
              Send(st.handles, st.byDevice[d], frame), Ok)
  }

  function OpenSessionsUsing(m: OMap<Id, Session>, d: Id): set<Id> {
    set k | k in m.rows && m.rows[k].Open() && m.rows[k].Uses(d)
  }

  function OnSessionAccepted(st: State, c: Id, frame: Frame, now: int): Outcome
    requires frame.body.SessionAccepted?
  {
    var b := frame.body;
    if !st.HasRole(c, Desktop) then RefuseFatally(st, c, MESSAGE_INVALID, WS_CLOSE_POLICY)
    else
      var d := st.conns[c].deviceId.value;
      var key := RequestKey(d, b.phoneDeviceId);
      if key !in st.requests.rows then Refuse(st, c, SESSION_NOT_FOUND, frame.id)
      else
        var phoneConn := st.requests.rows[key].phoneConnId;
        var st' := st.(requests := st.requests.Remove(key));
        if b.desktopDeviceId != d then RefuseFatally(st', c, MESSAGE_INVALID, WS_CLOSE_POLICY)
        else if OpenSessionsUsing(st.sessions, d) != {} || OpenSessionsUsing(st.sessions, b.phoneDeviceId) != {} then
          Outcome(st',
                  [Delivery(c, Reply(frame.id, Error(SESSION_CONFLICT)))]
                  + Send(st.handles, phoneConn, Plain(SessionRejected(SESSION_CONFLICT))),
                  Ok)
        else
          var s := Session(b.sessionId, b.desktopDeviceId, b.phoneDeviceId, c, phoneConn, SIGNALING, now);
          Outcome(st'.(sessions := st.sessions.Put(b.sessionId, s)), Send(st.handles, phoneConn, frame), Ok)
  }

  function RequestsFor(m: OMap<string, Request>, d: Id): set<string> {
    set k | k in m.rows && m.rows[k].frame.body.SessionRequest? && m.rows[k].frame.body.desktopDeviceId == d
  }

  /** Forward `frame` to the phone of each of the requests `keys`. */
  function ForwardToPhones(keys: seq<string>, rows: map<string, Request>, handles: set<Id>, frame: Frame): seq<Delivery> {
    if keys == [] then []
    else
      var n := |keys| - 1;
      ForwardToPhones(keys[..n], rows, handles, frame)
      + (if keys[n] in rows then Send(handles, rows[keys[n]].phoneConnId, frame) else [])
  }

  function OnSessionRejected(st: State, c: Id, frame: Frame): Outcome {
    if !st.HasRole(c, Desktop) then RefuseFatally(st, c, MESSAGE_INVALID, WS_CLOSE_POLICY)
    else
      var mine := RequestsFor(st.requests, st.conns[c].deviceId.value);
      Outcome(st.(requests := st.requests.RemoveAll(mine)),
              ForwardToPhones(Select(st.requests.order, mine), st.requests.rows, st.handles, frame), Ok)
  }

  function OnSessionClose(st: State, c: Id, frame: Frame): Outcome
    requires frame.body.SessionClose?
  {
    var k := frame.body.sessionId;
    if c !in st.conns || st.conns[c].deviceId.None? then Outcome(st, [], Fatal(WS_CLOSE_POLICY))
    else if k !in st.sessions.rows then Refuse(st, c, SESSION_NOT_FOUND, frame.id)
    else
      var s := st.sessions.rows[k];
      if !s.Mentions(c) then RefuseFatally(st, c, MESSAGE_INVALID, WS_CLOSE_POLICY)
      else
        Outcome(st.(sessions := st.sessions.(rows := st.sessions.rows[k := s.(state := CLOSED)])),
                Send(st.handles, s.Peer(c), frame), Ok)
  }

  function RelaySignal(st: State, c: Id, frame: Frame, sessionId: Id, requireRole: Option<Role>): Outcome {
    if c !in st.conns || st.conns[c].deviceId.None? then Outcome(st, [], Fatal(WS_CLOSE_POLICY))
    else if requireRole.Some? && st.conns[c].role != requireRole then
      RefuseFatally(st, c, MESSAGE_INVALID, WS_CLOSE_POLICY)
    else if sessionId !in st.sessions.rows || !st.sessions.rows[sessionId].Open() then
      Refuse(st, c, SESSION_NOT_FOUND, None)
    else
      var s := st.sessions.rows[sessionId];
      if !s.Mentions(c) then RefuseFatally(st, c, MESSAGE_INVALID, WS_CLOSE_POLICY)
      else Outcome(st, Send(st.handles, s.Peer(c), frame), Ok)
  }

  // ----- dispatch ------------------------------------------------------------

  function Touch(st: State, c: Id, now: int): State {
    if c in st.conns then st.(conns := st.conns[c := st.conns[c].(lastSeenMs := now)]) else st
  }

  /** Route one decoded frame. `pairId` and `nonce` are the random values the handler would draw. */
  function Dispatch(st: State, c: Id, frame: Frame, now: int, pairId: Id, nonce: string): Outcome {
    if c !in st.conns then Outcome(st, [], Fatal(WS_CLOSE_POLICY))
    else if frame.body.Hello? then OnHello(st, c, frame, nonce)
    else if frame.body.AuthProof? then OnAuthProof(st, c, frame)
    else if !st.Bound(c) then RefuseFatally(st, c, MESSAGE_INVALID, WS_CLOSE_PROTOCOL_ERROR)
    else DispatchBound(Touch(st, c, now), c, frame, now, pairId)
  }

  function DispatchBound(st: State, c: Id, frame: Frame, now: int, pairId: Id): Outcome {
    match frame.body
    case PairCreate(_, _, _, _) => OnPairCreate(st, c, frame, now, pairId)
    case PairJoin(_, _, _, _, _, _) => OnPairJoin(st, c, frame, now)
    case PairAccept(k) => DecidePairing(st, c, frame, k, true)
    case PairReject(k, _) => DecidePairing(st, c, frame, k, false)
    case SessionRequest(_, _) => OnSessionRequest(st, c, frame)
    case SessionAccepted(_, _, _) => OnSessionAccepted(st, c, frame, now)
    case SessionRejected(_) => OnSessionRejected(st, c, frame)
    case SessionClose(_, _) => OnSessionClose(st, c, frame)
    case SignalOffer(k, _) => RelaySignal(st, c, frame, k, Some(Desktop))
    case SignalAnswer(k, _) => RelaySignal(st, c, frame, k, Some(Phone))
    case SignalIce(k, _) => RelaySignal(st, c, frame, k, None)
    case PresencePing(ts) => Outcome(st, [Delivery(c, Plain(PresencePong(ts)))], Ok)
    case _ => RefuseFatally(st, c, MESSAGE_INVALID, WS_CLOSE_PROTOCOL_ERROR)
  }

  // ----- a socket closes -------------------------------------------------------

  function OpenPairingsOf(m: OMap<Id, Pairing>, c: Id): set<Id> {
    set k | k in m.rows && m.rows[k].Open() && m.rows[k].Mentions(c)
  }

  function OpenSessionsOf(m: OMap<Id, Session>, c: Id): set<Id> {
    set k | k in m.rows && m.rows[k].Open() && m.rows[k].Mentions(c)
  }

  function RequestsFrom(m: OMap<string, Request>, c: Id): set<string> {
    set k | k in m.rows && m.rows[k].phoneConnId == c
  }

  function CancelPairings(m: OMap<Id, Pairing>, ks: set<Id>): OMap<Id, Pairing> {
    m.(rows := map k | k in m.rows :: if k in ks then m.rows[k].(state := CANCELLED) else m.rows[k])
  }

  function CloseSessions(m: OMap<Id, Session>, ks: set<Id>): OMap<Id, Session> {
    m.(rows := map k | k in m.rows :: if k in ks then m.rows[k].(state := CLOSED) else m.rows[k])
  }

  function PairingNotice(p: Pairing, handles: set<Id>, c: Id): seq<Delivery> {
    if p.phoneConnId.Some? && p.phoneConnId.value != c
    then Send(handles, p.phoneConnId.value, Plain(PairRejected(p.pairId, PAIR_EXPIRED)))
    else []
  }

  function PairingNotices(keys: seq<Id>, rows: map<Id, Pairing>, handles: set<Id>, c: Id): seq<Delivery> {
    if keys == [] then []
    else
      var n := |keys| - 1;
      PairingNotices(keys[..n], rows, handles, c)
      + (if keys[n] in rows then PairingNotice(rows[keys[n]], handles, c) else [])
  }

  function SessionNotice(s: Session, handles: set<Id>, c: Id): seq<Delivery> {
    Send(handles, s.Peer(c), Plain(SessionClose(s.sessionId, "peer-left")))
  }

  function SessionNotices(keys: seq<Id>, rows: map<Id, Session>, handles: set<Id>, c: Id): seq<Delivery> {
    if keys == [] then []
    else
      var n := |keys| - 1;
      SessionNotices(keys[..n], rows, handles, c)
      + (if keys[n] in rows then SessionNotice(rows[keys[n]], handles, c) else [])
  }

  /** `ConnectionRegistry.unregister`. */
  function Unregister(st: State, c: Id): State {
    if c !in st.conns then st
    else
      var d := st.conns[c].deviceId;
      st.(conns := st.conns - {c},
          byDevice := if d.Some? && d.value in st.byDevice && st.byDevice[d.value] == c
                      then st.byDevice - {d.value} else st.byDevice)
  }

  /** Cancel, close and drop everything open that depends on the connection, telling the other sides. */
  function Unwind(st: State, c: Id): Outcome {
    var ps := OpenPairingsOf(st.pairings, c);
    var ss := OpenSessionsOf(st.sessions, c);
    Outcome(
      st.(pairings := CancelPairings(st.pairings, ps),
          sessions := CloseSessions(st.sessions, ss),
          requests := st.requests.RemoveAll(RequestsFrom(st.requests, c))),
      PairingNotices(Select(st.pairings.order, ps), st.pairings.rows, st.handles, c)
      + SessionNotices(Select(st.sessions.order, ss), st.sessions.rows, st.handles, c),
      Ok)
  }

  /** Drop the connection's own entries. */
  function Forget(st: State, c: Id): State {
    Unregister(st.(handles := st.handles - {c}, authenticated := st.authenticated - {c},
                   pendingAuth := st.pendingAuth - {c}), c)
  }

  /** `handleConnClosed`: nothing is unwound for a connection that is not registered any more. */
  function OnConnClosed(st: State, c: Id): Outcome {
    if c !in st.conns then Outcome(Forget(st, c), [], Ok) else Unwind(Forget(st, c), c)
  }
}
