/**
 * The signaling wire messages and the records the signaling service keeps.
 * Payloads that the router only relays (SDP, ICE candidates) are kept whole,
 * so "relayed unchanged" is visible in the model.
 */
module SignalingTypes {
  import opened Basics
  import opened OrderedMap

  datatype Role = Desktop | Phone

  datatype ErrorCode =
    | PAIR_EXPIRED | PAIR_INVALID_PROOF | PAIR_ALREADY_USED | DEVICE_REVOKED
    | SESSION_NOT_FOUND | SESSION_CONFLICT | MESSAGE_INVALID | MESSAGE_TOO_LARGE

  /** Public identity material as `pair.accepted` carries it. */
  datatype Identity = Identity(deviceId: Id, displayName: Option<string>, spki: Key, fingerprint: Key)

  /** Base64url key material; the schema's pattern admits no empty string. */
  type Key = s: string | 2 <= |s| witness "AA"

  datatype Proof = Proof(signature: string, spki: Key, fingerprint: Key, displayName: Option<string>)

  datatype Body =
    // client to server
    | Hello(role: Role, deviceId: Id, displayName: Option<string>)
    | AuthProof(proof: Proof)
    | PairCreate(ttlSeconds: int, spki: Key, fingerprint: Key, displayName: Option<string>)
    | PairJoin(pairId: Id, deviceId: Id, displayName: Option<string>, spki: Key, fingerprint: Key, pairingProof: string)
    | PairAccept(pairId: Id)
    | PairReject(pairId: Id, code: ErrorCode)
    | SessionRequest(deviceId: Id, desktopDeviceId: Id)
    | SessionAccepted(sessionId: Id, desktopDeviceId: Id, phoneDeviceId: Id)
    | SessionRejected(code: ErrorCode)
    | SessionClose(sessionId: Id, reason: string)
    | SignalOffer(sessionId: Id, sdp: string)
    | SignalAnswer(sessionId: Id, sdp: string)
    | SignalIce(sessionId: Id, candidate: string)
    | PresencePing(ts: int)
    // server to client
    | HelloOk(heartbeatIntervalSec: int, heartbeatTimeoutSec: int)
    | AuthChallenge(nonce: string)
    | AuthOk(registered: bool)
    | PairCreated(pairId: Id, expiresAtMs: int)
    | PairAccepted(pairId: Id, desktop: Identity, phone: Identity)
    | PairRejected(pairId: Id, code: ErrorCode)
    | PresencePong(ts: int)
    | Error(code: ErrorCode)

  /** An envelope. A server error without `replyTo` stands for one with a random request id. */
  datatype Frame = Frame(id: Option<Id>, replyTo: Option<Id>, body: Body)

  /** One frame put on the socket of one connection. */
  datatype Delivery = Delivery(to: Id, frame: Frame)

  datatype Conn = Conn(role: Option<Role>, deviceId: Option<Id>, lastSeenMs: int)

  datatype PairingState = CREATED | JOINED | CONSUMED | EXPIRED | REJECTED | CANCELLED

  datatype Pairing = Pairing(
    pairId: Id,
    desktopConnId: Id,
    desktopDeviceId: Id,
    desktopDisplayName: Option<string>,
    desktopSpki: Key,
    desktopFingerprint: Key,
    phoneConnId: Option<Id>,
    phoneDeviceId: Option<Id>,
    phoneDisplayName: Option<string>,
    phoneSpki: Option<Key>,
    phoneFingerprint: Option<Key>,
    state: PairingState,
    createdAtMs: int,
    expiresAtMs: int)
  {
    predicate Open() { state == CREATED || state == JOINED }

    /** The desktop identity of the creating `pair.create`. */
    function DesktopIdentity(): Identity {
      Identity(desktopDeviceId, desktopDisplayName, desktopSpki, desktopFingerprint)
    }

    predicate HasPhone() {
      phoneConnId.Some? && phoneDeviceId.Some? && phoneSpki.Some? && phoneFingerprint.Some?
    }

    /** The phone identity of the recorded `pair.join`. */
    function PhoneIdentity(): Identity
      requires HasPhone()
    {
      Identity(phoneDeviceId.value, phoneDisplayName, phoneSpki.value, phoneFingerprint.value)
    }

    predicate Mentions(c: Id) { desktopConnId == c || phoneConnId == Some(c) }
  }

  datatype SessionState = SIGNALING | ACTIVE | CLOSED

  datatype Session = Session(
    sessionId: Id,
    desktopDeviceId: Id,
    phoneDeviceId: Id,
    desktopConnId: Id,
    phoneConnId: Id,
    state: SessionState,
    createdAtMs: int)
  {
    predicate Open() { state != CLOSED }
    predicate Mentions(c: Id) { desktopConnId == c || phoneConnId == c }
    predicate Uses(d: Id) { desktopDeviceId == d || phoneDeviceId == d }
    /** The other participant, as the router computes it. */
    function Peer(c: Id): Id { if desktopConnId == c then phoneConnId else desktopConnId }
  }

  datatype Request = Request(phoneConnId: Id, frame: Frame)

  datatype PendingAuth = PendingAuth(nonce: string, failures: nat)

  datatype Device = Device(spki: Key, fingerprint: Key, displayName: Option<string>, revokedAtMs: Option<int>)

  datatype EnrollResult = Enrolled | Known | Conflict

  datatype AuthMode = OpenMode | Required

  datatype AuthStage = AwaitingFingerprint | AwaitingVerify

  /** A suspended `onAuthProof`: what its locals hold across an await. */
  datatype AuthTask = AuthTask(connId: Id, deviceId: Id, nonce: string, proof: Proof, replyTo: Option<Id>, stage: AuthStage)

  /** What a handler tells the transport; `Awaiting` is a handler suspended at an await. */
  datatype InboundResult = Ok | Fatal(code: int) | Awaiting(task: AuthTask)

  const WS_CLOSE_PROTOCOL_ERROR := 1002
  const WS_CLOSE_POLICY := 1008
  const MAX_AUTH_FAILURES := 5
}
