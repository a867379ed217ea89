/**
 * The mutual peer handshake. One `PeerAuthHandshake` is a small state machine
 * whose awaits are step boundaries; any number of them run against a network
 * that delivers whatever nonces and signatures it likes, in any order.
 */
module HandshakeSpec {
  import opened Basics
  import Transcript

  type Byte = Transcript.Byte
  type Key = nat

  datatype Role = Desktop | Phone

  function Other(r: Role): Role { if r == Desktop then Phone else Desktop }

  function RoleText(r: Role): string { if r == Desktop then "desktop" else "phone" }

  const PEER_AUTH_DOMAIN := "remotetab.v1.peer-auth"

  /** What one side is configured with; the keys stand for the injected `sign` and `verify`. */
  datatype Deps = Deps(
    role: Role, protocolVersion: string, sessionId: string,
    myDeviceId: string, peerDeviceId: string, myFingerprint: string, peerFingerprint: string,
    myKey: Key, peerKey: Key)

  /** The transcript fields, desktop first whichever side builds them. */
  function Fields(d: Deps, role: Role, nonce: string): seq<string> {
    var amDesktop := d.role == Desktop;
    [PEER_AUTH_DOMAIN,
     d.protocolVersion,
     d.sessionId,
     if amDesktop then d.myDeviceId else d.peerDeviceId,
     if amDesktop then d.peerDeviceId else d.myDeviceId,
     if amDesktop then d.myFingerprint else d.peerFingerprint,
     if amDesktop then d.peerFingerprint else d.myFingerprint,
     RoleText(role),
     nonce]
  }

  function Bytes(d: Deps, role: Role, nonce: string): seq<Byte> {
    Transcript.EncodeFields(Transcript.FieldBytes(Fields(d, role, nonce)))
  }

  // ----- one handshake ---------------------------------------------------------

  datatype Result = Verified | Failed | Pending

  /** A frame handed to the channel. */
  datatype Sent = Challenge(nonce: string) | Proof(signature: string)

  datatype CallStatus = Waiting | Returned(result: Result)

  /** An `onProof` suspended at its verify: the nonce and signature it captured. */
  datatype VerifyCall = VerifyCall(nonce: string, signature: string, status: CallStatus)

  datatype State = State(
    myNonce: Option<string>,
    peerNonce: Option<string>,
    myProofSent: bool,
    peerProofVerified: bool,
    peerProofSig: Option<string>,
    timerArmed: bool,
    settled: bool,
    signing: Option<string>,
    calls: seq<VerifyCall>,
    sent: seq<Sent>)

  const Fresh := State(None, None, false, false, None, false, false, None, [], [])

  /** Whether `maybeProve` goes on to sign. */
  predicate Proves(h: State) { !h.settled && !h.myProofSent && h.peerNonce.Some? }

  /** Up to the `sign` await. */
  function MaybeProve(h: State): State {
    if Proves(h) then h.(myProofSent := true, signing := h.peerNonce) else h
  }

  function Start(h: State, nonce: string): State {
    MaybeProve(h.(myNonce := Some(nonce), sent := h.sent + [Challenge(nonce)], timerArmed := true))
  }

  function OnChallenge(h: State, nonce: string): State {
    if h.settled || h.peerNonce.Some? then h
    else MaybeProve(h.(peerNonce := Some(nonce)))
  }

  function Fail(h: State): State {
    if h.settled then h else h.(settled := true, timerArmed := false)
  }

  /** Up to the `verify` await, or straight to a failure. */
  function OnProof(h: State, signature: string): State {
    if h.settled then h
    else if h.peerNonce.None? || h.myNonce.None? then Fail(h)
    else h.(peerProofSig := Some(signature), calls := h.calls + [VerifyCall(h.myNonce.value, signature, Waiting)])
  }

  /** After the `sign` await. */
  function SignDone(h: State, signature: string): State {
    var h' := h.(signing := None, sent := h.sent + [Proof(signature)]);
    if h'.peerProofSig.Some? && !h'.peerProofVerified then OnProof(h', h'.peerProofSig.value) else h'
  }

  /** After the `verify` await of call `i`. */
  function VerifyDone(h: State, i: nat, ok: bool): State
    requires i < |h.calls|
  {
    if !ok then
      Fail(h).(calls := h.calls[i := h.calls[i].(status := Returned(Failed))])
    else if h.myProofSent then
      h.(peerProofVerified := true, settled := true, timerArmed := false,
         calls := h.calls[i := h.calls[i].(status := Returned(Verified))])
    else
      h.(peerProofVerified := true, calls := h.calls[i := h.calls[i].(status := Returned(Pending))])
  }

  function TimerFires(h: State): State {
    h.(timerArmed := false, settled := true)
  }
}
