/**
 * Agreement of the peer handshake under ideal signatures: any number of
 * handshakes, an adversary in charge of every delivery, and honest keys that
 * also sign other things under other domains.
 */
module HandshakeRuns {
  import opened Basics
  import opened HandshakeSpec
  import Transcript

  /** A signature that exists: who made it, over which bytes, and its text. */
  datatype Signature = Signature(key: Key, bytes: seq<Byte>, text: string)

  datatype Instance = Instance(deps: Deps, hs: State)

  /** All handshakes and every signature made so far. */
  datatype World = World(insts: seq<Instance>, ledger: set<Signature>)

  datatype Event =
    | StartAt(i: nat, nonce: string)
    | DeliverChallenge(i: nat, nonce: string)
    | DeliverProof(i: nat, signature: string)
    | SignedAt(i: nat, signature: string)
    | VerifiedAt(i: nat, call: nat)
    | TimeoutAt(i: nat)
    | Elsewhere(made: Signature)

  const MAX_TEXT := 0x4000_0000

  predicate ShortDeps(d: Deps) {
    && |d.protocolVersion| < MAX_TEXT && |d.sessionId| < MAX_TEXT
    && |d.myDeviceId| < MAX_TEXT && |d.peerDeviceId| < MAX_TEXT
    && |d.myFingerprint| < MAX_TEXT && |d.peerFingerprint| < MAX_TEXT
  }

  /** A transcript made for another purpose: its first field is another domain. */
  ghost predicate OtherPurpose(bytes: seq<Byte>) {
    exists fields: seq<string> :: Foreign(fields, bytes)
  }

  predicate Foreign(fields: seq<string>, bytes: seq<Byte>) {
    && fields != [] && fields[0] != PEER_AUTH_DOMAIN
    && Transcript.ShortText(fields)
    && bytes == Transcript.EncodeFields(Transcript.FieldBytes(fields))
  }

  /**
   * Which events can happen. A handshake is started once; a signature by an honest key is made by one of the
   * handshakes here or for another purpose; signatures by other keys may be anything.
   */
  ghost predicate Enabled(honest: set<Key>, w: World, ev: Event) {
    match ev
    case StartAt(i, nonce) => i < |w.insts| && w.insts[i].hs.myNonce.None? && |nonce| < MAX_TEXT
    case DeliverChallenge(i, nonce) => i < |w.insts| && |nonce| < MAX_TEXT
    case DeliverProof(i, _) => i < |w.insts|
    case SignedAt(i, _) => i < |w.insts| && w.insts[i].hs.signing.Some?
    case VerifiedAt(i, call) => i < |w.insts| && call < |w.insts[i].hs.calls| && w.insts[i].hs.calls[call].status == Waiting
    case TimeoutAt(i) => i < |w.insts| && w.insts[i].hs.timerArmed
    case Elsewhere(s) => s.key in honest ==> OtherPurpose(s.bytes)
  }

  /** The ideal verification of a suspended call. */
  predicate Checks(w: World, i: nat, call: nat)
    requires i < |w.insts| && call < |w.insts[i].hs.calls|
  {
    var d, c := w.insts[i].deps, w.insts[i].hs.calls[call];
    Signature(d.peerKey, Bytes(d, Other(d.role), c.nonce), c.signature) in w.ledger
  }

  function Put(w: World, i: nat, hs: State): World
    requires i < |w.insts|
  {
    w.(insts := w.insts[i := w.insts[i].(hs := hs)])
  }

  ghost function Step(honest: set<Key>, w: World, ev: Event): (w': World)
    requires Enabled(honest, w, ev)
    ensures |w'.insts| == |w.insts|
  {
    match ev
    case StartAt(i, nonce) => Put(w, i, Start(w.insts[i].hs, nonce))
    case DeliverChallenge(i, nonce) => Put(w, i, OnChallenge(w.insts[i].hs, nonce))
    case DeliverProof(i, signature) => Put(w, i, OnProof(w.insts[i].hs, signature))
    case SignedAt(i, signature) =>
      var d := w.insts[i].deps;
      Put(w, i, SignDone(w.insts[i].hs, signature)).(
        ledger := w.ledger + {Signature(d.myKey, Bytes(d, d.role, w.insts[i].hs.signing.value), signature)})
    case VerifiedAt(i, call) => Put(w, i, VerifyDone(w.insts[i].hs, call, Checks(w, i, call)))
    case TimeoutAt(i) => Put(w, i, TimerFires(w.insts[i].hs))
    case Elsewhere(s) => w.(ledger := w.ledger + {s})
  }

  /** A run over the given handshakes, none of them started and nothing signed yet. */
  datatype Behavior = Behavior(honest: set<Key>, events: seq<Event>, worlds: seq<World>) {
    ghost predicate Valid() {
      && |worlds| == |events| + 1
      && worlds[0].ledger == {}
      && (forall i :: 0 <= i < |worlds[0].insts| ==>
            worlds[0].insts[i].hs == Fresh && ShortDeps(worlds[0].insts[i].deps))
      && (forall n :: 0 <= n < |events| ==> StepAt(n))
    }

    ghost predicate StepAt(n: nat)
      requires |worlds| == |events| + 1 && n < |events|
    {
      Enabled(honest, worlds[n], events[n]) && worlds[n + 1] == Step(honest, worlds[n], events[n])
    }
  }

  // ----- what holds inside one handshake -------------------------------------------

  function Proofs(sent: seq<Sent>): nat {
    if sent == [] then 0
    else Proofs(sent[..|sent| - 1]) + (if sent[|sent| - 1].Proof? then 1 else 0)
  }

  ghost predicate HsInv(h: State) {
    && (h.peerNonce.Some? ==> h.myProofSent)
    && (h.signing.Some? ==> h.signing == h.peerNonce)
    && (h.myProofSent ==> h.peerNonce.Some?)
    && Proofs(h.sent) + (if h.signing.Some? then 1 else 0) <= (if h.myProofSent then 1 else 0)
    && (h.peerNonce.Some? ==> |h.peerNonce.value| < MAX_TEXT)
    && (h.myNonce.Some? ==> |h.myNonce.value| < MAX_TEXT && Challenge(h.myNonce.value) in h.sent)
    && (forall k :: 0 <= k < |h.calls| ==> CallOk(h, h.calls[k]))
  }

  /** A call was made over this side's own nonce; none ever comes back 'pending'. */
  ghost predicate CallOk(h: State, c: VerifyCall) {
    && h.myNonce == Some(c.nonce)
    && h.peerNonce.Some?
    && c.status != Returned(Pending)
  }

  lemma ProofsSnoc(sent: seq<Sent>, m: Sent)
    ensures Proofs(sent + [m]) == Proofs(sent) + (if m.Proof? then 1 else 0)
  {
    assert (sent + [m])[..|sent|] == sent;
  }

  lemma StartKeepsHsInv(h: State, nonce: string)
    requires HsInv(h) && h.myNonce.None? && |nonce| < MAX_TEXT
    ensures HsInv(Start(h, nonce))
  {
    ProofsSnoc(h.sent, Challenge(nonce));
  }

  lemma ChallengeKeepsHsInv(h: State, nonce: string)
    requires HsInv(h) && |nonce| < MAX_TEXT
    ensures HsInv(OnChallenge(h, nonce))
  {
  }

  lemma ProofKeepsHsInv(h: State, signature: string)
    requires HsInv(h)
    ensures HsInv(OnProof(h, signature))
  {
  }

  lemma SignKeepsHsInv(h: State, signature: string)
    requires HsInv(h) && h.signing.Some?
    ensures HsInv(SignDone(h, signature))
    ensures Proof(signature) in SignDone(h, signature).sent
  {
    ProofsSnoc(h.sent, Proof(signature));
    var h' := h.(signing := None, sent := h.sent + [Proof(signature)]);
    assert HsInv(h');
    if h'.peerProofSig.Some? && !h'.peerProofVerified {
      ProofKeepsHsInv(h', h'.peerProofSig.value);
    }
  }

  lemma VerifyKeepsHsInv(h: State, i: nat, ok: bool)
    requires HsInv(h) && i < |h.calls|
    ensures HsInv(VerifyDone(h, i, ok))
  {
    var h' := VerifyDone(h, i, ok);
    assert CallOk(h, h.calls[i]);
    forall k | 0 <= k < |h'.calls| ensures CallOk(h', h'.calls[k]) {
      assert CallOk(h, h.calls[k]);
    }
  }

  // ----- what holds across handshakes --------------------------------------------------

  /** The handshake `p` is what the owner of `d` expects at the other end, and answered `nonce`. */
  ghost predicate Answers(p: Instance, d: Deps, nonce: string) {
    && p.deps.myKey == d.peerKey
    && p.deps.role == Other(d.role)
    && p.deps.protocolVersion == d.protocolVersion
    && p.deps.sessionId == d.sessionId
    && p.deps.myDeviceId == d.peerDeviceId && p.deps.peerDeviceId == d.myDeviceId
    && p.deps.myFingerprint == d.peerFingerprint && p.deps.peerFingerprint == d.myFingerprint
    && p.hs.peerNonce == Some(nonce)
  }

  /** Handshake `p` made this signature with its key, over its own role and the nonce it was challenged with. */
  ghost predicate MadeBy(p: Instance, s: Signature) {
    && p.deps.myKey == s.key
    && p.hs.peerNonce.Some?
    && s.bytes == Bytes(p.deps, p.deps.role, p.hs.peerNonce.value)
    && Proof(s.text) in p.hs.sent
  }

  ghost predicate SourceOk(w: World, s: Signature) {
    OtherPurpose(s.bytes) || exists p :: 0 <= p < |w.insts| && MadeBy(w.insts[p], s)
  }

  /** A call that came back 'verified' was backed by a signature of the peer's key. */
  ghost predicate BackedOk(w: World, inst: Instance) {
    forall k :: 0 <= k < |inst.hs.calls| && inst.hs.calls[k].status == Returned(Verified) ==>
      Signature(inst.deps.peerKey, Bytes(inst.deps, Other(inst.deps.role), inst.hs.calls[k].nonce), inst.hs.calls[k].signature) in w.ledger
  }

  ghost predicate Inv(honest: set<Key>, w: World) {
    && (forall i :: 0 <= i < |w.insts| ==> HsInv(w.insts[i].hs) && ShortDeps(w.insts[i].deps) && BackedOk(w, w.insts[i]))
    && (forall s :: s in w.ledger && s.key in honest ==> SourceOk(w, s))
  }

  /** What a handshake has sent and which challenge it took are never undone. */
  predicate Extends(h: State, h': State) {
    h.sent <= h'.sent && (h.peerNonce.Some? ==> h'.peerNonce == h.peerNonce)
  }

  /** One handshake moved on and the ledger perhaps grew; nothing anyone did before is undone. */
  ghost predicate Grows(w: World, w': World) {
    && w.ledger <= w'.ledger
    && |w'.insts| == |w.insts|
    && (forall i :: 0 <= i < |w.insts| ==> w'.insts[i].deps == w.insts[i].deps && Extends(w.insts[i].hs, w'.insts[i].hs))
  }

  lemma HandshakesExtend(h: State, text: string, i: nat, ok: bool)
    ensures Extends(h, Start(h, text)) && Extends(h, OnChallenge(h, text)) && Extends(h, OnProof(h, text))
    ensures Extends(h, SignDone(h, text)) && Extends(h, TimerFires(h))
    ensures i < |h.calls| ==> Extends(h, VerifyDone(h, i, ok))
  {
  }

  lemma StepGrows(honest: set<Key>, w: World, ev: Event)
    requires Enabled(honest, w, ev)
    ensures Grows(w, Step(honest, w, ev))
  {
    hide Start, OnChallenge, OnProof, SignDone, VerifyDone, TimerFires, Bytes, Checks;
    match ev
    case StartAt(i, nonce) => HandshakesExtend(w.insts[i].hs, nonce, 0, false);
    case DeliverChallenge(i, nonce) => HandshakesExtend(w.insts[i].hs, nonce, 0, false);
    case DeliverProof(i, signature) => HandshakesExtend(w.insts[i].hs, signature, 0, false);
    case SignedAt(i, signature) => HandshakesExtend(w.insts[i].hs, signature, 0, false);
    case VerifiedAt(i, call) => HandshakesExtend(w.insts[i].hs, "", call, Checks(w, i, call));
    case TimeoutAt(i) => HandshakesExtend(w.insts[i].hs, "", 0, false);
    case Elsewhere(_) =>
  }

  lemma SourceFrame(w: World, w': World, s: Signature)
    requires SourceOk(w, s) && Grows(w, w')
    ensures SourceOk(w', s)
  {
    if !OtherPurpose(s.bytes) {
      var p :| 0 <= p < |w.insts| && MadeBy(w.insts[p], s);
      assert MadeBy(w'.insts[p], s);
    }
  }

  lemma StepKeepsHsInv(honest: set<Key>, w: World, ev: Event, j: nat)
    requires Inv(honest, w) && Enabled(honest, w, ev) && j < |w.insts|
    ensures HsInv(Step(honest, w, ev).insts[j].hs)
  {
    hide Start, OnChallenge, OnProof, SignDone, VerifyDone, Checks;
    var h := w.insts[j].hs;
    assert HsInv(h);
    if !ev.Elsewhere? && ev.i == j {
      match ev
      case StartAt(_, nonce) => StartKeepsHsInv(h, nonce);
      case DeliverChallenge(_, nonce) => ChallengeKeepsHsInv(h, nonce);
      case DeliverProof(_, signature) => ProofKeepsHsInv(h, signature);
      case SignedAt(_, signature) => SignKeepsHsInv(h, signature);
      case VerifiedAt(_, call) => VerifyKeepsHsInv(h, call, Checks(w, j, call));
      case TimeoutAt(_) =>
    }
  }

  /** A call that is verified afterwards was verified before, or is the call `i` whose check just succeeded. */
  predicate VerifiedFrom(h: State, h': State, i: int, ok: bool) {
    forall k :: 0 <= k < |h'.calls| && h'.calls[k].status == Returned(Verified) ==>
      && k < |h.calls| && h'.calls[k].nonce == h.calls[k].nonce && h'.calls[k].signature == h.calls[k].signature
      && (h.calls[k].status == Returned(Verified) || (k == i && ok))
  }

  /** The nonce or signature that an event brings. */
  function Carried(ev: Event): string {
    match ev
    case StartAt(_, nonce) => nonce
    case DeliverChallenge(_, nonce) => nonce
    case DeliverProof(_, signature) => signature
    case SignedAt(_, signature) => signature
    case _ => ""
  }

  lemma HandlersVerifyNothing(h: State, text: string)
    ensures VerifiedFrom(h, Start(h, text), -1, false) && VerifiedFrom(h, OnChallenge(h, text), -1, false)
    ensures VerifiedFrom(h, OnProof(h, text), -1, false) && VerifiedFrom(h, SignDone(h, text), -1, false)
    ensures VerifiedFrom(h, TimerFires(h), -1, false) && VerifiedFrom(h, h, -1, false)
  {
  }

  lemma VerifyDoneVerifies(h: State, i: nat, ok: bool)
    requires i < |h.calls|
    ensures VerifiedFrom(h, VerifyDone(h, i, ok), i, ok)
  {
  }

  /** The calls of a handshake only grow by waiting ones; a status changes only when its verification returns. */
  lemma StepKeepsBacked(honest: set<Key>, w: World, ev: Event, j: nat)
    requires Inv(honest, w) && Enabled(honest, w, ev) && j < |w.insts|
    ensures BackedOk(Step(honest, w, ev), Step(honest, w, ev).insts[j])
  {
    hide Bytes, HsInv, Extends, SourceOk, Start, OnChallenge, OnProof, SignDone, VerifyDone, TimerFires;
    StepGrows(honest, w, ev);
    var h := w.insts[j].hs;
    assert BackedOk(w, w.insts[j]);
    HandlersVerifyNothing(h, Carried(ev));
    if ev.VerifiedAt? && ev.i == j {
      VerifyDoneVerifies(h, ev.call, Checks(w, j, ev.call));
    }
  }

  lemma StepKeepsSources(honest: set<Key>, w: World, ev: Event, s: Signature)
    requires Inv(honest, w) && Enabled(honest, w, ev)
    requires s in Step(honest, w, ev).ledger && s.key in honest
    ensures SourceOk(Step(honest, w, ev), s)
  {
    hide Bytes, Start, OnChallenge, OnProof, VerifyDone, BackedOk;
    var w' := Step(honest, w, ev);
    StepGrows(honest, w, ev);
    if s in w.ledger {
      SourceFrame(w, w', s);
    } else if ev.SignedAt? {
      assert HsInv(w.insts[ev.i].hs);
      SignKeepsHsInv(w.insts[ev.i].hs, ev.signature);
      assert MadeBy(w'.insts[ev.i], s);
    }
  }

  lemma StepKeepsInv(honest: set<Key>, w: World, ev: Event)
    requires Inv(honest, w) && Enabled(honest, w, ev)
    ensures Inv(honest, Step(honest, w, ev))
  {
    hide HsInv, BackedOk, SourceOk, Step, Enabled, Extends;
    var w' := Step(honest, w, ev);
    StepGrows(honest, w, ev);
    forall j | 0 <= j < |w'.insts| ensures HsInv(w'.insts[j].hs) && BackedOk(w', w'.insts[j]) {
      StepKeepsHsInv(honest, w, ev, j);
      StepKeepsBacked(honest, w, ev, j);
    }
    forall s | s in w'.ledger && s.key in honest ensures SourceOk(w', s) {
      StepKeepsSources(honest, w, ev, s);
    }
  }

  lemma {:induction false} ReachableInv(b: Behavior, n: nat)
    requires b.Valid() && n <= |b.events|
    ensures Inv(b.honest, b.worlds[n])
  {
    hide Step, Enabled;
    if n == 0 {
    } else {
      ReachableInv(b, n - 1);
      assert b.StepAt(n - 1);
      StepKeepsInv(b.honest, b.worlds[n - 1], b.events[n - 1]);
    }
  }

  lemma ShortFields(d: Deps, r: Role, nonce: string)
    requires ShortDeps(d) && |nonce| < MAX_TEXT
    ensures Transcript.ShortText(Fields(d, r, nonce))
  {
    assert |PEER_AUTH_DOMAIN| < MAX_TEXT && |RoleText(r)| < MAX_TEXT;
  }

  /** Equal transcripts mean equal roles, sessions, identities and nonces. */
  lemma BytesInjective(d: Deps, r: Role, nonce: string, e: Deps, q: Role, nonce': string)
    requires ShortDeps(d) && ShortDeps(e) && |nonce| < MAX_TEXT && |nonce'| < MAX_TEXT
    requires Bytes(d, r, nonce) == Bytes(e, q, nonce')
    ensures Fields(d, r, nonce) == Fields(e, q, nonce') && r == q && nonce == nonce'
  {
    hide Transcript.EncodeFields, Transcript.FieldBytes, Transcript.ShortText;
    var a, b := Fields(d, r, nonce), Fields(e, q, nonce');
    ShortFields(d, r, nonce);
    ShortFields(e, q, nonce');
    Transcript.TranscriptInjective(a, b);
    assert a[7] == b[7] && a[8] == b[8];
    assert |RoleText(r)| == |RoleText(q)|;
  }

  /** Domain separation: nothing signed under another domain is a peer-auth transcript. */
  lemma NotOtherPurpose(d: Deps, r: Role, nonce: string)
    requires ShortDeps(d) && |nonce| < MAX_TEXT
    ensures !OtherPurpose(Bytes(d, r, nonce))
  {
    hide Transcript.EncodeFields, Transcript.FieldBytes, Transcript.ShortText;
    if fields: seq<string> :| Foreign(fields, Bytes(d, r, nonce)) {
      ShortFields(d, r, nonce);
      Transcript.TranscriptInjective(fields, Fields(d, r, nonce));
      assert false;
    }
  }

  /**
   * Agreement. If a verification of handshake `v` ever comes back 'verified' and the peer's key is honest, then
   * some handshake with that key signed, for its own role and the same version, session, devices and
   * fingerprints, exactly the nonce `v` had sent as its challenge, and handed that proof to the channel.
   */
  lemma Agreement(b: Behavior, n: nat, v: nat, k: nat) returns (p: nat)
    requires b.Valid() && n <= |b.events| && v < |b.worlds[n].insts|
    requires k < |b.worlds[n].insts[v].hs.calls| && b.worlds[n].insts[v].hs.calls[k].status == Returned(Verified)
    requires b.worlds[n].insts[v].deps.peerKey in b.honest
    ensures p < |b.worlds[n].insts|
    ensures var me := b.worlds[n].insts[v];
            && me.hs.myNonce.Some? && Challenge(me.hs.myNonce.value) in me.hs.sent
            && Answers(b.worlds[n].insts[p], me.deps, me.hs.myNonce.value)
            && Proof(me.hs.calls[k].signature) in b.worlds[n].insts[p].hs.sent
  {
    hide Step, Enabled;
    ReachableInv(b, n);
    var w := b.worlds[n];
    var me := w.insts[v];
    var c := me.hs.calls[k];
    assert BackedOk(w, me) && HsInv(me.hs) && CallOk(me.hs, c);
    var s := Signature(me.deps.peerKey, Bytes(me.deps, Other(me.deps.role), c.nonce), c.signature);
    assert SourceOk(w, s);
    NotOtherPurpose(me.deps, Other(me.deps.role), c.nonce);
    var q :| 0 <= q < |w.insts| && MadeBy(w.insts[q], s);
    p := q;
    var peer := w.insts[p];
    assert HsInv(peer.hs);
    BytesInjective(me.deps, Other(me.deps.role), c.nonce, peer.deps, peer.deps.role, peer.hs.peerNonce.value);
    FieldsMatch(me.deps, c.nonce, peer.deps);
  }

  /** Both sides build the desktop-first order, so equal fields are crossed identities. */
  lemma FieldsMatch(d: Deps, nonce: string, e: Deps)
    requires Fields(d, Other(d.role), nonce) == Fields(e, e.role, nonce) && e.role == Other(d.role)
    ensures d.protocolVersion == e.protocolVersion && d.sessionId == e.sessionId
    ensures d.myDeviceId == e.peerDeviceId && d.peerDeviceId == e.myDeviceId
    ensures d.myFingerprint == e.peerFingerprint && d.peerFingerprint == e.myFingerprint
  {
    var a, b := Fields(d, Other(d.role), nonce), Fields(e, e.role, nonce);
    assert a[1] == b[1] && a[2] == b[2] && a[3] == b[3] && a[4] == b[4] && a[5] == b[5] && a[6] == b[6];
  }

  /** `q` is the only handshake that could be the other end of `v`. */
  ghost predicate OnlyPartner(w: World, v: nat, q: nat)
    requires v < |w.insts|
  {
    forall p, nonce :: 0 <= p < |w.insts| && Answers(w.insts[p], w.insts[v].deps, nonce) ==> p == q
  }

  /** If both ends verify, and neither key runs a second handshake for the session, their nonces cross-match. */
  lemma MutualAgreement(b: Behavior, n: nat, x: nat, y: nat, k: nat, l: nat)
    requires b.Valid() && n <= |b.events| && x < |b.worlds[n].insts| && y < |b.worlds[n].insts|
    requires OnlyPartner(b.worlds[n], x, y) && OnlyPartner(b.worlds[n], y, x)
    requires var hx := b.worlds[n].insts[x].hs; k < |hx.calls| && hx.calls[k].status == Returned(Verified)
    requires var hy := b.worlds[n].insts[y].hs; l < |hy.calls| && hy.calls[l].status == Returned(Verified)
    requires b.worlds[n].insts[x].deps.peerKey in b.honest && b.worlds[n].insts[y].deps.peerKey in b.honest
    ensures var hx, hy := b.worlds[n].insts[x].hs, b.worlds[n].insts[y].hs;
            hx.myNonce.Some? && hy.myNonce.Some? && hx.peerNonce == hy.myNonce && hy.peerNonce == hx.myNonce
  {
    hide Step, Enabled;
    var p := Agreement(b, n, x, k);
    var q := Agreement(b, n, y, l);
  }

  /** With two handshakes only, nothing more is asked: if both verify, their nonces cross-match. */
  lemma TwoHandshakesMatch(b: Behavior, n: nat, k: nat, l: nat)
    requires b.Valid() && n <= |b.events| && |b.worlds[n].insts| == 2
    requires var hx := b.worlds[n].insts[0].hs; k < |hx.calls| && hx.calls[k].status == Returned(Verified)
    requires var hy := b.worlds[n].insts[1].hs; l < |hy.calls| && hy.calls[l].status == Returned(Verified)
    requires b.worlds[n].insts[0].deps.peerKey in b.honest && b.worlds[n].insts[1].deps.peerKey in b.honest
    ensures var hx, hy := b.worlds[n].insts[0].hs, b.worlds[n].insts[1].hs;
            hx.myNonce.Some? && hy.myNonce.Some? && hx.peerNonce == hy.myNonce && hy.peerNonce == hx.myNonce
  {
    hide Behavior.Valid;
    ValidShape(b);
    assert OnlyPartner(b.worlds[n], 0, 1) && OnlyPartner(b.worlds[n], 1, 0);
    MutualAgreement(b, n, 0, 1, k, l);
  }

  /** Each side hands at most one proof to the channel, and no verification ever comes back 'pending'. */
  lemma AtMostOneProof(b: Behavior, n: nat, i: nat)
    requires b.Valid() && n <= |b.events| && i < |b.worlds[n].insts|
    ensures Proofs(b.worlds[n].insts[i].hs.sent) <= 1
    ensures forall k :: 0 <= k < |b.worlds[n].insts[i].hs.calls| ==> b.worlds[n].insts[i].hs.calls[k].status != Returned(Pending)
  {
    hide Step, Enabled;
    ReachableInv(b, n);
    var h := b.worlds[n].insts[i].hs;
    assert HsInv(h);
    forall k | 0 <= k < |h.calls| ensures h.calls[k].status != Returned(Pending) {
      assert CallOk(h, h.calls[k]);
    }
  }

  /**
   * In every run a verification returns verified exactly when the peer's signature over this side's own nonce is a
   * good one, and failed otherwise: whether the handshake has timed out or failed meanwhile plays no part.
   */
  lemma VerifiedExactly(b: Behavior, n: nat, i: nat, call: nat)
    requires b.Valid() && n < |b.events| && b.events[n] == VerifiedAt(i, call)
    requires i < |b.worlds[n].insts| && call < |b.worlds[n].insts[i].hs.calls|
    ensures var after := b.worlds[n + 1].insts;
      && i < |after| && call < |after[i].hs.calls|
      && after[i].hs.calls[call].status == Returned(if Checks(b.worlds[n], i, call) then Verified else Failed)
  {
    hide Bytes, Checks;
    ReachableInv(b, n);
    assert b.StepAt(n);
    var h := b.worlds[n].insts[i].hs;
    assert HsInv(h) && CallOk(h, h.calls[call]);
  }

  // ----- an honest run completes --------------------------------------------------------

  /** The two ends of one session. */
  predicate Crossed(d: Deps, e: Deps) {
    e == Deps(Other(d.role), d.protocolVersion, d.sessionId, d.peerDeviceId, d.myDeviceId,
              d.peerFingerprint, d.myFingerprint, d.peerKey, d.myKey)
  }

  /** What the verifier checks is what its peer signs. */
  lemma CrossedBytes(d: Deps, e: Deps, nonce: string)
    requires Crossed(d, e)
    ensures Bytes(d, Other(d.role), nonce) == Bytes(e, e.role, nonce)
  {
    assert Fields(d, Other(d.role), nonce) == Fields(e, e.role, nonce);
  }

  ghost function Extended(b: Behavior, ev: Event): (b': Behavior)
    requires b.Valid() && Enabled(b.honest, b.worlds[|b.events|], ev)
    ensures b'.Valid() && b'.worlds[0] == b.worlds[0] && b'.events == b.events + [ev]
    ensures b'.honest == b.honest && b'.worlds[|b'.events|] == Step(b.honest, b.worlds[|b.events|], ev)
    ensures b'.worlds[|b.events|] == b.worlds[|b.events|]
  {
    var b' := Behavior(b.honest, b.events + [ev], b.worlds + [Step(b.honest, b.worlds[|b.events|], ev)]);
    assert forall n :: 0 <= n < |b.events| ==> b.StepAt(n) ==> b'.StepAt(n);
    b'
  }

  /** One side after starting, meeting the peer's challenge and signing. */
  function Proven(mine: string, theirs: string, signature: string): State {
    Fresh.(myNonce := Some(mine), peerNonce := Some(theirs), myProofSent := true, timerArmed := true,
           sent := [Challenge(mine), Proof(signature)])
  }

  lemma ProvenState(mine: string, theirs: string, signature: string)
    ensures SignDone(OnChallenge(Start(Fresh, mine), theirs), signature) == Proven(mine, theirs, signature)
    ensures OnChallenge(Start(Fresh, mine), theirs).signing == Some(theirs)
    ensures Start(Fresh, mine).myNonce.Some?
  {
  }

  lemma VerifiedState(mine: string, theirs: string, signature: string, peer: string)
    ensures var h := OnProof(Proven(mine, theirs, signature), peer);
      && h.calls == [VerifyCall(mine, peer, Waiting)]
      && VerifyDone(h, 0, true).calls == [VerifyCall(mine, peer, Returned(Verified))]
  {
  }

  /** Side `i` starts, meets its peer's challenge and signs its proof. */
  lemma Proving(b: Behavior, i: nat, mine: string, theirs: string, signature: string) returns (b': Behavior)
    requires b.Valid() && i < |b.worlds[|b.events|].insts| && b.worlds[|b.events|].insts[i].hs == Fresh
    requires |mine| < MAX_TEXT && |theirs| < MAX_TEXT
    ensures b'.Valid() && b'.honest == b.honest && b'.worlds[0] == b.worlds[0]
    ensures var w := b.worlds[|b.events|]; var d := w.insts[i].deps;
      b'.worlds[|b'.events|] == World(w.insts[i := Instance(d, Proven(mine, theirs, signature))],
                                      w.ledger + {Signature(d.myKey, Bytes(d, d.role, theirs), signature)})
  {
    hide Bytes, Start, OnChallenge, SignDone, Behavior.Valid;
    ProvenState(mine, theirs, signature);
    assert |b.worlds| == |b.events| + 1 by { ValidShape(b); }
    var w := b.worlds[|b.events|];
    b' := Extended(b, StartAt(i, mine));
    b' := Extended(b', DeliverChallenge(i, theirs));
    b' := Extended(b', SignedAt(i, signature));
  }

  lemma ValidShape(b: Behavior)
    requires b.Valid()
    ensures |b.worlds| == |b.events| + 1
  {
  }

  /** Side `i`, having proved itself, gets its peer's proof and verifies it. */
  lemma Verifying(b: Behavior, i: nat, mine: string, theirs: string, signature: string, peer: string) returns (b': Behavior)
    requires b.Valid() && i < |b.worlds[|b.events|].insts| && b.worlds[|b.events|].insts[i].hs == Proven(mine, theirs, signature)
    requires var w := b.worlds[|b.events|]; var d := w.insts[i].deps;
      Signature(d.peerKey, Bytes(d, Other(d.role), mine), peer) in w.ledger
    ensures b'.Valid() && b'.honest == b.honest && b'.worlds[0] == b.worlds[0]
    ensures var w, w' := b.worlds[|b.events|], b'.worlds[|b'.events|];
      && w'.ledger == w.ledger && |w'.insts| == |w.insts|
      && w'.insts[i].deps == w.insts[i].deps
      && w'.insts[i].hs.calls == [VerifyCall(mine, peer, Returned(Verified))]
      && forall j :: 0 <= j < |w.insts| && j != i ==> w'.insts[j] == w.insts[j]
  {
    hide Bytes, OnProof, VerifyDone, Proven, Behavior.Valid;
    assert |b.worlds| == |b.events| + 1 by { ValidShape(b); }
    VerifiedState(mine, theirs, signature, peer);
    b' := Extended(b, DeliverProof(i, peer));
    assert Checks(b'.worlds[|b'.events|], i, 0);
    b' := Extended(b', VerifiedAt(i, 0));
  }

  /** Whatever the two ends of a session are configured with, some run lets both of them verify. */
  lemma BothSidesVerify(honest: set<Key>, d: Deps, e: Deps, n0: string, n1: string, s0: string, s1: string)
    returns (b: Behavior)
    requires Crossed(d, e) && ShortDeps(d) && |n0| < MAX_TEXT && |n1| < MAX_TEXT
    ensures b.Valid() && b.honest == honest && b.worlds[0].insts == [Instance(d, Fresh), Instance(e, Fresh)]
    ensures var w := b.worlds[|b.events|];
      && |w.insts| == 2
      && w.insts[0].hs.calls == [VerifyCall(n0, s1, Returned(Verified))]
      && w.insts[1].hs.calls == [VerifyCall(n1, s0, Returned(Verified))]
  {
    hide Bytes, Proven, Behavior.Valid;
    var w0 := World([Instance(d, Fresh), Instance(e, Fresh)], {});
    b := Behavior(honest, [], [w0]);
    assert b.Valid() by { EmptyRun(honest, w0); }
    b := Proving(b, 0, n0, n1, s0);
    b := Proving(b, 1, n1, n0, s1);
    CrossedBytes(d, e, n0);
    CrossedBytes(e, d, n1);
    b := Verifying(b, 0, n0, n1, s0, s1);
    b := Verifying(b, 1, n1, n0, s1, s0);
  }

  /** A timeout that lands while the peer's proof is being verified does not stop the verification from succeeding. */
  lemma VerifiedAfterTimeout(honest: set<Key>, d: Deps, e: Deps, n0: string, n1: string, s0: string, s1: string)
    returns (b: Behavior)
    requires Crossed(d, e) && ShortDeps(d) && |n0| < MAX_TEXT && |n1| < MAX_TEXT
    ensures b.Valid() && b.honest == honest && b.worlds[0].insts == [Instance(d, Fresh), Instance(e, Fresh)]
    ensures |b.events| > 1 && b.events[|b.events| - 2..] == [TimeoutAt(0), VerifiedAt(0, 0)]
    ensures b.worlds[|b.events| - 1].insts != [] && b.worlds[|b.events| - 1].insts[0].hs.settled
    ensures b.worlds[|b.events|].insts != [] && b.worlds[|b.events|].insts[0].hs.calls == [VerifyCall(n0, s1, Returned(Verified))]
  {
    hide Bytes, Proven, Behavior.Valid, OnProof, VerifyDone, TimerFires;
    var w0 := World([Instance(d, Fresh), Instance(e, Fresh)], {});
    var b0 := Behavior(honest, [], [w0]);
    assert b0.Valid() by { EmptyRun(honest, w0); }
    var b1 := Proving(b0, 0, n0, n1, s0);
    var b2 := Proving(b1, 1, n1, n0, s1);
    CrossedBytes(d, e, n0);
    ValidShape(b2);
    LateState(n0, n1, s0, s1);
    var b3 := Extended(b2, DeliverProof(0, s1));
    var b4 := Extended(b3, TimeoutAt(0));
    assert Checks(b4.worlds[|b4.events|], 0, 0);
    b := Extended(b4, VerifiedAt(0, 0));
    ValidShape(b);
    assert b.worlds[|b.events| - 1] == b4.worlds[|b4.events|];
  }

  lemma LateState(mine: string, theirs: string, signature: string, peer: string)
    ensures var h := OnProof(Proven(mine, theirs, signature), peer); h.timerArmed
    ensures var t := TimerFires(OnProof(Proven(mine, theirs, signature), peer));
      && t.settled && t.calls == [VerifyCall(mine, peer, Waiting)]
      && VerifyDone(t, 0, true).calls == [VerifyCall(mine, peer, Returned(Verified))]
  {
  }

  lemma EmptyRun(honest: set<Key>, w: World)
    requires w.ledger == {} && forall i :: 0 <= i < |w.insts| ==> w.insts[i].hs == Fresh && ShortDeps(w.insts[i].deps)
    ensures Behavior(honest, [], [w]).Valid()
  {
  }
}
