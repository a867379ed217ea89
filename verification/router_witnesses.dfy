/** Short runs that happen: what the router's guarantees do not rule out. */
module RouterWitnesses {
  import opened Basics
  import opened OrderedMap
  import opened SignalingTypes
  import opened RouterSpec
  import opened RouterInvariant
  import opened RouterSteps
  import opened RouterProgress
  import opened RouterRuns
  import opened RouterAuth

  // ----- building runs ----------------------------------------------------------------

  ghost function Last(b: Behavior): World
    requires b.Valid()
  {
    b.worlds[|b.events|]
  }

  /** A run with one more event. */
  ghost function Extended(b: Behavior, ev: Event): (b': Behavior)
    requires b.Valid() && Enabled(Last(b), ev)
    ensures b'.Valid() && b'.setup == b.setup && b'.events == b.events + [ev]
    ensures Last(b') == Step(b.setup.crypto, Last(b), ev)
    ensures forall n :: 0 <= n <= |b.events| ==> b'.worlds[n] == b.worlds[n]
  {
    ExtendedIsValid(b, ev);
    Behavior(b.setup, b.events + [ev], b.worlds + [Step(b.setup.crypto, Last(b), ev)])
  }

  lemma ExtendedIsValid(b: Behavior, ev: Event)
    requires b.Valid() && Enabled(Last(b), ev)
    ensures Behavior(b.setup, b.events + [ev], b.worlds + [Step(b.setup.crypto, Last(b), ev)]).Valid()
  {
    hide Step, Enabled, Start;
    var b' := Behavior(b.setup, b.events + [ev], b.worlds + [Step(b.setup.crypto, Last(b), ev)]);
    forall n | 0 <= n < |b'.events| ensures b'.StepAt(n) {
      if n < |b.events| {
        assert b.StepAt(n);
      }
    }
  }

  lemma Shape(b: Behavior)
    requires b.Valid()
    ensures |b.worlds| == |b.events| + 1
  {
  }

  ghost function NoEvents(s: Setup): (b: Behavior)
    ensures b.Valid() && b.setup == s && b.events == [] && Last(b) == Start(s)
  {
    Behavior(s, [], [Start(s)])
  }

  /** The state after a fresh connection said hello. */
  function Connected(st: State, c: Id, r: Role, d: Id, nonce: string): State {
    st.(conns := st.conns[c := Conn(Some(r), Some(d), 0)], handles := st.handles + {c},
        byDevice := st.byDevice[d := c], pendingAuth := st.pendingAuth[c := PendingAuth(nonce, 0)])
  }

  lemma Connects(b: Behavior, c: Id, r: Role, d: Id, nonce: string) returns (b': Behavior)
    requires b.Valid() && c !in Last(b).used && c !in Last(b).st.pairings.rows && d !in Last(b).st.byDevice
    requires c !in Last(b).st.conns
    ensures b'.Valid() && b'.setup == b.setup && Last(b').st == Connected(Last(b).st, c, r, d, nonce)
    ensures Last(b').tasks == Last(b).tasks && Last(b').used == Last(b).used + {c}
    ensures b.events <= b'.events && |b'.events| == |b.events| + 2
    ensures b'.events[|b.events|] == Open(c, 0) && b'.events[|b.events| + 1] == Recv(c, Frame(None, None, Hello(r, d, None)), 0, c, nonce)
  {
    hide Behavior.Valid, OnOpen, OnHello;
    var hello := Frame(None, None, Hello(r, d, None));
    var b1 := Extended(b, Open(c, 0));
    HelloConnects(Last(b).st, c, r, d, hello, nonce);
    b' := Extended(b1, Recv(c, hello, 0, c, nonce));
  }

  lemma HelloConnects(st: State, c: Id, r: Role, d: Id, frame: Frame, nonce: string)
    requires c !in st.conns && d !in st.byDevice && frame.body == Hello(r, d, None)
    ensures OnOpen(st, c, 0).pairings == st.pairings
    ensures var o := Dispatch(OnOpen(st, c, 0), c, frame, 0, c, nonce);
      o.st == Connected(st, c, r, d, nonce) && o.result == Ok
  {
    assert OnOpen(st, c, 0).conns[c := Conn(Some(r), Some(d), 0)] == st.conns[c := Conn(Some(r), Some(d), 0)];
  }

  // ----- the sweep ---------------------------------------------------------------------

  /** A desktop that opens, says hello and presents a pairing is one that the sweep cannot evict cleanly. */
  lemma SweepBreaksARun(s: Setup, c: Id, d: Id, create: Frame, k: Id, nonce: string) returns (b: Behavior)
    requires s.mode == OpenMode && create.body.PairCreate?
    ensures b.Valid() && b.setup == s
    ensures b.events == [Open(c, 0), Recv(c, Frame(None, None, Hello(Desktop, d, None)), 0, c, nonce), Recv(c, create, 0, k, nonce)]
    ensures c in b.worlds[3].st.conns && Entangled(b.worlds[3].st, c) && !Inv(SweepEvict(b.worlds[3].st, c))
  {
    hide Behavior.Valid, Inv, Step, React, Dispatch, SweepEvict;
    b := NoEvents(s);
    b := Connects(b, c, Desktop, d, nonce);
    ReachableInv(b, 2);
    assert Last(b).st.pairings == Init(s.mode, s.devices).pairings;
    var st := Last(b).st;
    CreatePairs(st, c, create, 0, k, nonce);
    StepOfRecv(b.setup.crypto, Last(b), c, create, k, nonce);
    b := Extended(b, Recv(c, create, 0, k, nonce));
    ReachableInv(b, 3);
    Shape(b);
    assert k in OpenPairingsOf(Last(b).st.pairings, c);
    SweepKeepsInvExactly(Last(b).st, c);
  }

  lemma StepOfRecv(crypto: Crypto, w: World, c: Id, frame: Frame, k: Id, nonce: string)
    requires k !in w.st.pairings.rows
    ensures Enabled(w, Recv(c, frame, 0, k, nonce))
    ensures var o, w' := Dispatch(w.st, c, frame, 0, k, nonce), Step(crypto, w, Recv(c, frame, 0, k, nonce));
      && w'.st == o.st && w'.used == w.used
      && (!o.result.Awaiting? ==> w'.tasks == w.tasks)
      && (o.result.Awaiting? ==> w'.tasks == w.tasks + [TaskRecord(o.result.task, Suspended)])
  {
    hide Dispatch;
  }

  // ----- proving a key ---------------------------------------------------------------------

  /** A device that may prove its key: live, challenged, unrevoked and registered with the key of this proof. */
  predicate MayProve(s: Setup, st: State, c: Id, d: Id, nonce: string, proof: Proof) {
    && c in st.conns && st.conns[c].deviceId == Some(d)
    && c in st.pendingAuth && st.pendingAuth[c].nonce == nonce
    && d in st.devices && st.devices[d].spki == proof.spki && st.devices[d].fingerprint == proof.fingerprint
    && st.devices[d].revokedAtMs.None?
    && s.crypto.fingerprintOf(proof.spki) == proof.fingerprint
    && SignatureOk(s.crypto, AuthTask(c, d, nonce, proof, None, AwaitingVerify))
  }

  /** Everything but the devices, the challenges and who is authenticated. */
  predicate SameWiring(st: State, st': State) {
    && st'.mode == st.mode && st'.conns == st.conns && st'.byDevice == st.byDevice && st'.handles == st.handles
    && st'.requests == st.requests && st'.pairings == st.pairings && st'.sessions == st.sessions
  }

  /** The proof comes in and its fingerprint passes: the task waits for its signature check. */
  lemma FingerprintPasses(b: Behavior, c: Id, d: Id, nonce: string, proof: Proof, k: Id) returns (b': Behavior)
    requires b.Valid() && MayProve(b.setup, Last(b).st, c, d, nonce, proof) && k !in Last(b).st.pairings.rows
    ensures b'.Valid() && b'.setup == b.setup && |b'.events| == |b.events| + 2
    ensures b'.events[|b.events| + 1] == FingerprintDone(|Last(b).tasks|)
    ensures Last(b').st == Last(b).st && Last(b').used == Last(b).used
    ensures Last(b').tasks == Last(b).tasks + [TaskRecord(AuthTask(c, d, nonce, proof, None, AwaitingVerify), Suspended)]
  {
    hide Behavior.Valid, SignatureOk, Dispatch, Step, React;
    var frame := Frame(None, None, AuthProof(proof));
    var i := |Last(b).tasks|;
    ProofSuspends(Last(b).st, c, d, nonce, proof, frame, k);
    StepOfRecv(b.setup.crypto, Last(b), c, frame, k, "");
    var b1 := Extended(b, Recv(c, frame, 0, k, ""));
    FingerprintStep(b.setup.crypto, Last(b1), i);
    b' := Extended(b1, FingerprintDone(i));
  }

  lemma ProofSuspends(st: State, c: Id, d: Id, nonce: string, proof: Proof, frame: Frame, k: Id)
    requires c in st.conns && st.conns[c].deviceId == Some(d) && c in st.pendingAuth && st.pendingAuth[c].nonce == nonce
    requires frame == Frame(None, None, AuthProof(proof))
    ensures var o := Dispatch(st, c, frame, 0, k, "");
      o.st == st && o.result == Awaiting(AuthTask(c, d, nonce, proof, None, AwaitingFingerprint))
  {
  }

  lemma FingerprintStep(crypto: Crypto, w: World, i: nat)
    requires i < |w.tasks| && w.tasks[i].status == Suspended && w.tasks[i].task.stage == AwaitingFingerprint
    requires !w.st.Revoked(w.tasks[i].task.deviceId)
    requires crypto.fingerprintOf(w.tasks[i].task.proof.spki) == w.tasks[i].task.proof.fingerprint
    ensures Enabled(w, FingerprintDone(i))
    ensures var w' := Step(crypto, w, FingerprintDone(i));
      && w'.st == w.st && w'.used == w.used
      && w'.tasks == w.tasks[i := TaskRecord(w.tasks[i].task.(stage := AwaitingVerify), Suspended)]
  {
  }

  /** The signature check ends well. */
  lemma SignaturePasses(b: Behavior, i: nat) returns (b': Behavior)
    requires b.Valid() && i < |Last(b).tasks| && Last(b).tasks[i].status == Suspended
    requires var t := Last(b).tasks[i].task;
      && t.stage == AwaitingVerify && SignatureOk(b.setup.crypto, t)
      && t.deviceId in Last(b).st.devices
      && Last(b).st.devices[t.deviceId].spki == t.proof.spki && Last(b).st.devices[t.deviceId].fingerprint == t.proof.fingerprint
    ensures b'.Valid() && b'.setup == b.setup && b'.events == b.events + [VerifyDone(i)]
    ensures SameWiring(Last(b).st, Last(b').st) && Last(b').st.devices == Last(b).st.devices
    ensures Last(b').st.authenticated == Last(b).st.authenticated + {Last(b).tasks[i].task.connId}
    ensures Last(b').used == Last(b).used
  {
    hide Behavior.Valid, SignatureOk;
    b' := Extended(b, VerifyDone(i));
  }

  /** A device revoked while its signature is being checked is authenticated all the same. */
  lemma RevokedLateHappens(s: Setup, c: Id, d: Id, nonce: string, proof: Proof, now: int) returns (b: Behavior)
    requires MayProve(s, Connected(Init(s.mode, s.devices), c, Phone, d, nonce), c, d, nonce, proof)
    ensures b.Valid() && b.setup == s && c in Last(b).st.authenticated && Last(b).st.Revoked(d)
    ensures |b.events| == 6 && b.events[3..] == [FingerprintDone(0), RevokeDevice(d, now), VerifyDone(0)]
  {
    hide Behavior.Valid, SignatureOk, Step, React;
    var b0 := NoEvents(s);
    var b1 := Connects(b0, c, Phone, d, nonce);
    var b2 := FingerprintPasses(b1, c, d, nonce, proof, c);
    RevokeStep(s.crypto, Last(b2), d, now);
    var b3 := Extended(b2, RevokeDevice(d, now));
    b := SignaturePasses(b3, 0);
  }

  lemma RevokeStep(crypto: Crypto, w: World, d: Id, now: int)
    ensures Enabled(w, RevokeDevice(d, now))
    ensures var w' := Step(crypto, w, RevokeDevice(d, now));
      w'.st == w.st.(devices := Revoke(w.st.devices, d, now)) && w'.tasks == w.tasks && w'.used == w.used
  {
  }

  // ----- a desktop that never proved its key ------------------------------------------------

  /**
   * In required mode a session opens between a phone that proved its key and a desktop connection that only said
   * hello: accepting a session asks the desktop for nothing else.
   */
  lemma UnprovenDesktopHappens(s: Setup, desktop: Id, phone: Id, d: Id, p: Id, nonce: string, proof: Proof,
                               request: Frame, accepted: Frame) returns (b: Behavior)
    requires s.mode == Required && desktop != phone && d != p && !(d in s.devices && s.devices[d].revokedAtMs.Some?)
    requires MayProve(s, Connected(Init(s.mode, s.devices), phone, Phone, p, nonce), phone, p, nonce, proof)
    requires request.body.SessionRequest? && request.body.desktopDeviceId == d
    requires accepted.body.SessionAccepted? && accepted.body.desktopDeviceId == d && accepted.body.phoneDeviceId == p
    ensures b.Valid() && b.setup == s
    ensures var st, k := Last(b).st, accepted.body.sessionId;
      && k in st.sessions.rows && st.sessions.rows[k].Open()
      && st.sessions.rows[k].desktopConnId == desktop && desktop !in st.authenticated
      && st.sessions.rows[k].phoneConnId == phone && phone in st.authenticated
  {
    hide Behavior.Valid, SignatureOk, Step, React, Dispatch, Inv, OpenSessionsUsing, RequestKey;
    b := NoEvents(s);
    b := Connects(b, phone, Phone, p, nonce);
    b := Connects(b, desktop, Desktop, d, "");
    b := FingerprintPasses(b, phone, p, nonce, proof, phone);
    b := SignaturePasses(b, 0);
    ReachableInv(b, |b.events|);
    var st := Last(b).st;
    RequestArrives(st, phone, desktop, d, request, 0, phone, "");
    StepOfRecv(s.crypto, Last(b), phone, request, phone, "");
    DispatchKeepsTrust(st, phone, request, 0, phone, "");
    b := Extended(b, Recv(phone, request, 0, phone, ""));
    var st1 := Last(b).st;
    NoSessionsYet(st1, d, p);
    AcceptedOpens(st1, desktop, d, p, phone, accepted, 0, phone, "");
    StepOfRecv(s.crypto, Last(b), desktop, accepted, phone, "");
    DispatchKeepsTrust(st1, desktop, accepted, 0, phone, "");
    b := Extended(b, Recv(desktop, accepted, 0, phone, ""));
  }

  lemma NoSessionsYet(st: State, d: Id, p: Id)
    requires st.sessions == Empty()
    ensures OpenSessionsUsing(st.sessions, d) == {} && OpenSessionsUsing(st.sessions, p) == {}
  {
  }
}
