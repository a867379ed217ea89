/** Device authentication over whole runs, with `onAuthProof` cut at its awaits. */
module RouterAuth {
  import opened Basics
  import opened OrderedMap
  import opened SignalingTypes
  import opened RouterSpec
  import opened RouterInvariant
  import opened RouterSteps
  import opened RouterRuns

  /** The frame that challenged a connection. */
  function Challenge(c: Id, nonce: string): Delivery { Delivery(c, Plain(AuthChallenge(nonce))) }

  /** The registry holds the key of this proof, and the key signed the nonce and the device id. */
  predicate Proved(crypto: Crypto, devices: map<Id, Device>, task: AuthTask) {
    && task.deviceId in devices
    && devices[task.deviceId].spki == task.proof.spki
    && devices[task.deviceId].fingerprint == task.proof.fingerprint
    && crypto.fingerprintOf(task.proof.spki) == task.proof.fingerprint
    && SignatureOk(crypto, task)
  }

  ghost predicate TaskOk(crypto: Crypto, w: World, r: TaskRecord) {
    && r.task.connId in w.used
    && Challenge(r.task.connId, r.task.nonce) in w.outbox
    && (r.task.connId in w.st.conns ==> w.st.conns[r.task.connId].deviceId == Some(r.task.deviceId))
    && (r.task.stage == AwaitingVerify ==> crypto.fingerprintOf(r.task.proof.spki) == r.task.proof.fingerprint)
    && (r.status == Succeeded ==> Proved(crypto, w.st.devices, r.task))
  }

  ghost predicate ProvenBy(w: World, c: Id, i: nat) {
    i < |w.tasks| && w.tasks[i].status == Succeeded && w.tasks[i].task.connId == c
  }

  ghost predicate AuthInv(crypto: Crypto, w: World) {
    && (forall c :: c in w.st.pendingAuth ==> Challenge(c, w.st.pendingAuth[c].nonce) in w.outbox)
    && (forall i :: 0 <= i < |w.tasks| ==> TaskOk(crypto, w, w.tasks[i]))
    && (forall c :: c in w.st.authenticated ==> exists i :: ProvenBy(w, c, i))
  }

  /** What a task needs of a step: no challenge is forgotten, no key changes, no live binding moves. */
  ghost predicate Carries(w: World, w': World) {
    && w.used <= w'.used
    && w.outbox <= w'.outbox
    && DevicesStep(w.st.devices, w'.st.devices)
    && (forall c :: c in w.used && c in w'.st.conns ==>
          c in w.st.conns && (w.st.conns[c].deviceId.Some? ==> w'.st.conns[c].deviceId == w.st.conns[c].deviceId))
  }

  lemma TaskFrame(crypto: Crypto, w: World, w': World, r: TaskRecord)
    requires TaskOk(crypto, w, r) && Carries(w, w')
    ensures TaskOk(crypto, w', r)
  {
  }

  lemma DispatchCarries(st: State, c: Id, frame: Frame, now: int, pairId: Id, nonce: string)
    requires Inv(st)
    ensures var st' := Dispatch(st, c, frame, now, pairId, nonce).st;
            && st'.conns.Keys == st.conns.Keys
            && (forall x :: x in st.conns && st.conns[x].deviceId.Some? ==> st'.conns[x].deviceId == st.conns[x].deviceId)
  {
    if !frame.body.Hello? {
      hide Dispatch;
    }
    DispatchKeepsTrust(st, c, frame, now, pairId, nonce);
  }

  lemma StepCarries(crypto: Crypto, w: World, ev: Event)
    requires WorldInv(w) && Enabled(w, ev)
    ensures Carries(w, Step(crypto, w, ev))
  {
    hide Dispatch, OnConnClosed, ResumeFingerprint, ResumeVerify, SignatureOk, Inv, NextTasks;
    match ev
    case Closed(c) => ConnClosedTrust(w.st, c);
    case Recv(c, frame, now, pairId, nonce) =>
      DispatchCarries(w.st, c, frame, now, pairId, nonce);
      DispatchKeepsTrust(w.st, c, frame, now, pairId, nonce);
    case FingerprintDone(i) =>
      var t := w.tasks[i].task;
      ResumeKeepsTables(w.st, t, crypto.fingerprintOf(t.proof.spki), false);
      FingerprintTrust(w.st, t, crypto.fingerprintOf(t.proof.spki));
    case VerifyDone(i) =>
      var t := w.tasks[i].task;
      ResumeKeepsTables(w.st, t, "", SignatureOk(crypto, t));
      VerifyDevices(w.st, t, SignatureOk(crypto, t));
    case _ =>
  }

  lemma FingerprintTrust(st: State, task: AuthTask, fingerprint: string)
    ensures var o := ResumeFingerprint(st, task, fingerprint);
            && SameTrust(st, o.st)
            && (o.result.Awaiting? ==> fingerprint == task.proof.fingerprint && o.result.task == task.(stage := AwaitingVerify))
            && (forall c :: c in o.st.pendingAuth ==> c in st.pendingAuth && o.st.pendingAuth[c].nonce == st.pendingAuth[c].nonce)
  {
  }

  /** The last step of a proof: exactly the admitted ones authenticate their connection and leave its key enrolled. */
  lemma VerifyTrust(st: State, task: AuthTask, ok: bool)
    ensures var st' := ResumeVerify(st, task, ok).st;
            && st'.authenticated == (if Admits(st, task, ok) then st.authenticated + {task.connId} else st.authenticated)
            && (Admits(st, task, ok) ==>
                  && ok && task.deviceId in st'.devices
                  && st'.devices[task.deviceId].spki == task.proof.spki
                  && st'.devices[task.deviceId].fingerprint == task.proof.fingerprint)
            && (forall c :: c in st'.pendingAuth ==> c in st.pendingAuth && st'.pendingAuth[c].nonce == st.pendingAuth[c].nonce)
  {
  }

  lemma RecvKeepsAuthInv(crypto: Crypto, w: World, ev: Event)
    requires WorldInv(w) && AuthInv(crypto, w) && ev.Recv? && Enabled(w, ev)
    ensures AuthInv(crypto, Step(crypto, w, ev))
  {
    hide Dispatch, SignatureOk, Inv, Carries, DevicesStep;
    var w' := Step(crypto, w, ev);
    var o := Dispatch(w.st, ev.c, ev.frame, ev.now, ev.pairId, ev.nonce);
    StepCarries(crypto, w, ev);
    DispatchKeepsTrust(w.st, ev.c, ev.frame, ev.now, ev.pairId, ev.nonce);
    RecvPending(w, ev);
    assert w.tasks <= w'.tasks;
    forall i | 0 <= i < |w'.tasks| ensures TaskOk(crypto, w', w'.tasks[i]) {
      if i < |w.tasks| {
        assert w'.tasks[i] == w.tasks[i];
        TaskFrame(crypto, w, w', w.tasks[i]);
      } else {
        SuspendedTask(w.st, ev.c, ev.frame, ev.now, ev.pairId, ev.nonce);
      }
    }
    forall c | c in w'.st.authenticated ensures exists i :: ProvenBy(w', c, i) {
      var i :| ProvenBy(w, c, i);
      assert ProvenBy(w', c, i);
    }
  }

  lemma RecvPending(w: World, ev: Event)
    requires ev.Recv?
    requires forall c :: c in w.st.pendingAuth ==> Challenge(c, w.st.pendingAuth[c].nonce) in w.outbox
    ensures var o := Dispatch(w.st, ev.c, ev.frame, ev.now, ev.pairId, ev.nonce);
            forall c :: c in o.st.pendingAuth ==> Challenge(c, o.st.pendingAuth[c].nonce) in w.outbox + o.out
  {
    DispatchKeepsTrust(w.st, ev.c, ev.frame, ev.now, ev.pairId, ev.nonce);
    if ev.frame.body.Hello? {
      var o := Dispatch(w.st, ev.c, ev.frame, ev.now, ev.pairId, ev.nonce);
      if o.st != w.st {
        assert o.out[1] == Challenge(ev.c, ev.nonce);
      }
    } else {
      hide Dispatch;
    }
  }

  lemma ResumedKeepsAuthInv(crypto: Crypto, w: World, ev: Event)
    requires WorldInv(w) && AuthInv(crypto, w) && Enabled(w, ev)
    requires ev.FingerprintDone? || ev.VerifyDone?
    ensures AuthInv(crypto, Step(crypto, w, ev))
  {
    hide ResumeFingerprint, ResumeVerify, SignatureOk, Inv, Carries;
    var w', i := Step(crypto, w, ev), ev.task;
    var t := w.tasks[i].task;
    StepCarries(crypto, w, ev);
    assert TaskOk(crypto, w, w.tasks[i]);
    if ev.FingerprintDone? {
      FingerprintTrust(w.st, t, crypto.fingerprintOf(t.proof.spki));
    } else {
      VerifyTrust(w.st, t, SignatureOk(crypto, t));
    }
    forall j | 0 <= j < |w'.tasks| ensures TaskOk(crypto, w', w'.tasks[j]) {
      TaskFrame(crypto, w, w', w.tasks[j]);
    }
    forall c | c in w'.st.authenticated ensures exists j :: ProvenBy(w', c, j) {
      if c in w.st.authenticated {
        var j :| ProvenBy(w, c, j);
        assert ProvenBy(w', c, j);
      } else {
        assert ProvenBy(w', c, i);
      }
    }
  }

  lemma StepKeepsAuthInv(crypto: Crypto, w: World, ev: Event)
    requires WorldInv(w) && AuthInv(crypto, w) && Enabled(w, ev)
    ensures AuthInv(crypto, Step(crypto, w, ev))
  {
    hide Dispatch, ResumeFingerprint, ResumeVerify, SignatureOk, Inv;
    if ev.Recv? {
      RecvKeepsAuthInv(crypto, w, ev);
    } else if ev.FingerprintDone? || ev.VerifyDone? {
      ResumedKeepsAuthInv(crypto, w, ev);
    } else {
      var w' := Step(crypto, w, ev);
      StepCarries(crypto, w, ev);
      forall i | 0 <= i < |w'.tasks| ensures TaskOk(crypto, w', w'.tasks[i]) {
        TaskFrame(crypto, w, w', w.tasks[i]);
      }
      forall c | c in w'.st.authenticated ensures exists i :: ProvenBy(w', c, i) {
        var i :| ProvenBy(w, c, i);
        assert ProvenBy(w', c, i);
      }
    }
  }

  lemma {:induction false} ReachableAuth(b: Behavior, n: nat)
    requires b.Valid() && n <= |b.events|
    ensures AuthInv(b.setup.crypto, b.worlds[n])
  {
    hide Step, React;
    if n == 0 {
    } else {
      ReachableAuth(b, n - 1);
      ReachableInv(b, n - 1);
      assert b.StepAt(n - 1);
      StepKeepsAuthInv(b.setup.crypto, b.worlds[n - 1], b.events[n - 1]);
    }
  }

  /**
   * Authentication means possession of the registered key: whenever a connection counts as authenticated, some
   * proof from it was checked against a nonce the service had sent to that very connection, the proved key is
   * the one the registry still holds for the device, and a live connection is bound to that device.
   */
  lemma AuthenticatedMeansProved(b: Behavior, n: nat, c: Id) returns (task: AuthTask)
    requires b.Valid() && n <= |b.events| && c in b.worlds[n].st.authenticated
    ensures task.connId == c
    ensures Challenge(c, task.nonce) in b.worlds[n].outbox
    ensures Proved(b.setup.crypto, b.worlds[n].st.devices, task)
    ensures c in b.worlds[n].st.conns ==> b.worlds[n].st.conns[c].deviceId == Some(task.deviceId)
  {
    hide Step, React, SignatureOk;
    ReachableAuth(b, n);
    var w := b.worlds[n];
    var i: nat :| ProvenBy(w, c, i);
    assert TaskOk(b.setup.crypto, w, w.tasks[i]);
    task := w.tasks[i].task;
  }

  /** Along every run a registered key and fingerprint never change and a first revocation time is never altered. */
  lemma {:induction false} DeviceHistory(b: Behavior, i: nat, j: nat)
    requires b.Valid() && i <= j <= |b.events|
    ensures DevicesStep(b.worlds[i].st.devices, b.worlds[j].st.devices)
    decreases j
  {
    hide Step, React;
    if i == j {
    } else {
      DeviceHistory(b, i, j - 1);
      ReachableInv(b, j - 1);
      assert b.StepAt(j - 1);
      StepCarries(b.setup.crypto, b.worlds[j - 1], b.events[j - 1]);
    }
  }

  lemma StepEnrols(crypto: Crypto, w: World, ev: Event)
    requires Enabled(w, ev) && w.st.mode == Required
    ensures Step(crypto, w, ev).st.devices.Keys == w.st.devices.Keys
  {
    hide Dispatch, OnConnClosed, ResumeFingerprint, ResumeVerify, SignatureOk, NextTasks;
    match ev
    case Recv(c, frame, now, pairId, nonce) => DispatchKeepsTrust(w.st, c, frame, now, pairId, nonce);
    case Closed(c) => ConnClosedTrust(w.st, c);
    case FingerprintDone(i) =>
      FingerprintTrust(w.st, w.tasks[i].task, crypto.fingerprintOf(w.tasks[i].task.proof.spki));
    case VerifyDone(i) => VerifyDevices(w.st, w.tasks[i].task, SignatureOk(crypto, w.tasks[i].task));
    case _ =>
  }

  /** In required mode the registry never gains or loses a device. */
  lemma {:induction false} RequiredModeEnrolsNobody(b: Behavior, n: nat)
    requires b.Valid() && n <= |b.events| && b.setup.mode == Required
    ensures b.worlds[n].st.devices.Keys == b.setup.devices.Keys
  {
    hide Step, React;
    if n == 0 {
    } else {
      RequiredModeEnrolsNobody(b, n - 1);
      ReachableInv(b, n - 1);
      assert b.StepAt(n - 1);
      StepEnrols(b.setup.crypto, b.worlds[n - 1], b.events[n - 1]);
    }
  }

  // ----- a revocation between the two awaits -----------------------------------------------------

  /** Event n revokes a registered device for the first time or again. */
  predicate Revokes(b: Behavior, n: nat, d: Id)
    requires n < |b.events| && n < |b.worlds|
  {
    b.events[n].RevokeDevice? && b.events[n].d == d && d in b.worlds[n].st.devices
  }

  lemma RevokedStep(crypto: Crypto, w: World, ev: Event, d: Id)
    requires Enabled(w, ev)
    ensures Step(crypto, w, ev).st.Revoked(d) <==> w.st.Revoked(d) || (ev.RevokeDevice? && ev.d == d && d in w.st.devices)
  {
    hide Dispatch, OnConnClosed, ResumeFingerprint, ResumeVerify, SignatureOk, NextTasks;
    match ev
    case Recv(c, frame, now, pairId, nonce) => DispatchKeepsTrust(w.st, c, frame, now, pairId, nonce);
    case Closed(c) => ConnClosedTrust(w.st, c);
    case FingerprintDone(i) => FingerprintTrust(w.st, w.tasks[i].task, crypto.fingerprintOf(w.tasks[i].task.proof.spki));
    case VerifyDone(i) => VerifyRevokes(w.st, w.tasks[i].task, SignatureOk(crypto, w.tasks[i].task), d);
    case _ =>
  }

  lemma VerifyRevokes(st: State, task: AuthTask, ok: bool, d: Id)
    ensures ResumeVerify(st, task, ok).st.Revoked(d) <==> st.Revoked(d)
  {
  }

  /** Between two moments a device is revoked at the later one exactly if it was, or was revoked in between. */
  lemma {:induction false} RevokedBetween(b: Behavior, m: nat, n: nat, d: Id)
    requires b.Valid() && m <= n <= |b.events|
    ensures b.worlds[n].st.Revoked(d) <==> b.worlds[m].st.Revoked(d) || exists r :: m <= r < n && Revokes(b, r, d)
    decreases n
  {
    hide Step;
    if m == n {
    } else {
      RevokedBetween(b, m, n - 1, d);
      assert b.StepAt(n - 1);
      RevokedStep(b.setup.crypto, b.worlds[n - 1], b.events[n - 1], d);
      if Revokes(b, n - 1, d) {
        assert b.worlds[n].st.Revoked(d);
      }
    }
  }

  /** The tasks of a run only move on: they keep their device, and reach the signature check through an unrevoked fingerprint check. */
  lemma {:induction false} FingerprintPassed(b: Behavior, n: nat, i: nat) returns (m: nat)
    requires b.Valid() && n <= |b.events| && i < |b.worlds[n].tasks| && b.worlds[n].tasks[i].task.stage == AwaitingVerify
    ensures m < n && b.events[m] == FingerprintDone(i) && !b.worlds[m].st.Revoked(b.worlds[n].tasks[i].task.deviceId)
    decreases n
  {
    hide Step, Enabled;
    if n == 0 {
      assert false;
    } else {
      assert b.StepAt(n - 1);
      TaskMoves(b.setup.crypto, b.worlds[n - 1], b.events[n - 1], i);
      if b.events[n - 1] == FingerprintDone(i) {
        m := n - 1;
      } else {
        m := FingerprintPassed(b, n - 1, i);
      }
    }
  }

  lemma TaskMoves(crypto: Crypto, w: World, ev: Event, i: nat)
    requires Enabled(w, ev) && i < |Step(crypto, w, ev).tasks| && Step(crypto, w, ev).tasks[i].task.stage == AwaitingVerify
    ensures i < |w.tasks| && w.tasks[i].task.deviceId == Step(crypto, w, ev).tasks[i].task.deviceId
    ensures if ev == FingerprintDone(i) then !w.st.Revoked(w.tasks[i].task.deviceId) else w.tasks[i].task.stage == AwaitingVerify
  {
    hide Dispatch, OnConnClosed, ResumeVerify, SignatureOk, Admits;
    if ev.Recv? && Dispatch(w.st, ev.c, ev.frame, ev.now, ev.pairId, ev.nonce).result.Awaiting? {
      SuspendedTask(w.st, ev.c, ev.frame, ev.now, ev.pairId, ev.nonce);
    }
  }

  /**
   * A revoked device becomes authenticated exactly when it was revoked between its two awaits: after the check that
   * follows the fingerprint and before the signature check ends.
   */
  lemma RevokedAuthenticatesExactly(b: Behavior, n: nat, i: nat) returns (m: nat)
    requires b.Valid() && n < |b.events| && b.events[n] == VerifyDone(i) && i < |b.worlds[n].tasks|
    requires Admits(b.worlds[n].st, b.worlds[n].tasks[i].task, SignatureOk(b.setup.crypto, b.worlds[n].tasks[i].task))
    ensures m < n && b.events[m] == FingerprintDone(i)
    ensures b.worlds[n].tasks[i].task.connId in b.worlds[n + 1].st.authenticated
    ensures var d := b.worlds[n].tasks[i].task.deviceId;
      b.worlds[n + 1].st.Revoked(d) <==> exists r :: m < r < n && Revokes(b, r, d)
  {
    hide SignatureOk, Admits, ResumeVerify, NextTasks;
    assert b.StepAt(n);
    var t := b.worlds[n].tasks[i].task;
    m := FingerprintPassed(b, n, i);
    RevokedBetween(b, m, n, t.deviceId);
    assert !Revokes(b, m, t.deviceId);
    RevokedStep(b.setup.crypto, b.worlds[n], b.events[n], t.deviceId);
    VerifyTrust(b.worlds[n].st, t, SignatureOk(b.setup.crypto, t));
  }

  // ----- a proof that finishes after its socket closed -----------------------------------------

  /** An admitted proof whose connection is gone by the time its signature has been checked. */
  predicate LateProof(crypto: Crypto, w: World, ev: Event)
    requires Enabled(w, ev)
  {
    && ev.VerifyDone?
    && Admits(w.st, w.tasks[ev.task].task, SignatureOk(crypto, w.tasks[ev.task].task))
    && w.tasks[ev.task].task.connId !in w.st.conns
  }

  /** The authenticated set stays within the live connections exactly as long as no late proof lands. */
  lemma AuthenticatedStaysLiveExactly(crypto: Crypto, w: World, ev: Event)
    requires WorldInv(w) && Enabled(w, ev) && w.st.authenticated <= w.st.conns.Keys
    ensures var st' := Step(crypto, w, ev).st;
            st'.authenticated <= st'.conns.Keys <==> !LateProof(crypto, w, ev)
  {
    hide Dispatch, OnConnClosed, ResumeFingerprint, ResumeVerify, SignatureOk, Inv, NextTasks;
    match ev
    case Closed(c) => ConnClosedTrust(w.st, c);
    case Recv(c, frame, now, pairId, nonce) => DispatchKeepsTrust(w.st, c, frame, now, pairId, nonce);
    case FingerprintDone(i) =>
      var t := w.tasks[i].task;
      ResumeKeepsTables(w.st, t, crypto.fingerprintOf(t.proof.spki), false);
      FingerprintTrust(w.st, t, crypto.fingerprintOf(t.proof.spki));
    case VerifyDone(i) =>
      var t := w.tasks[i].task;
      ResumeKeepsTables(w.st, t, "", SignatureOk(crypto, t));
      VerifyTrust(w.st, t, SignatureOk(crypto, t));
    case _ =>
  }

  /** A connection id left behind that way never becomes live again. */
  lemma {:induction false} ClosedStaysClosed(b: Behavior, i: nat, j: nat, c: Id)
    requires b.Valid() && i <= j <= |b.events|
    requires c in b.worlds[i].used && c !in b.worlds[i].st.conns
    ensures c in b.worlds[j].used && c !in b.worlds[j].st.conns
    decreases j
  {
    hide Step, React;
    if i == j {
    } else {
      ClosedStaysClosed(b, i, j - 1, c);
      ReachableInv(b, j - 1);
      assert b.StepAt(j - 1);
      StepCarries(b.setup.crypto, b.worlds[j - 1], b.events[j - 1]);
    }
  }

  /** One socket, one device and one proof, whose signature check outlives the socket. */
  function LateEvents(c: Id, d: Id, nonce: string, proof: Proof): seq<Event> {
    [Open(c, 0),
     Recv(c, Frame(None, None, Hello(Desktop, d, None)), 0, c, nonce),
     Recv(c, Frame(None, None, AuthProof(proof)), 0, c, nonce),
     FingerprintDone(0),
     Closed(c),
     VerifyDone(0)]
  }

  lemma LateProofStarts(s: Setup, c: Id, d: Id, nonce: string, proof: Proof) returns (w1: World, w2: World, w3: World)
    requires s.mode == OpenMode && s.devices == map[]
    ensures var es, w0 := LateEvents(c, d, nonce, proof), Start(s);
            && Enabled(w0, es[0]) && w1 == Step(s.crypto, w0, es[0])
            && Enabled(w1, es[1]) && w2 == Step(s.crypto, w1, es[1])
            && Enabled(w2, es[2]) && w3 == Step(s.crypto, w2, es[2])
            && w3.tasks == [TaskRecord(AuthTask(c, d, nonce, proof, None, AwaitingFingerprint), Suspended)]
            && w3.st.mode == OpenMode && w3.st.devices == map[]
  {
    var es := LateEvents(c, d, nonce, proof);
    w1 := Step(s.crypto, Start(s), es[0]);
    assert w1 == World(Init(OpenMode, map[]).(conns := map[c := Conn(None, None, 0)], handles := {c}), [], {c}, []);
    w2 := Step(s.crypto, w1, es[1]);
    assert w2.st.conns == map[c := Conn(Some(Desktop), Some(d), 0)] && w2.st.pendingAuth == map[c := PendingAuth(nonce, 0)];
    assert w2.st.pairings == Empty() && w2.tasks == [] && w2.st.devices == map[] && w2.st.mode == OpenMode;
    w3 := Step(s.crypto, w2, es[2]);
  }

  lemma LateProofEnds(s: Setup, w3: World, c: Id, d: Id, nonce: string, proof: Proof) returns (w4: World, w5: World, w6: World)
    requires s.crypto.fingerprintOf(proof.spki) == proof.fingerprint
    requires SignatureOk(s.crypto, AuthTask(c, d, nonce, proof, None, AwaitingVerify))
    requires w3.tasks == [TaskRecord(AuthTask(c, d, nonce, proof, None, AwaitingFingerprint), Suspended)]
    requires w3.st.mode == OpenMode && w3.st.devices == map[]
    ensures var es := LateEvents(c, d, nonce, proof);
            && Enabled(w3, es[3]) && w4 == Step(s.crypto, w3, es[3])
            && Enabled(w4, es[4]) && w5 == Step(s.crypto, w4, es[4])
            && Enabled(w5, es[5]) && w6 == Step(s.crypto, w5, es[5])
            && c in w6.st.authenticated && c !in w6.st.conns
  {
    hide SignatureOk, OnConnClosed, ResumeVerify;
    var es := LateEvents(c, d, nonce, proof);
    w4 := Step(s.crypto, w3, es[3]);
    w5 := Step(s.crypto, w4, es[4]);
    ConnClosedTrust(w4.st, c);
    w6 := Step(s.crypto, w5, es[5]);
    VerifyTrust(w5.st, w5.tasks[0].task, true);
    ResumeKeepsTables(w5.st, w5.tasks[0].task, "", true);
  }

  /** Such late proofs do happen: in open mode any proof that verifies can finish after its socket closed. */
  lemma LateProofHappens(s: Setup, c: Id, d: Id, nonce: string, proof: Proof) returns (b: Behavior)
    requires s.mode == OpenMode && s.devices == map[]
    requires s.crypto.fingerprintOf(proof.spki) == proof.fingerprint
    requires SignatureOk(s.crypto, AuthTask(c, d, nonce, proof, None, AwaitingVerify))
    ensures b.Valid() && b.setup == s && b.events == LateEvents(c, d, nonce, proof)
    ensures c in b.worlds[6].st.authenticated && c !in b.worlds[6].st.conns
  {
    hide SignatureOk, Step, React;
    var w1, w2, w3 := LateProofStarts(s, c, d, nonce, proof);
    var w4, w5, w6 := LateProofEnds(s, w3, c, d, nonce, proof);
    b := Behavior(s, LateEvents(c, d, nonce, proof), [Start(s), w1, w2, w3, w4, w5, w6]);
    assert b.StepAt(0) && b.StepAt(1) && b.StepAt(2) && b.StepAt(3) && b.StepAt(4) && b.StepAt(5);
  }
}
