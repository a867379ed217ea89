/**
 * Proofs that fail: how often a connection may try, when it is expelled, and
 * that a proved challenge cannot be used again.
 */
module RouterFailures {
  import opened Basics
  import opened OrderedMap
  import opened SignalingTypes
  import opened RouterSpec
  import opened RouterInvariant
  import opened RouterSteps
  import opened RouterRuns
  import opened RouterAuth
  import Transcript
  import HandshakeSpec
  import HandshakeRuns

  /** A proof of connection c fails: another fingerprint than it says, or not admitted after the signature check. */
  predicate Fails(crypto: Crypto, w: World, ev: Event, c: Id) {
    match ev
    case FingerprintDone(i) =>
      i < |w.tasks| && w.tasks[i].task.connId == c
      && crypto.fingerprintOf(w.tasks[i].task.proof.spki) != w.tasks[i].task.proof.fingerprint
    case VerifyDone(i) =>
      i < |w.tasks| && w.tasks[i].task.connId == c && !Admits(w.st, w.tasks[i].task, SignatureOk(crypto, w.tasks[i].task))
    case _ => false
  }

  /** The failed proofs of a connection among the first n events. */
  ghost function Failures(b: Behavior, n: nat, c: Id): nat
    requires b.Valid() && n <= |b.events|
  {
    if n == 0 then 0
    else Failures(b, n - 1, c) + if Fails(b.setup.crypto, b.worlds[n - 1], b.events[n - 1], c) then 1 else 0
  }

  lemma FailedProof(crypto: Crypto, w: World, ev: Event, c: Id)
    requires Enabled(w, ev) && (ev.FingerprintDone? || ev.VerifyDone?)
    ensures var st, o := w.st, React(crypto, w, ev);
      && (Fails(crypto, w, ev, c) ==>
            && o.out == []
            && o.result == (if st.mode == Required || (c in st.pendingAuth && st.pendingAuth[c].failures + 1 >= MAX_AUTH_FAILURES)
                            then Fatal(WS_CLOSE_POLICY) else Ok))
      && (c in o.st.pendingAuth ==>
            && c in st.pendingAuth && o.st.pendingAuth[c].nonce == st.pendingAuth[c].nonce
            && o.st.pendingAuth[c].failures == st.pendingAuth[c].failures + if Fails(crypto, w, ev, c) then 1 else 0)
  {
    hide SignatureOk, Admits;
  }

  lemma PendingStep(crypto: Crypto, w: World, ev: Event, c: Id)
    requires Enabled(w, ev) && !ev.FingerprintDone? && !ev.VerifyDone? && c in React(crypto, w, ev).st.pendingAuth
    ensures var after := React(crypto, w, ev).st.pendingAuth;
      if c in w.st.pendingAuth && after[c] == w.st.pendingAuth[c] then true
      else ev.Recv? && ev.frame.body.Hello? && ev.c == c && c in w.st.conns && w.st.conns[c].role.None? && after[c] == PendingAuth(ev.nonce, 0)
  {
    hide OnConnClosed, DispatchBound;
    match ev
    case Recv(x, frame, now, pairId, nonce) =>
      if !frame.body.Hello? {
        DispatchKeepsTrust(w.st, x, frame, now, pairId, nonce);
      }
    case Closed(x) => ConnClosedTrust(w.st, x);
    case _ =>
  }

  /** A connection that has said nothing yet has no proof under way, so none of its proofs has failed. */
  lemma {:induction false} NoFailureBeforeHello(b: Behavior, n: nat, c: Id)
    requires b.Valid() && n <= |b.events| && c in b.worlds[n].st.conns && b.worlds[n].st.conns[c].role.None?
    ensures Failures(b, n, c) == 0
  {
    hide Step, SignatureOk, Admits;
    if n == 0 {
    } else {
      ReachableAuth(b, n - 1);
      ReachableInv(b, n - 1);
      assert b.StepAt(n - 1);
      var w, ev := b.worlds[n - 1], b.events[n - 1];
      if Fails(b.setup.crypto, w, ev, c) {
        assert TaskOk(b.setup.crypto, w, w.tasks[ev.task]);
        StillBound(b.setup.crypto, w, ev, c);
        assert false;
      }
      if c in w.st.conns {
        StillBound(b.setup.crypto, w, ev, c);
        NoFailureBeforeHello(b, n - 1, c);
      } else {
        StepCarries(b.setup.crypto, w, ev);
        NewHasNoFailure(b, n - 1, c);
      }
    }
  }

  /** A binding is never undone while the connection lives. */
  lemma StillBound(crypto: Crypto, w: World, ev: Event, c: Id)
    requires WorldInv(w) && Enabled(w, ev) && c in Step(crypto, w, ev).st.conns && c in w.used
    ensures c in w.st.conns
    ensures w.st.conns[c].role.Some? ==> Step(crypto, w, ev).st.conns[c].role.Some?
  {
    hide Step, React;
    StepCarries(crypto, w, ev);
    StepKeepsWorldInv(crypto, w, ev);
    if w.st.conns[c].role.Some? {
      assert w.st.conns[c].deviceId.Some?;
    }
  }

  lemma {:induction false} NewHasNoFailure(b: Behavior, n: nat, c: Id)
    requires b.Valid() && n <= |b.events| && c !in b.worlds[n].used
    ensures Failures(b, n, c) == 0
  {
    hide React, SignatureOk, Admits, NextTasks;
    if n == 0 {
    } else {
      ReachableInv(b, n - 1);
      assert b.StepAt(n - 1);
      assert b.worlds[n - 1].used <= b.worlds[n].used;
      NewHasNoFailure(b, n - 1, c);
    }
  }

  /** While a challenge is pending, its counter is the number of proofs of that connection that failed. */
  lemma {:induction false} FailuresCounted(b: Behavior, n: nat, c: Id)
    requires b.Valid() && n <= |b.events| && c in b.worlds[n].st.pendingAuth
    ensures b.worlds[n].st.pendingAuth[c].failures == Failures(b, n, c)
  {
    hide React, SignatureOk, Admits, NextTasks;
    if n == 0 {
    } else {
      assert b.StepAt(n - 1);
      var w, ev := b.worlds[n - 1], b.events[n - 1];
      if ev.FingerprintDone? || ev.VerifyDone? {
        FailedProof(b.setup.crypto, w, ev, c);
        FailuresCounted(b, n - 1, c);
      } else {
        PendingStep(b.setup.crypto, w, ev, c);
        if c in w.st.pendingAuth && b.worlds[n].st.pendingAuth[c] == w.st.pendingAuth[c] {
          FailuresCounted(b, n - 1, c);
        } else {
          NoFailureBeforeHello(b, n - 1, c);
        }
      }
    }
  }

  /**
   * In every run a failed proof is answered with nothing and expels its connection exactly in required mode, or when
   * the challenge is still pending and this is its fifth failed proof.
   */
  lemma FailureExpelsExactly(b: Behavior, n: nat, c: Id)
    requires b.Valid() && n < |b.events| && Fails(b.setup.crypto, b.worlds[n], b.events[n], c)
    ensures b.StepAt(n)
    ensures var o := React(b.setup.crypto, b.worlds[n], b.events[n]);
      && o.out == []
      && o.result == if b.setup.mode == Required || (c in b.worlds[n].st.pendingAuth && Failures(b, n, c) + 1 >= 5)
                     then Fatal(WS_CLOSE_POLICY) else Ok
  {
    hide React, SignatureOk, Admits;
    assert b.StepAt(n);
    FailedProof(b.setup.crypto, b.worlds[n], b.events[n], c);
    ReachableInv(b, n);
    if c in b.worlds[n].st.pendingAuth {
      FailuresCounted(b, n, c);
    }
  }

  /** A proof with the fingerprint it claims is expelled at once when its device is revoked by then. */
  lemma RevokedIsExpelledExactly(b: Behavior, n: nat, i: nat)
    requires b.Valid() && n < |b.events| && b.events[n] == FingerprintDone(i) && i < |b.worlds[n].tasks|
    requires !Fails(b.setup.crypto, b.worlds[n], b.events[n], b.worlds[n].tasks[i].task.connId)
    ensures b.StepAt(n)
    ensures var o, t := React(b.setup.crypto, b.worlds[n], b.events[n]), b.worlds[n].tasks[i].task;
      if b.worlds[n].st.Revoked(t.deviceId)
      then o.out == [Delivery(t.connId, Plain(Error(DEVICE_REVOKED)))] && o.result == Fatal(WS_CLOSE_POLICY)
      else o.out == [] && o.result == Awaiting(t.(stage := AwaitingVerify))
  {
    assert b.StepAt(n);
  }

  // ----- one challenge, one success -------------------------------------------------------

  /** An authenticated connection has no challenge pending, ever after. */
  lemma {:induction false} AuthenticatedIsUnchallenged(b: Behavior, n: nat, c: Id)
    requires b.Valid() && n <= |b.events| && c in b.worlds[n].st.authenticated
    ensures c !in b.worlds[n].st.pendingAuth
  {
    hide React, SignatureOk, NextTasks;
    if n == 0 {
    } else {
      assert b.StepAt(n - 1);
      var w, ev := b.worlds[n - 1], b.events[n - 1];
      ReachableAuth(b, n - 1);
      ReachableInv(b, n - 1);
      if c !in w.st.authenticated {
        TrustStep(b.setup.crypto, w, ev, c);
      } else {
        AuthenticatedIsUnchallenged(b, n - 1, c);
        var i: nat :| ProvenBy(w, c, i);
        assert TaskOk(b.setup.crypto, w, w.tasks[i]);
        if c in b.worlds[n].st.pendingAuth {
          PendingOrigin(b.setup.crypto, w, ev, c);
        }
      }
    }
  }

  lemma PendingOrigin(crypto: Crypto, w: World, ev: Event, c: Id)
    requires WorldInv(w) && Enabled(w, ev) && c in React(crypto, w, ev).st.pendingAuth && c !in w.st.pendingAuth
    ensures c in w.st.conns && w.st.conns[c].deviceId.None?
  {
    hide React, SignatureOk;
    if ev.FingerprintDone? || ev.VerifyDone? {
      FailedProof(crypto, w, ev, c);
    } else {
      PendingStep(crypto, w, ev, c);
    }
  }

  lemma TrustStep(crypto: Crypto, w: World, ev: Event, c: Id)
    requires Enabled(w, ev) && c in React(crypto, w, ev).st.authenticated && c !in w.st.authenticated
    ensures c !in React(crypto, w, ev).st.pendingAuth
  {
    hide DispatchBound, OnConnClosed, SignatureOk, Admits;
    match ev
    case Recv(x, frame, now, pairId, nonce) => DispatchKeepsTrust(w.st, x, frame, now, pairId, nonce);
    case Closed(x) => ConnClosedTrust(w.st, x);
    case FingerprintDone(i) => FingerprintTrust(w.st, w.tasks[i].task, crypto.fingerprintOf(w.tasks[i].task.proof.spki));
    case _ =>
  }

  /** So no later proof over that challenge is even looked at: its sender is expelled. */
  lemma ProvedChallengeIsSpent(b: Behavior, n: nat)
    requires b.Valid() && n < |b.events| && b.events[n].Recv? && b.events[n].frame.body.AuthProof?
    requires b.events[n].c in b.worlds[n].st.authenticated
    ensures b.StepAt(n)
    ensures var o := React(b.setup.crypto, b.worlds[n], b.events[n]); o.result.Fatal? && o.st == b.worlds[n].st
  {
    assert b.StepAt(n);
    AuthenticatedIsUnchallenged(b, n, b.events[n].c);
  }

  // ----- what a proof is over ---------------------------------------------------------------

  lemma AuthFieldsShort(nonce: string, d: Id)
    requires |nonce| < HandshakeRuns.MAX_TEXT
    ensures Transcript.ShortText(AuthFields(nonce, d))
  {
    assert |WS_AUTH_DOMAIN| < HandshakeRuns.MAX_TEXT && |d.text| <= 64;
  }

  /** What a device signs determines the challenge and the device: a signature for one is none for another. */
  lemma AuthTranscriptExactly(nonce: string, d: Id, nonce': string, d': Id)
    requires |nonce| < HandshakeRuns.MAX_TEXT && |nonce'| < HandshakeRuns.MAX_TEXT
    ensures Transcribe(nonce, d) == Transcribe(nonce', d') <==> nonce == nonce' && d == d'
  {
    hide Transcript.EncodeFields, Transcript.FieldBytes, Transcript.ShortText;
    var a, b := AuthFields(nonce, d), AuthFields(nonce', d');
    AuthFieldsShort(nonce, d);
    AuthFieldsShort(nonce', d');
    Transcript.TranscriptInjective(a, b);
    if a == b {
      assert a[2] == b[2] && a[3] == b[3];
    }
  }

  /** And a signature made for the signaling service is never a proof to a peer, nor the other way round. */
  lemma AuthIsNoPeerProof(nonce: string, d: Id, deps: HandshakeSpec.Deps, role: HandshakeSpec.Role, peerNonce: string)
    requires |nonce| < HandshakeRuns.MAX_TEXT && HandshakeRuns.ShortDeps(deps) && |peerNonce| < HandshakeRuns.MAX_TEXT
    ensures Transcribe(nonce, d) != HandshakeSpec.Bytes(deps, role, peerNonce)
  {
    hide Transcript.EncodeFields, Transcript.FieldBytes, Transcript.ShortText;
    AuthFieldsShort(nonce, d);
    assert AuthFields(nonce, d)[0] != HandshakeSpec.PEER_AUTH_DOMAIN;
    assert HandshakeRuns.Foreign(AuthFields(nonce, d), Transcribe(nonce, d));
    HandshakeRuns.NotOtherPurpose(deps, role, peerNonce);
  }
}
