/**
 * How a handshake settles: by which events exactly, what a settled handshake
 * never does again, and when its timer, its proof and its verifications start.
 */
module HandshakeSettling {
  import opened Basics
  import opened HandshakeSpec
  import opened HandshakeRuns

  ghost predicate Started(b: Behavior, n: nat, i: nat)
    requires n <= |b.events|
  {
    exists m :: 0 <= m < n && b.events[m].StartAt? && b.events[m].i == i
  }

  ghost predicate Challenged(b: Behavior, n: nat, i: nat)
    requires n <= |b.events|
  {
    exists m :: 0 <= m < n && b.events[m].DeliverChallenge? && b.events[m].i == i
  }

  /** A verification of handshake i returns, a proof comes before its start or before any challenge, or its timeout fires. */
  ghost predicate Settles(b: Behavior, m: nat, i: nat)
    requires m < |b.events|
  {
    match b.events[m]
    case VerifiedAt(j, _) => j == i
    case DeliverProof(j, _) => j == i && !(Started(b, m, i) && Challenged(b, m, i))
    case TimeoutAt(j) => j == i
    case _ => false
  }

  ghost predicate SettledBefore(b: Behavior, n: nat, i: nat)
    requires n <= |b.events|
  {
    exists m :: 0 <= m < n && Settles(b, m, i)
  }

  // ----- one handshake ------------------------------------------------------------

  /** The last proof is that of the last verification, and a success settles. */
  predicate ProofOk(h: State) {
    && h.peerProofSig == (if h.calls == [] then None else Some(h.calls[|h.calls| - 1].signature))
    && (h.peerProofVerified ==> h.settled)
    && (h.myNonce.None? ==> h.calls == [] && !h.timerArmed)
    && (h.settled && h.calls != [] ==> !h.timerArmed)
  }

  /** What an event may do to a settled handshake: a verification under way returns, a proof under way goes out, it starts late. */
  predicate Quiet(h: State, h': State) {
    && h'.settled
    && h'.peerNonce == h.peerNonce && h'.myProofSent == h.myProofSent
    && (h'.signing == h.signing || h'.signing.None?)
    && |h'.calls| == |h.calls|
    && forall k :: 0 <= k < |h.calls| ==>
         && h'.calls[k].nonce == h.calls[k].nonce && h'.calls[k].signature == h.calls[k].signature
         && (h.calls[k].status != Waiting ==> h'.calls[k].status == h.calls[k].status)
  }

  lemma StepProofOk(honest: set<Key>, w: World, ev: Event, i: nat)
    requires Enabled(honest, w, ev) && i < |w.insts| && HsInv(w.insts[i].hs) && ProofOk(w.insts[i].hs)
    ensures ProofOk(Step(honest, w, ev).insts[i].hs)
  {
    hide Bytes, Checks, Proofs;
  }

  lemma StepQuiet(honest: set<Key>, w: World, ev: Event, i: nat)
    requires Enabled(honest, w, ev) && i < |w.insts| && w.insts[i].hs.settled
    requires HsInv(w.insts[i].hs) && ProofOk(w.insts[i].hs)
    ensures Quiet(w.insts[i].hs, Step(honest, w, ev).insts[i].hs)
  {
    hide Bytes, Checks, Proofs;
  }

  lemma {:induction false} ReachableProofOk(b: Behavior, n: nat, i: nat)
    requires b.Valid() && n <= |b.events| && i < |b.worlds[n].insts|
    ensures HsInv(b.worlds[n].insts[i].hs) && ProofOk(b.worlds[n].insts[i].hs)
    ensures n > 0 ==> i < |b.worlds[n - 1].insts|
  {
    hide Step, Enabled, HsInv;
    ReachableInv(b, n);
    if n == 0 {
    } else {
      assert b.StepAt(n - 1);
      ReachableProofOk(b, n - 1, i);
      StepProofOk(b.honest, b.worlds[n - 1], b.events[n - 1], i);
    }
  }

  // ----- when it settles -----------------------------------------------------------

  /** What each handler makes of `settled` and of the two nonces. */
  lemma HandlersSettle(h: State, text: string)
    requires HsInv(h) && ProofOk(h)
    ensures Start(h, text).settled == h.settled && Start(h, text).myNonce.Some? && Start(h, text).peerNonce == h.peerNonce
    ensures var c := OnChallenge(h, text);
      c.settled == h.settled && c.myNonce == h.myNonce && (c.peerNonce.Some? <==> h.peerNonce.Some? || !h.settled)
    ensures var p := OnProof(h, text);
      && (p.settled <==> h.settled || h.myNonce.None? || h.peerNonce.None?)
      && p.myNonce == h.myNonce && p.peerNonce == h.peerNonce
    ensures h.signing.Some? ==>
      var d := SignDone(h, text); d.settled == h.settled && d.myNonce == h.myNonce && d.peerNonce == h.peerNonce
    ensures TimerFires(h).settled && TimerFires(h).myNonce == h.myNonce && TimerFires(h).peerNonce == h.peerNonce
  {
    hide Proofs;
  }

  lemma VerifyDoneSettles(h: State, k: nat, ok: bool)
    requires HsInv(h) && k < |h.calls|
    ensures var v := VerifyDone(h, k, ok); v.settled && v.myNonce == h.myNonce && v.peerNonce == h.peerNonce
  {
    hide Proofs;
    assert CallOk(h, h.calls[k]);
  }

  /** One event: what becomes of `settled` and of the two nonces. */
  lemma StepSettles(honest: set<Key>, w: World, ev: Event, i: nat)
    requires Enabled(honest, w, ev) && i < |w.insts| && HsInv(w.insts[i].hs) && ProofOk(w.insts[i].hs)
    ensures var h, h' := w.insts[i].hs, Step(honest, w, ev).insts[i].hs;
      && (h'.settled <==>
          || h.settled
          || (ev.VerifiedAt? && ev.i == i)
          || (ev.DeliverProof? && ev.i == i && (h.myNonce.None? || h.peerNonce.None?))
          || (ev.TimeoutAt? && ev.i == i))
      && (h'.myNonce.Some? <==> h.myNonce.Some? || (ev.StartAt? && ev.i == i))
      && (h'.peerNonce.Some? <==> h.peerNonce.Some? || (ev.DeliverChallenge? && ev.i == i && !h.settled))
  {
    hide Bytes, Checks, HsInv, ProofOk, Start, OnChallenge, OnProof, SignDone, VerifyDone, TimerFires;
    var h := w.insts[i].hs;
    HandlersSettle(h, Carried(ev));
    if ev.VerifiedAt? && ev.i == i {
      VerifyDoneSettles(h, ev.call, Checks(w, i, ev.call));
    }
  }

  lemma {:induction false} NoncesExactly(b: Behavior, n: nat, i: nat)
    requires b.Valid() && n <= |b.events| && i < |b.worlds[n].insts|
    ensures var h := b.worlds[n].insts[i].hs;
      && (h.settled <==> SettledBefore(b, n, i))
      && (h.myNonce.Some? <==> Started(b, n, i))
      && (h.peerNonce.Some? ==> Challenged(b, n, i))
      && (!h.settled && Challenged(b, n, i) ==> h.peerNonce.Some?)
  {
    hide Step, Enabled, HsInv;
    if n == 0 {
    } else {
      ReachableProofOk(b, n, i);
      assert b.StepAt(n - 1);
      NoncesExactly(b, n - 1, i);
      ReachableProofOk(b, n - 1, i);
      StepSettles(b.honest, b.worlds[n - 1], b.events[n - 1], i);
      SettledLast(b, n, i);
      StartedLast(b, n, i);
      ChallengedLast(b, n, i);
    }
  }

  lemma SettledLast(b: Behavior, n: nat, i: nat)
    requires 0 < n <= |b.events|
    ensures SettledBefore(b, n, i) <==> SettledBefore(b, n - 1, i) || Settles(b, n - 1, i)
  {
  }

  lemma StartedLast(b: Behavior, n: nat, i: nat)
    requires 0 < n <= |b.events|
    ensures Started(b, n, i) <==> Started(b, n - 1, i) || (b.events[n - 1].StartAt? && b.events[n - 1].i == i)
  {
  }

  lemma ChallengedLast(b: Behavior, n: nat, i: nat)
    requires 0 < n <= |b.events|
    ensures Challenged(b, n, i) <==> Challenged(b, n - 1, i) || (b.events[n - 1].DeliverChallenge? && b.events[n - 1].i == i)
  {
  }

  /**
   * In every run a handshake is settled exactly when a verification of it has returned, verified or failed, when a
   * proof came before both nonces were there, or when its timeout fired.
   */
  lemma SettledExactly(b: Behavior, n: nat, i: nat)
    requires b.Valid() && n <= |b.events| && i < |b.worlds[n].insts|
    ensures b.worlds[n].insts[i].hs.settled <==> SettledBefore(b, n, i)
  {
    hide Step, Enabled;
    NoncesExactly(b, n, i);
  }

  lemma {:induction false} SettledIsQuiet(b: Behavior, m: nat, n: nat, i: nat)
    requires b.Valid() && m <= n <= |b.events| && i < |b.worlds[n].insts|
    requires i < |b.worlds[m].insts| && b.worlds[m].insts[i].hs.settled
    ensures Quiet(b.worlds[m].insts[i].hs, b.worlds[n].insts[i].hs)
    decreases n
  {
    hide Step, Enabled, HsInv;
    if m == n {
    } else {
      ReachableProofOk(b, n, i);
      assert b.StepAt(n - 1);
      SettledIsQuiet(b, m, n - 1, i);
      ReachableProofOk(b, n - 1, i);
      StepQuiet(b.honest, b.worlds[n - 1], b.events[n - 1], i);
    }
  }

  /**
   * A failed or finished verification, a proof that came too early and a timeout are final. From then on the
   * handshake takes no challenge, starts no signature and no verification, and what returns verified later is a
   * call that was waiting at that moment.
   */
  lemma SettlingIsFinal(b: Behavior, m: nat, n: nat, i: nat)
    requires b.Valid() && m < n <= |b.events| && Settles(b, m, i) && i < |b.worlds[m].insts|
    ensures i < |b.worlds[m + 1].insts| && i < |b.worlds[n].insts|
    ensures Quiet(b.worlds[m + 1].insts[i].hs, b.worlds[n].insts[i].hs)
    ensures var at, later := b.worlds[m + 1].insts[i].hs, b.worlds[n].insts[i].hs;
      forall k :: 0 <= k < |later.calls| && later.calls[k].status == Returned(Verified) ==>
        k < |at.calls| && (at.calls[k].status == Waiting || at.calls[k].status == Returned(Verified))
  {
    hide Step, Enabled, Settles;
    SameCount(b, m, m + 1);
    SameCount(b, m, n);
    SettledExactly(b, m + 1, i);
    SettledIsQuiet(b, m + 1, n, i);
  }

  lemma {:induction false} SameCount(b: Behavior, m: nat, n: nat)
    requires b.Valid() && m <= n <= |b.events|
    ensures |b.worlds[n].insts| == |b.worlds[m].insts|
    decreases n
  {
    hide Step, Enabled;
    if m == n {
    } else {
      assert b.StepAt(n - 1);
      SameCount(b, m, n - 1);
    }
  }

  // ----- what starts a verification, a signature, the timer ----------------------------

  /**
   * One event of a run starts a verification exactly when the handshake is unsettled and either a proof comes with
   * both nonces there, or its own signature is done after an earlier proof, which is then checked again.
   */
  lemma VerificationStartsExactly(b: Behavior, n: nat, i: nat)
    requires b.Valid() && n < |b.events| && i < |b.worlds[n].insts| && i < |b.worlds[n + 1].insts|
    ensures var h, h', ev := b.worlds[n].insts[i].hs, b.worlds[n + 1].insts[i].hs, b.events[n];
      var proof := ev.DeliverProof? && ev.i == i && h.myNonce.Some? && h.peerNonce.Some?;
      var again := ev.SignedAt? && ev.i == i && h.calls != [];
      && (|h'.calls| != |h.calls| <==> !h.settled && (proof || again))
      && (|h'.calls| != |h.calls| ==>
            && h.myNonce.Some?
            && h'.calls == h.calls + [VerifyCall(h.myNonce.value, if proof then ev.signature else h.calls[|h.calls| - 1].signature, Waiting)])
  {
    hide Bytes, Checks, Proofs;
    ReachableProofOk(b, n, i);
    assert b.StepAt(n);
  }

  /** A signature starts exactly when the first challenge reaches an unsettled handshake, and over its nonce. */
  lemma SigningStartsExactly(b: Behavior, n: nat, i: nat)
    requires b.Valid() && n < |b.events| && i < |b.worlds[n].insts| && i < |b.worlds[n + 1].insts|
    ensures var h, h', ev := b.worlds[n].insts[i].hs, b.worlds[n + 1].insts[i].hs, b.events[n];
      var first := ev.DeliverChallenge? && ev.i == i && !SettledBefore(b, n, i) && !Challenged(b, n, i);
      && (!h.myProofSent && h'.myProofSent <==> first)
      && (first ==> h'.signing == Some(ev.nonce) && h'.peerNonce == Some(ev.nonce))
      && (h'.signing != h.signing && h'.signing.Some? ==> first)
  {
    hide Bytes, Checks, Proofs, SettledBefore, Challenged, Started;
    ReachableProofOk(b, n, i);
    NoncesExactly(b, n, i);
    assert b.StepAt(n);
  }

  /** The proof that a start would begin has always begun before: the challenge that makes it possible began it. */
  lemma StartNeverProves(b: Behavior, n: nat, i: nat)
    requires b.Valid() && n < |b.events| && i < |b.worlds[n].insts| && i < |b.worlds[n + 1].insts|
    requires b.events[n].StartAt? && b.events[n].i == i
    ensures var h, h' := b.worlds[n].insts[i].hs, b.worlds[n + 1].insts[i].hs;
      h' == h.(myNonce := Some(b.events[n].nonce), sent := h.sent + [Challenge(b.events[n].nonce)], timerArmed := true)
  {
    hide Bytes, Checks, Proofs;
    ReachableProofOk(b, n, i);
    assert b.StepAt(n);
  }

  /** What a handshake sends in a run: its challenge when it starts, its proof when the signature is done. */
  function SentBy(events: seq<Event>, i: nat): seq<Sent> {
    if events == [] then []
    else
      SentBy(events[..|events| - 1], i) +
      match events[|events| - 1] {
        case StartAt(j, nonce) => if j == i then [Challenge(nonce)] else []
        case SignedAt(j, signature) => if j == i then [Proof(signature)] else []
        case _ => []
      }
  }

  lemma HandlersSend(h: State, text: string)
    ensures Start(h, text).sent == h.sent + [Challenge(text)] && SignDone(h, text).sent == h.sent + [Proof(text)]
    ensures OnChallenge(h, text).sent == h.sent && OnProof(h, text).sent == h.sent && TimerFires(h).sent == h.sent
  {
  }

  lemma StepSends(honest: set<Key>, w: World, ev: Event, i: nat)
    requires Enabled(honest, w, ev) && i < |w.insts|
    ensures Step(honest, w, ev).insts[i].hs.sent == w.insts[i].hs.sent + SentBy([ev], i)
  {
    hide Bytes, Checks, Start, OnChallenge, OnProof, SignDone, TimerFires;
    var h := w.insts[i].hs;
    assert [ev][..0] == [];
    HandlersSend(h, Carried(ev));
  }

  lemma SentOneMore(events: seq<Event>, ev: Event, i: nat)
    ensures SentBy(events + [ev], i) == SentBy(events, i) + SentBy([ev], i)
  {
    assert (events + [ev])[..|events|] == events;
    assert [ev][..0] == [];
  }

  lemma {:induction false} SentExactly(b: Behavior, n: nat, i: nat)
    requires b.Valid() && n <= |b.events| && i < |b.worlds[n].insts|
    ensures b.worlds[n].insts[i].hs.sent == SentBy(b.events[..n], i)
  {
    hide Step, Enabled, SentBy;
    if n == 0 {
      assert SentBy(b.events[..0], i) == [] by { NothingSent(i); }
    } else {
      SameCount(b, n - 1, n);
      assert b.StepAt(n - 1);
      SentExactly(b, n - 1, i);
      StepSends(b.honest, b.worlds[n - 1], b.events[n - 1], i);
      SentOneMore(b.events[..n - 1], b.events[n - 1], i);
      assert b.events[..n] == b.events[..n - 1] + [b.events[n - 1]];
    }
  }

  lemma NothingSent(i: nat)
    ensures SentBy([], i) == []
  {
  }

  lemma TimerStep(honest: set<Key>, w: World, ev: Event, i: nat)
    requires Enabled(honest, w, ev) && i < |w.insts| && HsInv(w.insts[i].hs) && ProofOk(w.insts[i].hs)
    ensures var h, h' := w.insts[i].hs, Step(honest, w, ev).insts[i].hs;
      h'.timerArmed <==>
        || (ev.StartAt? && ev.i == i)
        || (h.timerArmed && (h'.settled ==> h.settled) && ev != TimeoutAt(i))
  {
    hide Bytes, Checks, Proofs;
  }

  /** Before its start a handshake has no timer. */
  lemma NoTimerBeforeStart(b: Behavior, n: nat, i: nat)
    requires b.Valid() && n <= |b.events| && i < |b.worlds[n].insts| && !Started(b, n, i)
    ensures !b.worlds[n].insts[i].hs.timerArmed
  {
    hide Step, Enabled, HsInv;
    NoncesExactly(b, n, i);
    ReachableProofOk(b, n, i);
  }

  predicate NoTimeout(b: Behavior, m: nat, n: nat, i: nat)
    requires n <= |b.events|
  {
    forall r :: m < r < n ==> b.events[r] != TimeoutAt(i)
  }

  /**
   * From its start on, the timer of a handshake runs exactly until the handshake settles; when a proof that came too
   * early settled it before its start, exactly until the timeout.
   */
  lemma {:induction false} TimerExactly(b: Behavior, m: nat, n: nat, i: nat)
    requires b.Valid() && m < n <= |b.events| && i < |b.worlds[m].insts| && i < |b.worlds[n].insts|
    requires b.events[m].StartAt? && b.events[m].i == i
    ensures b.worlds[n].insts[i].hs.timerArmed <==>
      if SettledBefore(b, m, i) then NoTimeout(b, m, n, i) else !SettledBefore(b, n, i)
    decreases n
  {
    hide Step, Enabled, HsInv, Settles, SettledBefore, Challenged;
    ReachableProofOk(b, n, i);
    assert b.StepAt(n - 1);
    ReachableProofOk(b, n - 1, i);
    TimerStep(b.honest, b.worlds[n - 1], b.events[n - 1], i);
    StepSettles(b.honest, b.worlds[n - 1], b.events[n - 1], i);
    NoncesExactly(b, m, i);
    NoncesExactly(b, n, i);
    NoncesExactly(b, n - 1, i);
    if n > m + 1 {
      TimerExactly(b, m, n - 1, i);
      NotStartedAgain(b, m, n - 1, i);
      if SettledBefore(b, m, i) {
        SettledIsQuiet(b, m, n - 1, i);
        SettledIsQuiet(b, m, n, i);
        assert NoTimeout(b, m, n, i) <==> NoTimeout(b, m, n - 1, i) && b.events[n - 1] != TimeoutAt(i);
      }
    } else {
      assert b.events[m] == b.events[n - 1];
      assert SettledBefore(b, n, i) <==> SettledBefore(b, m, i) by { SettledLast(b, n, i); StartIsNoEnd(b, m, i); }
    }
  }

  lemma StartIsNoEnd(b: Behavior, m: nat, i: nat)
    requires m < |b.events| && b.events[m].StartAt?
    ensures !Settles(b, m, i)
  {
  }

  lemma NotStartedAgain(b: Behavior, m: nat, n: nat, i: nat)
    requires b.Valid() && m < n < |b.events| && i < |b.worlds[n].insts|
    requires b.events[m].StartAt? && b.events[m].i == i
    ensures !(b.events[n].StartAt? && b.events[n].i == i)
  {
    hide Step, HsInv;
    NoncesExactly(b, n, i);
    assert b.StepAt(n);
    assert Started(b, n, i);
  }
}
