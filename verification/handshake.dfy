/**
 * `PeerAuthHandshake` as an object with mutable fields. Every entry point, and
 * every continuation after an await, is proved equal to its step function.
 */
module Handshake {
  import opened Basics
  import Spec = HandshakeSpec

  class PeerAuthHandshake {
    const deps: Spec.Deps
    var myNonce: Option<string>
    var peerNonce: Option<string>
    var myProofSent: bool
    var peerProofVerified: bool
    var peerProofSig: Option<string>
    var timerArmed: bool
    var settled: bool
    /** The nonce captured by a `sign` in flight. */
    var signing: Option<string>
    /** Every `onProof` that reached its verify. */
    var calls: seq<Spec.VerifyCall>
    /** Frames handed to the channel. */
    var sent: seq<Spec.Sent>

    ghost function View(): Spec.State
      reads this
    {
      Spec.State(myNonce, peerNonce, myProofSent, peerProofVerified, peerProofSig, timerArmed, settled, signing, calls, sent)
    }

    constructor (deps: Spec.Deps)
      ensures this.deps == deps && View() == Spec.Fresh
    {
      this.deps := deps;
      myNonce, peerNonce, peerProofSig, signing := None, None, None, None;
      myProofSent, peerProofVerified, timerArmed, settled := false, false, false, false;
      calls, sent := [], [];
    }

    /** Returns the transcript to sign, when this side now proves itself. */
    method MaybeProve() returns (transcript: Option<seq<Spec.Byte>>)
      modifies this
      ensures View() == Spec.MaybeProve(old(View()))
      ensures transcript == if Spec.Proves(old(View())) then Some(Spec.Bytes(deps, deps.role, old(peerNonce).value)) else None
    {
      hide Spec.Bytes;
      if settled || myProofSent {
        return None;
      }
      if peerNonce.None? {
        return None;
      }
      myProofSent := true;
      signing := peerNonce;
      transcript := Some(Spec.Bytes(deps, deps.role, peerNonce.value));
    }

    method Start(nonce: string) returns (transcript: Option<seq<Spec.Byte>>)
      modifies this
      ensures View() == Spec.Start(old(View()), nonce)
    {
      myNonce := Some(nonce);
      sent := sent + [Spec.Challenge(nonce)];
      timerArmed := true;
      transcript := MaybeProve();
    }

    method OnChallenge(nonce: string) returns (transcript: Option<seq<Spec.Byte>>)
      modifies this
      ensures View() == Spec.OnChallenge(old(View()), nonce)
    {
      if settled {
        return None;
      }
      if peerNonce.Some? {
        return None;
      }
      peerNonce := Some(nonce);
      transcript := MaybeProve();
    }

    method Fail()
      modifies this
      ensures View() == Spec.Fail(old(View()))
    {
      if settled {
        return;
      }
      settled := true;
      timerArmed := false;
    }

    /** Returns the transcript to verify, or None for an immediate failure. */
    method OnProof(signature: string) returns (transcript: Option<seq<Spec.Byte>>)
      modifies this
      ensures View() == Spec.OnProof(old(View()), signature)
      ensures transcript.Some? <==> !old(settled) && old(peerNonce).Some? && old(myNonce).Some?
      ensures transcript.Some? ==> transcript.value == Spec.Bytes(deps, Spec.Other(deps.role), old(myNonce).value)
    {
      hide Spec.Bytes;
      if settled {
        return None;
      }
      if peerNonce.None? || myNonce.None? {
        Fail();
        return None;
      }
      peerProofSig := Some(signature);
      calls := calls + [Spec.VerifyCall(myNonce.value, signature, Spec.Waiting)];
      transcript := Some(Spec.Bytes(deps, Spec.Other(deps.role), myNonce.value));
    }

    /** After the `sign` await: send the proof, then verify a peer proof that came first. */
    method SignDone(signature: string) returns (transcript: Option<seq<Spec.Byte>>)
      requires signing.Some?
      modifies this
      ensures View() == Spec.SignDone(old(View()), signature)
    {
      signing := None;
      sent := sent + [Spec.Proof(signature)];
      transcript := None;
      if peerProofSig.Some? && !peerProofVerified {
        transcript := OnProof(peerProofSig.value);
      }
    }

    method MaybeSettle() returns (r: Spec.Result)
      modifies this
      ensures r == (if old(peerProofVerified && myProofSent) then Spec.Verified else Spec.Pending)
      ensures View() == if r == Spec.Verified then old(View()).(settled := true, timerArmed := false) else old(View())
    {
      if peerProofVerified && myProofSent {
        settled := true;
        timerArmed := false;
        return Spec.Verified;
      }
      r := Spec.Pending;
    }

    /** After the `verify` await of call `i`. */
    method VerifyDone(i: nat, ok: bool) returns (r: Spec.Result)
      requires i < |calls|
      modifies this
      ensures View() == Spec.VerifyDone(old(View()), i, ok)
      ensures calls[i].status == Spec.Returned(r)
    {
      if !ok {
        Fail();
        r := Spec.Failed;
      } else {
        peerProofVerified := true;
        r := MaybeSettle();
      }
      calls := calls[i := calls[i].(status := Spec.Returned(r))];
    }

    /** The timeout callback. */
    method TimerFires() returns (timedOut: bool)
      requires timerArmed
      modifies this
      ensures View() == Spec.TimerFires(old(View()))
      ensures timedOut <==> !old(settled)
    {
      timerArmed := false;
      timedOut := !settled;
      settled := true;
    }
  }
}
