/**
 * What a run's events alone say about the router's tables: which requests are
 * pending, when a connection was last heard, and that a rejected pairing stays
 * rejected.
 */
module RouterHistories {
  import opened Basics
  import opened OrderedMap
  import opened SignalingTypes
  import opened RouterSpec
  import opened RouterInvariant
  import opened RouterSteps
  import opened RouterRuns
  import opened RouterSessions
  import opened RouterOutcomes
  import opened RouterNotices

  // ----- pending requests ------------------------------------------------------------

  /** A request between these two devices goes through. */
  ghost predicate Records(w: World, ev: Event, key: string) {
    && Handled(w, ev) && ev.frame.body.SessionRequest? && RequestGoes(w.st, ev.c, ev.frame.body)
    && key == RequestKey(ev.frame.body.desktopDeviceId, w.st.conns[ev.c].deviceId.value)
  }

  /** The desktop answers it, the desktop turns everything down, or the phone's socket closes. */
  predicate Drops(w: World, ev: Event, key: string) {
    key in w.st.requests.rows &&
    match ev
    case Recv(c, frame, _, _, _) =>
      w.st.HasRole(c, Desktop) &&
      (match frame.body
       case SessionAccepted(_, _, phone) => key == RequestKey(w.st.conns[c].deviceId.value, phone)
       case SessionRejected(_) => AsksFor(w.st, key, w.st.conns[c].deviceId.value)
       case _ => false)
    case Closed(c) => c in w.st.conns && w.st.requests.rows[key].phoneConnId == c
    case _ => false
  }

  lemma TouchRequests(st: State, c: Id, now: int, b: Body, key: string, d: Id)
    ensures b.SessionRequest? ==> (RequestGoes(Touch(st, c, now), c, b) <==> RequestGoes(st, c, b))
    ensures AsksFor(Touch(st, c, now), key, d) <==> AsksFor(st, key, d)
  {
    if b.SessionRequest? {
      var st' := Touch(st, c, now);
      assert forall x :: x in st.conns <==> x in st'.conns;
      assert forall x :: x in st.conns ==> st'.conns[x].deviceId == st.conns[x].deviceId;
    }
  }

  lemma PairFrameKeepsRequests(st: State, c: Id, frame: Frame, now: int, pairId: Id)
    requires PairBody(frame.body)
    ensures DispatchBound(st, c, frame, now, pairId).st.requests == st.requests
  {
    hide Supersede;
  }

  lemma BoundRequests(st: State, c: Id, frame: Frame, now: int, pairId: Id, key: string)
    requires Inv(st) && st.Bound(c)
    ensures var rows, rows' := st.requests.rows, DispatchBound(st, c, frame, now, pairId).st.requests.rows;
      var records := frame.body.SessionRequest? && RequestGoes(st, c, frame.body)
                     && key == RequestKey(frame.body.desktopDeviceId, st.conns[c].deviceId.value);
      var drops := st.HasRole(c, Desktop)
                   && ((frame.body.SessionAccepted? && key == RequestKey(st.conns[c].deviceId.value, frame.body.phoneDeviceId))
                       || (frame.body.SessionRejected? && AsksFor(st, key, st.conns[c].deviceId.value)));
      && (key in rows' <==> records || (key in rows && !drops))
      && (key in rows' ==> rows'[key] == if records then Request(c, frame) else rows[key])
  {
    hide Inv, RequestKey, RequestGoes, OnPairCreate, OnPairJoin, DecidePairing, OnSessionRequest, OnSessionAccepted, OnSessionRejected;
    if PairBody(frame.body) {
      PairFrameKeepsRequests(st, c, frame, now, pairId);
    } else {
      match frame.body
      case SessionRequest(_, _) => RequestOutcome(st, c, frame);
      case SessionAccepted(_, _, _) => AcceptedOutcome(st, c, frame, now);
      case SessionRejected(_) =>
        if st.HasRole(c, Desktop) {
          TurnedDown(st, c, frame);
        } else {
          OnlyDesktopsTurnDown(st, c, frame);
        }
      case _ =>
    }
  }

  /** One event: a request is pending afterwards exactly if this event records it, or it was pending and this event does not drop it. */
  lemma RequestStepExactly(crypto: Crypto, w: World, ev: Event, key: string)
    requires WorldInv(w) && Enabled(w, ev)
    ensures var rows, rows' := w.st.requests.rows, Step(crypto, w, ev).st.requests.rows;
      && (key in rows' <==> Records(w, ev, key) || (key in rows && !Drops(w, ev, key)))
      && (key in rows' ==> rows'[key] == if Records(w, ev, key) then Request(ev.c, ev.frame) else rows[key])
  {
    hide Inv, OnConnClosed, DispatchBound, ResumeFingerprint, ResumeVerify, SignatureOk, NextTasks, RequestGoes, RequestKey;
    match ev
    case Recv(c, frame, now, pairId, nonce) =>
      if w.st.Bound(c) && !frame.body.Hello? && !frame.body.AuthProof? {
        TouchKeepsInv(w.st, c, now);
        BoundRequests(Touch(w.st, c, now), c, frame, now, pairId, key);
        TouchRequests(w.st, c, now, frame.body, key, w.st.conns[c].deviceId.value);
      }
    case Closed(c) => ClosedRequests(w.st, c);
    case FingerprintDone(i) =>
      ResumeKeepsTables(w.st, w.tasks[i].task, crypto.fingerprintOf(w.tasks[i].task.proof.spki), false);
    case VerifyDone(i) => ResumeKeepsTables(w.st, w.tasks[i].task, "", SignatureOk(crypto, w.tasks[i].task));
    case _ =>
  }

  lemma ClosedRequests(st: State, c: Id)
    ensures OnConnClosed(st, c).st.requests.rows ==
      if c in st.conns then map k | k in st.requests.rows && st.requests.rows[k].phoneConnId != c :: st.requests.rows[k]
      else st.requests.rows
  {
    hide PairingNotices, SessionNotices, CancelPairings, CloseSessions, Select, Excluding;
  }

  /** The pending request between two devices, by the events of a run. */
  ghost function RequestBy(b: Behavior, n: nat, key: string): Option<Request>
    requires b.Valid() && n <= |b.events|
  {
    if n == 0 then None
    else if Records(b.worlds[n - 1], b.events[n - 1], key) then Some(Request(b.events[n - 1].c, b.events[n - 1].frame))
    else if Drops(b.worlds[n - 1], b.events[n - 1], key) then None
    else RequestBy(b, n - 1, key)
  }

  /** In every run the pending requests are those recorded and not dropped since, each as its latest sender made it. */
  lemma {:induction false} RequestsExactly(b: Behavior, n: nat, key: string)
    requires b.Valid() && n <= |b.events|
    ensures var rows := b.worlds[n].st.requests.rows;
      RequestBy(b, n, key) == if key in rows then Some(rows[key]) else None
  {
    hide Step, Records, Drops;
    if n == 0 {
    } else {
      RequestsExactly(b, n - 1, key);
      ReachableInv(b, n - 1);
      assert b.StepAt(n - 1);
      RequestStepExactly(b.setup.crypto, b.worlds[n - 1], b.events[n - 1], key);
    }
  }

  lemma {:induction false} LatestRecord(b: Behavior, n: nat, key: string) returns (m: nat)
    requires b.Valid() && n <= |b.events| && RequestBy(b, n, key).Some?
    ensures m < n && Records(b.worlds[m], b.events[m], key)
    ensures b.events[m].Recv? && RequestBy(b, n, key) == Some(Request(b.events[m].c, b.events[m].frame))
    ensures forall r :: m < r < n ==> !Drops(b.worlds[r], b.events[r], key)
  {
    hide Drops;
    if Records(b.worlds[n - 1], b.events[n - 1], key) {
      m := n - 1;
    } else {
      m := LatestRecord(b, n - 1, key);
    }
  }

  /**
   * A session opens only on request: whenever an acceptance goes through, the phone it names sent a request to this
   * desktop's device, and since then the desktop neither answered nor turned it down and the phone stayed connected.
   */
  lemma SessionsAreRequested(b: Behavior, n: nat) returns (m: nat)
    requires b.Valid() && n < |b.events| && Handled(b.worlds[n], b.events[n]) && b.events[n].frame.body.SessionAccepted?
    requires AcceptGuard(b.worlds[n].st, b.events[n].c, b.events[n].frame.body)
    ensures var body := b.events[n].frame.body; var key := RequestKey(body.desktopDeviceId, body.phoneDeviceId);
      && m < n && Records(b.worlds[m], b.events[m], key) && b.events[m].Recv?
      && (forall r :: m < r < n ==> !Drops(b.worlds[r], b.events[r], key))
      && body.sessionId in b.worlds[n + 1].st.sessions.rows
      && b.worlds[n + 1].st.sessions.rows[body.sessionId].phoneConnId == b.events[m].c
      && b.worlds[n + 1].st.sessions.rows[body.sessionId].desktopConnId == b.events[n].c
  {
    hide Step, React, Records, Drops, RequestKey;
    var ev := b.events[n];
    var key := RequestKey(ev.frame.body.desktopDeviceId, ev.frame.body.phoneDeviceId);
    RequestsExactly(b, n, key);
    m := LatestRecord(b, n, key);
    assert b.StepAt(n);
    AcceptedRow(b.setup.crypto, b.worlds[n], ev);
  }

  lemma AcceptedRow(crypto: Crypto, w: World, ev: Event)
    requires Enabled(w, ev) && Handled(w, ev) && ev.frame.body.SessionAccepted? && AcceptGuard(w.st, ev.c, ev.frame.body)
    ensures var rows := Step(crypto, w, ev).st.sessions.rows;
      && ev.frame.body.sessionId in rows
      && rows[ev.frame.body.sessionId] == AcceptedSession(w.st, ev.c, ev.frame.body, ev.now)
  {
    hide AcceptGuard, OnSessionAccepted, RequestKey, OpenSessionsUsing;
    var st1 := Touch(w.st, ev.c, ev.now);
    TouchAccepts(w.st, ev.c, ev.now, ev.frame.body);
    AcceptStoresExactly(st1, ev.c, ev.frame, ev.now);
  }

  // ----- a rejected pairing -----------------------------------------------------------------

  /** The desktop of the JOINED pairing k rejects it. */
  predicate Rejects(w: World, ev: Event, k: Id) {
    && Handled(w, ev) && ev.frame.body.PairReject? && ev.frame.body.pairId == k
    && w.st.HasRole(ev.c, Desktop) && k in w.st.pairings.rows
    && w.st.pairings.rows[k].desktopConnId == ev.c && w.st.pairings.rows[k].state == JOINED
  }

  lemma RejectStep(crypto: Crypto, w: World, ev: Event, k: Id)
    requires WorldInv(w) && Enabled(w, ev) && Rejects(w, ev, k)
    ensures var o := React(crypto, w, ev);
      && w.st.pairings.rows[k].phoneConnId.Some?
      && o.out == RejectedDeliveries(w.st.pairings.rows[k], k, ev.frame.id)
      && k in o.st.pairings.rows && o.st.pairings.rows[k] == w.st.pairings.rows[k].(state := REJECTED)
  {
    hide Inv, DecidePairing;
    TouchKeepsInv(w.st, ev.c, ev.now);
    RejectOutcome(Touch(w.st, ev.c, ev.now), ev.c, ev.frame, k);
  }

  /**
   * A rejection is final: both participants are told when it happens, the record is REJECTED ever after, and neither
   * this event nor any later one announces the pairing as accepted.
   */
  lemma RejectedForGood(b: Behavior, m: nat, n: nat, k: Id)
    requires b.Valid() && m < n <= |b.events| && Rejects(b.worlds[m], b.events[m], k)
    ensures b.worlds[m].st.pairings.rows[k].phoneConnId.Some?
    ensures b.Sent(m) == RejectedDeliveries(b.worlds[m].st.pairings.rows[k], k, b.events[m].frame.id)
    ensures k in b.worlds[n].st.pairings.rows
    ensures b.worlds[n].st.pairings.rows[k] == b.worlds[m].st.pairings.rows[k].(state := REJECTED)
    ensures !Announces(b, m, k) && (n < |b.events| ==> !Announces(b, n, k))
  {
    hide React, Step;
    ReachableInv(b, m);
    assert b.StepAt(m);
    RejectStep(b.setup.crypto, b.worlds[m], b.events[m], k);
    assert b.worlds[m + 1].st == React(b.setup.crypto, b.worlds[m], b.events[m]).st by { StepState(b.setup.crypto, b.worlds[m], b.events[m]); }
    PairingLifecycle(b, m + 1, n, k);
    if Announces(b, m, k) {
      OnlyAcceptAnnounces(b, m, k);
    }
    if n < |b.events| && Announces(b, n, k) {
      OnlyAcceptAnnounces(b, n, k);
    }
  }

  lemma StepState(crypto: Crypto, w: World, ev: Event)
    requires Enabled(w, ev)
    ensures Step(crypto, w, ev).st == React(crypto, w, ev).st
  {
    hide React, NextTasks;
  }

  // ----- when a connection was last heard ---------------------------------------------------

  /** The time at which the connection opened, or of its latest frame other than hello and proof. */
  ghost function LastHeard(b: Behavior, n: nat, c: Id): Option<int>
    requires b.Valid() && n <= |b.events|
  {
    if n == 0 then None
    else
      match b.events[n - 1]
      case Open(x, now) => if x == c then Some(now) else LastHeard(b, n - 1, c)
      case Recv(x, frame, now, _, _) =>
        if x == c && b.worlds[n - 1].st.Bound(c) && !frame.body.Hello? && !frame.body.AuthProof? then Some(now)
        else LastHeard(b, n - 1, c)
      case _ => LastHeard(b, n - 1, c)
  }

  lemma BoundKeepsConns(st: State, c: Id, frame: Frame, now: int, pairId: Id)
    ensures DispatchBound(st, c, frame, now, pairId).st.conns == st.conns
  {
    hide OnPairCreate, OnPairJoin, DecidePairing, OnSessionRequest, OnSessionAccepted, OnSessionRejected, OnSessionClose;
    if PairBody(frame.body) {
      PairFrameKeepsTrust(st, c, frame, now, pairId);
    } else if SessionBody(frame.body) {
      SessionFrameKeepsTrust(st, c, frame, now, pairId);
    } else {
      OtherFramesChangeNothing(st, c, frame, now, pairId);
    }
  }

  lemma HeardStep(crypto: Crypto, w: World, ev: Event, c: Id)
    requires Enabled(w, ev) && c in Step(crypto, w, ev).st.conns
    ensures var seen := Step(crypto, w, ev).st.conns[c].lastSeenMs;
      match ev
      case Open(x, now) => if x == c then seen == now else c in w.st.conns && seen == w.st.conns[c].lastSeenMs
      case Recv(x, frame, now, _, _) =>
        && c in w.st.conns
        && seen == if x == c && w.st.Bound(c) && !frame.body.Hello? && !frame.body.AuthProof? then now else w.st.conns[c].lastSeenMs
      case _ => c in w.st.conns && seen == w.st.conns[c].lastSeenMs
  {
    hide DispatchBound, OnConnClosed, ResumeFingerprint, ResumeVerify, SignatureOk, NextTasks;
    match ev
    case Recv(x, frame, now, pairId, nonce) => BoundKeepsConns(Touch(w.st, x, now), x, frame, now, pairId);
    case Closed(x) => ConnClosedTrust(w.st, x);
    case FingerprintDone(i) =>
      ResumeKeepsTables(w.st, w.tasks[i].task, crypto.fingerprintOf(w.tasks[i].task.proof.spki), false);
    case VerifyDone(i) => ResumeKeepsTables(w.st, w.tasks[i].task, "", SignatureOk(crypto, w.tasks[i].task));
    case _ =>
  }

  /** The last-seen time that the sweep goes by is that of the connection's latest frame, or of its opening. */
  lemma {:induction false} LastSeenExactly(b: Behavior, n: nat, c: Id)
    requires b.Valid() && n <= |b.events| && c in b.worlds[n].st.conns
    ensures LastHeard(b, n, c) == Some(b.worlds[n].st.conns[c].lastSeenMs)
  {
    hide Step;
    if n == 0 {
    } else {
      assert b.StepAt(n - 1);
      HeardStep(b.setup.crypto, b.worlds[n - 1], b.events[n - 1], c);
      if c in b.worlds[n - 1].st.conns {
        LastSeenExactly(b, n - 1, c);
      }
    }
  }
}
