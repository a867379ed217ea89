/** What each single handler call does to pairings, devices and the sockets. */
module RouterSteps {
  import opened Basics
  import opened OrderedMap
  import opened SignalingTypes
  import opened RouterSpec
  import opened RouterInvariant

  // ----- pairing lifecycle ------------------------------------------------------

  /** One legal move of a pairing: CREATED to JOINED to CONSUMED or REJECTED, an open state to EXPIRED or CANCELLED. */
  predicate Moves(a: PairingState, b: PairingState) {
    match a
    case CREATED => b == JOINED || b == EXPIRED || b == CANCELLED
    case JOINED => b == JOINED || b == CONSUMED || b == REJECTED || b == EXPIRED || b == CANCELLED
    case _ => false
  }

  /** What any one step may do to a pairing record. */
  predicate PairingStep(p: Pairing, q: Pairing) {
    || q == p
    || (&& Moves(p.state, q.state)
        && q.DesktopIdentity() == p.DesktopIdentity()
        && q.desktopConnId == p.desktopConnId
        && q.createdAtMs == p.createdAtMs && q.expiresAtMs == p.expiresAtMs
        && (q.state != JOINED ==> q == p.(state := q.state)))
  }

  ghost predicate PairingsStep(m: map<Id, Pairing>, m': map<Id, Pairing>) {
    forall k :: k in m ==> k in m' && PairingStep(m[k], m'[k])
  }

  lemma SupersedeIsStep(m: OMap<Id, Pairing>, c: Id)
    ensures PairingsStep(m.rows, Supersede(m, c).rows)
    ensures Supersede(m, c).rows.Keys == m.rows.Keys
  {
  }

  lemma PairCreateIsStep(st: State, c: Id, frame: Frame, now: int, pairId: Id)
    requires frame.body.PairCreate? && pairId !in st.pairings.rows
    ensures PairingsStep(st.pairings.rows, OnPairCreate(st, c, frame, now, pairId).st.pairings.rows)
  {
    SupersedeIsStep(st.pairings, c);
  }

  lemma SameIsPairingStep(rows: map<Id, Pairing>)
    ensures PairingsStep(rows, rows)
  {
  }

  lemma JoinKnownIsStep(st: State, c: Id, frame: Frame, now: int)
    requires frame.body.PairJoin? && frame.body.pairId in st.pairings.rows
    ensures PairingsStep(st.pairings.rows, JoinKnown(st, c, frame, now).st.pairings.rows)
  {
  }

  lemma PairJoinIsStep(st: State, c: Id, frame: Frame, now: int)
    requires frame.body.PairJoin?
    ensures PairingsStep(st.pairings.rows, OnPairJoin(st, c, frame, now).st.pairings.rows)
  {
    hide JoinKnown, PairingsStep;
    SameIsPairingStep(st.pairings.rows);
    if frame.body.pairId in st.pairings.rows {
      JoinKnownIsStep(st, c, frame, now);
    }
  }

  lemma DecideIsStep(st: State, c: Id, frame: Frame, k: Id, accept: bool)
    ensures PairingsStep(st.pairings.rows, DecidePairing(st, c, frame, k, accept).st.pairings.rows)
  {
  }

  lemma PairFrameIsPairingStep(st: State, c: Id, frame: Frame, now: int, pairId: Id)
    requires PairBody(frame.body) && pairId !in st.pairings.rows
    ensures PairingsStep(st.pairings.rows, DispatchBound(st, c, frame, now, pairId).st.pairings.rows)
  {
    match frame.body
    case PairCreate(_, _, _, _) => PairCreateIsStep(st, c, frame, now, pairId);
    case PairJoin(_, _, _, _, _, _) => PairJoinIsStep(st, c, frame, now);
    case PairAccept(k) => DecideIsStep(st, c, frame, k, true);
    case PairReject(k, _) => DecideIsStep(st, c, frame, k, false);
  }

  lemma SessionFrameKeepsPairings(st: State, c: Id, frame: Frame, now: int, pairId: Id)
    requires SessionBody(frame.body)
    ensures DispatchBound(st, c, frame, now, pairId).st.pairings == st.pairings
  {
  }

  lemma DispatchBoundIsPairingStep(st: State, c: Id, frame: Frame, now: int, pairId: Id)
    requires pairId !in st.pairings.rows
    ensures PairingsStep(st.pairings.rows, DispatchBound(st, c, frame, now, pairId).st.pairings.rows)
  {
    if PairBody(frame.body) {
      PairFrameIsPairingStep(st, c, frame, now, pairId);
    } else if SessionBody(frame.body) {
      SessionFrameKeepsPairings(st, c, frame, now, pairId);
    } else {
      OtherFramesChangeNothing(st, c, frame, now, pairId);
    }
  }

  lemma DispatchIsPairingStep(st: State, c: Id, frame: Frame, now: int, pairId: Id, nonce: string)
    requires pairId !in st.pairings.rows
    ensures PairingsStep(st.pairings.rows, Dispatch(st, c, frame, now, pairId, nonce).st.pairings.rows)
  {
    if !frame.body.Hello? && !frame.body.AuthProof? {
      DispatchBoundIsPairingStep(Touch(st, c, now), c, frame, now, pairId);
    }
  }

  lemma ConnClosedIsPairingStep(st: State, c: Id)
    ensures PairingsStep(st.pairings.rows, OnConnClosed(st, c).st.pairings.rows)
    ensures OnConnClosed(st, c).st.pairings.rows.Keys == st.pairings.rows.Keys
  {
  }

  lemma ConnClosedOnlyCancels(st: State, c: Id, k: Id)
    requires k in OnConnClosed(st, c).st.pairings.rows
    ensures k in st.pairings.rows
    ensures var q := OnConnClosed(st, c).st.pairings.rows[k]; q == st.pairings.rows[k].(state := q.state)
  {
  }

  lemma ConnClosedTrust(st: State, c: Id)
    ensures var st' := OnConnClosed(st, c).st;
            && st'.devices == st.devices && st'.mode == st.mode && st'.conns == st.conns - {c}
            && st'.authenticated == st.authenticated - {c} && st'.pendingAuth == st.pendingAuth - {c}
  {
  }

  /** Authentication steps leave connections, requests, pairings and sessions alone. */
  predicate SameTables(st: State, st': State) {
    && st'.conns == st.conns && st'.byDevice == st.byDevice && st'.mode == st.mode
    && st'.requests == st.requests && st'.pairings == st.pairings && st'.sessions == st.sessions
  }

  lemma ResumeKeepsTables(st: State, task: AuthTask, fingerprint: string, ok: bool)
    ensures SameTables(st, ResumeFingerprint(st, task, fingerprint).st)
    ensures SameTables(st, ResumeVerify(st, task, ok).st)
    ensures NoReceipts(ResumeFingerprint(st, task, fingerprint).out)
    ensures NoReceipts(ResumeVerify(st, task, ok).out)
  {
  }

  // ----- receipts: frames that announce a pairing ------------------------------------

  predicate Receipt(b: Body) { b.PairAccepted? || b.PairCreated? }

  ghost predicate NoReceipts(out: seq<Delivery>) {
    forall i :: 0 <= i < |out| ==> !Receipt(out[i].frame.body)
  }

  lemma {:induction false} ForwardedFrames(keys: seq<string>, rows: map<string, Request>, handles: set<Id>, frame: Frame)
    ensures forall i :: 0 <= i < |ForwardToPhones(keys, rows, handles, frame)|
              ==> ForwardToPhones(keys, rows, handles, frame)[i].frame == frame
  {
    if keys == [] {
    } else {
      ForwardedFrames(keys[..|keys| - 1], rows, handles, frame);
    }
  }

  lemma {:induction false} PairingNoticesPlain(keys: seq<Id>, rows: map<Id, Pairing>, handles: set<Id>, c: Id)
    ensures NoReceipts(PairingNotices(keys, rows, handles, c))
  {
    if keys == [] {
    } else {
      PairingNoticesPlain(keys[..|keys| - 1], rows, handles, c);
    }
  }

  lemma {:induction false} SessionNoticesPlain(keys: seq<Id>, rows: map<Id, Session>, handles: set<Id>, c: Id)
    ensures NoReceipts(SessionNotices(keys, rows, handles, c))
  {
    if keys == [] {
    } else {
      SessionNoticesPlain(keys[..|keys| - 1], rows, handles, c);
    }
  }

  lemma ConnClosedNoReceipts(st: State, c: Id)
    ensures NoReceipts(OnConnClosed(st, c).out)
  {
    if c in st.conns {
      var ps, ss := OpenPairingsOf(st.pairings, c), OpenSessionsOf(st.sessions, c);
      PairingNoticesPlain(Select(st.pairings.order, ps), st.pairings.rows, st.handles - {c}, c);
      SessionNoticesPlain(Select(st.sessions.order, ss), st.sessions.rows, st.handles - {c}, c);
    }
  }

  lemma RejectedNoReceipts(st: State, c: Id, frame: Frame)
    requires frame.body.SessionRejected?
    ensures NoReceipts(OnSessionRejected(st, c, frame).out)
  {
    if st.HasRole(c, Desktop) {
      var mine := RequestsFor(st.requests, st.conns[c].deviceId.value);
      ForwardedFrames(Select(st.requests.order, mine), st.requests.rows, st.handles, frame);
    }
  }

  lemma PairFrameNoReceipts(st: State, c: Id, frame: Frame, now: int, pairId: Id)
    requires frame.body.PairJoin? || frame.body.PairReject?
    ensures NoReceipts(DispatchBound(st, c, frame, now, pairId).out)
  {
  }

  lemma SessionFrameNoReceipts(st: State, c: Id, frame: Frame, now: int, pairId: Id)
    requires SessionBody(frame.body)
    ensures NoReceipts(DispatchBound(st, c, frame, now, pairId).out)
  {
    if frame.body.SessionRejected? {
      RejectedNoReceipts(st, c, frame);
    }
  }

  lemma RelayNoReceipts(st: State, c: Id, frame: Frame, now: int, pairId: Id)
    requires !PairBody(frame.body) && !SessionBody(frame.body)
    ensures NoReceipts(DispatchBound(st, c, frame, now, pairId).out)
  {
  }

  /** Only `pair.create` and `pair.accept` are ever answered with a receipt. */
  lemma DispatchNoReceipts(st: State, c: Id, frame: Frame, now: int, pairId: Id, nonce: string)
    requires !frame.body.PairCreate? && !frame.body.PairAccept?
    ensures NoReceipts(Dispatch(st, c, frame, now, pairId, nonce).out)
  {
    var st1 := Touch(st, c, now);
    if PairBody(frame.body) {
      PairFrameNoReceipts(st1, c, frame, now, pairId);
    } else if SessionBody(frame.body) {
      SessionFrameNoReceipts(st1, c, frame, now, pairId);
    } else {
      RelayNoReceipts(st1, c, frame, now, pairId);
    }
  }

  // ----- pairing decisions -------------------------------------------------------------

  /** The two `pair.accepted` deliveries of an acceptance. */
  function AcceptedDeliveries(p: Pairing, replyTo: Option<Id>): seq<Delivery>
    requires p.HasPhone()
  {
    var body := PairAccepted(p.pairId, p.DesktopIdentity(), p.PhoneIdentity());
    [Delivery(p.desktopConnId, Reply(replyTo, body)), Delivery(p.phoneConnId.value, Plain(body))]
  }

  /**
   * An acceptance goes through exactly when the deciding connection is the pairing's desktop and the
   * pairing is JOINED; both participants then get the recorded key material, and the branch for a
   * consumed pairing without a phone is never taken.
   */
  lemma AcceptOutcome(st: State, c: Id, frame: Frame, k: Id)
    requires Inv(st)
    ensures var o := DecidePairing(st, c, frame, k, true);
            var goes := st.HasRole(c, Desktop) && k in st.pairings.rows
                        && st.pairings.rows[k].desktopConnId == c && st.pairings.rows[k].state == JOINED;
            && (goes ==> && st.pairings.rows[k].HasPhone()
                         && o.out == AcceptedDeliveries(st.pairings.rows[k], frame.id)
                         && o.st == st.(pairings := SetPairingState(st.pairings, k, CONSUMED)))
            && (!goes ==> NoReceipts(o.out) && o.st == st)
  {
    if k in st.pairings.rows {
      assert PairingOk(st, k, st.pairings.rows[k]);
    }
  }

  // ----- relaying between the participants of a session ---------------------------------

  /** The session, its two live participants, and where each one's signals go. */
  ghost predicate LiveSession(st: State, k: Id) {
    && k in st.sessions.rows
    && st.sessions.rows[k].Open()
    && st.BoundAs(st.sessions.rows[k].desktopConnId, Desktop, st.sessions.rows[k].desktopDeviceId)
    && st.BoundAs(st.sessions.rows[k].phoneConnId, Phone, st.sessions.rows[k].phoneDeviceId)
    && st.sessions.rows[k].desktopConnId != st.sessions.rows[k].phoneConnId
  }

  lemma OpenSessionIsLive(st: State, k: Id)
    requires Inv(st) && k in st.sessions.rows && st.sessions.rows[k].Open()
    ensures LiveSession(st, k)
  {
    assert SessionOk(st, k, st.sessions.rows[k]);
  }

  /**
   * An offer is relayed exactly when its sender is the open session's desktop connection; it then goes,
   * unchanged, to one connection, the session's live phone. Anyone else gets at most an error back.
   */
  lemma OfferReachesThePhone(st: State, c: Id, frame: Frame, now: int, pairId: Id, nonce: string)
    requires Inv(st) && frame.body.SignalOffer?
    ensures var o, k := Dispatch(st, c, frame, now, pairId, nonce), frame.body.sessionId;
            var relayed := k in st.sessions.rows && st.sessions.rows[k].Open() && st.sessions.rows[k].desktopConnId == c;
            && (relayed ==> LiveSession(st, k) && o.out == [Delivery(st.sessions.rows[k].phoneConnId, frame)] && o.result == Ok)
            && (!relayed ==> forall d :: d in o.out ==> d.to == c && d.frame.body.Error?)
  {
    var k := frame.body.sessionId;
    if k in st.sessions.rows && st.sessions.rows[k].Open() {
      OpenSessionIsLive(st, k);
    }
  }

  /** An answer is relayed exactly when its sender is the open session's phone connection, and then to the live desktop. */
  lemma AnswerReachesTheDesktop(st: State, c: Id, frame: Frame, now: int, pairId: Id, nonce: string)
    requires Inv(st) && frame.body.SignalAnswer?
    ensures var o, k := Dispatch(st, c, frame, now, pairId, nonce), frame.body.sessionId;
            var relayed := k in st.sessions.rows && st.sessions.rows[k].Open() && st.sessions.rows[k].phoneConnId == c;
            && (relayed ==> LiveSession(st, k) && o.out == [Delivery(st.sessions.rows[k].desktopConnId, frame)] && o.result == Ok)
            && (!relayed ==> forall d :: d in o.out ==> d.to == c && d.frame.body.Error?)
  {
    var k := frame.body.sessionId;
    if k in st.sessions.rows && st.sessions.rows[k].Open() {
      OpenSessionIsLive(st, k);
    }
  }

  /** ICE goes from either participant of an open session to the other, never back to its sender. */
  lemma IceReachesThePeer(st: State, c: Id, frame: Frame, now: int, pairId: Id, nonce: string)
    requires Inv(st) && frame.body.SignalIce?
    ensures var o, k := Dispatch(st, c, frame, now, pairId, nonce), frame.body.sessionId;
            var relayed := k in st.sessions.rows && st.sessions.rows[k].Open() && st.sessions.rows[k].Mentions(c);
            && (relayed ==>
                  && LiveSession(st, k)
                  && var peer := if c == st.sessions.rows[k].desktopConnId then st.sessions.rows[k].phoneConnId
                                 else st.sessions.rows[k].desktopConnId;
                     peer != c && o.out == [Delivery(peer, frame)] && o.result == Ok)
            && (!relayed ==> forall d :: d in o.out ==> d.to == c && d.frame.body.Error?)
  {
    var k := frame.body.sessionId;
    if k in st.sessions.rows && st.sessions.rows[k].Open() {
      OpenSessionIsLive(st, k);
    }
  }

  // ----- after a close -----------------------------------------------------------------

  /** After a connection closes nothing live mentions it, and the records of other connections are untouched. */
  lemma CloseForgets(st: State, c: Id)
    requires Inv(st) && c in st.conns
    ensures var st' := OnConnClosed(st, c).st;
            && c !in st'.conns && c !in st'.handles && c !in st'.authenticated && c !in st'.pendingAuth
            && (forall d :: d in st'.byDevice ==> st'.byDevice[d] != c)
            && (forall k :: k in st'.requests.rows ==> st'.requests.rows[k].phoneConnId != c)
            && (forall k :: k in st'.pairings.rows && st'.pairings.rows[k].Mentions(c) ==> !st'.pairings.rows[k].Open())
            && (forall k :: k in st'.sessions.rows && st'.sessions.rows[k].Mentions(c) ==> !st'.sessions.rows[k].Open())
    ensures var st' := OnConnClosed(st, c).st;
            && st'.conns == st.conns - {c}
            && (forall k :: k in st.pairings.rows && !st.pairings.rows[k].Mentions(c)
                  ==> k in st'.pairings.rows && st'.pairings.rows[k] == st.pairings.rows[k])
            && (forall k :: k in st.sessions.rows && !st.sessions.rows[k].Mentions(c)
                  ==> k in st'.sessions.rows && st'.sessions.rows[k] == st.sessions.rows[k])
            && (forall k :: k in st.requests.rows && st.requests.rows[k].phoneConnId != c
                  ==> k in st'.requests.rows && st'.requests.rows[k] == st.requests.rows[k])
  {
    ConnClosedKeepsConns(st, c);
  }

  /** The heartbeat sweep as the server runs it: unregister first, then report the close. */
  function SweepEvict(st: State, c: Id): State {
    OnConnClosed(Unregister(st, c), c).st
  }

  /** Whether some open pairing, open session or pending request depends on the connection. */
  ghost predicate Entangled(st: State, c: Id) {
    || OpenPairingsOf(st.pairings, c) != {}
    || OpenSessionsOf(st.sessions, c) != {}
    || RequestsFrom(st.requests, c) != {}
  }

  /**
   * Evicting a silent connection through the sweep skips the unwinding, so it keeps the invariant
   * exactly when nothing depended on the connection.
   */
  lemma SweepKeepsInvExactly(st: State, c: Id)
    requires Inv(st) && c in st.conns
    ensures Inv(SweepEvict(st, c)) <==> !Entangled(st, c)
  {
    var st' := SweepEvict(st, c);
    assert st'.conns == st.conns - {c};
    if Entangled(st, c) {
      if k :| k in OpenPairingsOf(st.pairings, c) {
        assert !PairingOk(st', k, st'.pairings.rows[k]);
      } else if k :| k in OpenSessionsOf(st.sessions, c) {
        assert !SessionOk(st', k, st'.sessions.rows[k]);
      } else if k :| k in RequestsFrom(st.requests, c) {
        assert !RequestOk(st', k, st'.requests.rows[k]);
      }
    } else {
      SweepOfIdle(st, c);
    }
  }

  lemma SweepOfIdle(st: State, c: Id)
    requires Inv(st) && c in st.conns && !Entangled(st, c)
    ensures Inv(SweepEvict(st, c))
  {
    var st' := SweepEvict(st, c);
    UnregisterKeepsIndex(st, c);
    assert Keeps(st, st', {c});
    forall k | k in st.pairings.rows && st.pairings.rows[k].Open() ensures !st.pairings.rows[k].Mentions(c) {
      assert k !in OpenPairingsOf(st.pairings, c);
    }
    forall k | k in st.sessions.rows && st.sessions.rows[k].Open() ensures !st.sessions.rows[k].Mentions(c) {
      assert k !in OpenSessionsOf(st.sessions, c);
    }
    forall k | k in st.requests.rows ensures st.requests.rows[k].phoneConnId != c {
      assert k !in RequestsFrom(st.requests, c);
    }
    PairingsFrame(st, st', {c});
    SessionsFrame(st, st', {c});
    RequestsFrame(st, st', {c});
  }

  // ----- opening a session -----------------------------------------------------------------

  /**
   * What an acceptance needs before the call: a desktop connection that names its own device, a pending request of
   * that phone to it, and neither device in an open session. Authentication of the desktop is not among it.
   */
  predicate AcceptGuard(st: State, c: Id, b: Body)
    requires b.SessionAccepted?
  {
    && st.HasRole(c, Desktop)
    && b.desktopDeviceId == st.conns[c].deviceId.value
    && RequestKey(b.desktopDeviceId, b.phoneDeviceId) in st.requests.rows
    && OpenSessionsUsing(st.sessions, b.desktopDeviceId) == {}
    && OpenSessionsUsing(st.sessions, b.phoneDeviceId) == {}
  }

  /** The session that an acceptance records. */
  function AcceptedSession(st: State, c: Id, b: Body, now: int): Session
    requires b.SessionAccepted? && AcceptGuard(st, c, b)
  {
    Session(b.sessionId, b.desktopDeviceId, b.phoneDeviceId, c,
            st.requests.rows[RequestKey(b.desktopDeviceId, b.phoneDeviceId)].phoneConnId, SIGNALING, now)
  }

  /** An acceptance stores its session exactly when the guard holds, and changes no other. */
  lemma AcceptStoresExactly(st: State, c: Id, frame: Frame, now: int)
    requires frame.body.SessionAccepted?
    ensures OnSessionAccepted(st, c, frame, now).st.sessions ==
      if AcceptGuard(st, c, frame.body) then st.sessions.Put(frame.body.sessionId, AcceptedSession(st, c, frame.body, now))
      else st.sessions
  {
    hide RequestKey, OpenSessionsUsing;
  }

  /**
   * Session ids come from the desktop. An acceptance destroys the open session k if and only if its guard holds and
   * the id it names is k; what replaces it is then between two other devices.
   */
  lemma AcceptOverwritesExactly(st: State, c: Id, frame: Frame, now: int, k: Id)
    requires Inv(st) && frame.body.SessionAccepted?
    requires k in st.sessions.rows && st.sessions.rows[k].Open()
    ensures var after := OnSessionAccepted(st, c, frame, now).st.sessions.rows;
      && k in after
      && (after[k] != st.sessions.rows[k] <==> AcceptGuard(st, c, frame.body) && frame.body.sessionId == k)
      && (after[k] != st.sessions.rows[k] ==> !Share(st.sessions.rows[k], after[k]))
  {
    hide RequestKey;
    AcceptStoresExactly(st, c, frame, now);
    if AcceptGuard(st, c, frame.body) {
      assert k !in OpenSessionsUsing(st.sessions, frame.body.desktopDeviceId);
      assert k !in OpenSessionsUsing(st.sessions, frame.body.phoneDeviceId);
    }
  }

  /**
   * In any mode, required included, a session opens for an unauthenticated desktop exactly when the guard of the
   * acceptance holds and the connection is not authenticated.
   */
  lemma UnprovenDesktopOpensExactly(st: State, c: Id, frame: Frame, now: int)
    requires Inv(st) && frame.body.SessionAccepted?
    ensures var st' := OnSessionAccepted(st, c, frame, now).st;
      var k := frame.body.sessionId;
      (k in st'.sessions.rows && st'.sessions != st.sessions && st'.sessions.rows[k].Open()
       && st'.sessions.rows[k].desktopConnId !in st'.authenticated)
      <==> AcceptGuard(st, c, frame.body) && c !in st.authenticated
  {
    hide RequestKey;
    AcceptStoresExactly(st, c, frame, now);
    AcceptedKeepsTrust(st, c, frame, now);
    var k := frame.body.sessionId;
    if AcceptGuard(st, c, frame.body) && k in st.sessions.rows && st.sessions.rows[k].Open() {
      AcceptOverwritesExactly(st, c, frame, now, k);
    }
  }

  // ----- devices --------------------------------------------------------------------------

  /** What any step may do to an enrolled device: record its first revocation, nothing else. */
  ghost predicate DevicesStep(m: map<Id, Device>, m': map<Id, Device>) {
    forall d :: d in m ==>
      && d in m' && m'[d].spki == m[d].spki && m'[d].fingerprint == m[d].fingerprint
      && (m[d].revokedAtMs.Some? ==> m'[d] == m[d])
  }

  /** The parts of the state that only authentication steps change. */
  predicate SameTrust(st: State, st': State) {
    st'.devices == st.devices && st'.authenticated == st.authenticated && st'.mode == st.mode
  }

  /** Bindings, pending challenges and trust stay as they were. */
  predicate SameConnections(st: State, st': State) {
    SameTrust(st, st') && st'.conns == st.conns && st'.pendingAuth == st.pendingAuth
  }

  lemma PairFrameKeepsTrust(st: State, c: Id, frame: Frame, now: int, pairId: Id)
    requires PairBody(frame.body)
    ensures SameConnections(st, DispatchBound(st, c, frame, now, pairId).st)
  {
    hide OnPairCreate, OnPairJoin, DecidePairing;
    match frame.body
    case PairCreate(_, _, _, _) => CreateKeepsTrust(st, c, frame, now, pairId);
    case PairJoin(_, _, _, _, _, _) => JoinKeepsTrust(st, c, frame, now);
    case PairAccept(k) => DecideKeepsTrust(st, c, frame, k, true);
    case PairReject(k, _) => DecideKeepsTrust(st, c, frame, k, false);
  }

  lemma CreateKeepsTrust(st: State, c: Id, frame: Frame, now: int, pairId: Id)
    requires frame.body.PairCreate?
    ensures SameConnections(st, OnPairCreate(st, c, frame, now, pairId).st)
  {
  }

  lemma JoinKeepsTrust(st: State, c: Id, frame: Frame, now: int)
    requires frame.body.PairJoin?
    ensures SameConnections(st, OnPairJoin(st, c, frame, now).st)
  {
  }

  lemma DecideKeepsTrust(st: State, c: Id, frame: Frame, k: Id, accept: bool)
    ensures SameConnections(st, DecidePairing(st, c, frame, k, accept).st)
  {
  }

  lemma SessionFrameKeepsTrust(st: State, c: Id, frame: Frame, now: int, pairId: Id)
    requires SessionBody(frame.body)
    ensures SameConnections(st, DispatchBound(st, c, frame, now, pairId).st)
  {
    hide OnSessionRequest, OnSessionAccepted, OnSessionRejected, OnSessionClose;
    match frame.body
    case SessionRequest(_, _) => RequestKeepsTrust(st, c, frame);
    case SessionAccepted(_, _, _) => AcceptedKeepsTrust(st, c, frame, now);
    case SessionRejected(_) => RejectedKeepsTrust(st, c, frame);
    case SessionClose(_, _) => SessionCloseKeepsTrust(st, c, frame);
  }

  lemma RequestKeepsTrust(st: State, c: Id, frame: Frame)
    requires frame.body.SessionRequest?
    ensures SameConnections(st, OnSessionRequest(st, c, frame).st)
  {
  }

  lemma AcceptedKeepsTrust(st: State, c: Id, frame: Frame, now: int)
    requires frame.body.SessionAccepted?
    ensures SameConnections(st, OnSessionAccepted(st, c, frame, now).st)
  {
  }

  lemma RejectedKeepsTrust(st: State, c: Id, frame: Frame)
    ensures SameConnections(st, OnSessionRejected(st, c, frame).st)
  {
  }

  lemma SessionCloseKeepsTrust(st: State, c: Id, frame: Frame)
    requires frame.body.SessionClose?
    ensures SameConnections(st, OnSessionClose(st, c, frame).st)
  {
  }

  /** No frame touches the device registry or the set of authenticated connections: only a completed proof can. */
  lemma DispatchKeepsTrust(st: State, c: Id, frame: Frame, now: int, pairId: Id, nonce: string)
    ensures SameTrust(st, Dispatch(st, c, frame, now, pairId, nonce).st)
    ensures !frame.body.Hello? ==> Dispatch(st, c, frame, now, pairId, nonce).st.pendingAuth == st.pendingAuth
    ensures var st' := Dispatch(st, c, frame, now, pairId, nonce).st;
            && st'.conns.Keys == st.conns.Keys
            && (!frame.body.Hello? ==> forall x :: x in st.conns ==>
                  st'.conns[x].role == st.conns[x].role && st'.conns[x].deviceId == st.conns[x].deviceId)
  {
    hide DispatchBound;
    var st1 := Touch(st, c, now);
    if frame.body.Hello? || frame.body.AuthProof? {
    } else if PairBody(frame.body) {
      PairFrameKeepsTrust(st1, c, frame, now, pairId);
    } else if SessionBody(frame.body) {
      SessionFrameKeepsTrust(st1, c, frame, now, pairId);
    } else {
      OtherFramesChangeNothing(st1, c, frame, now, pairId);
    }
  }

  /** A completed proof enrols at most the proving device, and in required mode none. */
  lemma VerifyDevices(st: State, task: AuthTask, ok: bool)
    ensures var st' := ResumeVerify(st, task, ok).st;
            && DevicesStep(st.devices, st'.devices)
            && (st.mode == Required ==> st'.devices == st.devices)
            && (task.connId in st'.authenticated && task.connId !in st.authenticated ==>
                  && ok
                  && task.deviceId in st'.devices
                  && st'.devices[task.deviceId].spki == task.proof.spki
                  && st'.devices[task.deviceId].fingerprint == task.proof.fingerprint)
  {
  }
}
